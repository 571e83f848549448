/** The text of conditions character by character, and their parameters, as a reader of the source would write them down. */
module SpelledConditions {
  import opened Sequences
  import opened SqlText
  import opened Placeholders
  import opened ConditionCompiler
  import opened BoundPlaceholders

  // ---------------------------------------------------------------------------------------------
  // Strings
  // ---------------------------------------------------------------------------------------------

  function Listed(parts: seq<string>, sep: string): string {
    if parts == [] then "" else if |parts| == 1 then parts[0] else parts[0] + sep + Listed(parts[1..], sep)
  }

  /** The same mark so many times. */
  function Repeated(mark: string, n: nat): string {
    if n == 0 then "" else if n == 1 then mark else mark + ", " + Repeated(mark, n - 1)
  }

  function AllSpelled(parts: seq<seq<SqlText.Token>>): seq<string> {
    if parts == [] then [] else [SpellAll(parts[0])] + AllSpelled(parts[1..])
  }

  lemma {:induction false} SpellSeparated(parts: seq<seq<SqlText.Token>>, sep: SqlText.Token)
    ensures SpellAll(Separated(parts, sep)) == Listed(AllSpelled(parts), Spell(sep))
  {
    if |parts| == 1 {
      assert AllSpelled(parts) == [SpellAll(parts[0])];
    } else if |parts| > 1 {
      SpellSeparated(parts[1..], sep);
      SpellOne(sep);
      SpellAppend(parts[0], [sep]);
      SpellAppend(parts[0] + [sep], Separated(parts[1..], sep));
      assert AllSpelled(parts)[1..] == AllSpelled(parts[1..]);
    }
  }

  lemma SpellTwo(a: SqlText.Token, b: SqlText.Token)
    ensures SpellAll([a, b]) == Spell(a) + Spell(b)
  {
    assert [a, b] == [a] + [b];
    SpellAppend([a], [b]);
    SpellOne(a);
    SpellOne(b);
  }

  lemma SpellThree(a: SqlText.Token, b: SqlText.Token, c: SqlText.Token)
    ensures SpellAll([a, b, c]) == Spell(a) + Spell(b) + Spell(c)
  {
    assert [a, b, c] == [a, b] + [c];
    SpellAppend([a, b], [c]);
    SpellTwo(a, b);
    SpellOne(c);
  }

  lemma SpellAround(before: seq<SqlText.Token>, inner: seq<SqlText.Token>, after: seq<SqlText.Token>)
    ensures SpellAll(before + inner + after) == SpellAll(before) + SpellAll(inner) + SpellAll(after)
  {
    SpellAppend(before, inner);
    SpellAppend(before + inner, after);
  }

  lemma SpellInParentheses(inner: seq<SqlText.Token>)
    ensures SpellAll([Open] + inner + [Close]) == "(" + SpellAll(inner) + ")"
  {
    SpellAround([Open], inner, [Close]);
    SpellOne(Open);
    SpellOne(Close);
  }

  // ---------------------------------------------------------------------------------------------
  // Conditions that AND and OR cannot split
  // ---------------------------------------------------------------------------------------------

  function ValueMark(cast: Option<string>): string {
    match cast case None => "?" case Some(t) => "?::" + t
  }

  lemma BoundIsSpelled(v: Value, cast: Option<string>)
    ensures SpellAll(WriteOperand(Bound(v, cast))) == ValueMark(cast)
  {
    if cast.None? {
      SpellOne(Hole(v));
    } else {
      SpellTwo(Hole(v), CastTo(cast.value));
      assert "?" + ("::" + cast.value) == "?::" + cast.value;
    }
  }

  lemma {:induction false} BoundsAreSpelled(vs: seq<Value>, cast: Option<string>)
    ensures SpellAll(WriteOperands(Bounds(vs, cast))) == Repeated(ValueMark(cast), |vs|)
  {
    if vs != [] {
      BoundsGood(vs, cast);
      BoundsGood(vs[1..], cast);
      BoundIsSpelled(vs[0], cast);
      assert Bounds(vs, cast)[1..] == Bounds(vs[1..], cast);
      if |vs| > 1 {
        BoundsAreSpelled(vs[1..], cast);
        SpellOne(Comma);
        SpellAround(WriteOperand(Bounds(vs, cast)[0]), [Comma], WriteOperands(Bounds(vs[1..], cast)));
      }
    }
  }

  lemma CompareIsSpelled(key: string, op: string, right: Operand)
    ensures SpellAll(WritePrim(Compare(key, op, right))) == key + " " + op + " " + SpellAll(WriteOperand(right))
    ensures HolesOf(WritePrim(Compare(key, op, right))) == HolesOf(WriteOperand(right))
  {
    SpellTwo(Word(key), Operator(op));
    SpellAppend([Word(key), Operator(op)], WriteOperand(right));
    HolesAround([Word(key), Operator(op)], WriteOperand(right), []);
    Regroup4(key, " ", op, " ");
    Regroup(" ", op, " ");
  }

  lemma InListIsSpelled(key: string, vs: seq<Value>, cast: Option<string>)
    ensures SpellAll(WritePrim(InList(key, Bounds(vs, cast)))) == key + " IN (" + Repeated(ValueMark(cast), |vs|) + ")"
    ensures HolesOf(WritePrim(InList(key, Bounds(vs, cast)))) == vs
  {
    var items := WriteOperands(Bounds(vs, cast));
    SpellThree(Word(key), InTok(false), Open);
    SpellOne(Close);
    SpellAround([Word(key), InTok(false), Open], items, [Close]);
    BoundsAreSpelled(vs, cast);
    MarksAreOperands(vs, cast);
    HolesAround([Word(key), InTok(false), Open], items, [Close]);
    Regroup(key, " IN ", "(");
    assert " IN " + "(" == " IN (";
  }

  lemma TextIsSpelled(text: string)
    ensures SpellAll(WriteText(text, [])) == text && HolesOf(WriteText(text, [])) == []
  {
    SpellOne(Word(text));
    HolesOne(Word(text));
  }

  lemma ExpressionIsSpelled(text: string, vs: seq<Value>)
    requires Holes(text) == |vs|
    ensures SpellAll(WriteText(text, Singletons(vs))) == text && HolesOf(WriteText(text, Singletons(vs))) == vs
  {
    FragmentIsSpelled(text, vs);
    TextHoles(text, Singletons(vs));
    SingletonsGood(vs);
  }

  lemma {:induction false} NamesAreSpelled(names: seq<string>)
    ensures SpellAll(WriteNames(names)) == Listed(names, ", ") && HolesOf(WriteNames(names)) == []
  {
    NamesHaveNoHoles(names);
    NoHolesOf(WriteNames(names));
    if |names| == 1 {
      SpellOne(Word(names[0]));
    } else if |names| > 1 {
      NamesAreSpelled(names[1..]);
      SpellTwo(Word(names[0]), Comma);
      SpellAppend([Word(names[0]), Comma], WriteNames(names[1..]));
    }
  }

  function TupleStrings(tuples: seq<seq<Value>>): seq<string> {
    if tuples == [] then [] else ["(" + Repeated("?", |tuples[0]|) + ")"] + TupleStrings(tuples[1..])
  }

  lemma {:induction false} QuestionsAreRepeated(n: nat)
    ensures QuestionMarks(n) == Repeated("?", n)
  {
    if n > 1 {
      QuestionsAreRepeated(n - 1);
      assert "?, " == "?" + ", ";
    }
  }

  lemma {:induction false} TuplesAreSpelled(tuples: seq<seq<Value>>)
    ensures AllSpelled(TupleMarks(tuples)) == TupleStrings(tuples)
  {
    if tuples != [] {
      TuplesAreSpelled(tuples[1..]);
      SpellInParentheses(HoleList(tuples[0]));
      SpellHoleList(tuples[0]);
      QuestionsAreRepeated(|tuples[0]|);
      assert TupleMarks(tuples)[1..] == TupleMarks(tuples[1..]);
    }
  }

  lemma MembershipIsSpelled(names: seq<SqlText.Token>, list: seq<SqlText.Token>)
    ensures SpellAll([Open] + names + [Close, InTok(false), Open] + list + [Close]) == "(" + SpellAll(names) + ") IN (" + SpellAll(list) + ")"
  {
    SpellOne(Open);
    SpellOne(Close);
    SpellThree(Close, InTok(false), Open);
    assert ")" + " IN " + "(" == ") IN (";
    SpellAround([Open], names, [Close, InTok(false), Open]);
    SpellAround([Open] + names + [Close, InTok(false), Open], list, [Close]);
  }

  lemma InTuplesIsSpelled(columns: seq<string>, tuples: seq<seq<Value>>)
    ensures SpellAll(WritePrim(InTuples(columns, tuples))) == "(" + Listed(columns, ", ") + ") IN (" + Listed(TupleStrings(tuples), ", ") + ")"
    ensures HolesOf(WritePrim(InTuples(columns, tuples))) == Concat(tuples)
  {
    NamesAreSpelled(columns);
    NamesHaveNoHoles(columns);
    TuplesHoles(tuples);
    TupleMarksAreTuples(tuples);
    TuplesAreSpelled(tuples);
    SpellSeparated(TupleMarks(tuples), Comma);
    HolesAround([Open] + WriteNames(columns) + [Close, InTok(false), Open], WriteTuples(tuples), [Close]);
    MembershipIsSpelled(WriteNames(columns), WriteTuples(tuples));
  }

  // ---------------------------------------------------------------------------------------------
  // Tokens
  // ---------------------------------------------------------------------------------------------

  /** The template of each token. */
  function TokenString(key: string, t: DbToken, casts: bool): string
    decreases t
  {
    match t
    case Plain(_, op) => key + " " + op + " ?"
    case Immediate(text) => key + " = " + text
    case NullToken => key + " IS NULL"
    case NotNullToken => key + " IS NOT NULL"
    case BoolToken(b) => if b then key + " = TRUE" else key + " = FALSE"
    case ArrayToken(vs) => if vs == [] then "1 = 0" else key + " IN (" + Repeated("?", |vs|) + ")"
    case Dynamic(func, _) => key + " = " + func
    case RawToken(text) => key + " = " + text
    case TupleIn(columns, tuples) =>
      if tuples == [] then "1 = 0" else "(" + Listed(columns, ", ") + ") IN (" + Listed(TupleStrings(tuples), ", ") + ")"
    case Cast(_, sqlType, op) => if casts then key + " " + op + " ?::" + sqlType else key + " " + op + " ?"
    case CastArray(vs, sqlType) =>
      if vs == [] then "1 = 0" else if casts then key + " IN (" + Repeated("?::" + sqlType, |vs|) + ")" else key + " IN (" + Repeated("?", |vs|) + ")"
    case Subquery(parents, table, selected, conds, negated) =>
      (if |parents| == 1 then parents[0] else "(" + Listed(parents, ", ") + ")") + (if negated then " NOT IN (" else " IN (") +
      "SELECT " + Listed(selected, ", ") + " FROM " + table + WhereString(SubStrings(conds)) + ")"
    case ExistsRows(table, conds, negated) =>
      (if negated then "NOT EXISTS (" else "EXISTS (") + "SELECT 1 FROM " + table + WhereString(SubStrings(conds)) + ")"
  }

  function WhereString(parts: seq<string>): string {
    if parts == [] then "" else " WHERE " + Listed(parts, " AND ")
  }

  /** Inside a subquery casts are always written. */
  function SubString(c: SubCond): string
    decreases c
  {
    match c.value
    case ParentRef(column) => c.column + " = " + column
    case SubToken(t) => TokenString(c.column, t, true)
    case SubNull => c.column + " IS NULL"
    case SubList(vs) => if vs == [] then "1 = 0" else c.column + " IN (" + Repeated("?", |vs|) + ")"
    case SubScalar(_) => c.column + " = ?"
  }

  function SubStrings(cs: seq<SubCond>): seq<string>
    decreases cs
  {
    if cs == [] then [] else [SubString(cs[0])] + SubStrings(cs[1..])
  }

  function TokenParams(t: DbToken): seq<Value>
    decreases t
  {
    match t
    case Plain(v, _) => [v]
    case ArrayToken(vs) => vs
    case Dynamic(_, values) => values
    case TupleIn(_, tuples) => Concat(tuples)
    case Cast(v, _, _) => [v]
    case CastArray(vs, _) => vs
    case Subquery(_, _, _, conds, _) => SubParams(conds)
    case ExistsRows(_, conds, _) => SubParams(conds)
    case _ => []
  }

  function SubParam(c: SubCond): seq<Value>
    decreases c
  {
    match c.value
    case SubToken(t) => TokenParams(t)
    case SubList(vs) => vs
    case SubScalar(v) => [v]
    case _ => []
  }

  function SubParams(cs: seq<SubCond>): seq<Value>
    decreases cs
  {
    if cs == [] then [] else SubParam(cs[0]) + SubParams(cs[1..])
  }

  /** So written, with these parameters. */
  predicate IsWritten(ts: seq<SqlText.Token>, text: string, params: seq<Value>) {
    SpellAll(ts) == text && HolesOf(ts) == params
  }

  lemma BoundCompare(key: string, op: string, v: Value, cast: Option<string>)
    ensures IsWritten(WritePrim(Compare(key, op, Bound(v, cast))), key + " " + op + " " + ValueMark(cast), [v])
  {
    CompareIsSpelled(key, op, Bound(v, cast));
    BoundIsSpelled(v, cast);
    HolesOne(Hole(v));
    if cast.Some? {
      HolesTwo(Hole(v), CastTo(cast.value));
      HolesOne(CastTo(cast.value));
    }
  }

  lemma TextCompare(key: string, text: string)
    ensures IsWritten(WritePrim(Compare(key, "=", Expr(text, []))), key + " = " + text, [])
  {
    CompareIsSpelled(key, "=", Expr(text, []));
    TextIsSpelled(text);
    Regroup4(key, " ", "=", " ");
    assert " " + ("=" + " ") == " = ";
  }

  lemma NullIsWritten(key: string)
    ensures IsWritten(WritePrim(IsNull(key)), key + " IS NULL", []) && IsWritten(WritePrim(IsNotNull(key)), key + " IS NOT NULL", [])
  {
    SpellTwo(Word(key), IsNullTok);
    SpellTwo(Word(key), IsNotNullTok);
    NoHolesOf(WritePrim(IsNull(key)));
    NoHolesOf(WritePrim(IsNotNull(key)));
  }

  lemma NeverIsWritten()
    ensures IsWritten(WritePrim(Never), "1 = 0", [])
  {
    SpellOne(NeverTok);
    HolesOne(NeverTok);
  }

  /** What subqueries look like around their conditions. */
  lemma WhereIsSpelled(where: seq<Prim>, parts: seq<string>, params: seq<Value>)
    requires |parts| == |where| && IsWritten(WriteConj(where), Listed(parts, " AND "), params)
    ensures IsWritten(WriteWhere(where), WhereString(parts), params)
  {
    if where != [] {
      SpellOne(Where);
      SpellAppend([Where], WriteConj(where));
      HolesAround([Where], WriteConj(where), []);
    }
  }

  lemma WrittenAppend(a: seq<SqlText.Token>, sa: string, pa: seq<Value>, b: seq<SqlText.Token>, sb: string, pb: seq<Value>)
    requires IsWritten(a, sa, pa) && IsWritten(b, sb, pb)
    ensures IsWritten(a + b, sa + sb, pa + pb)
  {
    SpellAppend(a, b);
    HolesAppend(a, b);
  }

  lemma WrittenOne(t: SqlText.Token)
    requires !t.Hole?
    ensures IsWritten([t], Spell(t), [])
  {
    SpellOne(t);
    HolesOne(t);
  }

  /** Text, conditions in the middle, and a closing parenthesis. */
  lemma WrittenAround(head: seq<SqlText.Token>, text: string, where: seq<SqlText.Token>, close: string)
    requires IsWritten(head, text, []) && close == Spell(Close)
    ensures IsWritten(head + where + [Close], text + SpellAll(where) + close, HolesOf(where))
  {
    WrittenOne(Close);
    WrittenAppend(head, text, [], where, SpellAll(where), HolesOf(where));
    assert [] + HolesOf(where) == HolesOf(where) && HolesOf(where) + [] == HolesOf(where);
    WrittenAppend(head + where, text + SpellAll(where), HolesOf(where), [Close], close, []);
  }

  lemma ExistsHead(negated: bool)
    ensures IsWritten([ExistsTok(negated), Open], if negated then "NOT EXISTS (" else "EXISTS (", [])
  {
    SpellTwo(ExistsTok(negated), Open);
    NoHolesOf([ExistsTok(negated), Open]);
  }

  lemma OneFrom(table: string)
    ensures IsWritten([SelectOne, From(table)], "SELECT 1 FROM " + table, [])
  {
    SpellTwo(SelectOne, From(table));
    Regroup("SELECT 1", " FROM ", table);
    NoHolesOf([SelectOne, From(table)]);
  }

  lemma WrittenNothing(a: seq<SqlText.Token>, sa: string, b: seq<SqlText.Token>, sb: string)
    requires IsWritten(a, sa, []) && IsWritten(b, sb, [])
    ensures IsWritten(a + b, sa + sb, [])
  {
    WrittenAppend(a, sa, [], b, sb, []);
  }

  lemma ExistsIsSpelled(negated: bool, table: string, where: seq<Prim>, left: string, query: string)
    requires left == (if negated then "NOT EXISTS (" else "EXISTS (") && query == "SELECT 1 FROM " + table
    ensures IsWritten(WritePrim(Exists(negated, table, where)), left + query + SpellAll(WriteWhere(where)) + ")", HolesOf(WriteWhere(where)))
  {
    var exists', from := [ExistsTok(negated), Open], [SelectOne, From(table)];
    ExistsHead(negated);
    OneFrom(table);
    WrittenNothing(exists', left, from, query);
    assert [ExistsTok(negated), Open, SelectOne, From(table)] == exists' + from;
    WrittenAround(exists' + from, left + query, WriteWhere(where), ")");
  }

  lemma SelectedIsSpelled(selected: seq<string>, table: string)
    ensures IsWritten([Select] + WriteNames(selected) + [From(table)], "SELECT " + Listed(selected, ", ") + " FROM " + table, [])
  {
    NamesAreSpelled(selected);
    WrittenOne(Select);
    WrittenOne(From(table));
    WrittenNothing([Select], Spell(Select), WriteNames(selected), Listed(selected, ", "));
    WrittenNothing([Select] + WriteNames(selected), Spell(Select) + Listed(selected, ", "), [From(table)], Spell(From(table)));
    Regroup(Spell(Select) + Listed(selected, ", "), " FROM ", table);
  }

  function ParentsText(parents: seq<string>): seq<SqlText.Token> {
    if |parents| == 1 then [Word(parents[0])] else [Open] + WriteNames(parents) + [Close]
  }

  lemma ParentsAreSpelled(parents: seq<string>)
    ensures IsWritten(ParentsText(parents), if |parents| == 1 then parents[0] else "(" + Listed(parents, ", ") + ")", [])
  {
    NamesAreSpelled(parents);
    NamesHaveNoHoles(parents);
    if |parents| == 1 {
      WrittenOne(Word(parents[0]));
    } else {
      SpellInParentheses(WriteNames(parents));
      HolesAround([Open], WriteNames(parents), [Close]);
    }
  }

  lemma IntoIsSpelled(negated: bool)
    ensures IsWritten([InTok(negated), Open], if negated then " NOT IN (" else " IN (", [])
  {
    SpellTwo(InTok(negated), Open);
    NoHolesOf([InTok(negated), Open]);
  }

  lemma Pieced<T>(left: seq<T>, into: seq<T>, select: seq<T>, names: seq<T>, from: seq<T>, where: seq<T>, close: seq<T>)
    ensures left + (into + select) + names + from + where + close == left + into + (select + names + from) + where + close
  {
  }

  lemma InSelectIsSpelled(parents: seq<string>, negated: bool, selected: seq<string>, table: string, where: seq<Prim>, left: string, into: string, query: string)
    requires left == (if |parents| == 1 then parents[0] else "(" + Listed(parents, ", ") + ")")
    requires into == (if negated then " NOT IN (" else " IN (") && query == "SELECT " + Listed(selected, ", ") + " FROM " + table
    ensures IsWritten(WritePrim(InSelect(parents, negated, selected, table, where)), left + into + query + SpellAll(WriteWhere(where)) + ")", HolesOf(WriteWhere(where)))
  {
    var inTokens, select := [InTok(negated), Open], [Select] + WriteNames(selected) + [From(table)];
    assert [InTok(negated), Open, Select] == inTokens + [Select];
    Pieced(ParentsText(parents), inTokens, [Select], WriteNames(selected), [From(table)], WriteWhere(where), [Close]);
    ParentsAreSpelled(parents);
    IntoIsSpelled(negated);
    SelectedIsSpelled(selected, table);
    WrittenNothing(ParentsText(parents), left, inTokens, into);
    WrittenNothing(ParentsText(parents) + inTokens, left + into, select, query);
    WrittenAround(ParentsText(parents) + inTokens + select, left + into + query, WriteWhere(where), ")");
  }

  /** Every token is written as its template says, with its own values for its placeholders. */
  lemma {:induction false} TokenIsSpelled(key: string, t: DbToken, casts: bool)
    requires FitsToken(t)
    ensures IsWritten(WritePrim(TokenPrim(key, t, casts)), TokenString(key, t, casts), TokenParams(t))
    decreases t, 0
  {
    if t.Subquery? {
      SubqueryIsSpelled(key, t, casts);
    } else if t.ExistsRows? {
      ExistsRowsIsSpelled(key, t, casts);
    } else {
      ValueTokenIsSpelled(key, t, casts);
    }
  }

  lemma ValueTokenIsSpelled(key: string, t: DbToken, casts: bool)
    requires FitsToken(t) && !t.Subquery? && !t.ExistsRows?
    ensures IsWritten(WritePrim(TokenPrim(key, t, casts)), TokenString(key, t, casts), TokenParams(t))
  {
    match t
    case Plain(v, op) => BoundCompare(key, op, v, None); Spaced(key, op, " ", "?");
    case Immediate(text) => TextCompare(key, text);
    case NullToken => NullIsWritten(key);
    case NotNullToken => NullIsWritten(key);
    case BoolToken(b) => BooleanIsWritten(key, b);
    case ArrayToken(vs) => ListIsWritten(key, vs, None);
    case Dynamic(func, values) => DynamicIsWritten(key, func, values);
    case RawToken(text) => TextCompare(key, text);
    case TupleIn(columns, tuples) => TupleInIsWritten(columns, tuples);
    case Cast(v, sqlType, op) => CastIsWritten(key, op, v, sqlType, casts);
    case CastArray(vs, sqlType) => ListIsWritten(key, vs, if casts then Some(sqlType) else None);
  }

  lemma Spaced(key: string, op: string, space: string, mark: string)
    ensures key + " " + op + space + mark == key + " " + op + (space + mark)
  {
  }

  lemma DynamicIsWritten(key: string, func: string, values: seq<Value>)
    requires Holes(func) == |values|
    ensures IsWritten(WritePrim(Compare(key, "=", Expr(func, Singletons(values)))), key + " = " + func, values)
  {
    CompareIsSpelled(key, "=", Expr(func, Singletons(values)));
    ExpressionIsSpelled(func, values);
    EqualsSpaced(key, func);
  }

  lemma TupleInIsWritten(columns: seq<string>, tuples: seq<seq<Value>>)
    ensures IsWritten(WritePrim(if tuples == [] then Never else InTuples(columns, tuples)),
      if tuples == [] then "1 = 0" else "(" + Listed(columns, ", ") + ") IN (" + Listed(TupleStrings(tuples), ", ") + ")", Concat(tuples))
  {
    if tuples == [] {
      NeverIsWritten();
    } else {
      InTuplesIsSpelled(columns, tuples);
    }
  }

  lemma CastIsWritten(key: string, op: string, v: Value, sqlType: string, casts: bool)
    ensures IsWritten(WritePrim(Compare(key, op, Bound(v, CastOf(sqlType, casts)))), if casts then key + " " + op + " ?::" + sqlType else key + " " + op + " ?", [v])
  {
    BoundCompare(key, op, v, if casts then Some(sqlType) else None);
    CastSpaced(key, op, sqlType);
  }

  lemma EqualsSpaced(key: string, text: string)
    ensures key + " " + "=" + " " + text == key + " = " + text
  {
    Regroup4(key, " ", "=", " ");
    assert " " + ("=" + " ") == " = ";
  }

  lemma CastSpaced(key: string, op: string, sqlType: string)
    ensures key + " " + op + " " + ("?::" + sqlType) == key + " " + op + " ?::" + sqlType
    ensures key + " " + op + " " + "?" == key + " " + op + " ?"
  {
    Regroup(key + " " + op, " ", "?");
    assert " " + "?" == " ?";
    Regroup(key + " " + op + " ", "?::", sqlType);
    Regroup(key + " " + op, " ", "?::");
    assert " " + "?::" == " ?::";
  }

  lemma BooleanIsWritten(key: string, b: bool)
    ensures IsWritten(WritePrim(Compare(key, "=", Expr(BoolText(b), []))), if b then key + " = TRUE" else key + " = FALSE", [])
  {
    TextCompare(key, BoolText(b));
    Regroup(key, " = ", BoolText(b));
    assert " = " + "TRUE" == " = TRUE" && " = " + "FALSE" == " = FALSE";
  }

  lemma ListIsWritten(key: string, vs: seq<Value>, cast: Option<string>)
    ensures IsWritten(WritePrim(if vs == [] then Never else InList(key, Bounds(vs, cast))),
      if vs == [] then "1 = 0" else key + " IN (" + Repeated(ValueMark(cast), |vs|) + ")", vs)
  {
    if vs == [] {
      NeverIsWritten();
    } else {
      InListIsSpelled(key, vs, cast);
    }
  }

  lemma Grouped(left: string, select: string, table: string, where: string, close: string)
    ensures left + (select + table) + where + close == left + select + table + where + close
  {
    Regroup(left, select, table);
  }

  lemma {:induction false} SubqueryIsSpelled(key: string, t: DbToken, casts: bool)
    requires t.Subquery? && FitsToken(t)
    ensures IsWritten(WritePrim(TokenPrim(key, t, casts)), TokenString(key, t, casts), TokenParams(t))
    decreases t, -1
  {
    SubWhereIsSpelled(t.conds);
    var left := if |t.parents| == 1 then t.parents[0] else "(" + Listed(t.parents, ", ") + ")";
    var into := if t.negated then " NOT IN (" else " IN (";
    var query := "SELECT " + Listed(t.selected, ", ") + " FROM " + t.table;
    InSelectIsSpelled(t.parents, t.negated, t.selected, t.table, SubPrims(t.conds), left, into, query);
    Grouped3(left + into, "SELECT ", Listed(t.selected, ", "), " FROM ", t.table, WhereString(SubStrings(t.conds)), ")");
  }

  lemma Grouped3(left: string, select: string, names: string, from: string, table: string, where: string, close: string)
    ensures left + (select + names + from + table) + where + close == left + select + names + from + table + where + close
  {
  }

  lemma {:induction false} ExistsRowsIsSpelled(key: string, t: DbToken, casts: bool)
    requires t.ExistsRows? && FitsToken(t)
    ensures IsWritten(WritePrim(TokenPrim(key, t, casts)), TokenString(key, t, casts), TokenParams(t))
    decreases t, -1
  {
    SubWhereIsSpelled(t.conds);
    var left := if t.negated then "NOT EXISTS (" else "EXISTS (";
    ExistsIsSpelled(t.negated, t.table, SubPrims(t.conds), left, "SELECT 1 FROM " + t.table);
    Grouped(left, "SELECT 1 FROM ", t.table, WhereString(SubStrings(t.conds)), ")");
  }

  lemma {:induction false} SubWhereIsSpelled(conds: seq<SubCond>)
    requires forall c <- conds :: FitsSubCond(c)
    ensures IsWritten(WriteWhere(SubPrims(conds)), WhereString(SubStrings(conds)), SubParams(conds))
    decreases conds, 1
  {
    SubCondsAreSpelled(conds);
    SubCounts(conds);
    WhereIsSpelled(SubPrims(conds), SubStrings(conds), SubParams(conds));
  }

  lemma {:induction false} SubCounts(cs: seq<SubCond>)
    ensures |SubPrims(cs)| == |SubStrings(cs)| == |cs|
  {
    if cs != [] {
      SubCounts(cs[1..]);
    }
  }

  lemma {:induction false} SubCondsAreSpelled(cs: seq<SubCond>)
    requires forall c <- cs :: FitsSubCond(c)
    ensures IsWritten(WriteConj(SubPrims(cs)), Listed(SubStrings(cs), " AND "), SubParams(cs))
    decreases cs, 0
  {
    if cs != [] {
      assert cs[0] in cs;
      var first, rest := WritePrim(SubPrim(cs[0])), SubPrims(cs[1..]);
      SubCondIsSpelled(cs[0]);
      SubCounts(cs);
      SubCounts(cs[1..]);
      assert SubPrims(cs)[1..] == rest && SubStrings(cs)[1..] == SubStrings(cs[1..]);
      SubCondsAreSpelled(cs[1..]);
      if |cs| == 1 {
        assert SubParams(cs[1..]) == [];
      } else {
        SeparatorIsSpelled(first, AndTok, WriteConj(rest));
      }
    }
  }

  lemma SeparatorIsSpelled(a: seq<SqlText.Token>, sep: SqlText.Token, b: seq<SqlText.Token>)
    requires !sep.Hole?
    ensures IsWritten(a + [sep] + b, SpellAll(a) + Spell(sep) + SpellAll(b), HolesOf(a) + HolesOf(b))
  {
    WrittenOne(sep);
    WrittenAppend(a, SpellAll(a), HolesOf(a), [sep], Spell(sep), []);
    assert HolesOf(a) + [] == HolesOf(a);
    WrittenAppend(a + [sep], SpellAll(a) + Spell(sep), HolesOf(a), b, SpellAll(b), HolesOf(b));
  }

  lemma {:induction false} SubCondIsSpelled(c: SubCond)
    requires FitsSubCond(c)
    ensures IsWritten(WritePrim(SubPrim(c)), SubString(c), SubParam(c))
    decreases c, 1
  {
    match c.value
    case ParentRef(column) => TextCompare(c.column, column);
    case SubToken(t) => TokenIsSpelled(c.column, t, true);
    case SubNull => NullIsWritten(c.column);
    case SubList(vs) => ListIsWritten(c.column, vs, None);
    case SubScalar(v) => ScalarIsWritten(c.column, v);
  }

  lemma ScalarIsWritten(key: string, v: Value)
    ensures IsWritten(WritePrim(Compare(key, "=", Bound(v, None))), key + " = ?", [v])
  {
    BoundCompare(key, "=", v, None);
    EqualsSpaced(key, "?");
    Regroup(key, " = ", "?");
    assert " = " + "?" == " = ?";
  }

  // ---------------------------------------------------------------------------------------------
  // Trees
  // ---------------------------------------------------------------------------------------------

  function RawStrings(vs: seq<Value>): seq<string> {
    if vs == [] then [] else (if vs[0].Text? then [vs[0].s] else []) + RawStrings(vs[1..])
  }

  /** A key with placeholders for a list of n values. */
  function CustomString(key: string, n: nat): string {
    if Holes(key) != 1 || n == 1 then key else if n == 0 then ReplaceFirst(key, "NULL") else ReplaceFirst(key, Repeated("?", n))
  }

  /** What becomes of an entry, branch by branch; nothing is written for an empty text. */
  function EntryString(e: Entry, casts: bool): string
    decreases e
  {
    var key, value := e.key, e.value;
    if key == "__or__" && value.Groups? then
      var parts := GroupStrings(value.groups, casts);
      if parts == [] then "" else "(" + Listed(parts, " OR ") + ")"
    else if key == "__raw__" then
      RawString(value)
    else if value.TokenValue? then TokenString(key, value.t, casts)
    else if value.Inner? then "(" + ConditionsString(value.c, casts) + ")"
    else if "__" <= key then ""
    else
      match value
      case Nul => key + " IS NULL"
      case Boolean(b) => if b && ' ' in key then key else if b then key + " = TRUE" else key + " = FALSE"
      case List(vs) =>
        if '?' in key then CustomString(key, |vs|) else if vs == [] then "1 = 0" else key + " IN (" + Repeated("?", |vs|) + ")"
      case Scalar(_) => if '?' in key then key else key + " = ?"
      case _ => ""
  }

  function EntryStrings(entries: seq<Entry>, casts: bool): seq<string>
    decreases entries
  {
    if entries == [] then []
    else
      var first := EntryString(entries[0], casts);
      (if first == "" then [] else [first]) + EntryStrings(entries[1..], casts)
  }

  function GroupStrings(groups: seq<Record>, casts: bool): seq<string>
    decreases groups
  {
    if groups == [] then []
    else
      var parts := EntryStrings(groups[0].entries, casts);
      (if parts == [] then [] else ["(" + Listed(parts, " AND ") + ")"]) + GroupStrings(groups[1..], casts)
  }

  function NestedString(n: Nested, casts: bool): string
    decreases n
  {
    ConditionsString(n.conditions, casts)
  }

  function NestedStrings(nested: seq<Nested>, casts: bool): seq<string>
    decreases nested
  {
    if nested == [] then []
    else
      var first := NestedString(nested[0], casts);
      (if first == "" then [] else ["(" + first + ")"]) + NestedStrings(nested[1..], casts)
  }

  /** What `compile` returns. */
  function ConditionsString(c: Conditions, casts: bool): string
    decreases c
  {
    Listed(EntryStrings(c.entries, casts) + NestedStrings(c.nested, casts), if c.operator.And? then " AND " else " OR ")
  }

  /** What `compile` pushes. */
  function EntryParams(e: Entry): seq<Value>
    decreases e
  {
    var key, value := e.key, e.value;
    if key == "__or__" && value.Groups? then GroupsParams(value.groups)
    else if key == "__raw__" then (if value.RawPair? then value.params else [])
    else if value.TokenValue? then TokenParams(value.t)
    else if value.Inner? then ConditionsParams(value.c)
    else if "__" <= key then []
    else
      match value
      case List(vs) => vs
      case Scalar(v) => [v]
      case _ => []
  }

  function EntriesParams(entries: seq<Entry>): seq<Value>
    decreases entries
  {
    if entries == [] then [] else EntryParams(entries[0]) + EntriesParams(entries[1..])
  }

  function GroupsParams(groups: seq<Record>): seq<Value>
    decreases groups
  {
    if groups == [] then [] else EntriesParams(groups[0].entries) + GroupsParams(groups[1..])
  }

  function NestedOneParams(n: Nested): seq<Value>
    decreases n
  {
    ConditionsParams(n.conditions)
  }

  function NestedParams(nested: seq<Nested>): seq<Value>
    decreases nested
  {
    if nested == [] then [] else NestedOneParams(nested[0]) + NestedParams(nested[1..])
  }

  function ConditionsParams(c: Conditions): seq<Value>
    decreases c
  {
    EntriesParams(c.entries) + NestedParams(c.nested)
  }

  lemma SeparatedIsSpelled(parts: seq<seq<SqlText.Token>>, strings: seq<string>, params: seq<Value>, sep: SqlText.Token)
    requires !sep.Hole? && AllSpelled(parts) == strings && HolesOf(Concat(parts)) == params
    ensures IsWritten(Separated(parts, sep), Listed(strings, Spell(sep)), params)
  {
    SpellSeparated(parts, sep);
    SeparatedHoles(parts, sep);
  }

  lemma ParenthesesAreWritten(ts: seq<SqlText.Token>, text: string, params: seq<Value>)
    requires IsWritten(ts, text, params)
    ensures IsWritten([Open] + ts + [Close], "(" + text + ")", params)
  {
    SpellInParentheses(ts);
    HolesAround([Open], ts, [Close]);
  }

  lemma {:induction false} AllSpelledAppend(a: seq<seq<SqlText.Token>>, b: seq<seq<SqlText.Token>>)
    ensures AllSpelled(a + b) == AllSpelled(a) + AllSpelled(b)
  {
    if a == [] {
      assert a + b == b;
    } else {
      assert (a + b)[1..] == a[1..] + b;
      AllSpelledAppend(a[1..], b);
    }
  }

  /** One more part in front, unless it is empty. */
  lemma OneMorePart(first: seq<SqlText.Token>, text: string, params: seq<Value>, rest: seq<seq<SqlText.Token>>)
    requires IsWritten(first, text, params)
    ensures AllSpelled([first] + rest) == [text] + AllSpelled(rest)
    ensures HolesOf(Concat([first] + rest)) == params + HolesOf(Concat(rest))
  {
    assert ([first] + rest)[1..] == rest;
    HolesAppend(first, Concat(rest));
  }

  lemma CustomBinds(key: string, vs: seq<Value>)
    ensures HolesOf(WritePrim(CustomPrim(key, vs))) == vs
  {
    if Holes(key) == 1 && vs == [] {
      HolesOne(Word(ReplaceFirst(key, "NULL")));
    } else {
      TextHoles(key, CustomArgs(key, vs));
      SingletonsGood(vs);
      ConcatOne(vs);
    }
  }

  lemma ReplacedNotBlank(key: string, text: string)
    requires key != "" && text != ""
    ensures ReplaceFirst(key, text) != ""
  {
  }

  lemma CustomNotBlank(key: string, n: nat, null': string)
    requires key != "" && null' == "NULL"
    ensures CustomString(key, n) != ""
  {
    ReplacedNotBlank(key, null');
    if n > 0 {
      ReplacedNotBlank(key, Repeated("?", n));
    }
  }

  lemma CustomIsString(key: string, vs: seq<Value>)
    ensures CustomText(key, vs) == CustomString(key, |vs|)
  {
    QuestionsAreRepeated(|vs|);
  }

  lemma CustomIsWritten(key: string, vs: seq<Value>)
    requires '?' in key && (Holes(key) == 1 || Holes(key) == |vs|)
    ensures IsWritten(WritePrim(CustomPrim(key, vs)), CustomString(key, |vs|), vs)
    ensures CustomString(key, |vs|) != ""
  {
    CustomIsSpelled(key, vs);
    CustomIsString(key, vs);
    CustomBinds(key, vs);
    CustomNotBlank(key, |vs|, "NULL");
  }

  lemma KeyWithScalar(key: string, v: Value)
    requires Holes(key) == 1 && '?' in key
    ensures IsWritten(WritePrim(Fragment(key, [[v]])), key, [v])
  {
    assert [v][1..] == [];
    assert Singletons([v]) == [[v]];
    ExpressionIsSpelled(key, [v]);
  }

  /** The special keys begin with two underscores. */
  lemma KeysAreSpecial(key: string)
    ensures IsReserved(key) <==> "__" <= key
    ensures OR_KEY == "__or__" && RAW_KEY == "__raw__" && "__" <= OR_KEY && "__" <= RAW_KEY
  {
    assert "__" == ['_', '_'];
  }

  /** An ordinary key with an ordinary value. */
  lemma ValueIsSpelled(key: string, value: Cond, casts: bool)
    requires !("__" <= key) && FitsEntry(Entry(key, value)) && !value.TokenValue? && !value.Inner?
    ensures IsWritten(WriteConj(EntryConj(key, value, casts)), EntryString(Entry(key, value), casts), EntryParams(Entry(key, value)))
    ensures EntryConj(key, value, casts) != [] && EntryString(Entry(key, value), casts) != ""
  {
    KeysAreSpecial(key);
    match value {
      case Nul => NullIsWritten(key);
      case Boolean(b) =>
        if b && ' ' in key {
          TextIsSpelled(key);
        } else {
          BooleanIsWritten(key, b);
        }
      case List(vs) =>
        if '?' in key {
          CustomIsWritten(key, vs);
        } else {
          ListIsWritten(key, vs, None);
        }
      case Scalar(v) =>
        if '?' in key {
          KeyWithScalar(key, v);
        } else {
          ScalarIsWritten(key, v);
        }
      case _ =>
    }
  }

  lemma {:induction false} RawsAreSpelled(vs: seq<Value>)
    requires forall v <- vs :: v.Text? ==> v.s != ""
    ensures AllSpelled(PrimTexts(RawParts(vs))) == RawStrings(vs) && HolesOf(Concat(PrimTexts(RawParts(vs)))) == []
    ensures (RawParts(vs) == [] <==> RawStrings(vs) == []) && forall s <- RawStrings(vs) :: s != ""
  {
    if vs != [] {
      RawsAreSpelled(vs[1..]);
      if vs[0].Text? {
        TextIsSpelled(vs[0].s);
        var rest := PrimTexts(RawParts(vs[1..]));
        assert PrimTexts(RawParts(vs)) == [WriteText(vs[0].s, [])] + rest;
        OneMorePart(WriteText(vs[0].s, []), vs[0].s, [], rest);
      }
    }
  }

  lemma ListedIsEmpty(parts: seq<string>, sep: string)
    requires forall s <- parts :: s != ""
    ensures Listed(parts, sep) == "" <==> parts == []
  {
    if parts != [] {
      assert parts[0] in parts;
    }
  }

  lemma RawListIsSpelled(vs: seq<Value>)
    requires forall v <- vs :: v.Text? ==> v.s != ""
    ensures IsWritten(WriteConj(RawParts(vs)), Listed(RawStrings(vs), " AND "), [])
    ensures RawParts(vs) == [] <==> Listed(RawStrings(vs), " AND ") == ""
  {
    RawsAreSpelled(vs);
    PrimTextsAreConj(RawParts(vs));
    SeparatedIsSpelled(PrimTexts(RawParts(vs)), RawStrings(vs), [], AndTok);
    ListedIsEmpty(RawStrings(vs), " AND ");
  }

  lemma RawPairIsSpelled(sql: string, params: seq<Value>)
    requires Holes(sql) == |params|
    ensures IsWritten(WriteText(sql, Singletons(params)), sql, params) && (sql == "" ==> params == [])
  {
    ExpressionIsSpelled(sql, params);
    HolesOfNothing(sql);
  }

  /** The text of a raw value. */
  function RawString(value: Cond): string {
    match value
    case Scalar(Text(s)) => s
    case RawPair(sql, _) => sql
    case List(vs) => Listed(RawStrings(vs), " AND ")
    case _ => ""
  }

  lemma RawValueIsSpelled(value: Cond, casts: bool)
    requires FitsEntry(Entry(RAW_KEY, value))
    ensures IsWritten(WriteConj(EntryConj(RAW_KEY, value, casts)), RawString(value), if value.RawPair? then value.params else [])
    ensures EntryConj(RAW_KEY, value, casts) == [] <==> RawString(value) == ""
  {
    match value {
      case Scalar(Text(s)) => TextIsSpelled(s);
      case RawPair(sql, params) => RawPairIsSpelled(sql, params);
      case List(vs) => RawListIsSpelled(vs);
      case _ =>
    }
  }

  lemma RawIsSpelled(value: Cond, casts: bool)
    requires FitsEntry(Entry(RAW_KEY, value))
    ensures IsWritten(WriteConj(EntryConj(RAW_KEY, value, casts)), EntryString(Entry(RAW_KEY, value), casts), EntryParams(Entry(RAW_KEY, value)))
    ensures EntryConj(RAW_KEY, value, casts) == [] <==> EntryString(Entry(RAW_KEY, value), casts) == ""
  {
    KeysAreSpecial(RAW_KEY);
    RawValueIsSpelled(value, casts);
  }

  lemma HolesOfNothing(text: string)
    ensures text == "" ==> Holes(text) == 0
  {
  }

  lemma OrIsSpelled(groups: seq<Record>, casts: bool)
    requires AllSpelled(GroupTexts(groups, casts)) == GroupStrings(groups, casts) && HolesOf(Concat(GroupTexts(groups, casts))) == GroupsParams(groups)
    ensures
      var e := Entry(OR_KEY, Groups(groups));
      IsWritten(WriteConj(EntryConj(OR_KEY, e.value, casts)), EntryString(e, casts), EntryParams(e)) && (EntryConj(OR_KEY, e.value, casts) == [] <==> EntryString(e, casts) == "")
  {
    KeysAreSpecial(OR_KEY);
    GroupsText(groups, casts);
    GroupConjsEmpty(groups, casts);
    var parts := GroupTexts(groups, casts);
    SeparatedIsSpelled(parts, GroupStrings(groups, casts), GroupsParams(groups), OrTok);
    ParenthesesAreWritten(Separated(parts, OrTok), Listed(GroupStrings(groups, casts), " OR "), GroupsParams(groups));
  }

  lemma TokenEntryIsSpelled(key: string, t: DbToken, casts: bool)
    requires FitsToken(t) && key != RAW_KEY
    ensures
      var e := Entry(key, TokenValue(t));
      IsWritten(WriteConj(EntryConj(key, e.value, casts)), EntryString(e, casts), EntryParams(e)) && EntryConj(key, e.value, casts) != [] && EntryString(e, casts) != ""
  {
    KeysAreSpecial(key);
    TokenIsSpelled(key, t, casts);
    OneText(TokenPrim(key, t, casts));
    TokenNotBlank(key, t, casts);
  }

  lemma InnerIsSpelled(key: string, c: Conditions, casts: bool)
    requires IsWritten(ConditionsText(c, casts), ConditionsString(c, casts), ConditionsParams(c)) && key != RAW_KEY
    ensures
      var e := Entry(key, Cond.Inner(c));
      IsWritten(WriteConj(EntryConj(key, e.value, casts)), EntryString(e, casts), EntryParams(e)) && EntryConj(key, e.value, casts) != [] && EntryString(e, casts) != ""
  {
    KeysAreSpecial(key);
    ParenthesesAreWritten(ConditionsText(c, casts), ConditionsString(c, casts), ConditionsParams(c));
  }

  lemma SpecialIsNothing(key: string, value: Cond, casts: bool)
    requires "__" <= key && key != RAW_KEY && !(key == OR_KEY && value.Groups?) && !value.TokenValue? && !value.Inner?
    ensures EntryConj(key, value, casts) == [] && EntryString(Entry(key, value), casts) == "" && EntryParams(Entry(key, value)) == []
  {
    KeysAreSpecial(key);
  }

  lemma {:induction false} EntryIsSpelled(e: Entry, casts: bool)
    requires FitsEntry(e)
    ensures IsWritten(WriteConj(EntryConj(e.key, e.value, casts)), EntryString(e, casts), EntryParams(e))
    ensures EntryConj(e.key, e.value, casts) == [] <==> EntryString(e, casts) == ""
    decreases e, 2
  {
    var key, value := e.key, e.value;
    if key == OR_KEY && value.Groups? {
      GroupsAreSpelled(value.groups, casts);
      OrIsSpelled(value.groups, casts);
    } else if key == RAW_KEY {
      RawIsSpelled(value, casts);
    } else if value.TokenValue? {
      TokenEntryIsSpelled(key, value.t, casts);
    } else if value.Inner? {
      TreeIsSpelled(value.c, casts);
      InnerIsSpelled(key, value.c, casts);
    } else if "__" <= key {
      SpecialIsNothing(key, value, casts);
    } else {
      ValueIsSpelled(key, value, casts);
    }
  }

  lemma TokenNotBlank(key: string, t: DbToken, casts: bool)
    ensures TokenString(key, t, casts) != ""
  {
  }

  lemma {:induction false} GroupConjsEmpty(groups: seq<Record>, casts: bool)
    ensures GroupConjs(groups, casts) == [] <==> GroupTexts(groups, casts) == []
  {
    if groups != [] {
      GroupConjsEmpty(groups[1..], casts);
    }
  }

  lemma {:induction false} EntriesAreSpelled(entries: seq<Entry>, casts: bool)
    requires forall e <- entries :: FitsEntry(e)
    ensures AllSpelled(Texts(EntriesParts(entries, casts))) == EntryStrings(entries, casts)
    ensures HolesOf(Concat(Texts(EntriesParts(entries, casts)))) == EntriesParams(entries)
    decreases entries, 3
  {
    if entries != [] {
      assert entries[0] in entries;
      EntryIsSpelled(entries[0], casts);
      EntriesAreSpelled(entries[1..], casts);
      var first, rest := EntryConj(entries[0].key, entries[0].value, casts), EntriesParts(entries[1..], casts);
      if first != [] {
        assert EntriesParts(entries, casts)[1..] == rest;
        assert Texts(EntriesParts(entries, casts)) == [WriteConj(first)] + Texts(rest);
        OneMorePart(WriteConj(first), EntryString(entries[0], casts), EntryParams(entries[0]), Texts(rest));
      } else {
        assert EntryParams(entries[0]) == [];
      }
    }
  }

  lemma {:induction false} GroupsAreSpelled(groups: seq<Record>, casts: bool)
    requires forall g <- groups :: forall f <- g.entries :: FitsEntry(f)
    ensures AllSpelled(GroupTexts(groups, casts)) == GroupStrings(groups, casts)
    ensures HolesOf(Concat(GroupTexts(groups, casts))) == GroupsParams(groups)
    decreases groups, 3
  {
    if groups != [] {
      assert groups[0] in groups;
      GroupsAreSpelled(groups[1..], casts);
      EntriesAreSpelled(groups[0].entries, casts);
      GroupIsSpelled(groups[0], casts);
      var parts, rest := EntriesParts(groups[0].entries, casts), GroupTexts(groups[1..], casts);
      if parts != [] {
        assert GroupTexts(groups, casts) == [[Open] + WriteConj(Concat(parts)) + [Close]] + rest;
        OneMorePart([Open] + WriteConj(Concat(parts)) + [Close], "(" + Listed(EntryStrings(groups[0].entries, casts), " AND ") + ")", EntriesParams(groups[0].entries), rest);
      }
    }
  }

  lemma GroupIsSpelled(group: Record, casts: bool)
    requires AllSpelled(Texts(EntriesParts(group.entries, casts))) == EntryStrings(group.entries, casts)
    requires HolesOf(Concat(Texts(EntriesParts(group.entries, casts)))) == EntriesParams(group.entries)
    ensures EntriesParts(group.entries, casts) == [] <==> EntryStrings(group.entries, casts) == []
    ensures EntriesParts(group.entries, casts) == [] ==> EntriesParams(group.entries) == []
    ensures IsWritten([Open] + WriteConj(Concat(EntriesParts(group.entries, casts))) + [Close],
      "(" + Listed(EntryStrings(group.entries, casts), " AND ") + ")", EntriesParams(group.entries))
  {
    var parts := EntriesParts(group.entries, casts);
    PartsNotEmpty(group.entries, casts);
    TextsByAnd(parts);
    SeparatedIsSpelled(Texts(parts), EntryStrings(group.entries, casts), EntriesParams(group.entries), AndTok);
    ParenthesesAreWritten(WriteConj(Concat(parts)), Listed(EntryStrings(group.entries, casts), " AND "), EntriesParams(group.entries));
  }

  lemma {:induction false} NestedAreSpelled(nested: seq<Nested>, casts: bool)
    requires forall n <- nested :: FitsConditions(n.conditions)
    ensures AllSpelled(Texts(NestedParts(nested, casts))) == NestedStrings(nested, casts)
    ensures HolesOf(Concat(Texts(NestedParts(nested, casts)))) == NestedParams(nested)
    decreases nested, 3
  {
    if nested != [] {
      assert nested[0] in nested;
      NestedIsSpelled(nested[0], casts);
      NestedAreSpelled(nested[1..], casts);
      var first, rest := NestedConj(nested[0], casts), NestedParts(nested[1..], casts);
      if first != [] {
        assert NestedParts(nested, casts)[1..] == rest;
        assert Texts(NestedParts(nested, casts)) == [WriteConj(first)] + Texts(rest);
        OneMorePart(WriteConj(first), "(" + NestedString(nested[0], casts) + ")", NestedOneParams(nested[0]), Texts(rest));
      }
    }
  }

  lemma {:induction false} NestedIsSpelled(n: Nested, casts: bool)
    requires FitsConditions(n.conditions)
    ensures NestedConj(n, casts) == [] <==> NestedString(n, casts) == ""
    ensures NestedConj(n, casts) == [] ==> NestedOneParams(n) == []
    ensures NestedConj(n, casts) != [] ==> IsWritten(WriteConj(NestedConj(n, casts)), "(" + NestedString(n, casts) + ")", NestedOneParams(n))
    decreases n, 2
  {
    TreeIsSpelled(n.conditions, casts);
    NestedTextEmpty(n, casts);
    ParenthesesAreWritten(ConditionsText(n.conditions, casts), ConditionsString(n.conditions, casts), ConditionsParams(n.conditions));
  }

  lemma {:induction false} NoneIsEmpty(entries: seq<Entry>, nested: seq<Nested>, casts: bool)
    ensures forall s <- EntryStrings(entries, casts) + NestedStrings(nested, casts) :: s != ""
  {
    EntriesNotBlank(entries, casts);
    NestedNotBlank(nested, casts);
  }

  lemma {:induction false} EntriesNotBlank(entries: seq<Entry>, casts: bool)
    ensures forall s <- EntryStrings(entries, casts) :: s != ""
  {
    if entries != [] {
      EntriesNotBlank(entries[1..], casts);
    }
  }

  lemma {:induction false} NestedNotBlank(nested: seq<Nested>, casts: bool)
    ensures forall s <- NestedStrings(nested, casts) :: s != ""
  {
    if nested != [] {
      NestedNotBlank(nested[1..], casts);
    }
  }

  /** The text that `compile` returns, and the parameters that it pushes, for every tree. */
  lemma {:induction false} TreeIsSpelled(c: Conditions, casts: bool)
    requires FitsConditions(c)
    ensures IsWritten(ConditionsText(c, casts), ConditionsString(c, casts), ConditionsParams(c))
    ensures ConditionsText(c, casts) == [] <==> ConditionsString(c, casts) == ""
    decreases c, 4
  {
    EntriesAreSpelled(c.entries, casts);
    NestedAreSpelled(c.nested, casts);
    TreeOfParts(c, casts);
  }

  lemma TreeOfParts(c: Conditions, casts: bool)
    requires AllSpelled(Texts(EntriesParts(c.entries, casts))) == EntryStrings(c.entries, casts)
    requires HolesOf(Concat(Texts(EntriesParts(c.entries, casts)))) == EntriesParams(c.entries)
    requires AllSpelled(Texts(NestedParts(c.nested, casts))) == NestedStrings(c.nested, casts)
    requires HolesOf(Concat(Texts(NestedParts(c.nested, casts)))) == NestedParams(c.nested)
    ensures IsWritten(ConditionsText(c, casts), ConditionsString(c, casts), ConditionsParams(c))
    ensures ConditionsText(c, casts) == [] <==> ConditionsString(c, casts) == ""
  {
    var entries, nested := Texts(EntriesParts(c.entries, casts)), Texts(NestedParts(c.nested, casts));
    var strings := EntryStrings(c.entries, casts) + NestedStrings(c.nested, casts);
    var sep := if c.operator.And? then AndTok else OrTok;
    PartsGiveText(c, casts);
    AllSpelledAppend(entries, nested);
    ConcatAppend(entries, nested);
    HolesAppend(Concat(entries), Concat(nested));
    SeparatedIsSpelled(entries + nested, strings, ConditionsParams(c), sep);
    NoneIsEmpty(c.entries, c.nested, casts);
    ListedIsEmpty(strings, Spell(sep));
    SpelledCount(entries + nested);
    assert strings == [] ==> entries + nested == [];
  }

  lemma {:induction false} SpelledCount(parts: seq<seq<SqlText.Token>>)
    ensures |AllSpelled(parts)| == |parts|
  {
    if parts != [] {
      SpelledCount(parts[1..]);
    }
  }
}
