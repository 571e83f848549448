/** The statements of the builders character by character, with their parameters. */
module SpelledStatements {
  import opened Sequences
  import opened SqlText
  import opened Placeholders
  import opened ConditionCompiler
  import opened BoundPlaceholders
  import opened SpelledConditions
  import opened Statements

  // ---------------------------------------------------------------------------------------------
  // SET
  // ---------------------------------------------------------------------------------------------

  function ListString(vs: seq<Value>, mark: string): string {
    if vs == [] then "1 = 0" else "(" + Repeated(mark, |vs|) + ")"
  }

  /** What stands for each kind of value in a SET clause. */
  function SetString(value: SetValue, casts: bool): string {
    match value
    case Bind(_, None) => "?"
    case Bind(_, Some(t)) => "?::" + t
    case SetToken(t) =>
      (match t
       case Plain(_, _) => "?"
       case Immediate(text) => text
       case NullToken => "NULL"
       case NotNullToken => "NOT NULL"
       case BoolToken(b) => if b then "TRUE" else "FALSE"
       case ArrayToken(vs) => ListString(vs, "?")
       case Dynamic(func, _) => func
       case RawToken(text) => text
       case Cast(_, sqlType, _) => if casts then "?::" + sqlType else "?"
       case CastArray(vs, sqlType) => ListString(vs, if casts then "?::" + sqlType else "?")
       case _ => "")
  }

  function SetParams(value: SetValue): seq<Value> {
    match value
    case Bind(v, _) => [v]
    case SetToken(t) =>
      (match t
       case Plain(v, _) => [v]
       case ArrayToken(vs) => vs
       case Dynamic(_, values) => values
       case Cast(v, _, _) => [v]
       case CastArray(vs, _) => vs
       case _ => [])
  }

  lemma BoundIsWritten(v: Value, cast: Option<string>)
    ensures IsWritten(WriteOperand(Bound(v, cast)), ValueMark(cast), [v])
  {
    BoundIsSpelled(v, cast);
    HolesOne(Hole(v));
    if cast.Some? {
      HolesTwo(Hole(v), CastTo(cast.value));
      HolesOne(CastTo(cast.value));
    }
  }

  lemma SetListIsWritten(vs: seq<Value>, cast: Option<string>)
    ensures IsWritten(SetList(vs, cast), ListString(vs, ValueMark(cast)), vs)
  {
    if vs == [] {
      NeverIsWritten();
    } else {
      BoundsAreSpelled(vs, cast);
      MarksAreOperands(vs, cast);
      ParenthesesAreWritten(WriteOperands(Bounds(vs, cast)), Repeated(ValueMark(cast), |vs|), vs);
    }
  }

  /** A boolean is written as the literal that it is. */
  lemma LiteralIsWritten(b: bool)
    ensures IsWritten([Word(BoolText(b))], if b then "TRUE" else "FALSE", [])
  {
    WrittenOne(Word(BoolText(b)));
  }

  lemma SetIsSpelled(value: SetValue, casts: bool)
    requires value.SetToken? ==> GoodSetToken(value.t)
    ensures IsWritten(SetText(value, casts), SetString(value, casts), SetParams(value))
  {
    match value
    case Bind(v, cast) => BoundIsWritten(v, cast);
    case SetToken(t) =>
      match t
      case Plain(v, _) => BoundIsWritten(v, None);
      case Immediate(text) => WrittenOne(Word(text));
      case NullToken => WrittenOne(Word("NULL"));
      case NotNullToken => WrittenOne(Word("NOT NULL"));
      case BoolToken(b) => LiteralIsWritten(b);
      case ArrayToken(vs) => SetListIsWritten(vs, None);
      case Dynamic(func, values) => ExpressionIsSpelled(func, values);
      case RawToken(text) => WrittenOne(Word(text));
      case Cast(v, sqlType, _) => BoundIsWritten(v, if casts then Some(sqlType) else None);
      case CastArray(vs, sqlType) => SetListIsWritten(vs, if casts then Some(sqlType) else None);
  }

  function SetStrings(values: seq<(string, SetValue)>, casts: bool): seq<string> {
    if values == [] then []
    else SetStrings(values[..|values| - 1], casts) + [values[|values| - 1].0 + " = " + SetString(values[|values| - 1].1, casts)]
  }

  function SetsParams(values: seq<(string, SetValue)>): seq<Value> {
    if values == [] then [] else SetsParams(values[..|values| - 1]) + SetParams(values[|values| - 1].1)
  }

  lemma ClauseIsSpelled(column: string, value: SetValue, casts: bool)
    requires value.SetToken? ==> GoodSetToken(value.t)
    ensures IsWritten([Word(column), Operator("=")] + SetText(value, casts), column + " = " + SetString(value, casts), SetParams(value))
  {
    SetIsSpelled(value, casts);
    SpellTwo(Word(column), Operator("="));
    assert Spell(Operator("=")) == " = ";
    NoHolesOf([Word(column), Operator("=")]);
    WrittenAppend([Word(column), Operator("=")], column + " = ", [], SetText(value, casts), SetString(value, casts), SetParams(value));
    assert [] + SetParams(value) == SetParams(value);
  }

  lemma {:induction false} SetsAreSpelled(values: seq<(string, SetValue)>, casts: bool)
    requires forall v <- values :: v.1.SetToken? ==> GoodSetToken(v.1.t)
    ensures AllSpelled(SetClauses(values, casts)) == SetStrings(values, casts)
    ensures HolesOf(Concat(SetClauses(values, casts))) == SetsParams(values)
  {
    if values != [] {
      var init, last := values[..|values| - 1], values[|values| - 1];
      assert last in values;
      SetsAreSpelled(init, casts);
      ClauseIsSpelled(last.0, last.1, casts);
      var clause := [Word(last.0), Operator("=")] + SetText(last.1, casts);
      AllSpelledAppend(SetClauses(init, casts), [clause]);
      assert AllSpelled([clause]) == [SpellAll(clause)] by {
        assert [clause][1..] == [];
      }
      HolesSnoc(SetClauses(init, casts), clause);
    }
  }

  lemma ClausesAreWritten(values: seq<(string, SetValue)>, casts: bool, comma: string)
    requires (forall v <- values :: v.1.SetToken? ==> GoodSetToken(v.1.t)) && comma == Spell(Comma)
    ensures IsWritten(Separated(SetClauses(values, casts), Comma), Listed(SetStrings(values, casts), comma), SetsParams(values))
  {
    SetsAreSpelled(values, casts);
    SeparatedIsSpelled(SetClauses(values, casts), SetStrings(values, casts), SetsParams(values), Comma);
  }

  lemma ConditionsAreWritten(conditions: Conditions, casts: bool)
    requires GoodConditions(conditions, casts)
    ensures IsWritten(ConditionsText(conditions, casts), ConditionsString(conditions, casts), ConditionsParams(conditions))
  {
    GoodFits(conditions, casts);
    TreeIsSpelled(conditions, casts);
  }

  lemma UpdateHasPieces(head: string, sets: Sql, list: string, ps: seq<Value>, where: Sql, text: string, qs: seq<Value>, table: string, values: seq<(string, SetValue)>, conditions: Conditions, casts: bool)
    requires head == "UPDATE " + table + " SET " && sets == Separated(SetClauses(values, casts), Comma) && where == ConditionsText(conditions, casts)
    requires IsWritten(sets, list, ps) && IsWritten(where, text, qs)
    ensures IsWritten(UpdateText(table, values, conditions, casts), head + list + " WHERE " + text, ps + qs)
  {
    UpdatePieces(head, sets, list, ps, where, text, qs, Spell(Where));
  }

  /** UPDATE, as it is sent. */
  lemma UpdateIsSpelled(table: string, values: seq<(string, SetValue)>, conditions: Conditions, casts: bool)
    requires GoodConditions(conditions, casts) && forall v <- values :: v.1.SetToken? ==> GoodSetToken(v.1.t)
    ensures IsWritten(UpdateText(table, values, conditions, casts),
      ("UPDATE " + table + " SET ") + Listed(SetStrings(values, casts), ", ") + " WHERE " + ConditionsString(conditions, casts),
      SetsParams(values) + ConditionsParams(conditions))
  {
    ClausesAreWritten(values, casts, ", ");
    ConditionsAreWritten(conditions, casts);
    UpdateHasPieces("UPDATE " + table + " SET ", Separated(SetClauses(values, casts), Comma), Listed(SetStrings(values, casts), ", "), SetsParams(values),
                    ConditionsText(conditions, casts), ConditionsString(conditions, casts), ConditionsParams(conditions), table, values, conditions, casts);
  }

  lemma UpdatePieces(head: string, sets: Sql, list: string, ps: seq<Value>, where: Sql, text: string, qs: seq<Value>, between: string)
    requires IsWritten(sets, list, ps) && IsWritten(where, text, qs) && between == Spell(Where)
    ensures IsWritten([Word(head)] + sets + [Where] + where, head + list + between + text, ps + qs)
  {
    Bracketed3([Word(head)], head, sets, list, ps, [Where], between);
    WrittenAppend([Word(head)] + sets + [Where], head + list + between, ps, where, text, qs);
  }

  lemma Bracketed3(a: Sql, sa: string, b: Sql, sb: string, pb: seq<Value>, c: Sql, sc: string)
    requires |a| == 1 && a[0] == Word(sa) && |c| == 1 && !c[0].Hole? && Spell(c[0]) == sc && IsWritten(b, sb, pb)
    ensures IsWritten(a + b + c, sa + sb + sc, pb)
  {
    assert a == [a[0]] && c == [c[0]];
    WrittenOne(a[0]);
    WrittenOne(c[0]);
    WrittenAppend(a, sa, [], b, sb, pb);
    assert [] + pb == pb && pb + [] == pb;
    WrittenAppend(a + b, sa + sb, pb, c, sc, []);
  }

  // ---------------------------------------------------------------------------------------------
  // SELECT
  // ---------------------------------------------------------------------------------------------

  function WithString(custom: Option<Cte>, query: Option<Cte>): string {
    match (custom, query)
    case (None, None) => ""
    case (Some(c), None) => ("WITH " + c.name + " AS (") + SpellAll(c.body.sql) + ") "
    case (None, Some(q)) => ("WITH " + q.name + " AS (") + SpellAll(q.body.sql) + ") "
    case (Some(c), Some(q)) =>
      ("WITH " + c.name + " AS (") + SpellAll(c.body.sql) + ("), " + q.name + " AS (") + SpellAll(q.body.sql) + ") "
  }

  lemma WithIsSpelled(custom: Option<Cte>, query: Option<Cte>)
    ensures SpellAll(WithClause(custom, query)) == WithString(custom, query)
  {
    SpellOne(Word(") "));
    match (custom, query)
    case (None, None) =>
    case (Some(c), None) => OneWith(c);
    case (None, Some(q)) => OneWith(q);
    case (Some(c), Some(q)) => TwoWith(c, q);
  }

  lemma OneWith(c: Cte)
    ensures SpellAll([Word("WITH " + c.name + " AS (")] + c.body.sql + [Word(") ")]) == ("WITH " + c.name + " AS (") + SpellAll(c.body.sql) + ") "
  {
    SpellOne(Word("WITH " + c.name + " AS ("));
    SpellOne(Word(") "));
    SpellAround([Word("WITH " + c.name + " AS (")], c.body.sql, [Word(") ")]);
  }

  lemma FiveSpelled(a: Sql, b: Sql, c: Sql, d: Sql, e: Sql)
    ensures SpellAll(a + b + c + d + e) == SpellAll(a) + SpellAll(b) + SpellAll(c) + SpellAll(d) + SpellAll(e)
  {
    SpellAround(a, b, c);
    SpellAround(a + b + c, d, e);
  }

  lemma TwoWith(c: Cte, q: Cte)
    ensures SpellAll([Word("WITH " + c.name + " AS (")] + c.body.sql + [Word("), " + q.name + " AS (")] + q.body.sql + [Word(") ")]) ==
      ("WITH " + c.name + " AS (") + SpellAll(c.body.sql) + ("), " + q.name + " AS (") + SpellAll(q.body.sql) + ") "
  {
    var first, second := "WITH " + c.name + " AS (", "), " + q.name + " AS (";
    SpellOne(Word(first));
    SpellOne(Word(second));
    SpellOne(Word(") "));
    FiveSpelled([Word(first)], c.body.sql, [Word(second)], q.body.sql, [Word(") ")]);
  }

  function JoinString(join: Option<SqlFragment>): string {
    match join case None => "" case Some(j) => SpellAll(j.sql)
  }

  /** WITH, SELECT, FROM, the JOIN text, WHERE if there are conditions, and the tail. */
  lemma SelectClauseIsSpelled(columns: string, table: string, join: Option<SqlFragment>, where: Sql, tail: string)
    ensures SpellAll(SelectClause(columns, table, join, where, tail)) ==
      ("SELECT " + columns + " FROM " + table) + JoinString(join) + (if where == [] then "" else " WHERE " + SpellAll(where)) + tail
  {
    var head := "SELECT " + columns + " FROM " + table;
    var joined, filtered := match join case None => [] case Some(j) => j.sql, if where == [] then [] else [Where] + where;
    SpellOne(Word(head));
    SpellOne(Word(tail));
    SpellOne(Where);
    SpellAppend([Where], where);
    SpellAround([Word(head)], joined, filtered);
    SpellAppend([Word(head)] + joined + filtered, [Word(tail)]);
  }

  /** The SELECT of a model, as it is sent. */
  lemma SelectIsSpelled(m: Model, conditions: Conditions, options: Options, casts: bool, r: SqlFragment)
    requires GoodModel(m, casts) && GoodOptions(options) && GoodConditions(conditions, casts)
    requires r.Balanced() && r.sql == SelectText(m, conditions, options, casts)
    ensures
      var all := match m.findFilter case None => conditions case Some(f) => Conditions(conditions.entries, conditions.operator, conditions.nested + [Nested(f, And)]);
      var where := ConditionsString(all, casts);
      && SpellAll(r.sql) == WithString(options.cte, m.query) +
           (("SELECT " + m.columns + " FROM " + m.Source()) + JoinString(options.join) + (if where == "" then "" else " WHERE " + where) + options.tail)
      && r.params == CteParams(options.cte) + CteParams(m.query) + JoinParams(options.join) + ConditionsParams(all)
  {
    var all := WithFilter(conditions, m.findFilter);
    var where := ConditionsText(all, casts);
    WithFilterFits(conditions, m.findFilter, casts);
    TreeIsSpelled(all, casts);
    SelectHoles(m, options, where);
    WithIsSpelled(options.cte, m.query);
    SelectClauseIsSpelled(m.columns, m.Source(), options.join, where, options.tail);
    SpellAppend(WithClause(options.cte, m.query), SelectClause(m.columns, m.Source(), options.join, where, options.tail));
  }

  /** The plain SELECT, with a leading condition. */
  lemma PlainIsSpelled(table: string, columns: string, raw: Sql, conditions: Conditions, options: Options, casts: bool)
    requires GoodConditions(conditions, casts) && raw != []
    ensures
      var where := ConditionsString(conditions, casts);
      SpellAll(PlainText(table, columns, raw, conditions, options, casts)) == WithString(options.cte, None) +
        (("SELECT " + columns + " FROM " + table) + JoinString(options.join) +
         (" WHERE " + if where == "" then SpellAll(raw) else SpellAll(raw) + " AND " + where) + options.tail)
  {
    var compiled := ConditionsText(conditions, casts);
    GoodFits(conditions, casts);
    TreeIsSpelled(conditions, casts);
    SeparatorIsSpelled(raw, AndTok, compiled);
    WithIsSpelled(options.cte, None);
    SelectClauseIsSpelled(columns, table, options.join, Both(raw, compiled), options.tail);
    SpellAppend(WithClause(options.cte, None), SelectClause(columns, table, options.join, Both(raw, compiled), options.tail));
  }

  // ---------------------------------------------------------------------------------------------
  // Limited relation loads
  // ---------------------------------------------------------------------------------------------

  function TypeMarks(types: seq<string>): seq<string> {
    if types == [] then [] else ["?::" + types[0]] + TypeMarks(types[1..])
  }

  lemma {:induction false} ArrayMarksAreSpelled(arrays: seq<seq<Value>>, types: seq<string>)
    requires |types| == |arrays|
    ensures AllSpelled(ArrayMarks(arrays, types)) == TypeMarks(types)
  {
    if arrays != [] {
      ArrayMarksAreSpelled(arrays[1..], types[1..]);
      BoundIsSpelled(Array(arrays[0]), Some(types[0]));
      assert ArrayMarks(arrays, types)[1..] == ArrayMarks(arrays[1..], types[1..]);
    }
  }

  /** LATERAL, around the inner query. */
  lemma LateralIsSpelled(table: string, arrays: seq<seq<Value>>, types: seq<string>, inner: Sql)
    requires |types| == |arrays|
    ensures SpellAll(LateralText(table, ArrayMarks(arrays, types), inner)) ==
      ("SELECT " + table + ".* FROM unnest(") + Listed(TypeMarks(types), ", ") + ") AS _keys CROSS JOIN LATERAL (" + SpellAll(inner) + (") " + table)
  {
    var head, marks, end := "SELECT " + table + ".* FROM unnest(", Separated(ArrayMarks(arrays, types), Comma), ") " + table;
    ArrayMarksAreSpelled(arrays, types);
    SpellSeparated(ArrayMarks(arrays, types), Comma);
    SpellOne(Word(head));
    SpellOne(Word(") AS _keys CROSS JOIN LATERAL ("));
    SpellOne(Word(end));
    FiveSpelled([Word(head)], marks, [Word(") AS _keys CROSS JOIN LATERAL (")], inner, [Word(end)]);
  }

  /** ROW_NUMBER, around the inner query. */
  lemma RankedIsSpelled(inner: Sql, limit: string, casts: bool)
    ensures SpellAll(RankedText(inner, limit, casts)) ==
      ("WITH " + "ranked" + " AS (") + SpellAll(inner) + ") " + (("SELECT " + "*" + " FROM " + "ranked") + "" + (" WHERE " + ("_rn <= " + limit)) + "")
  {
    var options := NO_OPTIONS.(cte := Some(Cte("ranked", SqlFragment(inner, HolesOf(inner)))));
    SpellOne(Word("_rn <= " + limit));
    NothingIsWritten(casts);
    PlainIsSpelled("ranked", "*", [Word("_rn <= " + limit)], NO_CONDITIONS, options, casts);
  }

  lemma NothingIsWritten(casts: bool)
    ensures ConditionsString(NO_CONDITIONS, casts) == ""
  {
  }

  // ---------------------------------------------------------------------------------------------
  // The sql`...` template
  // ---------------------------------------------------------------------------------------------

  /** What each kind of interpolated value becomes. */
  function InterpolationString(i: Interpolation): string {
    match i
    case Identifier(text) => text
    case Inner(fragment) => SpellAll(fragment.sql)
    case Items(vs) => if vs == [] then "NULL" else Repeated("?", |vs|)
    case Nothing => "NULL"
    case Single(_) => "?"
  }

  function InterpolationParams(i: Interpolation): seq<Value> {
    match i
    case Inner(fragment) => fragment.params
    case Items(vs) => vs
    case Single(v) => [v]
    case _ => []
  }

  lemma InterpolationIsSpelled(i: Interpolation)
    requires GoodInterpolation(i)
    ensures IsWritten(Statements.TextOf(i), InterpolationString(i), InterpolationParams(i))
  {
    match i
    case Identifier(text) => WrittenOne(Word(text));
    case Inner(fragment) =>
    case Items(vs) =>
      if vs == [] {
        WrittenOne(Word("NULL"));
      } else {
        SpellHoleList(vs);
        QuestionsAreRepeated(|vs|);
        HoleListHoles(vs);
      }
    case Nothing => WrittenOne(Word("NULL"));
    case Single(v) =>
      SpellOne(Hole(v));
      HolesOne(Hole(v));
  }

  function TemplateString(strings: seq<string>, values: seq<Interpolation>): string
    requires |strings| == |values| + 1
  {
    if values == [] then strings[0]
    else TemplateString(strings[..|strings| - 1], values[..|values| - 1]) + InterpolationString(values[|values| - 1]) + strings[|strings| - 1]
  }

  function TemplateParams(values: seq<Interpolation>): seq<Value> {
    if values == [] then [] else TemplateParams(values[..|values| - 1]) + InterpolationParams(values[|values| - 1])
  }

  /** A template with one more value and the stretch after it. */
  lemma TemplateLonger(strings: seq<string>, values: seq<Interpolation>, v: Interpolation, text: string)
    requires |strings| == |values| + 1 && GoodInterpolation(v)
    requires IsWritten(Interleaved(strings, values), TemplateString(strings, values), TemplateParams(values))
    ensures IsWritten(Interleaved(strings + [text], values + [v]), TemplateString(strings + [text], values + [v]), TemplateParams(values + [v]))
  {
    var s, vs := strings + [text], values + [v];
    assert s[..|s| - 1] == strings && vs[..|vs| - 1] == values;
    InterpolationIsSpelled(v);
    WrittenOne(Word(text));
    TemplateNext(Interleaved(strings, values), TemplateString(strings, values), TemplateParams(values),
                 Statements.TextOf(v), InterpolationString(v), InterpolationParams(v), [Word(text)], text);
  }

  /** A template as it is sent: its stretches of text with the values between them, nested fragments flattened, and the
      parameters of all of them in order. */
  lemma {:induction false} TemplateIsSpelled(strings: seq<string>, values: seq<Interpolation>)
    requires |strings| == |values| + 1 && forall v <- values :: GoodInterpolation(v)
    ensures IsWritten(Interleaved(strings, values), TemplateString(strings, values), TemplateParams(values))
    decreases |values|
  {
    if values == [] {
      WrittenOne(Word(strings[0]));
    } else {
      var n := |values| - 1;
      var before, earlier := strings[..n + 1], values[..n];
      assert values[n] in values;
      TemplateIsSpelled(before, earlier);
      TemplateLonger(before, earlier, values[n], strings[n + 1]);
      assert strings == before + [strings[n + 1]] && values == earlier + [values[n]];
    }
  }

  lemma TemplateNext(a: Sql, sa: string, pa: seq<Value>, b: Sql, sb: string, pb: seq<Value>, c: Sql, sc: string)
    requires IsWritten(a, sa, pa) && IsWritten(b, sb, pb) && IsWritten(c, sc, [])
    ensures IsWritten(a + b + c, sa + sb + sc, pa + pb)
  {
    WrittenAppend(a, sa, pa, b, sb, pb);
    WrittenAppend(a + b, sa + sb, pa + pb, c, sc, []);
    assert pa + pb + [] == pa + pb;
  }
}
