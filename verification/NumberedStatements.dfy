/** The statements of the builders as they are sent: which of them have their k-th placeholder numbered for their k-th parameter. */
module NumberedStatements {
  import opened Sequences
  import opened SqlText
  import opened Placeholders
  import opened ConditionCompiler
  import opened BoundPlaceholders
  import opened Statements

  /** As sent, every `?` of the text is numbered for one parameter, the k-th for the k-th. */
  predicate IsBound(r: SqlFragment) {
    r.Balanced() && Holes(SpellAll(r.sql)) == |r.params| && Numbered(SpellAll(r.sql), 0) == SpellNumbered(r.sql, 0)
  }

  lemma {:induction false} FreeWhenNone(s: string)
    requires Holes(s) == 0
    ensures Free(s, '?')
  {
    if s != "" {
      FreeWhenNone(s[1..]);
      assert [s[0]] + s[1..] == s;
    }
  }

  lemma {:induction false} OnlyHolesIff(ts: Sql)
    ensures OnlyHoles(ts) <==> Loose(ts) == 0
  {
    if ts != [] {
      assert ts == [ts[0]] + ts[1..];
      OnlyHolesIff(ts[1..]);
      if Holes(Spell(ts[0])) == 0 {
        FreeWhenNone(Spell(ts[0]));
      }
      if Free(Spell(ts[0]), '?') {
        NoneWhenFree(Spell(ts[0]));
      }
      assert OnlyHoles(ts) <==> (!ts[0].Hole? ==> Free(Spell(ts[0]), '?')) && OnlyHoles(ts[1..]);
    }
  }

  /** A balanced statement is bound exactly when it has no `?` beside its holes. */
  lemma BoundIff(r: SqlFragment)
    requires r.Balanced()
    ensures IsBound(r) <==> Loose(r.sql) == 0
  {
    SpelledHoles(r.sql);
    OnlyHolesIff(r.sql);
    if OnlyHoles(r.sql) {
      HolesAreNumbered(r.sql, 0);
    }
  }

  // ---------------------------------------------------------------------------------------------
  // The parts of a statement
  // ---------------------------------------------------------------------------------------------

  lemma WordCount(before: string, name: string, after: string)
    requires Free(before, '?') && Free(after, '?')
    ensures Loose([Word(before + name + after)]) == Holes(name)
  {
    NoneWhenFree(before);
    NoneWhenFree(after);
    HolesOfJoined(before, name);
    HolesOfJoined(before + name, after);
    LooseOne(Word(before + name + after));
  }

  lemma LastWordCount(before: string, name: string)
    requires Free(before, '?')
    ensures Loose([Word(before + name)]) == Holes(name)
  {
    assert before + name + "" == before + name;
    WordCount(before, name, "");
  }

  lemma FreeTokens(ts: Sql)
    requires OnlyHoles(ts)
    ensures Loose(ts) == 0
  {
    OnlyHolesIff(ts);
  }

  function CteLoose(cte: Option<Cte>): nat {
    match cte case None => 0 case Some(c) => Holes(c.name) + Loose(c.body.sql)
  }

  function JoinLoose(join: Option<SqlFragment>): nat {
    match join case None => 0 case Some(j) => Loose(j.sql)
  }

  lemma OneCteCount(c: Cte)
    ensures Loose([Word("WITH " + c.name + " AS (")] + c.body.sql + [Word(") ")]) == CteLoose(Some(c))
  {
    WordCount("WITH ", c.name, " AS (");
    FreeTokens([Word(") ")]);
    LooseAround([Word("WITH " + c.name + " AS (")], c.body.sql, [Word(") ")]);
  }

  lemma TwoCtesCount(c: Cte, q: Cte)
    ensures Loose([Word("WITH " + c.name + " AS (")] + c.body.sql + [Word("), " + q.name + " AS (")] + q.body.sql + [Word(") ")]) ==
      CteLoose(Some(c)) + CteLoose(Some(q))
  {
    WordCount("WITH ", c.name, " AS (");
    WordCount("), ", q.name, " AS (");
    FreeTokens([Word(") ")]);
    var first := [Word("WITH " + c.name + " AS (")] + c.body.sql + [Word("), " + q.name + " AS (")];
    LooseAround([Word("WITH " + c.name + " AS (")], c.body.sql, [Word("), " + q.name + " AS (")]);
    LooseAround(first, q.body.sql, [Word(") ")]);
  }

  lemma WithClauseCount(custom: Option<Cte>, query: Option<Cte>)
    ensures Loose(WithClause(custom, query)) == CteLoose(custom) + CteLoose(query)
  {
    match (custom, query)
    case (None, None) =>
    case (Some(c), None) => OneCteCount(c);
    case (None, Some(q)) => OneCteCount(q);
    case (Some(c), Some(q)) => TwoCtesCount(c, q);
  }

  lemma TwoNamesCount(before: string, a: string, between: string, b: string)
    requires Free(before, '?') && Free(between, '?')
    ensures Loose([Word(before + a + between + b)]) == Holes(a) + Holes(b)
  {
    NoneWhenFree(before);
    NoneWhenFree(between);
    HolesOfJoined(before, a);
    HolesOfJoined(before + a, between);
    HolesOfJoined(before + a + between, b);
    LooseOne(Word(before + a + between + b));
  }

  lemma SelectClauseCount(columns: string, table: string, join: Option<SqlFragment>, where: Sql, tail: string)
    ensures Loose(SelectClause(columns, table, join, where, tail)) == Holes(columns) + Holes(table) + JoinLoose(join) + Loose(where) + Holes(tail)
  {
    var head, joined := [Word("SELECT " + columns + " FROM " + table)], match join case None => [] case Some(j) => j.sql;
    var filtered := if where == [] then [] else [Where] + where;
    TwoNamesCount("SELECT ", columns, " FROM ", table);
    FreeTokens([Where]);
    LooseAppend([Where], where);
    LooseOne(Word(tail));
    LooseAround(head, joined, filtered);
    LooseAppend(head + joined + filtered, [Word(tail)]);
  }

  // ---------------------------------------------------------------------------------------------
  // SELECT
  // ---------------------------------------------------------------------------------------------

  /** The `?` of a SELECT that nothing is bound to: in names, in the text of its parts, and in the conditions. */
  function SelectLoose(m: Model, conditions: Conditions, options: Options, casts: bool): nat {
    CteLoose(options.cte) + CteLoose(m.query) + Holes(m.columns) + Holes(m.Source()) + JoinLoose(options.join) +
    ConditionsLoose(WithFilter(conditions, m.findFilter), casts) + Holes(options.tail)
  }

  /** The SELECT of a model is sent with its k-th placeholder numbered for its k-th parameter exactly when none of its parts
      has a `?` of its own. */
  lemma SelectIsBoundIff(m: Model, conditions: Conditions, options: Options, casts: bool, r: SqlFragment)
    requires GoodModel(m, casts) && GoodConditions(conditions, casts)
    requires r.Balanced() && r.sql == SelectText(m, conditions, options, casts)
    ensures IsBound(r) <==> SelectLoose(m, conditions, options, casts) == 0
  {
    var all := WithFilter(conditions, m.findFilter);
    WithFilterFits(conditions, m.findFilter, casts);
    TreeCount(all, casts);
    WithClauseCount(options.cte, m.query);
    SelectClauseCount(m.columns, m.Source(), options.join, ConditionsText(all, casts), options.tail);
    LooseAppend(WithClause(options.cte, m.query), SelectClause(m.columns, m.Source(), options.join, ConditionsText(all, casts), options.tail));
    BoundIff(r);
  }

  function PlainLoose(table: string, columns: string, raw: Sql, conditions: Conditions, options: Options, casts: bool): nat {
    CteLoose(options.cte) + Holes(columns) + Holes(table) + JoinLoose(options.join) + Loose(raw) + ConditionsLoose(conditions, casts) + Holes(options.tail)
  }

  lemma PlainCount(table: string, columns: string, raw: Sql, conditions: Conditions, options: Options, casts: bool)
    requires GoodConditions(conditions, casts)
    ensures Loose(PlainText(table, columns, raw, conditions, options, casts)) == PlainLoose(table, columns, raw, conditions, options, casts)
  {
    var compiled := ConditionsText(conditions, casts);
    var where := Both(raw, compiled);
    GoodFits(conditions, casts);
    TreeCount(conditions, casts);
    FixedIsClean(AndTok);
    LooseAround(raw, [AndTok], compiled);
    WithClauseCount(options.cte, None);
    SelectClauseCount(columns, table, options.join, where, options.tail);
    LooseAppend(WithClause(options.cte, None), SelectClause(columns, table, options.join, where, options.tail));
  }

  // ---------------------------------------------------------------------------------------------
  // Limited relation loads
  // ---------------------------------------------------------------------------------------------

  function AllHoles(texts: seq<string>): nat {
    if texts == [] then 0 else Holes(texts[0]) + AllHoles(texts[1..])
  }

  lemma CastCount(v: Value, sqlType: string)
    ensures Loose([Hole(v), CastTo(sqlType)]) == Holes(sqlType)
  {
    assert [Hole(v), CastTo(sqlType)] == [Hole(v)] + [CastTo(sqlType)];
    LooseAppend([Hole(v)], [CastTo(sqlType)]);
    LooseOne(Hole(v));
    LooseOne(CastTo(sqlType));
    NoneWhenFree("::");
    HolesOfJoined("::", sqlType);
  }

  lemma {:induction false} ArrayMarksCount(arrays: seq<seq<Value>>, types: seq<string>)
    requires |types| == |arrays|
    ensures Loose(Concat(ArrayMarks(arrays, types))) == AllHoles(types)
  {
    if arrays != [] {
      ArrayMarksCount(arrays[1..], types[1..]);
      CastCount(Array(arrays[0]), types[0]);
      LooseAppend([Hole(Array(arrays[0])), CastTo(types[0])], Concat(ArrayMarks(arrays[1..], types[1..])));
    }
  }

  function LateralLoose(table: string, types: seq<string>, join: string, conditions: Conditions, tail: string, casts: bool): nat {
    2 * Holes(table) + AllHoles(types) + PlainLoose(table, "*", [Word(join)], conditions, NO_OPTIONS.(tail := tail), casts)
  }

  lemma LateralCount(table: string, arrays: seq<seq<Value>>, types: seq<string>, inner: Sql)
    requires |types| == |arrays|
    ensures Loose(LateralText(table, ArrayMarks(arrays, types), inner)) == 2 * Holes(table) + AllHoles(types) + Loose(inner)
  {
    var head, keys := [Word("SELECT " + table + ".* FROM unnest(")], Separated(ArrayMarks(arrays, types), Comma);
    var alias, end := [Word(") AS _keys CROSS JOIN LATERAL (")], [Word(") " + table)];
    WordCount("SELECT ", table, ".* FROM unnest(");
    LastWordCount(") ", table);
    FreeTokens(alias);
    ArrayMarksCount(arrays, types);
    LooseSeparated(ArrayMarks(arrays, types), Comma);
    LooseAround(head, keys, alias);
    LooseAround(head + keys + alias, inner, end);
  }

  lemma LateralIsBoundIff(table: string, tuples: seq<seq<Value>>, types: seq<string>, join: string, conditions: Conditions, tail: string, casts: bool, r: SqlFragment)
    requires AllWide(tuples, |types|) && GoodConditions(conditions, casts) && r.Balanced()
    requires r.sql == LateralText(table, ArrayMarks(ColumnArrays(tuples, |types|), types), InnerText(table, "*", [Word(join)], conditions, tail, casts))
    ensures IsBound(r) <==> LateralLoose(table, types, join, conditions, tail, casts) == 0
  {
    PlainCount(table, "*", [Word(join)], conditions, NO_OPTIONS.(tail := tail), casts);
    LateralCount(table, ColumnArrays(tuples, |types|), types, InnerText(table, "*", [Word(join)], conditions, tail, casts));
    BoundIff(r);
  }

  lemma RankedOverCount(name: string, all: string, inner: Sql, raw: Sql, casts: bool)
    requires Holes(name) == 0 && Holes(all) == 0
    ensures Loose(PlainText(name, all, raw, NO_CONDITIONS, NO_OPTIONS.(cte := Some(Cte(name, SqlFragment(inner, HolesOf(inner))))), casts)) == Loose(inner) + Loose(raw)
  {
    PlainCount(name, all, raw, NO_CONDITIONS, NO_OPTIONS.(cte := Some(Cte(name, SqlFragment(inner, HolesOf(inner))))), casts);
  }

  lemma RankedCount(inner: Sql, limit: string, casts: bool)
    ensures Loose(RankedText(inner, limit, casts)) == Loose(inner) + Holes(limit)
  {
    NoneWhenFree("ranked");
    NoneWhenFree("*");
    RankedOverCount("ranked", "*", inner, [Word("_rn <= " + limit)], casts);
    LastWordCount("_rn <= ", limit);
  }

  lemma {:induction false} FixedAreClean(ts: Sql)
    requires forall t <- ts :: IsFixed(t)
    ensures Loose(ts) == 0
  {
    if ts != [] {
      FixedIsClean(ts[0]);
      FixedAreClean(ts[1..]);
    }
  }

  lemma {:induction false} NamesCount(names: seq<string>)
    ensures Loose(WriteNames(names)) == AllHoles(names)
  {
    if names != [] {
      LooseOne(Word(names[0]));
      if |names| == 1 {
        assert names[1..] == [];
      } else {
        NamesCount(names[1..]);
        FixedIsClean(Comma);
        assert [Word(names[0]), Comma] == [Word(names[0])] + [Comma];
        LooseAppend([Word(names[0])], [Comma]);
        LooseAppend([Word(names[0]), Comma], WriteNames(names[1..]));
      }
    }
  }

  lemma {:induction false} TuplesAreClean(tuples: seq<seq<Value>>)
    ensures Loose(WriteTuples(tuples)) == 0
  {
    if tuples != [] {
      var close := if |tuples| == 1 then [Close] else [Close, Comma];
      HoleListIsClean(tuples[0]);
      FixedAreClean([Open]);
      FixedAreClean(close);
      LooseAround([Open], HoleList(tuples[0]), close);
      if |tuples| > 1 {
        TuplesAreClean(tuples[1..]);
        LooseAppend([Open] + HoleList(tuples[0]) + close, WriteTuples(tuples[1..]));
      }
    }
  }

  lemma KeyConditionCount(columns: seq<string>, tuples: seq<seq<Value>>)
    ensures Loose(WritePrim(InTuples(columns, tuples))) == AllHoles(columns)
  {
    var between := [Close, InTok(false), Open];
    NamesCount(columns);
    TuplesAreClean(tuples);
    FixedAreClean([Open]);
    FixedAreClean(between);
    FixedAreClean([Close]);
    LooseAround([Open], WriteNames(columns), between);
    LooseAround([Open] + WriteNames(columns) + between, WriteTuples(tuples), [Close]);
  }

  function RankedLoose(table: string, ranked: string, raw: nat, limit: string, conditions: Conditions, casts: bool): nat {
    Holes(ranked) + Holes(table) + raw + ConditionsLoose(conditions, casts) + Holes(limit)
  }

  /** ROW_NUMBER for composite keys. */
  lemma CompositeIsBoundIff(table: string, columns: seq<string>, tuples: seq<seq<Value>>, ranked: string, limit: string, conditions: Conditions, casts: bool, r: SqlFragment)
    requires GoodConditions(conditions, casts) && r.Balanced()
    requires r.sql == RankedText(InnerText(table, ranked, WritePrim(InTuples(columns, tuples)), conditions, "", casts), limit, casts)
    ensures IsBound(r) <==> RankedLoose(table, ranked, AllHoles(columns), limit, conditions, casts) == 0
  {
    KeyConditionCount(columns, tuples);
    PlainCount(table, ranked, WritePrim(InTuples(columns, tuples)), conditions, NO_OPTIONS.(tail := ""), casts);
    RankedCount(InnerText(table, ranked, WritePrim(InTuples(columns, tuples)), conditions, "", casts), limit, casts);
    BoundIff(r);
  }

  /** ROW_NUMBER for a single key, whose condition is an entry of the record. */
  lemma RankedIsBoundIff(table: string, ranked: string, limit: string, conditions: Conditions, casts: bool, r: SqlFragment)
    requires GoodConditions(conditions, casts) && r.Balanced()
    requires r.sql == RankedText(InnerText(table, ranked, [], conditions, "", casts), limit, casts)
    ensures IsBound(r) <==> RankedLoose(table, ranked, 0, limit, conditions, casts) == 0
  {
    PlainCount(table, ranked, [], conditions, NO_OPTIONS.(tail := ""), casts);
    RankedCount(InnerText(table, ranked, [], conditions, "", casts), limit, casts);
    BoundIff(r);
  }

  // ---------------------------------------------------------------------------------------------
  // UPDATE
  // ---------------------------------------------------------------------------------------------

  /** Of column names, and of the text of tokens and types. */
  function SetsLoose(values: seq<(string, SetValue)>, casts: bool): nat {
    if values == [] then 0
    else SetsLoose(values[..|values| - 1], casts) + Holes(values[|values| - 1].0) + Loose(SetText(values[|values| - 1].1, casts))
  }

  lemma {:induction false} LooseSnoc(parts: seq<Sql>, part: Sql)
    ensures Loose(Concat(parts + [part])) == Loose(Concat(parts)) + Loose(part)
  {
    if parts == [] {
      assert parts + [part] == [part];
      ConcatOne(part);
    } else {
      assert (parts + [part])[1..] == parts[1..] + [part];
      LooseSnoc(parts[1..], part);
      LooseAppend(parts[0], Concat(parts[1..] + [part]));
      LooseAppend(parts[0], Concat(parts[1..]));
    }
  }

  lemma {:induction false} SetClausesCount(values: seq<(string, SetValue)>, casts: bool)
    ensures Loose(Concat(SetClauses(values, casts))) == SetsLoose(values, casts)
  {
    if values != [] {
      var (column, value) := values[|values| - 1];
      SetClausesCount(values[..|values| - 1], casts);
      LooseOne(Word(column));
      FixedIsClean(Operator("="));
      LooseAround([Word(column)], [Operator("=")], SetText(value, casts));
      assert [Word(column), Operator("=")] == [Word(column)] + [Operator("=")];
      LooseSnoc(SetClauses(values[..|values| - 1], casts), [Word(column), Operator("=")] + SetText(value, casts));
    }
  }

  lemma UpdateIsBoundIff(table: string, values: seq<(string, SetValue)>, conditions: Conditions, casts: bool, r: SqlFragment)
    requires GoodConditions(conditions, casts) && r.Balanced() && r.sql == UpdateText(table, values, conditions, casts)
    ensures IsBound(r) <==> Holes(table) + SetsLoose(values, casts) + ConditionsLoose(conditions, casts) == 0
  {
    var head, sets, where := [Word("UPDATE " + table + " SET ")], Separated(SetClauses(values, casts), Comma), ConditionsText(conditions, casts);
    GoodFits(conditions, casts);
    TreeCount(conditions, casts);
    WordCount("UPDATE ", table, " SET ");
    SetClausesCount(values, casts);
    LooseSeparated(SetClauses(values, casts), Comma);
    FreeTokens([Where]);
    LooseAround(head, sets, [Where]);
    LooseAppend(head + sets + [Where], where);
    BoundIff(r);
  }
}
