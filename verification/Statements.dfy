/** The statement builders: text is put together in one order and parameters are collected in another, and still
    the k-th hole of the text is the one that the k-th parameter was meant for. */
module Statements {
  import opened Sequences
  import opened SqlText
  import opened ConditionCompiler

  type Sql = seq<SqlText.Token>

  /** A piece of SQL with its parameters, one for each hole, in order. */
  datatype SqlFragment = SqlFragment(sql: Sql, params: seq<Value>) {
    predicate Balanced() {
      HolesOf(sql) == params
    }
  }

  // ---------------------------------------------------------------------------------------------
  // The sql`...` template
  // ---------------------------------------------------------------------------------------------

  /** What can be interpolated: an identifier of any kind, another fragment, an array, a null or a value. */
  datatype Interpolation =
    | Identifier(text: string)
    | Inner(fragment: SqlFragment)
    | Items(vs: seq<Value>)
    | Nothing
    | Single(v: Value)

  predicate GoodInterpolation(i: Interpolation) {
    i.Inner? ==> i.fragment.Balanced()
  }

  /** `processInterpolation`. */
  method ProcessInterpolation(val: Interpolation, params: ParamList) returns (sql: Sql)
    requires GoodInterpolation(val)
    modifies params
    ensures sql == TextOf(val) && params.items == old(params.items) + HolesOf(sql)
  {
    match val
    case Identifier(text) =>
      sql := [Word(text)];
      NoHolesOf(sql);
    case Inner(fragment) =>
      sql := fragment.sql;
      PushAll(fragment.params, params);
    case Items(vs) =>
      if vs == [] {
        sql := [Word("NULL")];
        NoHolesOf(sql);
      } else {
        var marks := PushMarks(vs, [], params);
        MarksAreHoles(vs);
        HoleListHoles(vs);
        sql := Separated(marks, Comma);
      }
    case Nothing =>
      sql := [Word("NULL")];
      NoHolesOf(sql);
    case Single(v) =>
      params.Push(v);
      sql := [Hole(v)];
      HolesOne(Hole(v));
  }

  method PushAll(vs: seq<Value>, params: ParamList)
    modifies params
    ensures params.items == old(params.items) + vs
  {
    for i := 0 to |vs|
      invariant params.items == old(params.items) + vs[..i]
    {
      params.Push(vs[i]);
    }
    assert vs[..|vs|] == vs;
  }

  /** The text that an interpolated value stands for. */
  function TextOf(val: Interpolation): Sql {
    match val
    case Identifier(text) => [Word(text)]
    case Inner(fragment) => fragment.sql
    case Items(vs) => if vs == [] then [Word("NULL")] else HoleList(vs)
    case Nothing => [Word("NULL")]
    case Single(v) => [Hole(v)]
  }

  function Interleaved(strings: seq<string>, values: seq<Interpolation>): Sql
    requires |strings| == |values| + 1
  {
    if values == [] then [Word(strings[0])]
    else Interleaved(strings[..|strings| - 1], values[..|values| - 1]) + TextOf(values[|values| - 1]) + [Word(strings[|strings| - 1])]
  }

  /** Nested fragments flatten into the outer one, and every hole keeps its parameter. */
  method Template(strings: seq<string>, values: seq<Interpolation>) returns (r: SqlFragment)
    requires |strings| == |values| + 1 && (forall v <- values :: GoodInterpolation(v))
    ensures r.Balanced() && r.sql == Interleaved(strings, values)
  {
    var params := new ParamList();
    var sql := [Word(strings[0])];
    HolesOne(Word(strings[0]));
    assert strings[..1] == [strings[0]];
    for i := 0 to |values|
      invariant sql == Interleaved(strings[..i + 1], values[..i]) && params.items == HolesOf(sql) && fresh(params)
    {
      var part := ProcessInterpolation(values[i], params);
      HolesAppend(sql, part);
      HolesAppend(sql + part, [Word(strings[i + 1])]);
      HolesOne(Word(strings[i + 1]));
      sql := sql + part + [Word(strings[i + 1])];
      assert strings[..i + 2][..i + 1] == strings[..i + 1] && values[..i + 1][..i] == values[..i];
    }
    assert strings[..|values| + 1] == strings && values[..|values|] == values;
    return SqlFragment(sql, params.items);
  }

  // ---------------------------------------------------------------------------------------------
  // SELECT
  // ---------------------------------------------------------------------------------------------

  datatype Cte = Cte(name: string, body: SqlFragment)

  /** `tail`: GROUP BY, ORDER BY, LIMIT, OFFSET, lock and appended text, which hold no parameters. */
  datatype Options = Options(cte: Option<Cte>, join: Option<SqlFragment>, tail: string)

  /** A model; a query-based one selects from its own query. */
  datatype Model = Model(table: string, columns: string, query: Option<Cte>, findFilter: Option<Conditions>) {
    function Source(): string {
      match query case Some(q) => q.name case None => table
    }
  }

  predicate GoodCte(cte: Option<Cte>) {
    cte.Some? ==> cte.value.body.Balanced()
  }

  predicate GoodOptions(o: Options) {
    GoodCte(o.cte) && (o.join.Some? ==> o.join.value.Balanced())
  }

  predicate GoodModel(m: Model, casts: bool) {
    GoodCte(m.query) && (m.findFilter.Some? ==> GoodConditions(m.findFilter.value, casts))
  }

  function CteParams(cte: Option<Cte>): seq<Value> {
    match cte case None => [] case Some(c) => c.body.params
  }

  function JoinParams(join: Option<SqlFragment>): seq<Value> {
    match join case None => [] case Some(j) => j.params
  }

  /** The WITH clause of the custom CTE and of the model's own query. */
  function WithClause(custom: Option<Cte>, query: Option<Cte>): Sql {
    match (custom, query)
    case (None, None) => []
    case (Some(c), None) => [Word("WITH " + c.name + " AS (")] + c.body.sql + [Word(") ")]
    case (None, Some(q)) => [Word("WITH " + q.name + " AS (")] + q.body.sql + [Word(") ")]
    case (Some(c), Some(q)) =>
      [Word("WITH " + c.name + " AS (")] + c.body.sql + [Word("), " + q.name + " AS (")] + q.body.sql + [Word(") ")]
  }

  lemma WithClauseHoles(custom: Option<Cte>, query: Option<Cte>)
    requires GoodCte(custom) && GoodCte(query)
    ensures HolesOf(WithClause(custom, query)) == CteParams(custom) + CteParams(query)
  {
    match (custom, query)
    case (None, None) =>
    case (Some(c), None) => HolesAround([Word("WITH " + c.name + " AS (")], c.body.sql, [Word(") ")]);
    case (None, Some(q)) => HolesAround([Word("WITH " + q.name + " AS (")], q.body.sql, [Word(") ")]);
    case (Some(c), Some(q)) =>
      var first := [Word("WITH " + c.name + " AS (")] + c.body.sql + [Word("), " + q.name + " AS (")];
      HolesAround([Word("WITH " + c.name + " AS (")], c.body.sql, [Word("), " + q.name + " AS (")]);
      HolesAppend(first, q.body.sql);
      HolesAppend(first + q.body.sql, [Word(") ")]);
      NoHolesOf([Word(") ")]);
  }

  /** Everything after the WITH clause. */
  function SelectClause(columns: string, table: string, join: Option<SqlFragment>, where: Sql, tail: string): Sql {
    [Word("SELECT " + columns + " FROM " + table)]
    + (match join case None => [] case Some(j) => j.sql)
    + (if where == [] then [] else [Where] + where)
    + [Word(tail)]
  }

  lemma SelectClauseHoles(columns: string, table: string, join: Option<SqlFragment>, where: Sql, tail: string)
    requires join.Some? ==> join.value.Balanced()
    ensures HolesOf(SelectClause(columns, table, join, where, tail)) == JoinParams(join) + HolesOf(where)
  {
    var head, joined := [Word("SELECT " + columns + " FROM " + table)], match join case None => [] case Some(j) => j.sql;
    var filtered := if where == [] then [] else [Where] + where;
    NoHolesOf(head);
    NoHolesOf([Word(tail)]);
    HolesAround([Where], where, []);
    HolesAppend(head, joined);
    HolesAppend(head + joined, filtered);
    HolesAppend(head + joined + filtered, [Word(tail)]);
  }

  function WithFilter(c: Conditions, filter: Option<Conditions>): Conditions {
    match filter case None => c case Some(f) => c.(nested := c.nested + [Nested(f, And)])
  }

  function SelectText(m: Model, conditions: Conditions, options: Options, casts: bool): Sql {
    WithClause(options.cte, m.query) +
    SelectClause(m.columns, m.Source(), options.join, ConditionsText(WithFilter(conditions, m.findFilter), casts), options.tail)
  }

  /** `_buildSelectSQL`: parameters of the custom CTE, of the model's query, of the JOIN and of the conditions, in
      that order. */
  method BuildSelect(m: Model, conditions: Conditions, options: Options, casts: bool) returns (r: SqlFragment)
    requires GoodModel(m, casts) && GoodOptions(options) && GoodConditions(conditions, casts)
    ensures r.Balanced() && r.sql == SelectText(m, conditions, options, casts)
    ensures r.params == CteParams(options.cte) + CteParams(m.query) + JoinParams(options.join) +
                        HolesOf(ConditionsText(WithFilter(conditions, m.findFilter), casts))
  {
    var params := new ParamList();
    PushAll(CteParams(options.cte), params);
    PushAll(CteParams(m.query), params);
    PushAll(JoinParams(options.join), params);
    var where := CompileFiltered(conditions, m.findFilter, casts, params);
    SelectHoles(m, options, where);
    return SqlFragment(WithClause(options.cte, m.query) + SelectClause(m.columns, m.Source(), options.join, where, options.tail), params.items);
  }

  /** The conditions, and the model's own filter. */
  method CompileFiltered(conditions: Conditions, filter: Option<Conditions>, casts: bool, params: ParamList) returns (where: Sql)
    requires GoodConditions(conditions, casts) && (filter.Some? ==> GoodConditions(filter.value, casts))
    modifies params
    ensures where == ConditionsText(WithFilter(conditions, filter), casts) && params.items == old(params.items) + HolesOf(where)
  {
    WithFilterFits(conditions, filter, casts);
    where := Compile(WithFilter(conditions, filter), casts, params);
  }

  lemma WithFilterFits(conditions: Conditions, filter: Option<Conditions>, casts: bool)
    requires GoodConditions(conditions, casts) && (filter.Some? ==> GoodConditions(filter.value, casts))
    ensures FitsConditions(WithFilter(conditions, filter))
  {
    GoodFits(conditions, casts);
    if filter.Some? {
      GoodFits(filter.value, casts);
    }
  }

  lemma SelectHoles(m: Model, options: Options, where: Sql)
    requires GoodCte(m.query) && GoodOptions(options)
    ensures HolesOf(WithClause(options.cte, m.query) + SelectClause(m.columns, m.Source(), options.join, where, options.tail)) ==
      CteParams(options.cte) + CteParams(m.query) + JoinParams(options.join) + HolesOf(where)
  {
    var select := SelectClause(m.columns, m.Source(), options.join, where, options.tail);
    WithClauseHoles(options.cte, m.query);
    SelectClauseHoles(m.columns, m.Source(), options.join, where, options.tail);
    HolesAppend(WithClause(options.cte, m.query), select);
    Regroup(CteParams(options.cte) + CteParams(m.query), JoinParams(options.join), HolesOf(where));
  }

  function Both(raw: Sql, compiled: Sql): Sql {
    if raw == [] then compiled else if compiled == [] then raw else raw + [AndTok] + compiled
  }

  function PlainText(table: string, columns: string, raw: Sql, conditions: Conditions, options: Options, casts: bool): Sql {
    WithClause(options.cte, None) + SelectClause(columns, table, options.join, Both(raw, ConditionsText(conditions, casts)), options.tail)
  }

  lemma BothHoles(raw: Sql, compiled: Sql)
    ensures HolesOf(Both(raw, compiled)) == HolesOf(raw) + HolesOf(compiled)
  {
    HolesOne(AndTok);
    HolesAppend(raw, [AndTok]);
    HolesAppend(raw + [AndTok], compiled);
  }

  lemma PlainHoles(table: string, columns: string, raw: Sql, conditions: Conditions, options: Options, casts: bool)
    requires GoodOptions(options)
    ensures HolesOf(PlainText(table, columns, raw, conditions, options, casts)) ==
            CteParams(options.cte) + JoinParams(options.join) + HolesOf(raw) + HolesOf(ConditionsText(conditions, casts))
  {
    var compiled := ConditionsText(conditions, casts);
    var with := WithClause(options.cte, None);
    var select := SelectClause(columns, table, options.join, Both(raw, compiled), options.tail);
    BothHoles(raw, compiled);
    WithClauseHoles(options.cte, None);
    SelectClauseHoles(columns, table, options.join, Both(raw, compiled), options.tail);
    HolesAppend(with, select);
    Regroup4(CteParams(options.cte), JoinParams(options.join), HolesOf(raw), HolesOf(compiled));
    assert CteParams(options.cte) + CteParams(None) == CteParams(options.cte);
  }

  /** `buildSelectSQL`: it appends to a list that the caller may already have put parameters in; `raw` is text
      that leads the WHERE clause and whose parameters are the caller's business. */
  method BuildPlainSelect(table: string, columns: string, raw: Sql, conditions: Conditions, options: Options, casts: bool, params: ParamList)
    returns (sql: Sql)
    requires GoodOptions(options) && GoodConditions(conditions, casts)
    modifies params
    ensures sql == PlainText(table, columns, raw, conditions, options, casts)
    ensures HolesOf(sql) == CteParams(options.cte) + JoinParams(options.join) + HolesOf(raw) + HolesOf(ConditionsText(conditions, casts))
    ensures params.items == old(params.items) + CteParams(options.cte) + JoinParams(options.join) + HolesOf(ConditionsText(conditions, casts))
  {
    PushAll(CteParams(options.cte), params);
    PushAll(JoinParams(options.join), params);
    GoodFits(conditions, casts);
    var compiled := Compile(conditions, casts, params);
    var where := Both(raw, compiled);
    sql := WithClause(options.cte, None) + SelectClause(columns, table, options.join, where, options.tail);
    PlainHoles(table, columns, raw, conditions, options, casts);
  }

  // ---------------------------------------------------------------------------------------------
  // Limited relation loads
  // ---------------------------------------------------------------------------------------------

  const NO_OPTIONS := Options(None, None, "")

  function InnerText(table: string, columns: string, raw: Sql, conditions: Conditions, tail: string, casts: bool): Sql {
    PlainText(table, columns, raw, conditions, NO_OPTIONS.(tail := tail), casts)
  }

  /** `buildSelectSQL` without CTE and JOIN. */
  method BuildInner(table: string, columns: string, raw: Sql, conditions: Conditions, tail: string, casts: bool, params: ParamList)
    returns (sql: Sql)
    requires GoodConditions(conditions, casts)
    modifies params
    ensures sql == InnerText(table, columns, raw, conditions, tail, casts)
    ensures HolesOf(sql) == HolesOf(raw) + HolesOf(ConditionsText(conditions, casts))
    ensures params.items == old(params.items) + HolesOf(ConditionsText(conditions, casts))
  {
    sql := BuildPlainSelect(table, columns, raw, conditions, NO_OPTIONS.(tail := tail), casts, params);
    assert [] + HolesOf(raw) == HolesOf(raw);
  }

  function ColumnOf(tuples: seq<seq<Value>>, c: nat): (column: seq<Value>)
    requires forall i :: 0 <= i < |tuples| ==> c < |tuples[i]|
    ensures |column| == |tuples| && forall r :: 0 <= r < |tuples| ==> column[r] == tuples[r][c]
  {
    if tuples == [] then [] else [tuples[0][c]] + ColumnOf(tuples[1..], c)
  }

  function ColumnArrays(tuples: seq<seq<Value>>, n: nat): (arrays: seq<seq<Value>>)
    requires forall i :: 0 <= i < |tuples| ==> n <= |tuples[i]|
    ensures |arrays| == n && forall c :: 0 <= c < n ==> arrays[c] == ColumnOf(tuples, c)
  {
    if n == 0 then [] else ColumnArrays(tuples, n - 1) + [ColumnOf(tuples, n - 1)]
  }

  /** Every key tuple has n columns. */
  predicate AllWide(tuples: seq<seq<Value>>, n: nat) {
    forall i :: 0 <= i < |tuples| ==> |tuples[i]| == n
  }

  /** Tuples to column arrays; `unnest` puts the r-th elements back together to the r-th tuple. */
  method Transpose(tuples: seq<seq<Value>>, n: nat) returns (arrays: seq<seq<Value>>)
    requires AllWide(tuples, n)
    ensures arrays == ColumnArrays(tuples, n)
    ensures forall r :: 0 <= r < |tuples| ==> forall c :: 0 <= c < n ==> arrays[c][r] == tuples[r][c]
  {
    arrays := [];
    for c := 0 to n
      invariant arrays == ColumnArrays(tuples, c)
    {
      var column: seq<Value> := [];
      for r := 0 to |tuples|
        invariant |column| == r && forall q :: 0 <= q < r ==> column[q] == tuples[q][c]
      {
        column := column + [tuples[r][c]];
      }
      assert column == ColumnOf(tuples, c);
      arrays := arrays + [column];
    }
  }

  function Arrays(arrays: seq<seq<Value>>): seq<Value> {
    if arrays == [] then [] else [Array(arrays[0])] + Arrays(arrays[1..])
  }

  function ArrayMarks(arrays: seq<seq<Value>>, types: seq<string>): seq<Sql>
    requires |types| == |arrays|
  {
    if arrays == [] then [] else [[Hole(Array(arrays[0])), CastTo(types[0])]] + ArrayMarks(arrays[1..], types[1..])
  }

  lemma {:induction false} ArrayMarksHoles(arrays: seq<seq<Value>>, types: seq<string>)
    requires |types| == |arrays|
    ensures HolesOf(Concat(ArrayMarks(arrays, types))) == Arrays(arrays)
  {
    if arrays != [] {
      ArrayMarksHoles(arrays[1..], types[1..]);
      var mark := [Hole(Array(arrays[0])), CastTo(types[0])];
      HolesTwo(mark[0], mark[1]);
      HolesOne(mark[0]);
      HolesOne(mark[1]);
      HolesAppend(mark, Concat(ArrayMarks(arrays[1..], types[1..])));
    }
  }

  /** LATERAL: the key arrays come first in the text and in the list; the inner query is built on a list of its
      own. */
  method Lateral(table: string, tuples: seq<seq<Value>>, types: seq<string>, join: string, conditions: Conditions, tail: string, casts: bool)
    returns (r: SqlFragment)
    requires AllWide(tuples, |types|) && GoodConditions(conditions, casts)
    ensures r.Balanced()
    ensures r.sql == LateralText(table, ArrayMarks(ColumnArrays(tuples, |types|), types), InnerText(table, "*", [Word(join)], conditions, tail, casts))
    ensures r.params == Arrays(ColumnArrays(tuples, |types|)) + HolesOf(ConditionsText(conditions, casts))
  {
    var arrays := Transpose(tuples, |types|);
    r := LateralOver(table, arrays, types, join, conditions, tail, casts);
  }

  /** The text around the inner query, and its parameters after those of the keys. */
  method LateralOver(table: string, arrays: seq<seq<Value>>, types: seq<string>, join: string, conditions: Conditions, tail: string, casts: bool)
    returns (r: SqlFragment)
    requires |types| == |arrays| && GoodConditions(conditions, casts)
    ensures r.Balanced()
    ensures r.sql == LateralText(table, ArrayMarks(arrays, types), InnerText(table, "*", [Word(join)], conditions, tail, casts))
    ensures r.params == Arrays(arrays) + HolesOf(ConditionsText(conditions, casts))
  {
    var lateral := new ParamList();
    var inner := BuildInner(table, "*", [Word(join)], conditions, tail, casts, lateral);
    HolesOne(Word(join));
    assert HolesOf(inner) == lateral.items;
    LateralTextHoles(table, arrays, types, inner);
    var sql := LateralText(table, ArrayMarks(arrays, types), inner);
    assert HolesOf(sql) == Arrays(arrays) + lateral.items;
    return SqlFragment(sql, Arrays(arrays) + lateral.items);
  }

  /** The keys unnested, and for each of them the inner query. */
  function LateralText(table: string, marks: seq<Sql>, inner: Sql): Sql {
    [Word("SELECT " + table + ".* FROM unnest(")] + Separated(marks, Comma) + [Word(") AS _keys CROSS JOIN LATERAL (")] + inner + [Word(") " + table)]
  }

  lemma LateralTextHoles(table: string, arrays: seq<seq<Value>>, types: seq<string>, inner: Sql)
    requires |types| == |arrays|
    ensures HolesOf(LateralText(table, ArrayMarks(arrays, types), inner)) == Arrays(arrays) + HolesOf(inner)
  {
    var marks := ArrayMarks(arrays, types);
    ArrayMarksHoles(arrays, types);
    SeparatedHoles(marks, Comma);
    LateralHoles([Word("SELECT " + table + ".* FROM unnest(")], Separated(marks, Comma), [Word(") AS _keys CROSS JOIN LATERAL (")], inner, [Word(") " + table)]);
  }

  lemma LateralHoles(head: Sql, keys: Sql, alias: Sql, inner: Sql, end: Sql)
    requires NoHoles(head) && NoHoles(alias) && NoHoles(end)
    ensures HolesOf(head + keys + alias + inner + end) == HolesOf(keys) + HolesOf(inner)
  {
    HolesAround(head, keys, alias);
    HolesAppend(head + keys + alias, inner);
    HolesAppend(head + keys + alias + inner, end);
    NoHolesOf(end);
  }

  /** ROW_NUMBER for composite keys: the list is seeded with the key values before the conditions are compiled,
      which is right because the text puts the key condition first. */
  method RowNumberComposite(table: string, columns: seq<string>, tuples: seq<seq<Value>>, ranked: string, limit: string, conditions: Conditions, casts: bool)
    returns (r: SqlFragment)
    requires tuples != [] && GoodConditions(conditions, casts)
    ensures r.Balanced()
    ensures r.sql == RankedText(InnerText(table, ranked, WritePrim(InTuples(columns, tuples)), conditions, "", casts), limit, casts)
    ensures r.params == Concat(tuples) + HolesOf(ConditionsText(conditions, casts))
  {
    var inner := KeyedInner(table, columns, tuples, ranked, conditions, "", casts);
    r := SelectRanked(inner, limit, casts);
  }

  /** The inner query, with its list. */
  method KeyedInner(table: string, columns: seq<string>, tuples: seq<seq<Value>>, ranked: string, conditions: Conditions, tail: string, casts: bool)
    returns (r: SqlFragment)
    requires tuples != [] && GoodConditions(conditions, casts)
    ensures r.Balanced() && r.sql == InnerText(table, ranked, WritePrim(InTuples(columns, tuples)), conditions, tail, casts)
    ensures r.params == Concat(tuples) + HolesOf(ConditionsText(conditions, casts))
  {
    var seeded := new ParamList();
    PushAll(Concat(tuples), seeded);
    KeyConditionText(columns, tuples);
    var inner := BuildInner(table, ranked, KeyCondition(columns, tuples), conditions, tail, casts, seeded);
    r := SqlFragment(inner, seeded.items);
  }

  /** `(c1, c2) IN ((?, ?), ...)`. */
  function KeyCondition(columns: seq<string>, tuples: seq<seq<Value>>): Sql {
    [Open] + Separated(Words(columns), Comma) + [Close, InTok(false), Open] + Separated(TupleMarks(tuples), Comma) + [Close]
  }

  lemma KeyConditionText(columns: seq<string>, tuples: seq<seq<Value>>)
    ensures KeyCondition(columns, tuples) == WritePrim(InTuples(columns, tuples))
    ensures HolesOf(WritePrim(InTuples(columns, tuples))) == Concat(tuples)
  {
    WordsAreNames(columns);
    NamesHaveNoHoles(columns);
    TuplesHoles(tuples);
    TupleMarksAreTuples(tuples);
    HolesAround([Open] + WriteNames(columns) + [Close, InTok(false), Open], WriteTuples(tuples), [Close]);
  }

  lemma {:induction false} SpreadIsGood(entries: seq<Entry>, more: seq<Entry>, casts: bool)
    requires (forall e <- entries :: GoodEntry(e, casts)) && (forall e <- more :: GoodEntry(e, casts))
    ensures forall e <- Spread(entries, more) :: GoodEntry(e, casts)
  {
    if more != [] {
      SpreadIsGood(entries, more[..|more| - 1], casts);
      PutIsGood(Spread(entries, more[..|more| - 1]), more[|more| - 1], casts);
    }
  }

  lemma {:induction false} PutIsGood(entries: seq<Entry>, e: Entry, casts: bool)
    requires GoodEntry(e, casts) && forall f <- entries :: GoodEntry(f, casts)
    ensures forall f <- Put(entries, e) :: GoodEntry(f, casts)
  {
    if entries != [] {
      PutIsGood(entries[1..], e, casts);
    }
  }

  /** ROW_NUMBER for a single key: the key condition is the first entry of the record that the relation's conditions are
      spread into. */
  method RowNumber(table: string, key: string, values: seq<Value>, ranked: string, limit: string, conditions: Conditions, casts: bool)
    returns (r: SqlFragment)
    requires GoodConditions(conditions, casts) && GoodEntry(Entry(key, List(values)), casts)
    ensures r.Balanced()
    ensures
      var all := conditions.(entries := Spread([Entry(key, List(values))], conditions.entries));
      && r.sql == RankedText(InnerText(table, ranked, [], all, "", casts), limit, casts)
      && r.params == HolesOf(ConditionsText(all, casts))
  {
    var params := new ParamList();
    var all := conditions.(entries := Spread([Entry(key, List(values))], conditions.entries));
    SpreadIsGood([Entry(key, List(values))], conditions.entries, casts);
    var inner := BuildInner(table, ranked, [], all, "", casts, params);
    assert HolesOf(inner) == params.items;
    r := SelectRanked(SqlFragment(inner, params.items), limit, casts);
  }

  const NO_CONDITIONS := Conditions([], And, [])

  function RankedText(inner: Sql, limit: string, casts: bool): Sql {
    PlainText("ranked", "*", [Word("_rn <= " + limit)], NO_CONDITIONS, NO_OPTIONS.(cte := Some(Cte("ranked", SqlFragment(inner, HolesOf(inner))))), casts)
  }

  /** The ranked rows up to the limit: the inner statement becomes a CTE. */
  method SelectRanked(body: SqlFragment, limit: string, casts: bool) returns (r: SqlFragment)
    requires body.Balanced()
    ensures r.Balanced() && r.sql == RankedText(body.sql, limit, casts) && r.params == body.params
  {
    var params := new ParamList();
    var options := NO_OPTIONS.(cte := Some(Cte("ranked", body)));
    var sql := BuildPlainSelect("ranked", "*", [Word("_rn <= " + limit)], NO_CONDITIONS, options, casts, params);
    HolesOne(Word("_rn <= " + limit));
    return SqlFragment(sql, params.items);
  }

  // ---------------------------------------------------------------------------------------------
  // UPDATE
  // ---------------------------------------------------------------------------------------------

  datatype SetValue = Bind(v: Value, cast: Option<string>) | SetToken(t: DbToken)

  /** A token without its key, as a SET clause writes it. */
  predicate GoodSetToken(t: DbToken) {
    match t case Dynamic(func, values) => Holes(func) == |values| case TupleIn(_, _) => false case Subquery(_, _, _, _, _) => false case ExistsRows(_, _, _) => false case _ => true
  }

  function SetText(value: SetValue, casts: bool): Sql {
    match value
    case Bind(v, cast) => WriteOperand(Bound(v, cast))
    case SetToken(t) =>
      (match t
       case Plain(v, _) => WriteOperand(Bound(v, None))
       case Immediate(text) => [Word(text)]
       case NullToken => [Word("NULL")]
       case NotNullToken => [Word("NOT NULL")]
       case BoolToken(b) => [Word(BoolText(b))]
       case ArrayToken(vs) => SetList(vs, None)
       case Dynamic(func, values) => WriteText(func, Singletons(values))
       case RawToken(text) => [Word(text)]
       case Cast(v, sqlType, _) => WriteOperand(Bound(v, CastOf(sqlType, casts)))
       case CastArray(vs, sqlType) => SetList(vs, CastOf(sqlType, casts))
       case _ => [])
  }

  function SetList(vs: seq<Value>, cast: Option<string>): Sql {
    if vs == [] then [NeverTok] else [Open] + WriteOperands(Bounds(vs, cast)) + [Close]
  }

  method CompileSetToken(t: DbToken, casts: bool, params: ParamList) returns (sql: Sql)
    requires GoodSetToken(t)
    modifies params
    ensures sql == SetText(SetToken(t), casts) && params.items == old(params.items) + HolesOf(sql)
  {
    match t
    case Plain(v, _) => sql := CompileBound(v, None, params);
    case Immediate(text) => sql := [Word(text)]; NoHolesOf(sql);
    case NullToken => sql := [Word("NULL")]; NoHolesOf(sql);
    case NotNullToken => sql := [Word("NOT NULL")]; NoHolesOf(sql);
    case BoolToken(b) => sql := [Word(BoolText(b))]; NoHolesOf(sql);
    case ArrayToken(vs) => sql := CompileSetList(vs, None, params);
    case Dynamic(func, values) =>
      PushAll(values, params);
      sql := WriteText(func, Singletons(values));
      TextHoles(func, Singletons(values));
      SingletonsGood(values);
    case RawToken(text) => sql := [Word(text)]; NoHolesOf(sql);
    case Cast(v, sqlType, _) => sql := CompileBound(v, CastOf(sqlType, casts), params);
    case CastArray(vs, sqlType) => sql := CompileSetList(vs, CastOf(sqlType, casts), params);
  }

  method CompileBound(v: Value, cast: Option<string>, params: ParamList) returns (sql: Sql)
    modifies params
    ensures sql == WriteOperand(Bound(v, cast))
    ensures params.items == old(params.items) + HolesOf(sql)
  {
    params.Push(v);
    sql := [Hole(v)] + CastSuffix(cast);
    HolesOne(Hole(v));
    HolesAround([], [Hole(v)], CastSuffix(cast));
    assert [] + [Hole(v)] + CastSuffix(cast) == sql;
  }

  method CompileSetList(vs: seq<Value>, cast: Option<string>, params: ParamList) returns (sql: Sql)
    modifies params
    ensures sql == SetList(vs, cast)
    ensures params.items == old(params.items) + HolesOf(sql)
  {
    if vs == [] {
      sql := [NeverTok];
      NoHolesOf(sql);
    } else {
      var marks := PushMarks(vs, CastSuffix(cast), params);
      MarksAreOperands(vs, cast);
      sql := [Open] + Separated(marks, Comma) + [Close];
      HolesAround([Open], Separated(marks, Comma), [Close]);
    }
  }

  function SetClauses(values: seq<(string, SetValue)>, casts: bool): seq<Sql> {
    if values == [] then []
    else
      var (column, value) := values[|values| - 1];
      SetClauses(values[..|values| - 1], casts) + [[Word(column), Operator("=")] + SetText(value, casts)]
  }

  datatype UpdateResult = NothingToSet | Unconditional | Update(statement: SqlFragment)

  function UpdateText(table: string, values: seq<(string, SetValue)>, conditions: Conditions, casts: bool): Sql {
    [Word("UPDATE " + table + " SET ")] + Separated(SetClauses(values, casts), Comma) + [Where] + ConditionsText(conditions, casts)
  }

  /** `_update`: nothing is sent without a column to set, and it is an error to send it without a condition. */
  method BuildUpdate(table: string, values: seq<(string, SetValue)>, conditions: Conditions, casts: bool) returns (r: UpdateResult)
    requires GoodConditions(conditions, casts) && forall v <- values :: v.1.SetToken? ==> GoodSetToken(v.1.t)
    ensures r.NothingToSet? <==> values == []
    ensures r.Unconditional? <==> values != [] && ConditionsText(conditions, casts) == []
    ensures r.Update? ==> r.statement.Balanced() && r.statement.sql == UpdateText(table, values, conditions, casts)
  {
    var params := new ParamList();
    var sets: seq<Sql> := [];
    for i := 0 to |values|
      invariant |sets| == i && sets == SetClauses(values[..i], casts) && params.items == HolesOf(Concat(sets)) && fresh(params)
    {
      assert values[..i + 1][..i] == values[..i];
      var (column, value) := values[i];
      var written;
      match value {
        case Bind(v, cast) => written := CompileBound(v, cast, params);
        case SetToken(t) => written := CompileSetToken(t, casts, params);
      }
      HolesAround([Word(column), Operator("=")], written, []);
      HolesSnoc(sets, [Word(column), Operator("=")] + written);
      sets := sets + [[Word(column), Operator("=")] + written];
    }
    assert values[..|values|] == values;
    if sets == [] {
      return NothingToSet;
    }
    ghost var setParams := params.items;
    GoodFits(conditions, casts);
    var where := Compile(conditions, casts, params);
    if where == [] {
      return Unconditional;
    }
    SeparatedHoles(sets, Comma);
    var head := [Word("UPDATE " + table + " SET ")] + Separated(sets, Comma) + [Where];
    HolesAround([Word("UPDATE " + table + " SET ")], Separated(sets, Comma), [Where]);
    HolesAppend(head, where);
    return Update(SqlFragment(head + where, params.items));
  }
}
