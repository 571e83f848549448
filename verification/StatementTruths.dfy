/** What the WHERE clauses of the statements mean when they are read back, and what a boolean means in them. */
module StatementTruths {
  import opened Sequences
  import opened SqlText
  import opened ConditionCompiler
  import opened ConditionLists
  import opened Statements

  /** Read under SQL's precedence, with its own parameters bound in order and none left over, the text has this truth; without
      any, there is no text. */
  ghost predicate ReadsAs(db: Database, sc: Scope, text: Sql, params: seq<Value>, truth: Option<Tri>) {
    if text == [] then truth.None? && params == []
    else
      var read := ReadDisj(text, params);
      read.Got? && read.ts == [] && read.ps == [] && truth == Some(db.OfDisj(sc, read.got))
  }

  lemma CompiledReadsAs(db: Database, sc: Scope, c: Conditions, casts: bool)
    requires GoodConditions(c, casts)
    ensures ReadsAs(db, sc, ConditionsText(c, casts), HolesOf(ConditionsText(c, casts)), Meaning(db, sc, c, casts))
  {
    CompiledMeans(db, sc, c, casts);
  }

  // ---------------------------------------------------------------------------------------------
  // Booleans
  // ---------------------------------------------------------------------------------------------

  /** A database whose literals mean what they say. */
  ghost predicate Truthful(db: Database) {
    forall sc :: db.scalar(sc, "TRUE", []) == Flag(true) && db.scalar(sc, "FALSE", []) == Flag(false)
  }

  lemma OneEntryMeans(db: Database, sc: Scope, e: Entry, casts: bool)
    ensures Meaning(db, sc, Conditions([e], And, []), casts) == MeanEntry(db, sc, e, casts)
  {
    EntryInFront(db, sc, e, Conditions([], And, []), casts);
    assert [e] + [] == [e];
    assert MeanEntries(db, sc, [], casts) == [] && MeanNested(db, sc, [], casts) == [];
  }

  /** An entry in front of a record is one more condition of it. */
  lemma EntryInFront(db: Database, sc: Scope, e: Entry, c: Conditions, casts: bool)
    requires c.operator.And?
    ensures Meaning(db, sc, c.(entries := [e] + c.entries), casts) == Joined(And, MeanEntry(db, sc, e, casts), Meaning(db, sc, c, casts))
  {
    assert ([e] + c.entries)[1..] == c.entries;
    OneMoreTruth(MeanEntry(db, sc, e, casts), MeanEntries(db, sc, c.entries, casts), MeanNested(db, sc, c.nested, casts));
  }

  function AllTrue(ts: seq<Tri>): Option<Tri> {
    if ts == [] then None else Some(AllOf(ts))
  }

  lemma OneMoreTruth(first: Option<Tri>, a: seq<Tri>, b: seq<Tri>)
    ensures AllTrue((if first.None? then a else [first.value] + a) + b) == Joined(And, first, AllTrue(a + b))
  {
    if first.Some? {
      Regroup([first.value], a, b);
      AllOfCons(first.value, a + b);
      assert AllOf([first.value]) == first.value;
      assert a + b == [] ==> [first.value] + (a + b) == [first.value];
    }
  }

  lemma NotSpecial(key: string)
    requires !("__" <= key)
    ensures !IsReserved(key) && key != OR_KEY && key != RAW_KEY
  {
    assert "__" == ['_', '_'];
  }

  lemma BooleanEntryMeans(db: Database, sc: Scope, key: string, b: bool, casts: bool)
    requires Truthful(db) && !IsReserved(key) && key != OR_KEY && key != RAW_KEY
    ensures MeanEntry(db, sc, Entry(key, Boolean(b)), casts) ==
      Some(if b && ' ' in key then db.holds(sc, key, []) else db.compare("=", db.scalar(sc, key, []), Flag(b)))
  {
  }

  lemma OneEntryReadsAs(db: Database, sc: Scope, e: Entry, casts: bool)
    requires GoodEntry(e, casts)
    ensures
      var text := ConditionsText(Conditions([e], And, []), casts);
      ReadsAs(db, sc, text, HolesOf(text), MeanEntry(db, sc, e, casts))
  {
    CompiledReadsAs(db, sc, Conditions([e], And, []), casts);
    OneEntryMeans(db, sc, e, casts);
  }

  /** A boolean entry compares its column with that boolean; a true one whose key is an expression is the expression. */
  lemma BooleanIsCompared(db: Database, sc: Scope, key: string, b: bool, casts: bool)
    requires Truthful(db) && !("__" <= key) && '?' !in key
    ensures
      var text := ConditionsText(Conditions([Entry(key, Boolean(b))], And, []), casts);
      ReadsAs(db, sc, text, HolesOf(text), Some(if b && ' ' in key then db.holds(sc, key, []) else db.compare("=", db.scalar(sc, key, []), Flag(b))))
  {
    NotSpecial(key);
    NoHoleNoPlaceholder(key);
    BooleanEntryMeans(db, sc, key, b, casts);
    OneEntryReadsAs(db, sc, Entry(key, Boolean(b)), casts);
  }

  /** So does a boolean token. */
  lemma BoolTokenIsCompared(db: Database, sc: Scope, key: string, b: bool, casts: bool)
    requires Truthful(db) && '?' !in key && key != "__raw__"
    ensures
      var text := ConditionsText(Conditions([Entry(key, TokenValue(BoolToken(b)))], And, []), casts);
      ReadsAs(db, sc, text, HolesOf(text), Some(db.compare("=", db.scalar(sc, key, []), Flag(b))))
  {
    NoHoleNoPlaceholder(key);
    OneEntryReadsAs(db, sc, Entry(key, TokenValue(BoolToken(b))), casts);
  }

  /** And a column of a condition list, with or without a cast. */
  lemma BooleanColumnIsCompared(db: Database, sc: Scope, column: string, sqlCast: Option<string>, b: bool, casts: bool)
    requires Truthful(db)
    ensures MeanColumn(db, sc, column, sqlCast, Boolean(b), casts) ==
      Some(db.compare("=", db.scalar(sc, column, []), if sqlCast.Some? && casts then db.cast(sqlCast.value, Flag(b)) else Flag(b)))
  {
  }

  // ---------------------------------------------------------------------------------------------
  // The model's filter
  // ---------------------------------------------------------------------------------------------

  /** Two conditions of which either may say nothing. */
  function Joined(op: BoolOp, a: Option<Tri>, b: Option<Tri>): Option<Tri> {
    match (a, b)
    case (None, _) => b
    case (_, None) => a
    case (Some(x), Some(y)) => Some(if op.And? then And3(x, y) else Or3(x, y))
  }

  lemma {:induction false} MeanNestedSnoc(db: Database, sc: Scope, nested: seq<Nested>, n: Nested, casts: bool)
    ensures MeanNested(db, sc, nested + [n], casts) ==
      MeanNested(db, sc, nested, casts) + match MeanNestedOne(db, sc, n, casts) case None => [] case Some(t) => [t]
  {
    if nested == [] {
      assert nested + [n] == [n] && [n][1..] == [];
    } else {
      assert (nested + [n])[1..] == nested[1..] + [n];
      MeanNestedSnoc(db, sc, nested[1..], n, casts);
    }
  }

  /** Adding a condition object to another joins their meanings by the operator of the object that it is added to. */
  lemma AddedMeans(db: Database, sc: Scope, c: Conditions, f: Conditions, op: BoolOp, casts: bool)
    ensures Meaning(db, sc, c.(nested := c.nested + [Nested(f, op)]), casts) ==
      Joined(c.operator, Meaning(db, sc, c, casts), Meaning(db, sc, f, casts))
  {
    var entries, nested := MeanEntries(db, sc, c.entries, casts), MeanNested(db, sc, c.nested, casts);
    MeanNestedSnoc(db, sc, c.nested, Nested(f, op), casts);
    var m := Meaning(db, sc, f, casts);
    if m.Some? {
      assert entries + (nested + [m.value]) == (entries + nested) + [m.value];
      AllOfAppend(entries + nested, [m.value]);
      assert AllOf([m.value]) == m.value && AnyOf([m.value]) == m.value;
    } else {
      assert nested + [] == nested;
    }
  }

  /** What the WHERE clause of a model's SELECT says of a row: the conditions and the model's filter, each by itself. A condition
      object that joins its parts by OR takes the filter as one more of them. */
  function FilteredMeaning(db: Database, sc: Scope, m: Model, conditions: Conditions, casts: bool): Option<Tri> {
    Joined(conditions.operator, Meaning(db, sc, conditions, casts), match m.findFilter case None => None case Some(f) => Meaning(db, sc, f, casts))
  }

  /** The SELECT of a model, with WHERE text and its parameters in their places, and the meaning of the two together. */
  lemma SelectIsFiltered(db: Database, sc: Scope, m: Model, conditions: Conditions, options: Options, casts: bool, r: SqlFragment) returns (where: Sql)
    requires GoodModel(m, casts) && GoodOptions(options) && GoodConditions(conditions, casts)
    requires r.Balanced() && r.sql == SelectText(m, conditions, options, casts)
    ensures r.sql == WithClause(options.cte, m.query) + SelectClause(m.columns, m.Source(), options.join, where, options.tail)
    ensures r.params == CteParams(options.cte) + CteParams(m.query) + JoinParams(options.join) + HolesOf(where)
    ensures ReadsAs(db, sc, where, HolesOf(where), FilteredMeaning(db, sc, m, conditions, casts))
  {
    var all := WithFilter(conditions, m.findFilter);
    where := ConditionsText(all, casts);
    SelectHoles(m, options, where);
    if m.findFilter.Some? {
      AddedMeans(db, sc, conditions, m.findFilter.value, And, casts);
    }
    CompiledReadsAs(db, sc, all, casts);
  }

  /** The source adds the filter to the object that the caller passed; passing that object again, with the filter already in it,
      gives the same WHERE. */
  lemma FilterAgain(db: Database, sc: Scope, m: Model, conditions: Conditions, casts: bool)
    requires m.findFilter.Some?
    ensures
      var once := conditions.(nested := conditions.nested + [Nested(m.findFilter.value, And)]);
      FilteredMeaning(db, sc, m, once, casts) == FilteredMeaning(db, sc, m, conditions, casts)
  {
    AddedMeans(db, sc, conditions, m.findFilter.value, And, casts);
  }

  // ---------------------------------------------------------------------------------------------
  // Key conditions
  // ---------------------------------------------------------------------------------------------

  lemma OneConjunction(c: Conditions, casts: bool)
    requires c.operator.And?
    ensures var d := ConditionsDisj(c, casts); d == [] || d == [Conj(d[0].prims)]
  {
  }

  lemma {:induction false} ConjTextAppend(a: seq<Prim>, b: seq<Prim>)
    requires a != [] && b != []
    ensures WriteConj(a + b) == WriteConj(a) + [AndTok] + WriteConj(b)
  {
    if |a| == 1 {
      assert a == [a[0]] && (a + b)[1..] == b;
    } else {
      ConjTextAppend(a[1..], b);
      assert (a + b)[1..] == a[1..] + b;
      Regroup4(WritePrim(a[0]) + [AndTok], WriteConj(a[1..]), [AndTok], WriteConj(b));
      Regroup(WriteConj(a[1..]), [AndTok], WriteConj(b));
      Regroup(WritePrim(a[0]) + [AndTok], WriteConj(a[1..]), [AndTok]);
      Regroup(WritePrim(a[0]) + [AndTok] + WriteConj(a[1..]), [AndTok], WriteConj(b));
    }
  }

  lemma ConjReadsAs(db: Database, sc: Scope, c: seq<Prim>)
    requires GoodConj(c)
    ensures ReadsAs(db, sc, WriteConj(c), HolesOf(WriteConj(c)), Some(db.OfConj(sc, c)))
  {
    var d := [Conj(c)];
    assert WriteDisj(d) == WriteConj(c);
    DisjRead(d, WriteConj(c), HolesOf(WriteConj(c)), [], []);
    assert WriteConj(c) + [] == WriteConj(c) && HolesOf(WriteConj(c)) + [] == HolesOf(WriteConj(c));
    OneConj(db, sc, c);
    assert WriteConj(c) != [] by {
      assert c[0] in c;
      ConjNotEmpty(c);
    }
  }

  lemma ConjNotEmpty(c: seq<Prim>)
    requires c != []
    ensures WriteConj(c) != []
  {
    PrimTextNotEmpty(c[0]);
  }

  /** A key condition in front of a record of conditions: the WHERE is both, on every row. */
  lemma KeyAndConditions(db: Database, sc: Scope, key: seq<Prim>, conditions: Conditions, casts: bool)
    requires GoodConj(key) && GoodConditions(conditions, casts) && conditions.operator.And?
    ensures
      var where := Both(WriteConj(key), ConditionsText(conditions, casts));
      ReadsAs(db, sc, where, HolesOf(where), Joined(And, Some(db.OfConj(sc, key)), Meaning(db, sc, conditions, casts)))
  {
    var d := ConditionsDisj(conditions, casts);
    OneConjunction(conditions, casts);
    ConditionsMean(db, sc, conditions, casts);
    ConditionsAreGood(conditions, casts);
    ConjNotEmpty(key);
    if d == [] {
      ConjReadsAs(db, sc, key);
    } else {
      var own := d[0].prims;
      assert d[0] in d && GoodConj(own);
      assert ConditionsText(conditions, casts) == WriteConj(own);
      ConjNotEmpty(own);
      ConjTextAppend(key, own);
      assert forall p <- key + own :: p in key || p in own;
      ConjReadsAs(db, sc, key + own);
      ConjAppend(db, sc, key, own);
      OneConj(db, sc, own);
    }
  }

  /** ROW_NUMBER with composite keys: the tuples are among those sent, and the conditions hold. */
  lemma CompositeKeysAreAsked(db: Database, sc: Scope, columns: seq<string>, tuples: seq<seq<Value>>, conditions: Conditions, casts: bool)
    requires GoodPrim(InTuples(columns, tuples)) && GoodConditions(conditions, casts) && conditions.operator.And?
    ensures
      var where := Both(WritePrim(InTuples(columns, tuples)), ConditionsText(conditions, casts));
      ReadsAs(db, sc, where, HolesOf(where), Joined(And, Some(AnyOf(TupleComparisons(db, db.Columns(sc, columns), tuples))), Meaning(db, sc, conditions, casts)))
  {
    var key := [InTuples(columns, tuples)];
    OneText(key[0]);
    KeyAndConditions(db, sc, key, conditions, casts);
    OnePrim(db, sc, key[0]);
    AmongTuplesIsIn(db, db.Columns(sc, columns), tuples);
  }

  /** LATERAL: the join text holds, and the conditions. */
  lemma LateralKeysAreAsked(db: Database, sc: Scope, join: string, conditions: Conditions, casts: bool)
    requires IsName(join) && GoodConditions(conditions, casts) && conditions.operator.And?
    ensures
      var where := Both([Word(join)], ConditionsText(conditions, casts));
      ReadsAs(db, sc, where, HolesOf(where), Joined(And, Some(db.holds(sc, join, [])), Meaning(db, sc, conditions, casts)))
  {
    var key := [Fragment(join, [])];
    OneText(key[0]);
    KeyAndConditions(db, sc, key, conditions, casts);
    OnePrim(db, sc, key[0]);
  }

  /** ROW_NUMBER with a single key that none of the conditions is on: the key is among the values sent, and the conditions hold. */
  lemma RankedKeysAreAsked(db: Database, sc: Scope, key: string, values: seq<Value>, conditions: Conditions, casts: bool)
    requires GoodConditions(conditions, casts) && conditions.operator.And? && IsName(key) && !IsReserved(key)
    requires IsObject(conditions.entries) && forall e <- conditions.entries :: e.key != key
    ensures
      var all := conditions.(entries := Spread([Entry(key, List(values))], conditions.entries));
      var text := ConditionsText(all, casts);
      ReadsAs(db, sc, text, HolesOf(text), Joined(And, Some(MeanIn(db, db.Column(sc, key), values)), Meaning(db, sc, conditions, casts)))
  {
    var e := Entry(key, List(values));
    KeyEntryMeans(db, sc, key, values, casts);
    SpreadOfOthers(e, conditions.entries);
    CompiledReadsAs(db, sc, conditions.(entries := [e] + conditions.entries), casts);
    EntryInFront(db, sc, e, conditions, casts);
  }

  lemma KeyEntryMeans(db: Database, sc: Scope, key: string, values: seq<Value>, casts: bool)
    requires IsName(key) && !IsReserved(key)
    ensures GoodEntry(Entry(key, List(values)), casts) && MeanEntry(db, sc, Entry(key, List(values)), casts) == Some(MeanIn(db, db.Column(sc, key), values))
  {
    assert key != OR_KEY && key != RAW_KEY;
    NoHoleNoPlaceholder(key);
  }

  /** The properties of an object have different names. */
  predicate IsObject(entries: seq<Entry>) {
    forall i, j :: 0 <= i < j < |entries| ==> entries[i].key != entries[j].key
  }

  lemma {:induction false} PutOther(entries: seq<Entry>, e: Entry)
    requires forall f <- entries :: f.key != e.key
    ensures Put(entries, e) == entries + [e]
  {
    if entries != [] {
      PutOther(entries[1..], e);
      assert (entries + [e])[1..] == entries[1..] + [e];
    }
  }

  lemma {:induction false} SpreadOfOthers(first: Entry, entries: seq<Entry>)
    requires IsObject(entries) && forall e <- entries :: e.key != first.key
    ensures Spread([first], entries) == [first] + entries
  {
    if entries != [] {
      var init, last := entries[..|entries| - 1], entries[|entries| - 1];
      assert entries == init + [last];
      SpreadOfOthers(first, init);
      assert forall f <- [first] + init :: f.key != last.key;
      PutOther([first] + init, last);
    }
  }

  /** The key condition is still there exactly if no condition of the relation is on the key itself; if one is, it is put in its
      place, and the rows of any key are asked for. */
  lemma {:induction false} KeyIsAskedIff(first: Entry, entries: seq<Entry>)
    requires IsObject(entries)
    ensures first in Spread([first], entries) <==> forall e <- entries :: e.key == first.key ==> e == first
  {
    var spread := Spread([first], entries);
    SpreadHead(first, entries);
    if forall e <- entries :: e.key == first.key ==> e == first {
      assert spread[0] in spread;
    }
  }

  /** In the first place stands the condition on the key that was given last, and nowhere else is one. */
  lemma {:induction false} SpreadHead(first: Entry, entries: seq<Entry>)
    requires IsObject(entries)
    ensures
      var spread := Spread([first], entries);
      && spread != [] && spread[0].key == first.key && (forall e <- spread[1..] :: e.key != first.key)
      && (spread[0] == first || spread[0] in entries)
      && (forall e <- entries :: e.key == first.key ==> spread[0] == e)
  {
    if entries != [] {
      var init, last := entries[..|entries| - 1], entries[|entries| - 1];
      assert entries == init + [last];
      SpreadHead(first, init);
      var before := Spread([first], init);
      PutKeys(before, last);
      if last.key == first.key {
        assert forall e <- init :: e.key != last.key;
        assert Put(before, last) == [last] + before[1..];
      } else {
        assert Put(before, last) == [before[0]] + Put(before[1..], last);
        PutKeys(before[1..], last);
      }
    }
  }

  lemma {:induction false} PutKeys(entries: seq<Entry>, e: Entry)
    ensures forall f <- Put(entries, e) :: f == e || f in entries
  {
    if entries != [] {
      PutKeys(entries[1..], e);
    }
  }
}
