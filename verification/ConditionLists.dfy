/** Lists of condition tuples, and the records that they are turned into. */
module ConditionLists {
  import opened Sequences
  import opened SqlText
  import opened ConditionCompiler

  /** An element of a condition list; a `None` value is SKIP. */
  datatype Element =
    | Skipped
    | Either(groups: seq<Group>)
    | Sql(text: string, params: seq<Value>)
    | NoValue(text: string)
    | OnText(text: string, value: Option<Cond>)
    | OnColumn(column: string, sqlCast: Option<string>, value: Option<Cond>)
    | OnColumns(columns: seq<string>, tuples: seq<seq<Value>>)

  datatype Group = Group(elements: seq<Element>)

  const TUPLE_KEY := "__tuple__"

  /** A column with an SQL type wraps what it is compared with; tokens are left alone. */
  function WithCast(sqlCast: Option<string>, value: Cond): Cond {
    if sqlCast.None? then value
    else
      match value
      case Scalar(v) => TokenValue(Cast(v, sqlCast.value, "="))
      case Nul => TokenValue(Cast(Null, sqlCast.value, "="))
      case Boolean(b) => TokenValue(Cast(Flag(b), sqlCast.value, "="))
      case List(vs) => TokenValue(CastArray(vs, sqlCast.value))
      case _ => value
  }

  /** The entry of an element, if it has one. */
  function EntryOf(e: Element): Option<Entry>
    decreases e
  {
    match e
    case Skipped => None
    case Either(groups) => Some(Entry(OR_KEY, Groups(Records(groups))))
    case Sql(text, params) =>
      Some(Entry(text, if params == [] then Boolean(true) else if |params| == 1 then CondOf(params[0]) else List(params)))
    case NoValue(text) => Some(Entry(text, Boolean(true)))
    case OnText(text, value) => if value.None? then None else Some(Entry(text, value.value))
    case OnColumn(column, sqlCast, value) => if value.None? then None else Some(Entry(column, WithCast(sqlCast, value.value)))
    case OnColumns(columns, tuples) => Some(Entry(TUPLE_KEY, TokenValue(TupleIn(columns, tuples))))
  }

  function Records(groups: seq<Group>): seq<Record>
    decreases groups
  {
    if groups == [] then [] else [RecordOf(groups[0])] + Records(groups[1..])
  }

  function RecordOf(group: Group): Record
    decreases group
  {
    Record(ToRecord(group.elements))
  }

  function ToRecord(elements: seq<Element>): seq<Entry>
    decreases elements
  {
    if elements == [] then []
    else PutIfSome(ToRecord(elements[..|elements| - 1]), EntryOf(elements[|elements| - 1]))
  }

  function PutIfSome(entries: seq<Entry>, e: Option<Entry>): seq<Entry> {
    match e case None => entries case Some(e) => Put(entries, e)
  }

  // ---------------------------------------------------------------------------------------------
  // The loop
  // ---------------------------------------------------------------------------------------------

  lemma {:induction false} PutThere(entries: seq<Entry>, e: Entry, i: nat)
    requires i <= |entries| && forall k :: 0 <= k < i ==> entries[k].key != e.key
    ensures i < |entries| && entries[i].key == e.key ==> Put(entries, e) == entries[..i] + [e] + entries[i + 1..]
    ensures i == |entries| ==> Put(entries, e) == entries + [e]
  {
    if i > 0 {
      PutThere(entries[1..], e, i - 1);
    }
  }

  method PutEntry(entries: seq<Entry>, e: Entry) returns (r: seq<Entry>)
    ensures r == Put(entries, e)
  {
    for i := 0 to |entries|
      invariant forall k :: 0 <= k < i ==> entries[k].key != e.key
    {
      if entries[i].key == e.key {
        PutThere(entries, e, i);
        return entries[..i] + [e] + entries[i + 1..];
      }
    }
    PutThere(entries, e, |entries|);
    return entries + [e];
  }

  /** `condsToRecord`. */
  method CondsToRecord(elements: seq<Element>) returns (record: seq<Entry>)
    ensures record == ToRecord(elements)
    decreases elements
  {
    record := [];
    for i := 0 to |elements|
      invariant record == ToRecord(elements[..i])
    {
      assert elements[..i + 1][..i] == elements[..i];
      var e := elements[i];
      if e.Skipped? {
        continue;
      }
      if e.Either? {
        var groups := CondsToRecords(e.groups);
        record := PutEntry(record, Entry(OR_KEY, Groups(groups)));
      } else {
        var entry := EntryOf(e);
        if entry.Some? {
          record := PutEntry(record, entry.value);
        }
      }
    }
    assert elements[..|elements|] == elements;
  }

  lemma {:induction false} RecordsAppend(a: seq<Group>, b: seq<Group>)
    ensures Records(a + b) == Records(a) + Records(b)
  {
    if a == [] {
      assert a + b == b;
    } else {
      assert (a + b)[1..] == a[1..] + b;
      RecordsAppend(a[1..], b);
    }
  }

  method CondsToRecords(groups: seq<Group>) returns (records: seq<Record>)
    ensures records == Records(groups)
    decreases groups
  {
    records := [];
    for i := 0 to |groups|
      invariant records == Records(groups[..i])
    {
      var record := GroupToRecord(groups[i]);
      records := records + [record];
      assert groups[..i + 1] == groups[..i] + [groups[i]];
      RecordsAppend(groups[..i], [groups[i]]);
      assert [groups[i]][1..] == [];
    }
    assert groups[..|groups|] == groups;
  }

  method GroupToRecord(group: Group) returns (record: Record)
    ensures record == RecordOf(group)
    decreases group
  {
    var entries := CondsToRecord(group.elements);
    return Record(entries);
  }

  // ---------------------------------------------------------------------------------------------
  // The list is a conjunction
  // ---------------------------------------------------------------------------------------------

  /** The entries of the elements, in order. */
  function Kept(elements: seq<Element>): seq<Entry> {
    if elements == [] then []
    else
      var rest := Kept(elements[..|elements| - 1]);
      match EntryOf(elements[|elements| - 1]) case None => rest case Some(e) => rest + [e]
  }

  function Keys(entries: seq<Entry>): seq<string> {
    if entries == [] then [] else [entries[0].key] + Keys(entries[1..])
  }

  lemma {:induction false} KeysAt(entries: seq<Entry>)
    ensures |Keys(entries)| == |entries| && forall i :: 0 <= i < |entries| ==> Keys(entries)[i] == entries[i].key
  {
    if entries != [] {
      KeysAt(entries[1..]);
    }
  }

  lemma {:induction false} PutNew(entries: seq<Entry>, e: Entry)
    ensures e.key !in Keys(entries) <==> Put(entries, e) == entries + [e]
    ensures |Put(entries, e)| == |entries| + if e.key in Keys(entries) then 0 else 1
    ensures |Keys(Put(entries, e))| == |Put(entries, e)|
    ensures forall k :: k in Keys(Put(entries, e)) <==> k in Keys(entries) || k == e.key
  {
    KeysAt(Put(entries, e));
    if entries != [] {
      PutNew(entries[1..], e);
      if entries[0].key != e.key {
        assert Put(entries, e)[1..] == Put(entries[1..], e);
        assert (entries + [e])[1..] == entries[1..] + [e];
      } else {
        assert |Put(entries, e)| == |entries|;
        assert Put(entries, e)[1..] == entries[1..];
      }
    }
  }

  lemma {:induction false} RecordKeys(elements: seq<Element>)
    ensures forall k :: k in Keys(ToRecord(elements)) <==> k in Keys(Kept(elements))
    ensures |ToRecord(elements)| <= |Kept(elements)|
  {
    if elements != [] {
      var init, e := elements[..|elements| - 1], EntryOf(elements[|elements| - 1]);
      RecordKeys(init);
      if e.Some? {
        PutNew(ToRecord(init), e.value);
        KeysSnoc(Kept(init), e.value);
      }
    }
  }

  lemma KeysSnoc(entries: seq<Entry>, e: Entry)
    ensures Keys(entries + [e]) == Keys(entries) + [e.key]
  {
    KeysAt(entries);
    KeysAt(entries + [e]);
  }

  /** The record holds every element of the list exactly when no two elements have the same key: a later one
      replaces an earlier one. */
  lemma {:induction false} RecordKeepsAllIffDistinct(elements: seq<Element>)
    ensures ToRecord(elements) == Kept(elements) <==> Distinct(Keys(Kept(elements)))
    ensures |ToRecord(elements)| == |Kept(elements)| <==> Distinct(Keys(Kept(elements)))
  {
    if elements != [] {
      var init, e := elements[..|elements| - 1], EntryOf(elements[|elements| - 1]);
      RecordKeepsAllIffDistinct(init);
      RecordKeys(init);
      if e.Some? {
        PutNew(ToRecord(init), e.value);
        KeysSnoc(Kept(init), e.value);
        KeysAt(Kept(init));
        DistinctSnoc(Keys(Kept(init)), e.value.key);
      }
    }
  }

  lemma DistinctSnoc(keys: seq<string>, k: string)
    ensures Distinct(keys + [k]) <==> Distinct(keys) && k !in keys
  {
    var all := keys + [k];
    assert forall i :: 0 <= i < |keys| ==> all[i] == keys[i];
    assert all[|keys|] == k;
    assert k in keys <==> exists i :: 0 <= i < |keys| && all[i] == all[|keys|];
  }

  // ---------------------------------------------------------------------------------------------
  // What an element means by itself
  // ---------------------------------------------------------------------------------------------

  /** A column compared with a value: IS NULL, membership or equality, with the column's cast on what is compared. A
      boolean is a literal, unless the column has a cast. */
  function MeanColumn(db: Database, sc: Scope, column: string, sqlCast: Option<string>, value: Cond, casts: bool): Option<Tri> {
    var left, cast := db.Column(sc, column), WrittenCast(sqlCast, casts);
    match value
    case Nul => Some(db.Truth(left == Null))
    case Boolean(b) => Some(db.compare("=", left, if sqlCast.Some? then Casted(db, Flag(b), cast) else db.Column(sc, BoolText(b))))
    case Scalar(v) => Some(db.compare("=", left, Casted(db, v, cast)))
    case List(vs) => Some(MeanIn(db, left, AllCasted(db, vs, cast)))
    case TokenValue(t) => Some(MeanToken(db, sc, column, t, casts))
    case Inner(c) => Meaning(db, sc, c, casts)
    case _ => None
  }

  /** The cast of a column as it is written for the database. */
  function WrittenCast(sqlCast: Option<string>, casts: bool): Option<string> {
    if sqlCast.Some? then CastOf(sqlCast.value, casts) else None
  }

  /** A pair of a text and a value: a text with placeholders holds with the value in its place; another text is a key as it
      stands. */
  function MeanPair(db: Database, sc: Scope, text: string, value: Cond, casts: bool): Option<Tri> {
    if !HasHole(text) then MeanEntry(db, sc, Entry(text, value), casts)
    else
      match value
      case Nul => Some(db.holds(sc, text, [[Null]]))
      case Boolean(b) => Some(db.holds(sc, text, [[Flag(b)]]))
      case Scalar(v) => Some(db.holds(sc, text, [[v]]))
      case List(vs) => Some(MeanCustom(db, sc, text, vs))
      case _ => MeanEntry(db, sc, Entry(text, value), casts)
  }

  /** A fragment holds with one parameter in each of its placeholders; an OR is any of its groups, and a group all of its
      elements. */
  function MeanElement(db: Database, sc: Scope, e: Element, casts: bool): Option<Tri>
    decreases e, 0
  {
    match e
    case Skipped => None
    case Either(groups) =>
      var truths := MeanAlternatives(db, sc, groups, casts);
      if truths == [] then None else Some(AnyOf(truths))
    case Sql(text, params) => Some(db.holds(sc, text, Singletons(params)))
    case NoValue(text) => Some(db.holds(sc, text, []))
    case OnText(text, value) => if value.None? then None else MeanPair(db, sc, text, value.value, casts)
    case OnColumn(column, sqlCast, value) =>
      if value.None? then None else MeanColumn(db, sc, column, sqlCast, value.value, casts)
    case OnColumns(columns, tuples) => Some(AnyOf(TupleComparisons(db, db.Columns(sc, columns), tuples)))
  }

  /** A group that says nothing is no alternative. */
  function MeanAlternatives(db: Database, sc: Scope, groups: seq<Group>, casts: bool): seq<Tri>
    decreases groups, 0
  {
    if groups == [] then []
    else
      var all := MeanGroup(db, sc, groups[0], casts);
      var rest := MeanAlternatives(db, sc, groups[1..], casts);
      if all == [] then rest else [AllOf(all)] + rest
  }

  function MeanGroup(db: Database, sc: Scope, group: Group, casts: bool): seq<Tri>
    decreases group, 0
  {
    MeanElements(db, sc, group.elements, casts)
  }

  /** What the elements that mean something mean. */
  function MeanElements(db: Database, sc: Scope, elements: seq<Element>, casts: bool): seq<Tri>
    decreases elements, 0
  {
    if elements == [] then []
    else
      var rest := MeanElements(db, sc, elements[..|elements| - 1], casts);
      var last := MeanElement(db, sc, elements[|elements| - 1], casts);
      if last.None? then rest else rest + [last.value]
  }

  /** Null, a boolean, a plain value or a list. */
  predicate IsData(value: Cond) {
    value.Nul? || value.Boolean? || value.Scalar? || value.List?
  }

  /** What the source's types say of an element: the name of a column is a plain name, a fragment has a parameter for each
      of its placeholders, and no text looks like one of the reserved keys. */
  predicate IsElement(e: Element)
    decreases e, 0
  {
    match e
    case Either(groups) => AreGroups(groups)
    case Sql(text, params) => !IsReserved(text) && Holes(text) == |params|
    case NoValue(text) => !IsReserved(text) && !HasHole(text)
    case OnText(text, value) => !IsReserved(text) && (value.Some? && HasHole(text) ==> IsData(value.value))
    case OnColumn(column, _, _) => !IsReserved(column) && !HasHole(column) && !HasSpace(column)
    case _ => true
  }

  predicate AreGroups(groups: seq<Group>)
    decreases groups, 0
  {
    groups == [] || (IsGroup(groups[0]) && AreGroups(groups[1..]))
  }

  predicate IsGroup(group: Group)
    decreases group, 0
  {
    AreElements(group.elements)
  }

  predicate AreElements(elements: seq<Element>)
    decreases elements, 0
  {
    elements == [] || (AreElements(elements[..|elements| - 1]) && IsElement(elements[|elements| - 1]))
  }

  /** A fragment's parameter that the compiler binds: not null, not a boolean and not an array. */
  predicate IsAtom(v: Value) {
    v.Int? || v.Text?
  }

  /** Exactly the elements that keep their meaning on the way to the compiler: no fragment with null, a boolean or an array
      for its only parameter, no text with a placeholder for null or a boolean, no null for a column with a cast, and no
      text without a value that has no space. */
  predicate Translates(e: Element)
    decreases e, 0
  {
    match e
    case Either(groups) => TranslateGroups(groups)
    case Sql(text, params) => (params == [] ==> HasSpace(text)) && (|params| == 1 ==> IsAtom(params[0]))
    case NoValue(text) => HasSpace(text)
    case OnText(text, value) => value.Some? && HasHole(text) ==> !value.value.Nul? && !value.value.Boolean?
    case OnColumn(_, sqlCast, value) => sqlCast.Some? && value.Some? ==> !value.value.Nul?
    case _ => true
  }

  predicate TranslateGroups(groups: seq<Group>)
    decreases groups, 0
  {
    groups == [] || (TranslatesGroup(groups[0]) && TranslateGroups(groups[1..]))
  }

  /** In a group the keys must be distinct too. */
  predicate TranslatesGroup(group: Group)
    decreases group, 0
  {
    TranslateAll(group.elements) && Distinct(Keys(Kept(group.elements)))
  }

  predicate TranslateAll(elements: seq<Element>)
    decreases elements, 0
  {
    elements == [] || (TranslateAll(elements[..|elements| - 1]) && Translates(elements[|elements| - 1]))
  }

  // ---------------------------------------------------------------------------------------------
  // The translation keeps the meaning
  // ---------------------------------------------------------------------------------------------

  function MeanMaybe(db: Database, sc: Scope, e: Option<Entry>, casts: bool): Option<Tri> {
    match e case None => None case Some(entry) => MeanEntry(db, sc, entry, casts)
  }

  lemma HolesAreThere(text: string)
    ensures HasHole(text) <==> Holes(text) > 0
  {
    NoHoleNoPlaceholder(text);
  }

  lemma FragmentMeans(db: Database, sc: Scope, text: string, params: seq<Value>, casts: bool)
    requires IsElement(Sql(text, params)) && Translates(Sql(text, params))
    ensures MeanMaybe(db, sc, EntryOf(Sql(text, params)), casts) == Some(db.holds(sc, text, Singletons(params)))
  {
    HolesAreThere(text);
    if params == [] {
      FreeTextMeans(db, sc, text, casts);
    } else if |params| == 1 {
      assert params == [params[0]];
      assert Singletons(params) == [[params[0]]];
      OneParameterMeans(db, sc, text, params[0], casts);
    } else {
      assert MeanEntry(db, sc, Entry(text, List(params)), casts) == Some(MeanCustom(db, sc, text, params));
    }
  }

  lemma FreeTextMeans(db: Database, sc: Scope, text: string, casts: bool)
    requires !IsReserved(text) && HasSpace(text)
    ensures MeanEntry(db, sc, Entry(text, Boolean(true)), casts) == Some(db.holds(sc, text, []))
  {
    assert text != OR_KEY && text != RAW_KEY;
  }

  lemma OneParameterMeans(db: Database, sc: Scope, text: string, v: Atom, casts: bool)
    requires !IsReserved(text) && HasHole(text)
    ensures MeanEntry(db, sc, Entry(text, Scalar(v)), casts) == Some(db.holds(sc, text, [[v]]))
  {
    assert text != OR_KEY && text != RAW_KEY;
  }

  lemma ColumnMeans(db: Database, sc: Scope, column: string, sqlCast: Option<string>, value: Cond, casts: bool)
    requires IsElement(OnColumn(column, sqlCast, Some(value))) && Translates(OnColumn(column, sqlCast, Some(value)))
    ensures MeanMaybe(db, sc, EntryOf(OnColumn(column, sqlCast, Some(value))), casts) == MeanElement(db, sc, OnColumn(column, sqlCast, Some(value)), casts)
  {
    assert column != OR_KEY && column != RAW_KEY;
    if value.List? && sqlCast.None? {
      AllCastedNone(db, value.vs);
    }
  }

  lemma PairMeans(db: Database, sc: Scope, text: string, value: Cond, casts: bool)
    requires IsElement(OnText(text, Some(value))) && Translates(OnText(text, Some(value)))
    ensures MeanMaybe(db, sc, EntryOf(OnText(text, Some(value))), casts) == MeanElement(db, sc, OnText(text, Some(value)), casts)
  {
    assert text != OR_KEY && text != RAW_KEY;
  }

  /** An element that translates means as an entry what it means by itself. */
  lemma {:induction false} ElementMeans(db: Database, sc: Scope, e: Element, casts: bool)
    requires IsElement(e) && Translates(e)
    ensures MeanMaybe(db, sc, EntryOf(e), casts) == MeanElement(db, sc, e, casts)
    decreases e, 1
  {
    match e {
      case Either(groups) => AlternativesMean(db, sc, groups, casts);
      case Sql(text, params) => FragmentMeans(db, sc, text, params, casts);
      case NoValue(text) => assert text != OR_KEY && text != RAW_KEY;
      case OnText(text, value) =>
        if value.Some? {
          PairMeans(db, sc, text, value.value, casts);
        }
      case OnColumn(column, sqlCast, value) =>
        if value.Some? {
          ColumnMeans(db, sc, column, sqlCast, value.value, casts);
        }
      case _ =>
    }
  }

  lemma {:induction false} AlternativesMean(db: Database, sc: Scope, groups: seq<Group>, casts: bool)
    requires AreGroups(groups) && TranslateGroups(groups)
    ensures MeanGroups(db, sc, Records(groups), casts) == MeanAlternatives(db, sc, groups, casts)
    decreases groups, 1
  {
    if groups != [] {
      GroupMeans(db, sc, groups[0], casts);
      AlternativesMean(db, sc, groups[1..], casts);
      assert Records(groups)[1..] == Records(groups[1..]);
    }
  }

  lemma {:induction false} GroupMeans(db: Database, sc: Scope, group: Group, casts: bool)
    requires IsGroup(group) && TranslatesGroup(group)
    ensures MeanEntries(db, sc, RecordOf(group).entries, casts) == MeanGroup(db, sc, group, casts)
    decreases group, 1
  {
    RecordKeepsAllIffDistinct(group.elements);
    KeptMeans(db, sc, group.elements, casts);
  }

  lemma {:induction false} MeanEntriesSnoc(db: Database, sc: Scope, entries: seq<Entry>, e: Entry, casts: bool)
    ensures MeanEntries(db, sc, entries + [e], casts) ==
            MeanEntries(db, sc, entries, casts) + if MeanEntry(db, sc, e, casts).None? then [] else [MeanEntry(db, sc, e, casts).value]
  {
    if entries == [] {
      assert entries + [e] == [e] && [e][1..] == [];
    } else {
      assert (entries + [e])[1..] == entries[1..] + [e];
      MeanEntriesSnoc(db, sc, entries[1..], e, casts);
    }
  }

  lemma {:induction false} KeptMeans(db: Database, sc: Scope, elements: seq<Element>, casts: bool)
    requires AreElements(elements) && TranslateAll(elements)
    ensures MeanEntries(db, sc, Kept(elements), casts) == MeanElements(db, sc, elements, casts)
    decreases elements, 1
  {
    if elements != [] {
      var init, e := elements[..|elements| - 1], EntryOf(elements[|elements| - 1]);
      KeptMeans(db, sc, init, casts);
      ElementMeans(db, sc, elements[|elements| - 1], casts);
      if e.Some? {
        MeanEntriesSnoc(db, sc, Kept(init), e.value, casts);
      }
    }
  }

  /** With distinct keys the record of elements that translate means what the list means: all of its elements, each by
      itself. */
  lemma RecordIsConjunction(db: Database, sc: Scope, elements: seq<Element>, casts: bool)
    requires AreElements(elements) && TranslateAll(elements) && Distinct(Keys(Kept(elements)))
    ensures
      var all := MeanElements(db, sc, elements, casts);
      Meaning(db, sc, Conditions(ToRecord(elements), And, []), casts) == if all == [] then None else Some(AllOf(all))
  {
    RecordKeepsAllIffDistinct(elements);
    KeptMeans(db, sc, elements, casts);
    var all := MeanElements(db, sc, elements, casts);
    assert MeanNested(db, sc, [], casts) == [] && all + [] == all;
  }

  // ---------------------------------------------------------------------------------------------
  // Exactly these keep it
  // ---------------------------------------------------------------------------------------------

  /** A database in which columns hold `cell`, nothing compares, and a text holds for the values `args` only. */
  function Picky(cell: Value, args: seq<seq<Value>>): Database {
    Database((_, _, _) => cell, (_, _, given) => if given == args then T else F, (_, _, _) => F, (_, v) => v, _ => 0)
  }

  function Depth(v: Value): nat {
    if v.Array? then 1 + DepthOfAll(v.vs) else 0
  }

  function DepthOfAll(vs: seq<Value>): nat {
    if vs == [] then 0 else Depth(vs[0]) + DepthOfAll(vs[1..])
  }

  lemma NotItsOwnArray(vs: seq<Value>)
    ensures vs != [Array(vs)]
  {
    assert [Array(vs)][1..] == [];
    assert DepthOfAll([Array(vs)]) == 1 + DepthOfAll(vs);
  }

  lemma FragmentStrays(text: string, params: seq<Value>, casts: bool)
    requires IsElement(Sql(text, params)) && !Translates(Sql(text, params))
    ensures var db := Picky(Int(0), Singletons(params)); MeanMaybe(db, [], EntryOf(Sql(text, params)), casts) != MeanElement(db, [], Sql(text, params), casts)
  {
    assert text != OR_KEY && text != RAW_KEY;
    HolesAreThere(text);
    if |params| == 1 {
      assert params == [params[0]];
      assert Singletons(params) == [[params[0]]];
      if params[0].Array? {
        NotItsOwnArray(params[0].vs);
      }
    }
  }

  /** No OR, or an OR of one element that is one. */
  predicate IsSingle(e: Element)
    decreases e
  {
    e.Either? ==> |e.groups| == 1 && |e.groups[0].elements| == 1 && IsSingle(e.groups[0].elements[0])
  }

  /** An OR of one element. */
  function OrOf(e: Element): Element {
    Either([Group.Group([e])])
  }

  function Maybe<X>(x: Option<X>): seq<X> {
    match x case None => [] case Some(v) => [v]
  }

  /** A list with one more element. */
  lemma OneMoreElement(db: Database, sc: Scope, elements: seq<Element>, e: Element, casts: bool)
    ensures ToRecord(elements + [e]) == PutIfSome(ToRecord(elements), EntryOf(e))
    ensures Kept(elements + [e]) == Kept(elements) + Maybe(EntryOf(e))
    ensures MeanElements(db, sc, elements + [e], casts) == MeanElements(db, sc, elements, casts) + Maybe(MeanElement(db, sc, e, casts))
    ensures TranslateAll(elements + [e]) <==> TranslateAll(elements) && Translates(e)
    ensures AreElements(elements + [e]) <==> AreElements(elements) && IsElement(e)
  {
    var all := elements + [e];
    assert all[..|all| - 1] == elements && all[|all| - 1] == e;
  }

  lemma OneElement(db: Database, sc: Scope, e: Element, casts: bool)
    ensures ToRecord([e]) == Kept([e]) == Maybe(EntryOf(e))
    ensures MeanElements(db, sc, [e], casts) == Maybe(MeanElement(db, sc, e, casts))
    ensures (TranslateAll([e]) <==> Translates(e)) && (AreElements([e]) <==> IsElement(e))
  {
    OneMoreElement(db, sc, [], e, casts);
    assert [] + [e] == [e];
  }

  /** An OR of one group, as the record and by itself. */
  lemma OneGroupMeans(db: Database, sc: Scope, elements: seq<Element>, casts: bool)
    ensures
      var entries := MeanEntries(db, sc, ToRecord(elements), casts);
      MeanMaybe(db, sc, EntryOf(Either([Group.Group(elements)])), casts) == if entries == [] then None else Some(AnyOf([AllOf(entries)]))
    ensures
      var truths := MeanElements(db, sc, elements, casts);
      MeanElement(db, sc, Either([Group.Group(elements)]), casts) == if truths == [] then None else Some(AnyOf([AllOf(truths)]))
    ensures TranslateGroups([Group.Group(elements)]) <==> TranslateAll(elements) && Distinct(Keys(Kept(elements)))
    ensures AreGroups([Group.Group(elements)]) <==> AreElements(elements)
  {
    var group := Group.Group(elements);
    var record := RecordOf(group);
    assert [group][1..] == [] && [record][1..] == [];
    assert Records([group]) == [record];
    var truths, entries := MeanElements(db, sc, elements, casts), MeanEntries(db, sc, record.entries, casts);
    assert MeanGroup(db, sc, group, casts) == truths;
    assert [AllOf(truths)] + [] == [AllOf(truths)] && [AllOf(entries)] + [] == [AllOf(entries)];
    assert MeanAlternatives(db, sc, [], casts) == [] && MeanGroups(db, sc, [], casts) == [];
    assert MeanAlternatives(db, sc, [group], casts) == if truths == [] then [] else [AllOf(truths)];
    assert MeanGroups(db, sc, [record], casts) == if entries == [] then [] else [AllOf(entries)];
    assert EntryOf(Either([group])) == Some(Entry(OR_KEY, Groups([record])));
  }

  lemma OneEntryMeans(db: Database, sc: Scope, e: Option<Entry>, casts: bool)
    ensures MeanEntries(db, sc, Maybe(e), casts) == Maybe(MeanMaybe(db, sc, e, casts))
  {
    if e.Some? {
      assert [e.value][1..] == [];
    }
  }

  lemma OneMeans(t: Option<Tri>)
    ensures t.Some? ==> AnyOf([AllOf([t.value])]) == t.value
  {
  }

  lemma OrOfMeans(db: Database, sc: Scope, e: Element, casts: bool)
    ensures MeanElement(db, sc, OrOf(e), casts) == MeanElement(db, sc, e, casts)
    ensures MeanMaybe(db, sc, EntryOf(OrOf(e)), casts) == MeanMaybe(db, sc, EntryOf(e), casts)
    ensures (Translates(OrOf(e)) <==> Translates(e)) && (IsElement(OrOf(e)) <==> IsElement(e))
  {
    OneElement(db, sc, e, casts);
    OneGroupMeans(db, sc, [e], casts);
    OneEntryMeans(db, sc, EntryOf(e), casts);
    OneMeans(MeanElement(db, sc, e, casts));
    OneMeans(MeanMaybe(db, sc, EntryOf(e), casts));
    KeysAt(Kept([e]));
  }

  /** One element keeps its meaning, in every database and on every row, exactly when it translates; so does an OR of one
      element. */
  lemma {:induction false} TranslatesIff(e: Element, casts: bool)
    requires IsElement(e) && IsSingle(e)
    ensures (forall db, sc :: MeanMaybe(db, sc, EntryOf(e), casts) == MeanElement(db, sc, e, casts)) <==> Translates(e)
    decreases e
  {
    if e.Either? {
      var f := e.groups[0].elements[0];
      assert e.groups[0].elements == [f] && e.groups == [Group.Group([f])] && e == OrOf(f);
      forall db, sc ensures MeanMaybe(db, sc, EntryOf(e), casts) == MeanElement(db, sc, e, casts) <==>
        MeanMaybe(db, sc, EntryOf(f), casts) == MeanElement(db, sc, f, casts)
      {
        OrOfMeans(db, sc, f, casts);
      }
      OrOfMeans(Picky(Null, []), [], f, casts);
      TranslatesIff(f, casts);
    } else if Translates(e) {
      forall db, sc ensures MeanMaybe(db, sc, EntryOf(e), casts) == MeanElement(db, sc, e, casts) {
        ElementMeans(db, sc, e, casts);
      }
    } else {
      var db := Strays(e, casts);
      assert MeanMaybe(db, [], EntryOf(e), casts) != MeanElement(db, [], e, casts);
    }
  }

  /** In an OR of more, what is lost may do no harm: of two equal elements one is replaced, and the OR means the same. */
  lemma TwinInOr(column: string, v: Atom, casts: bool)
    requires !IsReserved(column) && !HasHole(column) && !HasSpace(column)
    ensures
      var e := OnColumn(column, None, Some(Scalar(v)));
      var twins := Either([Group.Group([e, e])]);
      !Translates(twins) && forall db, sc :: MeanMaybe(db, sc, EntryOf(twins), casts) == MeanElement(db, sc, twins, casts)
  {
    var e := OnColumn(column, None, Some(Scalar(v)));
    var entry := Entry(column, Scalar(v));
    KeysAt([entry, entry]);
    forall db, sc ensures MeanMaybe(db, sc, EntryOf(Either([Group.Group([e, e])])), casts) == MeanElement(db, sc, Either([Group.Group([e, e])]), casts) {
      TwinMeans(db, sc, e, entry, casts);
    }
    TwinMeans(Picky(Null, []), [], e, entry, casts);
    OneGroupMeans(Picky(Null, []), [], [e, e], casts);
  }

  lemma TwinMeans(db: Database, sc: Scope, e: Element, entry: Entry, casts: bool)
    requires IsElement(e) && Translates(e) && EntryOf(e) == Some(entry)
    ensures MeanMaybe(db, sc, EntryOf(Either([Group.Group([e, e])])), casts) == MeanElement(db, sc, Either([Group.Group([e, e])]), casts)
    ensures Kept([e, e]) == [entry, entry]
  {
    ElementMeans(db, sc, e, casts);
    OneElement(db, sc, e, casts);
    OneMoreElement(db, sc, [e], e, casts);
    assert [e] + [e] == [e, e];
    assert Put([entry], entry) == [entry];
    OneGroupMeans(db, sc, [e, e], casts);
    OneEntryMeans(db, sc, EntryOf(e), casts);
    TwinTruths(MeanElement(db, sc, e, casts));
  }

  lemma TwinTruths(t: Option<Tri>)
    ensures t.Some? ==> AllOf([t.value, t.value]) == AllOf([t.value])
  {
  }

  lemma Strays(e: Element, casts: bool) returns (db: Database)
    requires IsElement(e) && !e.Either? && !Translates(e)
    ensures MeanMaybe(db, [], EntryOf(e), casts) != MeanElement(db, [], e, casts)
  {
    match e {
      case Sql(text, params) =>
        FragmentStrays(text, params, casts);
        db := Picky(Int(0), Singletons(params));
      case NoValue(text) =>
        assert text != OR_KEY && text != RAW_KEY;
        db := Picky(Int(0), []);
      case OnText(text, value) =>
        assert text != OR_KEY && text != RAW_KEY;
        db := Picky(Int(0), [[if value.value.Nul? then Null else Flag(value.value.b)]]);
      case OnColumn(column, sqlCast, value) =>
        db := Picky(Null, []);
    }
  }

  /** Of two OR conditions in one list only the later one counts. */
  lemma SecondOrReplacesFirst(a: seq<Group>, b: seq<Group>)
    ensures ToRecord([Either(a), Either(b)]) == ToRecord([Either(b)])
  {
    var both := [Either(a), Either(b)];
    assert both[..1] == [Either(a)] && [Either(a)][..0] == [] && [Either(b)][..0] == [];
    assert ToRecord([Either(a)]) == [Entry(OR_KEY, Groups(Records(a)))];
    assert ToRecord(both) == Put(ToRecord([Either(a)]), Entry(OR_KEY, Groups(Records(b))));
    assert [Entry(OR_KEY, Groups(Records(a)))][1..] == [];
  }
}
