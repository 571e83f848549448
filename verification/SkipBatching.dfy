/** Batched writes with skipped columns: the grouping of `_insert` and the one statement of `updateMany`. */
module SkipBatching {
  import opened Sequences

  datatype Value = Undefined | Null | Default | Plain(n: int)
  datatype Field = Field(name: string, value: Value)

  /** An object: its fields in order, each name once. */
  type Record = seq<Field>

  predicate IsRecord(r: Record) {
    forall i, j :: 0 <= i < j < |r| ==> r[i].name != r[j].name
  }

  function Get(r: Record, name: string): Value {
    if r == [] then Undefined else if r[0].name == name then r[0].value else Get(r[1..], name)
  }

  predicate Has(r: Record, name: string) {
    exists i :: 0 <= i < |r| && r[i].name == name
  }

  /** `result[name] = value`. */
  function Put(r: Record, name: string, value: Value): Record {
    if r == [] then [Field(name, value)]
    else if r[0].name == name then [Field(name, value)] + r[1..]
    else [r[0]] + Put(r[1..], name, value)
  }

  lemma {:induction false} PutRecord(r: Record, name: string, value: Value)
    requires IsRecord(r)
    ensures IsRecord(Put(r, name, value))
  {
    if r != [] {
      var s := Put(r, name, value);
      if r[0].name == name {
        assert forall i :: 0 < i < |r| ==> s[i] == r[i];
      } else {
        assert forall i, j :: 0 <= i < j < |r[1..]| ==> r[1..][i] == r[i + 1] && r[1..][j] == r[j + 1];
        PutRecord(r[1..], name, value);
        GetPut(r[1..], name, value, r[0].name);
        assert !Has(r[1..], r[0].name);
      }
    }
  }

  lemma {:induction false} GetPut(r: Record, name: string, value: Value, other: string)
    ensures Get(Put(r, name, value), other) == if other == name then value else Get(r, other)
    ensures Has(Put(r, name, value), other) <==> other == name || Has(r, other)
  {
    if r == [] {
      assert Put(r, name, value)[0].name == name;
    } else {
      var s := Put(r, name, value);
      HasNext(r, other);
      HasNext(s, other);
      if r[0].name == name {
        assert s[1..] == r[1..];
      } else {
        GetPut(r[1..], name, value, other);
        assert s[1..] == Put(r[1..], name, value);
      }
    }
  }

  lemma HasNext(r: Record, name: string)
    requires r != []
    ensures Has(r, name) <==> r[0].name == name || Has(r[1..], name)
  {
    if Has(r[1..], name) {
      var k :| 0 <= k < |r[1..]| && r[1..][k].name == name;
      assert r[k + 1].name == name;
    }
    if Has(r, name) && r[0].name != name {
      var k :| 0 <= k < |r| && r[k].name == name;
      assert r[1..][k - 1].name == name;
    }
  }

  // ---------------------------------------------------------------------------------------------
  // Sorted names
  // ---------------------------------------------------------------------------------------------

  predicate Leq(a: string, b: string) {
    a == "" || (b != "" && (a[0] < b[0] || (a[0] == b[0] && Leq(a[1..], b[1..]))))
  }

  lemma {:induction false} LeqTotal(a: string, b: string)
    ensures Leq(a, b) || Leq(b, a)
    ensures Leq(a, b) && Leq(b, a) ==> a == b
  {
    if a != "" && b != "" && a[0] == b[0] {
      LeqTotal(a[1..], b[1..]);
      assert a == [a[0]] + a[1..] && b == [b[0]] + b[1..];
    }
  }

  lemma {:induction false} LeqTransitive(a: string, b: string, c: string)
    requires Leq(a, b) && Leq(b, c)
    ensures Leq(a, c)
  {
    if a != "" && a[0] == b[0] && b[0] == c[0] {
      LeqTransitive(a[1..], b[1..], c[1..]);
    }
  }

  predicate Sorted(names: seq<string>) {
    forall i, j :: 0 <= i < j < |names| ==> Leq(names[i], names[j])
  }

  function InsertName(name: string, names: seq<string>): seq<string> {
    if names == [] || Leq(name, names[0]) then [name] + names else [names[0]] + InsertName(name, names[1..])
  }

  /** `Array.prototype.sort` on strings. */
  function Sort(names: seq<string>): seq<string> {
    if names == [] then [] else InsertName(names[0], Sort(names[1..]))
  }

  lemma {:induction false} InsertPermutes(name: string, names: seq<string>)
    ensures multiset(InsertName(name, names)) == multiset(names) + multiset{name}
  {
    if names != [] && !Leq(name, names[0]) {
      InsertPermutes(name, names[1..]);
      assert names == [names[0]] + names[1..];
    }
  }

  lemma {:induction false} SortPermutes(names: seq<string>)
    ensures multiset(Sort(names)) == multiset(names)
  {
    if names != [] {
      SortPermutes(names[1..]);
      InsertPermutes(names[0], Sort(names[1..]));
      assert names == [names[0]] + names[1..];
    }
  }

  lemma {:induction false} InsertSorted(name: string, names: seq<string>)
    requires Sorted(names)
    ensures Sorted(InsertName(name, names))
  {
    var r := InsertName(name, names);
    if names == [] {
    } else if Leq(name, names[0]) {
      forall i, j | 0 <= i < j < |r| ensures Leq(r[i], r[j]) {
        if i == 0 && j > 1 {
          LeqTransitive(name, names[0], names[j - 1]);
        }
      }
    } else {
      LeqTotal(name, names[0]);
      InsertSorted(name, names[1..]);
      var more := InsertName(name, names[1..]);
      InsertPermutes(name, names[1..]);
      forall j | 0 <= j < |more| ensures Leq(names[0], more[j]) {
        assert more[j] in multiset(more);
        assert more[j] in multiset(names[1..]) || more[j] == name;
        if more[j] != name {
          assert more[j] in names[1..];
        }
      }
    }
  }

  lemma {:induction false} SortSorts(names: seq<string>)
    ensures Sorted(Sort(names))
  {
    if names != [] {
      SortSorts(names[1..]);
      InsertSorted(names[0], Sort(names[1..]));
    }
  }

  lemma SameLeast(a: seq<string>, b: seq<string>)
    requires Sorted(a) && Sorted(b) && multiset(a) == multiset(b) && a != []
    ensures b != [] && a[0] == b[0]
  {
    assert a[0] in multiset(b);
    assert b[0] in multiset(a);
    var i :| 0 <= i < |b| && b[i] == a[0];
    var j :| 0 <= j < |a| && a[j] == b[0];
    LeqTotal(a[0], b[0]);
  }

  /** There is one way to sort. */
  lemma {:induction false} SortedUnique(a: seq<string>, b: seq<string>)
    requires Sorted(a) && Sorted(b) && multiset(a) == multiset(b)
    ensures a == b
  {
    if a == [] {
      assert |multiset(b)| == 0;
    } else {
      SameLeast(a, b);
      assert a == [a[0]] + a[1..] && b == [b[0]] + b[1..];
      assert multiset(a[1..]) == multiset(a) - multiset{a[0]};
      assert multiset(b[1..]) == multiset(b) - multiset{a[0]};
      SortedUnique(a[1..], b[1..]);
    }
  }

  // ---------------------------------------------------------------------------------------------
  // Inserts
  // ---------------------------------------------------------------------------------------------

  type Serializer = Value -> Value

  function SerializeField(f: Field, serializers: map<string, Serializer>): Field {
    if f.name in serializers then Field(f.name, serializers[f.name](f.value)) else f
  }

  function Serialized(r: Record, serializers: map<string, Serializer>): (s: Record)
    ensures |s| == |r| && forall i :: 0 <= i < |r| ==> s[i] == SerializeField(r[i], serializers)
  {
    if r == [] then [] else [SerializeField(r[0], serializers)] + Serialized(r[1..], serializers)
  }

  /** `serializeRecord`. */
  method SerializeRecord(r: Record, serializers: map<string, Serializer>) returns (s: Record)
    ensures s == Serialized(r, serializers)
    ensures |s| == |r| && forall i :: 0 <= i < |r| ==>
      s[i].name == r[i].name && s[i].value == if r[i].name in serializers then serializers[r[i].name](r[i].value) else r[i].value
  {
    s := r;
    if |serializers| == 0 {
      assert forall i :: 0 <= i < |r| ==> r[i] == SerializeField(r[i], serializers);
      return;
    }
    for i := 0 to |r|
      invariant |s| == |r|
      invariant forall k :: 0 <= k < i ==> s[k] == SerializeField(r[k], serializers)
      invariant forall k :: i <= k < |r| ==> s[k] == r[k]
    {
      if r[i].name in serializers {
        s := s[i := Field(r[i].name, serializers[r[i].name](r[i].value))];
      }
    }
  }

  /** The columns a record has a value for. */
  function Present(r: Record): seq<string> {
    if r == [] then []
    else
      var f := r[|r| - 1];
      Present(r[..|r| - 1]) + if f.value.Undefined? || f.value.Default? then [] else [f.name]
  }

  function ColumnsOf(r: Record): seq<string> {
    Sort(Present(r))
  }

  function PatternOf(r: Record): string {
    Join(ColumnsOf(r), ',')
  }

  method PresentColumns(record: Record) returns (columns: seq<string>)
    ensures columns == ColumnsOf(record)
  {
    var names: seq<string> := [];
    for i := 0 to |record|
      invariant names == Present(record[..i])
    {
      assert record[..i + 1][..i] == record[..i];
      var val := record[i].value;
      if !val.Undefined? && !val.Default? {
        names := names + [record[i].name];
      } else {
        assert names + [] == names;
      }
    }
    assert record[..|record|] == record;
    return Sort(names);
  }

  datatype Group = Group(columns: seq<string>, records: seq<Record>, rawRecords: seq<Record>)

  /** The patterns of the records, one each. */
  function Keys(records: seq<Record>): (r: seq<string>)
    ensures |r| == |records|
  {
    if records == [] then [] else [PatternOf(records[0])] + Keys(records[1..])
  }

  lemma {:induction false} KeyAt(records: seq<Record>, i: nat)
    requires i < |records|
    ensures Keys(records)[i] == PatternOf(records[i])
  {
    if i > 0 {
      KeyAt(records[1..], i - 1);
    }
  }

  /** What stands beside a pattern among the first n, in order. */
  function Members<T>(keys: seq<string>, from: seq<T>, key: string, n: nat): seq<T>
    requires n <= |keys| == |from|
  {
    if n == 0 then []
    else if keys[n - 1] == key then Members(keys, from, key, n - 1) + [from[n - 1]]
    else Members(keys, from, key, n - 1)
  }

  /** Where a pattern first occurs among the first n. */
  function FirstOf(keys: seq<string>, key: string, n: nat): (r: Option<nat>)
    requires n <= |keys|
    ensures r.Some? ==> r.value < n && keys[r.value] == key
    ensures r.None? ==> forall i :: 0 <= i < n ==> keys[i] != key
  {
    if n == 0 then None
    else
      var before := FirstOf(keys, key, n - 1);
      if before.Some? then before else if keys[n - 1] == key then Some(n - 1) else None
  }

  /** The different patterns among the first n, in the order they first occur. */
  function Patterns(keys: seq<string>, n: nat): seq<string>
    requires n <= |keys|
  {
    if n == 0 then []
    else if FirstOf(keys, keys[n - 1], n - 1).Some? then Patterns(keys, n - 1)
    else Patterns(keys, n - 1) + [keys[n - 1]]
  }

  /** They are those that occur, each once. */
  lemma {:induction false} PatternsOnce(keys: seq<string>, n: nat)
    requires n <= |keys|
    ensures forall p :: p in Patterns(keys, n) <==> FirstOf(keys, p, n).Some?
    ensures Distinct(Patterns(keys, n))
  {
    if n > 0 {
      PatternsOnce(keys, n - 1);
    }
  }

  /** A pattern's group among the first n: the columns of its first record, its records and what they were serialized
      from. */
  function GroupOf(keys: seq<string>, records: seq<Record>, raw: seq<Record>, key: string, n: nat): Group
    requires n <= |keys| == |records| == |raw|
  {
    var first := FirstOf(keys, key, n);
    Group(if first.Some? then ColumnsOf(records[first.value]) else [], Members(keys, records, key, n), Members(keys, raw, key, n))
  }

  function GroupsFor(keys: seq<string>, records: seq<Record>, raw: seq<Record>, patterns: seq<string>): (r: seq<Group>)
    requires |keys| == |records| == |raw|
    ensures |r| == |patterns| && forall i :: 0 <= i < |r| ==> r[i] == GroupOf(keys, records, raw, patterns[i], |keys|)
  {
    if patterns == [] then [] else [GroupOf(keys, records, raw, patterns[0], |keys|)] + GroupsFor(keys, records, raw, patterns[1..])
  }

  /** One group for each pattern. */
  function GroupsOf(records: seq<Record>, raw: seq<Record>): seq<Group>
    requires |records| == |raw|
  {
    var keys := Keys(records);
    GroupsFor(keys, records, raw, Patterns(keys, |keys|))
  }

  lemma {:induction false} NoMembers<T>(keys: seq<string>, from: seq<T>, key: string, n: nat)
    requires n <= |keys| == |from| && FirstOf(keys, key, n).None?
    ensures Members(keys, from, key, n) == []
  {
    if n > 0 {
      NoMembers(keys, from, key, n - 1);
    }
  }

  function SerializedAll(rawRecords: seq<Record>, serializers: map<string, Serializer>): (records: seq<Record>)
    ensures |records| == |rawRecords| && forall i :: 0 <= i < |records| ==> records[i] == Serialized(rawRecords[i], serializers)
  {
    if rawRecords == [] then [] else [Serialized(rawRecords[0], serializers)] + SerializedAll(rawRecords[1..], serializers)
  }

  method SerializeAll(rawRecords: seq<Record>, serializers: map<string, Serializer>) returns (records: seq<Record>)
    ensures records == SerializedAll(rawRecords, serializers)
  {
    records := [];
    for i := 0 to |rawRecords|
      invariant |records| == i && forall k :: 0 <= k < i ==> records[k] == Serialized(rawRecords[k], serializers)
    {
      var r := SerializeRecord(rawRecords[i], serializers);
      records := records + [r];
    }
  }

  /** The groups after n records. */
  ghost predicate Filed(groups: map<string, Group>, order: seq<string>, keys: seq<string>, records: seq<Record>, raw: seq<Record>, n: nat)
    requires n <= |keys| == |records| == |raw|
  {
    && order == Patterns(keys, n)
    && (forall p :: p in groups <==> p in order)
    && (forall p :: p in groups ==> groups[p] == GroupOf(keys, records, raw, p, n))
  }

  /** A record added to its group. */
  function Added(g: Group, record: Record, rawRecord: Record): Group {
    Group(g.columns, g.records + [record], g.rawRecords + [rawRecord])
  }

  lemma FiledOld(groups: map<string, Group>, order: seq<string>, keys: seq<string>, records: seq<Record>, raw: seq<Record>, n: nat)
    requires n < |keys| == |records| == |raw| && Filed(groups, order, keys, records, raw, n)
    requires keys[n] in groups
    ensures Filed(groups[keys[n] := Added(groups[keys[n]], records[n], raw[n])], order, keys, records, raw, n + 1)
  {
    PatternsOnce(keys, n);
  }

  lemma FiledNew(groups: map<string, Group>, order: seq<string>, keys: seq<string>, records: seq<Record>, raw: seq<Record>, n: nat)
    requires n < |keys| == |records| == |raw| && Filed(groups, order, keys, records, raw, n)
    requires keys[n] !in groups
    ensures Filed(groups[keys[n] := Added(Group(ColumnsOf(records[n]), [], []), records[n], raw[n])], order + [keys[n]], keys, records, raw, n + 1)
  {
    PatternsOnce(keys, n);
    NoMembers(keys, records, keys[n], n);
    NoMembers(keys, raw, keys[n], n);
  }

  method PatternColumns(record: Record) returns (columns: seq<string>, patternKey: string)
    ensures columns == ColumnsOf(record) && patternKey == PatternOf(record)
  {
    columns := PresentColumns(record);
    patternKey := Join(columns, ',');
  }

  /** One record of the grouping loop. */
  method FileOne(groups: map<string, Group>, order: seq<string>, record: Record, rawRecord: Record,
                 ghost keys: seq<string>, ghost records: seq<Record>, ghost raw: seq<Record>, ghost n: nat)
    returns (groups': map<string, Group>, order': seq<string>)
    requires n < |keys| == |records| == |raw| && Filed(groups, order, keys, records, raw, n)
    requires records[n] == record && raw[n] == rawRecord && keys == Keys(records)
    ensures Filed(groups', order', keys, records, raw, n + 1)
  {
    var columns, patternKey := PatternColumns(record);
    KeyAt(records, n);
    if patternKey !in groups {
      FiledNew(groups, order, keys, records, raw, n);
      order' := order + [patternKey];
      groups' := groups[patternKey := Added(Group(columns, [], []), record, rawRecord)];
    } else {
      FiledOld(groups, order, keys, records, raw, n);
      order' := order;
      groups' := groups[patternKey := Added(groups[patternKey], record, rawRecord)];
    }
  }

  /** `groupedByPattern.values()`: the groups in the order they were added. */
  method InOrder(order: seq<string>, groups: map<string, Group>) returns (inserts: seq<Group>)
    requires forall i :: 0 <= i < |order| ==> order[i] in groups
    ensures |inserts| == |order| && forall i :: 0 <= i < |order| ==> inserts[i] == groups[order[i]]
  {
    inserts := [];
    for i := 0 to |order|
      invariant |inserts| == i && forall k :: 0 <= k < i ==> inserts[k] == groups[order[k]]
    {
      inserts := inserts + [groups[order[i]]];
    }
  }

  method GroupMany(records: seq<Record>, rawRecords: seq<Record>) returns (inserts: seq<Group>)
    requires |records| == |rawRecords|
    ensures inserts == GroupsOf(records, rawRecords)
  {
    var order: seq<string> := [];
    var groups: map<string, Group> := map[];
    ghost var keys := Keys(records);
    for i := 0 to |records|
      invariant Filed(groups, order, keys, records, rawRecords, i)
    {
      groups, order := FileOne(groups, order, records[i], rawRecords[i], keys, records, rawRecords, i);
    }
    inserts := InOrder(order, groups);
  }

  lemma OnlyGroup(keys: seq<string>, records: seq<Record>, raw: seq<Record>)
    requires |keys| == |records| == |raw| == 1
    ensures Patterns(keys, 1) == keys
    ensures GroupOf(keys, records, raw, keys[0], 1) == Group(ColumnsOf(records[0]), [records[0]], [raw[0]])
  {
    var p := keys[0];
    assert FirstOf(keys, p, 0).None? && FirstOf(keys, p, 1) == Some(0);
    assert Patterns(keys, 0) == [] && [] + [p] == keys;
    assert Members(keys, records, p, 0) == [] && Members(keys, raw, p, 0) == [];
  }

  /** The grouping of `_insert`: one INSERT for each group, in this order. */
  method GroupByPattern(rawRecords: seq<Record>, serializers: map<string, Serializer>) returns (inserts: seq<Group>)
    ensures inserts == GroupsOf(SerializedAll(rawRecords, serializers), rawRecords)
    ensures AreRecords(rawRecords) && PatternsApart(SerializedAll(rawRecords, serializers)) ==> WritesEach(inserts, rawRecords, serializers)
  {
    if AreRecords(rawRecords) && PatternsApart(SerializedAll(rawRecords, serializers)) {
      GroupsWriteEach(rawRecords, serializers);
    }
    if |rawRecords| == 0 {
      return [];
    }
    var serialized := SerializeAll(rawRecords, serializers);
    if |serialized| == 1 {
      var columns := PresentColumns(serialized[0]);
      OnlyGroup(Keys(serialized), serialized, rawRecords);
      return [Group(columns, [serialized[0]], [rawRecords[0]])];
    }
    inserts := GroupMany(serialized, rawRecords);
  }

  // ---------------------------------------------------------------------------------------------
  // What the inserts write
  // ---------------------------------------------------------------------------------------------

  /** The names cannot be confused when they are joined with commas. */
  predicate CommaFree(r: Record) {
    forall i :: 0 <= i < |r| ==> r[i].name != "" && Free(r[i].name, ',')
  }

  lemma {:induction false} PresentIs(r: Record, c: string)
    requires IsRecord(r)
    ensures c in Present(r) <==> Has(r, c) && !Get(r, c).Undefined? && !Get(r, c).Default?
    ensures Distinct(Present(r))
    ensures forall name <- Present(r) :: Has(r, name)
  {
    if r != [] {
      var init, f := r[..|r| - 1], r[|r| - 1];
      PresentIs(init, c);
      LastField(init, f, c);
      assert r == init + [f];
      forall name | name in Present(init) ensures Has(r, name) && name != f.name {
        var i :| 0 <= i < |init| && init[i].name == name;
        assert r[i].name == name;
      }
      assert Has(r, f.name);
    }
  }

  lemma {:induction false} LastField(init: Record, f: Field, c: string)
    requires IsRecord(init + [f])
    ensures Has(init + [f], c) <==> Has(init, c) || c == f.name
    ensures Get(init + [f], c) == if c == f.name then f.value else Get(init, c)
    ensures !Has(init, c) ==> Get(init, c) == Undefined
  {
    var r := init + [f];
    HasNext(r, c);
    if init == [] {
      assert r == [f] && r[1..] == [];
    } else {
      assert r[1..] == init[1..] + [f];
      assert forall i, j :: 0 <= i < j < |r[1..]| ==> r[1..][i] == r[i + 1] && r[1..][j] == r[j + 1];
      assert r[|init|].name == f.name && r[0].name != f.name;
      LastField(init[1..], f, c);
      HasNext(init, c);
    }
  }

  lemma SameElements(a: seq<string>, b: seq<string>)
    requires multiset(a) == multiset(b)
    ensures |a| == |b| && forall x :: x in a <==> x in b
  {
    assert |multiset(a)| == |multiset(b)|;
    assert forall x :: x in a <==> x in multiset(a);
    assert forall x :: x in b <==> x in multiset(b);
  }

  lemma {:induction false} CountDistinct(a: seq<string>, x: string)
    requires Distinct(a)
    ensures multiset(a)[x] == if x in a then 1 else 0
  {
    if a != [] {
      assert a == [a[0]] + a[1..];
      assert Distinct(a[1..]);
      CountDistinct(a[1..], x);
    }
  }

  lemma {:induction false} CountedDistinct(a: seq<string>)
    requires forall x :: multiset(a)[x] <= 1
    ensures Distinct(a)
  {
    if a != [] {
      assert a == [a[0]] + a[1..];
      forall x ensures multiset(a[1..])[x] <= 1 {
        assert multiset(a)[x] <= 1;
      }
      CountedDistinct(a[1..]);
      assert multiset(a)[a[0]] <= 1;
      assert a[0] !in a[1..];
    }
  }

  lemma SortKeeps(names: seq<string>)
    ensures forall x :: x in Sort(names) <==> x in names
    ensures |Sort(names)| == |names| && Sorted(Sort(names))
    ensures Distinct(names) ==> Distinct(Sort(names))
  {
    SortPermutes(names);
    SortSorts(names);
    SameElements(Sort(names), names);
    if Distinct(names) {
      forall x ensures multiset(Sort(names))[x] <= 1 {
        CountDistinct(names, x);
      }
      CountedDistinct(Sort(names));
    }
  }

  /** A record is sent with exactly the columns it has a value for. */
  lemma ColumnsAre(r: Record, c: string)
    requires IsRecord(r)
    ensures c in ColumnsOf(r) <==> Has(r, c) && !Get(r, c).Undefined? && !Get(r, c).Default?
    ensures Sorted(ColumnsOf(r)) && Distinct(ColumnsOf(r))
  {
    PresentIs(r, c);
    SortKeeps(Present(r));
  }

  /** Records with the same columns, in whatever order, share their pattern. */
  lemma SameColumnsSamePattern(r: Record, s: Record)
    requires IsRecord(r) && IsRecord(s)
    requires forall c :: c in Present(r) <==> c in Present(s)
    ensures PatternOf(r) == PatternOf(s)
  {
    PresentIs(r, "");
    PresentIs(s, "");
    forall x ensures multiset(Present(r))[x] == multiset(Present(s))[x] {
      CountDistinct(Present(r), x);
      CountDistinct(Present(s), x);
    }
    SortPermutes(Present(r));
    SortPermutes(Present(s));
    SortSorts(Present(r));
    SortSorts(Present(s));
    SortedUnique(ColumnsOf(r), ColumnsOf(s));
  }

  lemma NamesFree(r: Record)
    requires IsRecord(r) && CommaFree(r)
    ensures AllFree(ColumnsOf(r), ',') && forall c <- ColumnsOf(r) :: c != ""
  {
    forall c | c in ColumnsOf(r) ensures Free(c, ',') && c != "" {
      ColumnsAre(r, c);
      var i :| 0 <= i < |r| && r[i].name == c;
    }
  }

  /** The pattern tells the columns. */
  lemma PatternTellsColumns(r: Record, s: Record)
    requires IsRecord(r) && IsRecord(s) && CommaFree(r) && CommaFree(s)
    requires PatternOf(r) == PatternOf(s)
    ensures ColumnsOf(r) == ColumnsOf(s)
  {
    NamesFree(r);
    NamesFree(s);
    var a, b := ColumnsOf(r), ColumnsOf(s);
    if a != [] && b != [] {
      JoinInjective(a, b, ',');
    } else if a != [] {
      JoinNotEmpty(a);
    } else if b != [] {
      JoinNotEmpty(b);
    }
  }

  lemma JoinNotEmpty(a: seq<string>)
    requires a != [] && forall c <- a :: c != ""
    ensures Join(a, ',') != ""
  {
    assert a[0] in a;
  }

  /** With a comma in a name two patterns can be confused. */
  lemma CommaConfuses(a: string, b: string, v: Value, w: Value, x: Value)
    requires Leq(a, b) && v.Plain? && w.Plain? && x.Plain?
    ensures PatternOf([Field(a + [','] + b, x)]) == PatternOf([Field(a, v), Field(b, w)])
    ensures ColumnsOf([Field(a + [','] + b, x)]) != ColumnsOf([Field(a, v), Field(b, w)])
  {
    var r, s := [Field(a + [','] + b, x)], [Field(a, v), Field(b, w)];
    assert r[..0] == [] && s[..1] == [Field(a, v)] && s[..1][..0] == [];
    assert Present(s[..1]) == [a];
    assert Present(r) == [a + [','] + b] && Present(s) == [a, b];
    SortTwo(a, b);
    SortOne(a + [','] + b);
    JoinTwo(a, b);
  }

  lemma SortOne(a: string)
    ensures Sort([a]) == [a]
  {
    assert [a][1..] == [];
  }

  lemma SortTwo(a: string, b: string)
    requires Leq(a, b)
    ensures Sort([a, b]) == [a, b]
  {
    assert [a, b][1..] == [b];
    SortOne(b);
  }

  lemma JoinTwo(a: string, b: string)
    ensures Join([a, b], ',') == a + [','] + b
  {
    assert [a, b][1..] == [b];
  }

  type Row = map<string, Value>

  /** The row an INSERT with these columns writes for a record; the other columns take their defaults. */
  function RowWith(columns: seq<string>, r: Record): Row {
    map c | c in columns :: Get(r, c)
  }

  function RowsWith(columns: seq<string>, records: seq<Record>): (rows: seq<Row>)
    ensures |rows| == |records| && forall i :: 0 <= i < |rows| ==> rows[i] == RowWith(columns, records[i])
  {
    if records == [] then [] else [RowWith(columns, records[0])] + RowsWith(columns, records[1..])
  }

  /** What all the inserts write together. */
  function RowsOf(groups: seq<Group>): seq<Row> {
    if groups == [] then [] else RowsWith(groups[0].columns, groups[0].records) + RowsOf(groups[1..])
  }

  /** What one INSERT per record writes. */
  function OwnRows(records: seq<Record>): (rows: seq<Row>)
    ensures |rows| == |records| && forall i :: 0 <= i < |rows| ==> rows[i] == RowWith(ColumnsOf(records[i]), records[i])
  {
    if records == [] then [] else [RowWith(ColumnsOf(records[0]), records[0])] + OwnRows(records[1..])
  }

  predicate WellNamed(records: seq<Record>) {
    forall i :: 0 <= i < |records| ==> IsRecord(records[i]) && CommaFree(records[i])
  }

  /** The members of several patterns, one pattern after the other. */
  function Spread<T>(keys: seq<string>, from: seq<T>, patterns: seq<string>, n: nat): seq<T>
    requires n <= |keys| == |from|
  {
    if patterns == [] then [] else Members(keys, from, patterns[0], n) + Spread(keys, from, patterns[1..], n)
  }

  /** The members of all patterns together, in no order. */
  ghost function Spent<T>(keys: seq<string>, from: seq<T>, patterns: seq<string>, n: nat): multiset<T>
    requires n <= |keys| == |from|
  {
    if n == 0 then multiset{} else Spent(keys, from, patterns, n - 1) + if keys[n - 1] in patterns then multiset{from[n - 1]} else multiset{}
  }

  lemma {:induction false} NoneSpent<T>(keys: seq<string>, from: seq<T>, n: nat)
    requires n <= |keys| == |from|
    ensures Spent(keys, from, [], n) == multiset{}
  {
    if n > 0 {
      NoneSpent(keys, from, n - 1);
    }
  }

  lemma {:induction false} SpentSplit<T>(keys: seq<string>, from: seq<T>, p: string, more: seq<string>, n: nat)
    requires n <= |keys| == |from| && p !in more
    ensures Spent(keys, from, [p] + more, n) == multiset(Members(keys, from, p, n)) + Spent(keys, from, more, n)
  {
    if n > 0 {
      SpentSplit(keys, from, p, more, n - 1);
      assert keys[n - 1] in [p] + more <==> keys[n - 1] == p || keys[n - 1] in more;
    }
  }

  lemma {:induction false} SpreadIsSpent<T>(keys: seq<string>, from: seq<T>, patterns: seq<string>, n: nat)
    requires n <= |keys| == |from| && Distinct(patterns)
    ensures multiset(Spread(keys, from, patterns, n)) == Spent(keys, from, patterns, n)
    decreases |patterns|
  {
    if patterns == [] {
      NoneSpent(keys, from, n);
    } else {
      assert patterns == [patterns[0]] + patterns[1..];
      SpreadIsSpent(keys, from, patterns[1..], n);
      SpentSplit(keys, from, patterns[0], patterns[1..], n);
    }
  }

  predicate AllAmong(keys: seq<string>, patterns: seq<string>) {
    forall i :: 0 <= i < |keys| ==> keys[i] in patterns
  }

  lemma {:induction false} AllSpent<T>(keys: seq<string>, from: seq<T>, patterns: seq<string>, n: nat)
    requires n <= |keys| == |from| && AllAmong(keys, patterns)
    ensures Spent(keys, from, patterns, n) == multiset(from[..n])
  {
    if n > 0 {
      AllSpent(keys, from, patterns, n - 1);
      PrefixBag(from, n);
    }
  }

  lemma PrefixBag<T>(s: seq<T>, n: nat)
    requires 0 < n <= |s|
    ensures multiset(s[..n]) == multiset(s[..n - 1]) + multiset{s[n - 1]}
  {
    assert s[..n] == s[..n - 1] + [s[n - 1]];
  }

  /** Spreading over patterns loses nothing and repeats nothing. */
  lemma SpreadIsEverything<T>(keys: seq<string>, from: seq<T>)
    requires |keys| == |from|
    ensures multiset(Spread(keys, from, Patterns(keys, |keys|), |keys|)) == multiset(from)
  {
    PatternsOnce(keys, |keys|);
    SpreadIsSpent(keys, from, Patterns(keys, |keys|), |keys|);
    AllSpent(keys, from, Patterns(keys, |keys|), |keys|);
    assert from[..|keys|] == from;
  }

  lemma {:induction false} MembersAt<T, U>(keys: seq<string>, a: seq<T>, b: seq<U>, key: string, n: nat, j: nat) returns (i: nat)
    requires n <= |keys| == |a| == |b|
    ensures |Members(keys, a, key, n)| == |Members(keys, b, key, n)|
    ensures j < |Members(keys, a, key, n)| ==>
      i < n && keys[i] == key && Members(keys, a, key, n)[j] == a[i] && Members(keys, b, key, n)[j] == b[i]
  {
    if n == 0 {
      i := 0;
    } else {
      i := MembersAt(keys, a, b, key, n - 1, j);
      if keys[n - 1] == key && j == |Members(keys, a, key, n - 1)| {
        i := n - 1;
      }
    }
  }

  /** Records that share their pattern have the same columns. */
  predicate PatternsApart(records: seq<Record>) {
    forall i, j :: 0 <= i < |records| && 0 <= j < |records| && PatternOf(records[i]) == PatternOf(records[j]) ==>
      ColumnsOf(records[i]) == ColumnsOf(records[j])
  }

  predicate AreRecords(records: seq<Record>) {
    forall i :: 0 <= i < |records| ==> IsRecord(records[i])
  }

  /** With plain names they do. */
  lemma WellNamedApart(records: seq<Record>)
    requires WellNamed(records)
    ensures PatternsApart(records) && AreRecords(records)
  {
    forall i, j | 0 <= i < |records| && 0 <= j < |records| && PatternOf(records[i]) == PatternOf(records[j])
      ensures ColumnsOf(records[i]) == ColumnsOf(records[j])
    {
      PatternTellsColumns(records[i], records[j]);
    }
  }

  /** All members of a group have the group's columns. */
  lemma GroupColumns(records: seq<Record>, raw: seq<Record>, key: string)
    requires |records| == |raw| && PatternsApart(records)
    ensures var keys := Keys(records);
      var g := GroupOf(keys, records, raw, key, |keys|);
      RowsWith(g.columns, g.records) == Members(keys, OwnRows(records), key, |keys|)
  {
    var keys := Keys(records);
    var g := GroupOf(keys, records, raw, key, |keys|);
    var own := OwnRows(records);
    var _ := MembersAt(keys, records, own, key, |keys|, 0);
    forall j | 0 <= j < |g.records| ensures RowsWith(g.columns, g.records)[j] == Members(keys, own, key, |keys|)[j] {
      var i := MembersAt(keys, records, own, key, |keys|, j);
      var first := FirstOf(keys, key, |keys|);
      KeyAt(records, i);
      KeyAt(records, first.value);
    }
  }

  /** Raw and serialized records stay paired in every group, and every record of a group has exactly its columns. */
  lemma GroupIsPaired(records: seq<Record>, raw: seq<Record>, serializers: map<string, Serializer>, key: string, j: nat)
    requires records == SerializedAll(raw, serializers) && PatternsApart(records)
    ensures var g := GroupOf(Keys(records), records, raw, key, |records|);
      && |g.records| == |g.rawRecords|
      && (j < |g.records| ==> g.records[j] == Serialized(g.rawRecords[j], serializers) && ColumnsOf(g.records[j]) == g.columns)
  {
    var keys := Keys(records);
    var i := MembersAt(keys, records, raw, key, |keys|, j);
    if j < |Members(keys, records, key, |keys|)| {
      var first := FirstOf(keys, key, |keys|);
      KeyAt(records, i);
      KeyAt(records, first.value);
    }
  }

  lemma {:induction false} RowsAreSpread(records: seq<Record>, raw: seq<Record>, patterns: seq<string>)
    requires |records| == |raw| && PatternsApart(records)
    ensures var keys := Keys(records);
      RowsOf(GroupsFor(keys, records, raw, patterns)) == Spread(keys, OwnRows(records), patterns, |keys|)
  {
    if patterns != [] {
      GroupColumns(records, raw, patterns[0]);
      RowsAreSpread(records, raw, patterns[1..]);
      var groups := GroupsFor(Keys(records), records, raw, patterns);
      assert groups[1..] == GroupsFor(Keys(records), records, raw, patterns[1..]);
    }
  }

  lemma InsertsAreRowByRow(records: seq<Record>, raw: seq<Record>)
    requires |records| == |raw| && PatternsApart(records)
    ensures multiset(RowsOf(GroupsOf(records, raw))) == multiset(OwnRows(records))
  {
    var keys := Keys(records);
    RowsAreSpread(records, raw, Patterns(keys, |keys|));
    SpreadIsEverything(keys, OwnRows(records));
  }

  // What is written is what was given, serialized.

  /** A serialized record has the same columns in the same order, and in each what the column's serializer makes of the value,
      or the value. */
  lemma {:induction false} SerializedIs(r: Record, serializers: map<string, Serializer>, c: string)
    ensures var s := Serialized(r, serializers);
      && (Has(s, c) <==> Has(r, c)) && (IsRecord(r) ==> IsRecord(s))
      && (forall i :: 0 <= i < |r| ==> s[i].name == r[i].name)
      && Get(s, c) == (if Has(r, c) && c in serializers then serializers[c](Get(r, c)) else Get(r, c))
  {
    if r != [] {
      var s := Serialized(r, serializers);
      SerializedIs(r[1..], serializers, c);
      HasNext(r, c);
      HasNext(s, c);
      assert s[1..] == Serialized(r[1..], serializers);
    } else {
      assert Get(r, c) == Undefined;
    }
  }

  /** The row holds, in every column, what the record gives it after serialization, and no other columns. */
  ghost predicate Holds(row: Row, raw: Record, serializers: map<string, Serializer>) {
    forall c ::
      var value := if c in serializers && Has(raw, c) then serializers[c](Get(raw, c)) else Get(raw, c);
      (c in row <==> Has(raw, c) && value != Undefined && value != Default) && (c in row ==> row[c] == value)
  }

  lemma OwnRowHolds(raw: Record, serializers: map<string, Serializer>)
    requires IsRecord(raw)
    ensures var s := Serialized(raw, serializers); Holds(RowWith(ColumnsOf(s), s), raw, serializers)
  {
    var s := Serialized(raw, serializers);
    var row := RowWith(ColumnsOf(s), s);
    forall c
      ensures
        var value := if c in serializers && Has(raw, c) then serializers[c](Get(raw, c)) else Get(raw, c);
        (c in row <==> Has(raw, c) && value != Undefined && value != Default) && (c in row ==> row[c] == value)
    {
      SerializedIs(raw, serializers, c);
      ColumnsAre(s, c);
    }
  }

  /** The groups write one row for each record, holding what the record gives. */
  ghost predicate WritesEach(groups: seq<Group>, raw: seq<Record>, serializers: map<string, Serializer>) {
    exists rows: seq<Row> :: multiset(rows) == multiset(RowsOf(groups)) && |rows| == |raw| && forall i :: 0 <= i < |raw| ==> Holds(rows[i], raw[i], serializers)
  }

  lemma GroupsWriteEach(raw: seq<Record>, serializers: map<string, Serializer>)
    requires AreRecords(raw) && PatternsApart(SerializedAll(raw, serializers))
    ensures WritesEach(GroupsOf(SerializedAll(raw, serializers), raw), raw, serializers)
  {
    var records := SerializedAll(raw, serializers);
    var rows := OwnRows(records);
    InsertsAreRowByRow(records, raw);
    forall i | 0 <= i < |raw| ensures Holds(rows[i], raw[i], serializers) {
      OwnRowHolds(raw[i], serializers);
    }
    assert multiset(rows) == multiset(RowsOf(GroupsOf(records, raw)));
  }

  // Rows are counted by the columns that they supply.

  function WithColumns(rows: seq<Row>, columns: set<string>): nat {
    if rows == [] then 0
    else WithColumns(rows[..|rows| - 1], columns) + if rows[|rows| - 1].Keys == columns then 1 else 0
  }

  lemma {:induction false} WithColumnsAppend(a: seq<Row>, b: seq<Row>, columns: set<string>)
    ensures WithColumns(a + b, columns) == WithColumns(a, columns) + WithColumns(b, columns)
  {
    if b == [] {
      assert a + b == a;
    } else {
      assert (a + b)[..|a + b| - 1] == a + b[..|b| - 1];
      WithColumnsAppend(a, b[..|b| - 1], columns);
    }
  }

  lemma WithoutOne(rows: seq<Row>, k: nat, columns: set<string>) returns (rest: seq<Row>)
    requires k < |rows|
    ensures |rest| == |rows| - 1 && multiset(rest) == multiset(rows) - multiset{rows[k]}
    ensures WithColumns(rows, columns) == WithColumns(rest, columns) + WithColumns([rows[k]], columns)
  {
    var before, x, after := rows[..k], rows[k], rows[k + 1..];
    rest := before + after;
    assert rows == before + [x] + after;
    WithColumnsAppend(before, after, columns);
    WithColumnsAppend(before + [x], after, columns);
    WithColumnsAppend(before, [x], columns);
  }

  lemma {:induction false} SameBagSameCount(a: seq<Row>, b: seq<Row>, columns: set<string>)
    requires multiset(a) == multiset(b)
    ensures WithColumns(a, columns) == WithColumns(b, columns)
    decreases |a|
  {
    if a == [] {
      assert |multiset(b)| == 0;
    } else {
      assert a[0] in multiset(b);
      var k :| 0 <= k < |b| && b[k] == a[0];
      var c := WithoutOne(a, 0, columns);
      var d := WithoutOne(b, k, columns);
      SameBagSameCount(c, d, columns);
    }
  }

  function SetOf(names: seq<string>): set<string> {
    set c | c in names
  }

  lemma {:induction false} AllWithColumns(columns: seq<string>, records: seq<Record>)
    ensures WithColumns(RowsWith(columns, records), SetOf(columns)) == |records|
  {
    if records != [] {
      AllWithColumns(columns, records[1..]);
      var first := RowWith(columns, records[0]);
      WithColumnsAppend([first], RowsWith(columns, records[1..]), SetOf(columns));
      assert [first][..0] == [];
      assert first.Keys == SetOf(columns);
    }
  }

  lemma {:induction false} GroupIsCounted(groups: seq<Group>, k: nat, columns: set<string>)
    requires k < |groups|
    ensures WithColumns(RowsOf(groups), columns) >= WithColumns(RowsWith(groups[k].columns, groups[k].records), columns)
  {
    WithColumnsAppend(RowsWith(groups[0].columns, groups[0].records), RowsOf(groups[1..]), columns);
    if k > 0 {
      GroupIsCounted(groups[1..], k - 1, columns);
    }
  }

  lemma SameSetSameColumns(r: Record, s: Record)
    requires IsRecord(r) && IsRecord(s) && SetOf(ColumnsOf(r)) == SetOf(ColumnsOf(s))
    ensures ColumnsOf(r) == ColumnsOf(s)
  {
    ColumnsAre(r, "");
    ColumnsAre(s, "");
    forall x ensures multiset(ColumnsOf(r))[x] == multiset(ColumnsOf(s))[x] {
      assert x in ColumnsOf(r) <==> x in SetOf(ColumnsOf(r));
      assert x in ColumnsOf(s) <==> x in SetOf(ColumnsOf(s));
      CountDistinct(ColumnsOf(r), x);
      CountDistinct(ColumnsOf(s), x);
    }
    SortedUnique(ColumnsOf(r), ColumnsOf(s));
  }

  lemma OwnRowColumns(records: seq<Record>, i: nat, r: Record)
    requires i < |records| && IsRecord(r) && IsRecord(records[i])
    ensures OwnRows(records)[i].Keys == SetOf(ColumnsOf(r)) <==> ColumnsOf(records[i]) == ColumnsOf(r)
  {
    assert OwnRows(records)[i].Keys == SetOf(ColumnsOf(records[i]));
    if SetOf(ColumnsOf(records[i])) == SetOf(ColumnsOf(r)) {
      SameSetSameColumns(records[i], r);
    }
  }

  /** Of the first n rows at most those of the pattern supply its columns, and the odd one of the pattern does not. */
  lemma {:induction false} OwnAtMost(keys: seq<string>, own: seq<Row>, from: seq<Record>, key: string, columns: set<string>, n: nat, odd: nat)
    requires n <= |keys| == |own| == |from| && odd < |keys|
    requires forall i :: 0 <= i < |own| && own[i].Keys == columns ==> keys[i] == key
    requires keys[odd] == key && own[odd].Keys != columns
    ensures WithColumns(own[..n], columns) + (if odd < n then 1 else 0) <= |Members(keys, from, key, n)|
  {
    if n > 0 {
      OwnAtMost(keys, own, from, key, columns, n - 1, odd);
      assert own[..n][..n - 1] == own[..n - 1];
    }
  }

  /** Who supplies the columns of r has its pattern. */
  lemma OwnColumnsOwnPattern(records: seq<Record>, r: Record)
    requires AreRecords(records) && IsRecord(r)
    ensures forall i :: 0 <= i < |records| && OwnRows(records)[i].Keys == SetOf(ColumnsOf(r)) ==> Keys(records)[i] == PatternOf(r)
  {
    forall i | 0 <= i < |records| && OwnRows(records)[i].Keys == SetOf(ColumnsOf(r)) ensures Keys(records)[i] == PatternOf(r) {
      OwnRowColumns(records, i, r);
      KeyAt(records, i);
    }
  }

  lemma PatternIsListed(keys: seq<string>, i: nat) returns (k: nat)
    requires i < |keys|
    ensures k < |Patterns(keys, |keys|)| && Patterns(keys, |keys|)[k] == keys[i]
  {
    PatternsOnce(keys, |keys|);
    var patterns := Patterns(keys, |keys|);
    assert keys[i] in patterns;
    k :| 0 <= k < |patterns| && patterns[k] == keys[i];
  }

  /** Two records with one pattern and different columns: the rows that are written with the columns of the first record of
      that pattern are too many. */
  lemma CollisionIsWritten(records: seq<Record>, raw: seq<Record>, i: nat, j: nat)
    requires |records| == |raw| && AreRecords(records) && i < |records| && j < |records|
    requires PatternOf(records[i]) == PatternOf(records[j]) && ColumnsOf(records[i]) != ColumnsOf(records[j])
    ensures multiset(RowsOf(GroupsOf(records, raw))) != multiset(OwnRows(records))
  {
    var keys := Keys(records);
    var n := |keys|;
    KeyAt(records, i);
    KeyAt(records, j);
    var first := FirstOf(keys, keys[i], n);
    KeyAt(records, first.value);
    var r := records[first.value];
    var odd := if ColumnsOf(records[i]) != ColumnsOf(r) then i else j;
    var columns := SetOf(ColumnsOf(r));
    OwnColumnsOwnPattern(records, r);
    OwnRowColumns(records, odd, r);
    OwnAtMost(keys, OwnRows(records), records, keys[i], columns, n, odd);
    assert OwnRows(records)[..n] == OwnRows(records);
    var k := PatternIsListed(keys, i);
    var groups := GroupsOf(records, raw);
    assert groups[k] == GroupOf(keys, records, raw, keys[i], n);
    GroupIsCounted(groups, k, columns);
    AllWithColumns(ColumnsOf(r), groups[k].records);
    if multiset(RowsOf(groups)) == multiset(OwnRows(records)) {
      SameBagSameCount(RowsOf(groups), OwnRows(records), columns);
      assert false;
    }
  }

  /** The grouped inserts write what one insert per record writes, row for row, exactly when records that share their pattern
      have the same columns. */
  lemma InsertsAreRowByRowIff(records: seq<Record>, raw: seq<Record>)
    requires |records| == |raw| && AreRecords(records)
    ensures multiset(RowsOf(GroupsOf(records, raw))) == multiset(OwnRows(records)) <==> PatternsApart(records)
  {
    if PatternsApart(records) {
      InsertsAreRowByRow(records, raw);
    } else {
      var i, j :| 0 <= i < |records| && 0 <= j < |records| &&
        PatternOf(records[i]) == PatternOf(records[j]) && ColumnsOf(records[i]) != ColumnsOf(records[j]);
      CollisionIsWritten(records, raw, i, j);
    }
  }

  /** With a comma in a name the rows do differ. */
  lemma CommaIsWritten(a: string, b: string, v: Value, w: Value, x: Value, raw: seq<Record>)
    requires a != b && Leq(a, b) && v.Plain? && w.Plain? && x.Plain? && |raw| == 2
    ensures var records := [[Field(a + [','] + b, x)], [Field(a, v), Field(b, w)]];
      multiset(RowsOf(GroupsOf(records, raw))) != multiset(OwnRows(records))
  {
    var records := [[Field(a + [','] + b, x)], [Field(a, v), Field(b, w)]];
    CommaConfuses(a, b, v, w, x);
    CollisionIsWritten(records, raw, 0, 1);
  }

  function RecordsIn(groups: seq<Group>): seq<Record> {
    if groups == [] then [] else groups[0].records + RecordsIn(groups[1..])
  }

  lemma {:induction false} RecordsAreSpread(keys: seq<string>, records: seq<Record>, raw: seq<Record>, patterns: seq<string>)
    requires |keys| == |records| == |raw|
    ensures RecordsIn(GroupsFor(keys, records, raw, patterns)) == Spread(keys, records, patterns, |keys|)
  {
    if patterns != [] {
      RecordsAreSpread(keys, records, raw, patterns[1..]);
      assert GroupsFor(keys, records, raw, patterns)[1..] == GroupsFor(keys, records, raw, patterns[1..]);
    }
  }

  /** Every record is in exactly one group, whatever its names. */
  lemma EachInOneGroup(records: seq<Record>, raw: seq<Record>)
    requires |records| == |raw|
    ensures multiset(RecordsIn(GroupsOf(records, raw))) == multiset(records)
  {
    var keys := Keys(records);
    RecordsAreSpread(keys, records, raw, Patterns(keys, |keys|));
    SpreadIsEverything(keys, records);
  }

  // ---------------------------------------------------------------------------------------------
  // updateMany
  // ---------------------------------------------------------------------------------------------

  datatype Given = Skip | Set(value: Value)
  datatype Pair = Pair(column: string, given: Given)

  function Recorded(pairs: seq<Pair>): Record {
    if pairs == [] then []
    else
      var before, p := Recorded(pairs[..|pairs| - 1]), pairs[|pairs| - 1];
      if p.given.Skip? then before else Put(before, p.column, p.given.value)
  }

  /** `pairsToRecord`. */
  method PairsToRecord(pairs: seq<Pair>) returns (result: Record)
    ensures result == Recorded(pairs)
  {
    result := [];
    for i := 0 to |pairs|
      invariant result == Recorded(pairs[..i])
    {
      assert pairs[..i + 1][..i] == pairs[..i];
      if !pairs[i].given.Skip? {
        result := Put(result, pairs[i].column, pairs[i].given.value);
      }
    }
    assert pairs[..|pairs|] == pairs;
  }

  /** Pair i gives the column a value, and no later pair does. */
  predicate IsLastGiven(pairs: seq<Pair>, c: string, i: nat) {
    i < |pairs| && pairs[i].column == c && pairs[i].given.Set? &&
    forall j :: i < j < |pairs| ==> pairs[j].column != c || pairs[j].given.Skip?
  }

  /** A record has the columns that are given without SKIP. */
  lemma {:induction false} RecordedHas(pairs: seq<Pair>, c: string)
    ensures IsRecord(Recorded(pairs))
    ensures Has(Recorded(pairs), c) <==> exists i :: 0 <= i < |pairs| && pairs[i].column == c && pairs[i].given.Set?
  {
    if pairs != [] {
      var init, p := pairs[..|pairs| - 1], pairs[|pairs| - 1];
      RecordedHas(init, c);
      assert forall i :: 0 <= i < |init| ==> init[i] == pairs[i];
      if p.given.Set? {
        GetPut(Recorded(init), p.column, p.given.value, c);
        PutRecord(Recorded(init), p.column, p.given.value);
      }
    }
  }

  /** And the last value given. */
  lemma {:induction false} RecordedLast(pairs: seq<Pair>, c: string, i: nat)
    requires IsLastGiven(pairs, c, i)
    ensures Get(Recorded(pairs), c) == pairs[i].given.value
  {
    var init, p := pairs[..|pairs| - 1], pairs[|pairs| - 1];
    if p.given.Set? {
      GetPut(Recorded(init), p.column, p.given.value, c);
    }
    if i < |init| {
      assert forall j :: 0 <= j < |init| ==> init[j] == pairs[j];
      RecordedLast(init, c, i);
    }
  }

  function RecordedAll(rows: seq<seq<Pair>>): (r: seq<Record>)
    ensures |r| == |rows| && forall i :: 0 <= i < |r| ==> r[i] == Recorded(rows[i])
  {
    if rows == [] then [] else [Recorded(rows[0])] + RecordedAll(rows[1..])
  }

  /** Some record sets the column, and it is no key. */
  predicate IsValueColumn(records: seq<Record>, keys: seq<string>, c: string) {
    c !in keys && exists i :: 0 <= i < |records| && Has(records[i], c)
  }

  /** What record i skips of the columns. */
  function Skipped(r: Record, columns: seq<string>): set<string> {
    set c | c in columns && !Has(r, c)
  }

  datatype Plan =
    | NothingToDo
    | MissingKey(column: string)
    | Statement(columns: seq<string>, records: seq<Record>, skips: map<nat, set<string>>)

  method HasField(r: Record, c: string) returns (b: bool)
    ensures b == Has(r, c)
  {
    for i := 0 to |r|
      invariant forall k :: 0 <= k < i ==> r[k].name != c
    {
      if r[i].name == c {
        return true;
      }
    }
    return false;
  }

  /** The union of the value columns, each once. */
  method UnionOfColumns(records: seq<Record>, keys: seq<string>) returns (names: seq<string>)
    ensures Distinct(names) && forall c :: c in names <==> IsValueColumn(records, keys, c)
  {
    names := [];
    for i := 0 to |records|
      invariant Distinct(names) && forall c :: c in names <==> IsValueColumn(records[..i], keys, c)
    {
      var record := records[i];
      for j := 0 to |record|
        invariant Distinct(names)
        invariant forall c :: c in names <==> IsValueColumn(records[..i], keys, c) || (c !in keys && NamedBefore(record, j, c))
      {
        var col := record[j].name;
        if col !in keys && col !in names {
          names := names + [col];
        }
        assert forall c :: NamedBefore(record, j + 1, c) <==> NamedBefore(record, j, c) || c == col;
      }
      forall c ensures IsValueColumn(records[..i + 1], keys, c) <==>
        IsValueColumn(records[..i], keys, c) || (c !in keys && NamedBefore(record, |record|, c))
      {
        ValueColumnNext(records, keys, c, i);
      }
    }
    assert records[..|records|] == records;
  }

  predicate NamedBefore(r: Record, j: nat, c: string)
    requires j <= |r|
  {
    exists k :: 0 <= k < j && r[k].name == c
  }

  lemma ValueColumnNext(records: seq<Record>, keys: seq<string>, c: string, i: nat)
    requires i < |records|
    ensures IsValueColumn(records[..i + 1], keys, c) <==>
      IsValueColumn(records[..i], keys, c) || (c !in keys && NamedBefore(records[i], |records[i]|, c))
  {
    assert NamedBefore(records[i], |records[i]|, c) <==> Has(records[i], c);
    assert records[..i + 1][i] == records[i];
    assert forall k :: 0 <= k < i ==> records[..i][k] == records[..i + 1][k];
  }

  /** The key columns of the first n records are all there. */
  predicate KeysThere(records: seq<Record>, keys: seq<string>, n: nat)
    requires n <= |records|
  {
    forall i, k :: 0 <= i < n && 0 <= k < |keys| ==> Has(records[i], keys[k])
  }

  /** The first missing key: record i lacks key k, and nothing before it is missing. */
  predicate FirstMissing(records: seq<Record>, keys: seq<string>, i: nat, k: nat) {
    i < |records| && k < |keys| && !Has(records[i], keys[k]) && KeysThere(records, keys, i) &&
    forall l :: 0 <= l < k ==> Has(records[i], keys[l])
  }

  method BuildSkips(records: seq<Record>, columns: seq<string>) returns (skips: map<nat, set<string>>)
    ensures IsSkips(records, columns, skips, |records|)
  {
    skips := map[];
    for i := 0 to |records|
      invariant IsSkips(records, columns, skips, i)
    {
      var skippedCols: set<string> := {};
      for j := 0 to |columns|
        invariant skippedCols == Skipped(records[i], columns[..j])
      {
        assert columns[..j + 1] == columns[..j] + [columns[j]];
        var there := HasField(records[i], columns[j]);
        if !there {
          skippedCols := skippedCols + {columns[j]};
        }
      }
      assert columns[..|columns|] == columns;
      if |skippedCols| > 0 {
        skips := skips[i := skippedCols];
      }
    }
  }

  predicate IsSkips(records: seq<Record>, columns: seq<string>, skips: map<nat, set<string>>, n: nat)
    requires n <= |records|
  {
    (forall i :: i in skips ==> i < n) &&
    forall i :: 0 <= i < n ==> (if i in skips then skips[i] else {}) == Skipped(records[i], columns)
  }

  ghost predicate LacksKey(records: seq<Record>, keys: seq<string>, column: string) {
    exists i: nat, k: nat :: FirstMissing(records, keys, i, k) && k < |keys| && column == keys[k]
  }

  method FindMissing(records: seq<Record>, keys: seq<string>) returns (missing: Option<string>)
    ensures missing.None? ==> KeysThere(records, keys, |records|)
    ensures missing.Some? ==> LacksKey(records, keys, missing.value)
  {
    for i := 0 to |records|
      invariant KeysThere(records, keys, i)
    {
      for k := 0 to |keys|
        invariant forall l :: 0 <= l < k ==> Has(records[i], keys[l])
      {
        var there := HasField(records[i], keys[k]);
        if !there {
          assert FirstMissing(records, keys, i, k);
          return Some(keys[k]);
        }
      }
    }
    return None;
  }

  /** The columns, records and flags of `updateMany`, or why there is no statement. */
  method UpdateMany(rows: seq<seq<Pair>>, keys: seq<string>) returns (plan: Plan)
    ensures plan.NothingToDo? <==> forall c :: !IsValueColumn(RecordedAll(rows), keys, c)
    ensures plan.MissingKey? ==> LacksKey(RecordedAll(rows), keys, plan.column)
    ensures plan.Statement? ==> IsStatement(plan, RecordedAll(rows), keys)
  {
    if |rows| == 0 {
      return NothingToDo;
    }
    var records: seq<Record> := [];
    for i := 0 to |rows|
      invariant |records| == i && forall k :: 0 <= k < i ==> records[k] == Recorded(rows[k])
    {
      var record := PairsToRecord(rows[i]);
      records := records + [record];
    }
    assert records == RecordedAll(rows);
    plan := PlanFor(records, keys);
  }

  method PlanFor(records: seq<Record>, keys: seq<string>) returns (plan: Plan)
    ensures plan.NothingToDo? <==> forall c :: !IsValueColumn(records, keys, c)
    ensures plan.MissingKey? ==> LacksKey(records, keys, plan.column)
    ensures plan.Statement? ==> IsStatement(plan, records, keys)
  {
    var names := UnionOfColumns(records, keys);
    SortKeeps(names);
    var columns := Sort(names);
    if |columns| == 0 {
      return NothingToDo;
    }
    assert columns[0] in names;
    var missing := FindMissing(records, keys);
    if missing.Some? {
      return MissingKey(missing.value);
    }
    var skips := BuildSkips(records, columns);
    return Statement(columns, records, skips);
  }

  /** A well-made statement: sorted columns, exactly the value columns, every key there, and flags for exactly what each
      record does not have. */
  ghost predicate IsStatement(plan: Plan, records: seq<Record>, keys: seq<string>)
    requires plan.Statement?
  {
    && plan.records == records
    && Sorted(plan.columns) && Distinct(plan.columns)
    && (forall c :: c in plan.columns <==> IsValueColumn(records, keys, c))
    && KeysThere(records, keys, |records|)
    && IsSkips(records, plan.columns, plan.skips, |records|)
  }

  // ---------------------------------------------------------------------------------------------
  // What the statement means
  // ---------------------------------------------------------------------------------------------

  /** The record is for this row of the table: its keys equal the row's, and none is null. */
  predicate IsFor(r: Record, t: Row, keys: seq<string>) {
    forall i :: 0 <= i < |keys| ==> keys[i] in t && t[keys[i]].Plain? && t[keys[i]] == Get(r, keys[i])
  }

  /** One UPDATE for one record: it sets the columns the record has, besides the keys. */
  function UpdatedBy(r: Record, t: Row, keys: seq<string>): Row {
    map c | c in t :: if IsFor(r, t, keys) && c !in keys && Has(r, c) then Get(r, c) else t[c]
  }

  function RowByRow(records: seq<Record>, t: Row, keys: seq<string>, n: nat): Row
    requires n <= |records|
  {
    if n == 0 then t else UpdatedBy(records[n - 1], RowByRow(records, t, keys, n - 1), keys)
  }

  /** The statement applied to a row that record i is for: a flagged column keeps its value. */
  function Applied(plan: Plan, i: nat, t: Row): Row
    requires plan.Statement? && i < |plan.records|
  {
    map c | c in t ::
      if c in plan.columns && !(i in plan.skips && c in plan.skips[i]) then Get(plan.records[i], c) else t[c]
  }

  /** A row of the table after the statement: one of the records for it, or nothing, has been applied. */
  ghost predicate After(plan: Plan, t: Row, keys: seq<string>, t': Row)
    requires plan.Statement?
  {
    if exists i :: 0 <= i < |plan.records| && IsFor(plan.records[i], t, keys)
    then exists i :: 0 <= i < |plan.records| && IsFor(plan.records[i], t, keys) && t' == Applied(plan, i, t)
    else t' == t
  }

  /** No two records have the same key. */
  predicate DistinctRecords(records: seq<Record>, keys: seq<string>) {
    forall i, j :: 0 <= i < j < |records| ==> KeysDiffer(records[i], records[j], keys)
  }

  predicate KeysDiffer(r: Record, s: Record, keys: seq<string>) {
    exists k :: 0 <= k < |keys| && Get(r, keys[k]) != Get(s, keys[k])
  }

  lemma UpdateKeepsKeys(r: Record, t: Row, keys: seq<string>, s: Record)
    ensures IsFor(s, UpdatedBy(r, t, keys), keys) <==> IsFor(s, t, keys)
  {
  }

  lemma OneUpdate(plan: Plan, records: seq<Record>, keys: seq<string>, i: nat, t: Row)
    requires plan.Statement? && IsStatement(plan, records, keys) && i < |records| && IsFor(records[i], t, keys)
    ensures UpdatedBy(records[i], t, keys) == Applied(plan, i, t)
  {
    forall c | c in t ensures UpdatedBy(records[i], t, keys)[c] == Applied(plan, i, t)[c] {
      assert c in plan.columns <==> IsValueColumn(records, keys, c);
    }
  }

  lemma {:induction false} RowsKeepKeys(records: seq<Record>, t: Row, keys: seq<string>, n: nat, s: Record)
    requires n <= |records|
    ensures IsFor(s, RowByRow(records, t, keys, n), keys) <==> IsFor(s, t, keys)
  {
    if n > 0 {
      RowsKeepKeys(records, t, keys, n - 1, s);
      UpdateKeepsKeys(records[n - 1], RowByRow(records, t, keys, n - 1), keys, s);
    }
  }

  lemma NotForIt(r: Record, t: Row, keys: seq<string>)
    requires !IsFor(r, t, keys)
    ensures UpdatedBy(r, t, keys) == t
  {
  }

  lemma {:induction false} NoRecordForIt(records: seq<Record>, t: Row, keys: seq<string>, n: nat)
    requires n <= |records| && forall i :: 0 <= i < n ==> !IsFor(records[i], t, keys)
    ensures RowByRow(records, t, keys, n) == t
  {
    if n > 0 {
      NoRecordForIt(records, t, keys, n - 1);
      NotForIt(records[n - 1], t, keys);
    }
  }

  /** Some row of a table is a row for both records. */
  predicate KeysMeet(r: Record, s: Record, keys: seq<string>) {
    forall k :: 0 <= k < |keys| ==> Get(r, keys[k]).Plain? && Get(r, keys[k]) == Get(s, keys[k])
  }

  /** Both records set the same columns to the same values. */
  ghost predicate SetAlike(r: Record, s: Record, keys: seq<string>) {
    forall c :: c !in keys ==> SetsAlike(r, s, c)
  }

  predicate SetsAlike(r: Record, s: Record, c: string) {
    (Has(r, c) <==> Has(s, c)) && (Has(r, c) ==> Get(r, c) == Get(s, c))
  }

  /** Records that are for one row of a table update it alike. */
  ghost predicate Consistent(records: seq<Record>, keys: seq<string>) {
    forall i, j :: 0 <= i < j < |records| && KeysMeet(records[i], records[j], keys) ==> SetAlike(records[i], records[j], keys)
  }

  lemma DistinctIsConsistent(records: seq<Record>, keys: seq<string>)
    requires DistinctRecords(records, keys)
    ensures Consistent(records, keys)
  {
    forall i, j | 0 <= i < j < |records| ensures !KeysMeet(records[i], records[j], keys) {
      assert KeysDiffer(records[i], records[j], keys);
    }
  }

  /** Two records for one row. */
  lemma BothForIt(records: seq<Record>, keys: seq<string>, t: Row, i: nat, j: nat)
    requires Consistent(records, keys) && i < |records| && j < |records|
    requires IsFor(records[i], t, keys) && IsFor(records[j], t, keys)
    ensures SetAlike(records[i], records[j], keys)
  {
    assert KeysMeet(records[i], records[j], keys) && KeysMeet(records[j], records[i], keys);
  }

  lemma UpdatedAlike(r: Record, s: Record, keys: seq<string>, t: Row)
    requires IsFor(r, t, keys) && IsFor(s, t, keys) && SetAlike(r, s, keys)
    ensures UpdatedBy(s, t, keys) == UpdatedBy(r, t, keys)
    ensures UpdatedBy(s, UpdatedBy(r, t, keys), keys) == UpdatedBy(r, t, keys)
  {
    UpdateKeepsKeys(r, t, keys, s);
    forall c | c in t && c !in keys ensures UpdatedBy(s, t, keys)[c] == UpdatedBy(r, t, keys)[c] {
      assert SetsAlike(r, s, c);
    }
  }

  /** One more record, when the others for the row have done what one of them does, or nothing yet. */
  lemma OneMoreRecord(records: seq<Record>, keys: seq<string>, t: Row, i: nat, n: nat, before: Row)
    requires n < |records| && i < |records| && Consistent(records, keys) && IsFor(records[i], t, keys)
    requires before == t || before == UpdatedBy(records[i], t, keys)
    ensures UpdatedBy(records[n], before, keys) == if IsFor(records[n], t, keys) then UpdatedBy(records[i], t, keys) else before
  {
    UpdateKeepsKeys(records[i], t, keys, records[n]);
    if IsFor(records[n], t, keys) {
      BothForIt(records, keys, t, i, n);
      UpdatedAlike(records[i], records[n], keys, t);
    } else {
      NotForIt(records[n], before, keys);
    }
  }

  /** Row by row, the records that are for a row do together what one of them does. */
  lemma {:induction false} TogetherAsOne(records: seq<Record>, keys: seq<string>, t: Row, i: nat, n: nat)
    requires n <= |records| && i < |records| && Consistent(records, keys) && IsFor(records[i], t, keys)
    ensures i < n ==> RowByRow(records, t, keys, n) == UpdatedBy(records[i], t, keys)
    ensures RowByRow(records, t, keys, n) == t || RowByRow(records, t, keys, n) == UpdatedBy(records[i], t, keys)
    decreases n
  {
    if n > 0 {
      TogetherAsOne(records, keys, t, i, n - 1);
      OneMoreRecord(records, keys, t, i, n - 1, RowByRow(records, t, keys, n - 1));
    }
  }

  lemma ConsistentIsRowByRow(plan: Plan, records: seq<Record>, keys: seq<string>, t: Row, t': Row)
    requires plan.Statement? && IsStatement(plan, records, keys) && Consistent(records, keys)
    ensures After(plan, t, keys, t') <==> t' == RowByRow(records, t, keys, |records|)
  {
    if exists i :: 0 <= i < |records| && IsFor(records[i], t, keys) {
      forall i | 0 <= i < |records| && IsFor(records[i], t, keys) ensures Applied(plan, i, t) == RowByRow(records, t, keys, |records|) {
        TogetherAsOne(records, keys, t, i, |records|);
        OneUpdate(plan, records, keys, i, t);
      }
    } else {
      NoRecordForIt(records, t, keys, |records|);
    }
  }

  /** A row that the record is for, with a value in one more column. */
  function RowFor(r: Record, keys: seq<string>, c: string, v: Value): Row {
    (map k | k in keys :: Get(r, k))[c := v]
  }

  /** A value that is neither. */
  lemma ThirdValue(v: Value, w: Value) returns (u: Value)
    ensures u != v && u != w
  {
    u := if Plain(0) != v && Plain(0) != w then Plain(0) else if Plain(1) != v && Plain(1) != w then Plain(1) else Plain(2);
  }

  /** Two records with one key that set a column differently: a row of the table may come out of the statement in two ways, so
      also otherwise than row by row. */
  lemma SameKeyDiffers(plan: Plan, records: seq<Record>, keys: seq<string>, i: nat, j: nat, c: string)
    requires plan.Statement? && IsStatement(plan, records, keys) && i < j < |records|
    requires KeysMeet(records[i], records[j], keys) && c !in keys && !SetsAlike(records[i], records[j], c)
    ensures exists t, t' :: After(plan, t, keys, t') && t' != RowByRow(records, t, keys, |records|)
  {
    var u := ThirdValue(Get(records[i], c), Get(records[j], c));
    var t := RowFor(records[i], keys, c, u);
    assert IsFor(records[i], t, keys) && IsFor(records[j], t, keys);
    assert IsValueColumn(records, keys, c);
    OneUpdate(plan, records, keys, i, t);
    OneUpdate(plan, records, keys, j, t);
    var a, b := Applied(plan, i, t), Applied(plan, j, t);
    assert a[c] != b[c];
    assert After(plan, t, keys, a) && After(plan, t, keys, b);
  }

  /** The one statement leaves every row of every table as updating record by record does, exactly when records with one key,
      none of it null, set the same columns to the same values. */
  lemma UpdateIsRowByRowIff(plan: Plan, records: seq<Record>, keys: seq<string>)
    requires plan.Statement? && IsStatement(plan, records, keys)
    ensures (forall t, t' :: After(plan, t, keys, t') <==> t' == RowByRow(records, t, keys, |records|)) <==> Consistent(records, keys)
  {
    if Consistent(records, keys) {
      forall t, t' ensures After(plan, t, keys, t') <==> t' == RowByRow(records, t, keys, |records|) {
        ConsistentIsRowByRow(plan, records, keys, t, t');
      }
    } else {
      var i, j :| 0 <= i < j < |records| && KeysMeet(records[i], records[j], keys) && !SetAlike(records[i], records[j], keys);
      var c :| c !in keys && !SetsAlike(records[i], records[j], c);
      SameKeyDiffers(plan, records, keys, i, j, c);
    }
  }

  /** In particular with distinct keys: flagged columns keep their values. */
  lemma StatementIsRowByRow(plan: Plan, records: seq<Record>, keys: seq<string>, t: Row, t': Row)
    requires plan.Statement? && IsStatement(plan, records, keys) && DistinctRecords(records, keys)
    ensures After(plan, t, keys, t') <==> t' == RowByRow(records, t, keys, |records|)
  {
    DistinctIsConsistent(records, keys);
    UpdateIsRowByRowIff(plan, records, keys);
  }

  /** When there is nothing to do, record by record does nothing either. */
  lemma {:induction false} NothingIsRowByRow(records: seq<Record>, keys: seq<string>, t: Row, n: nat)
    requires n <= |records| && forall c :: !IsValueColumn(records, keys, c)
    ensures RowByRow(records, t, keys, n) == t
  {
    if n > 0 {
      NothingIsRowByRow(records, keys, t, n - 1);
      forall c | c !in keys ensures !Has(records[n - 1], c) {
        assert !IsValueColumn(records, keys, c);
      }
    }
  }
}
