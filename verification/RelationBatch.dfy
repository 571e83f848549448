/** Batched relation loading: one query for all records of a batch, against one query per record. */
module RelationBatch {
  import opened Sequences
  import opened Decimal

  // ---------------------------------------------------------------------------------------------
  // Records, keys and the way keys are rendered
  // ---------------------------------------------------------------------------------------------

  datatype Value = Absent | Null | Int(n: int) | Text(s: string)

  type Row = map<string, Value>
  type Key = seq<Value>

  function Get(row: Row, column: string): Value {
    if column in row then row[column] else Absent
  }

  function KeyOf(row: Row, columns: seq<string>): (key: Key)
    ensures |key| == |columns|
  {
    seq(|columns|, i requires 0 <= i < |columns| => Get(row, columns[i]))
  }

  predicate IsComplete(key: Key) {
    forall v <- key :: v != Absent && v != Null
  }

  /** `String(v)`. */
  function StringOf(v: Value): string {
    match v case Absent => "undefined" case Null => "null" case Int(n) => FormatInt(n) case Text(s) => s
  }

  /** What `Array.prototype.join` makes of one element. */
  function JoinPart(v: Value): string {
    if v == Absent || v == Null then "" else StringOf(v)
  }

  const NUL := '\0'

  function JoinParts(key: Key): seq<string> {
    seq(|key|, i requires 0 <= i < |key| => JoinPart(key[i]))
  }

  /** The text under which a key's rows are filed. */
  function MapKey(key: Key): string {
    if |key| == 1 then StringOf(key[0]) else Join(JoinParts(key), NUL)
  }

  // ---------------------------------------------------------------------------------------------
  // The relation
  // ---------------------------------------------------------------------------------------------

  datatype RelationType = BelongsTo | HasOne | HasMany

  datatype HardLimit = UseGlobal | Disabled | Cap(n: nat)

  /** `where`: the relation's own conditions; `findFilter`: the target model's default filter. */
  datatype Config = Config(kind: RelationType, sourceKeys: seq<string>, targetKeys: seq<string>, limit: Option<nat>,
                           hardLimit: HardLimit, where: Row -> bool, findFilter: Row -> bool)
  {
    ghost predicate Valid() {
      |sourceKeys| == |targetKeys| > 0
    }

    predicate Limited() {
      kind.HasMany? && limit.Some?
    }

    /** Does the query see the row?  The limited form does not apply the default filter. */
    predicate Sees(row: Row) {
      where(row) && (Limited() || findFilter(row))
    }

    /** The rows that the query sees, in the order in which it returns them. */
    function Seen(table: seq<Row>): (rows: seq<Row>)
      ensures forall row <- rows :: row in table && Sees(row)
    {
      Filter((row: Row) => Sees(row), table)
    }

    /** Can there be a row with that key that the query sees? */
    ghost predicate CanSee(key: Key) {
      exists row :: KeyOf(row, targetKeys) == key && Sees(row)
    }

    /** The limited form is not checked: its query is limited already. */
    predicate CapExceeded(global: Option<nat>, rows: seq<Row>) {
      !Limited() && EffectiveCap(global).Some? && |rows| > EffectiveCap(global).value
    }

    function EffectiveCap(global: Option<nat>): Option<nat> {
      match hardLimit case UseGlobal => global case Disabled => None case Cap(n) => Some(n)
    }
  }

  /** SQL equality of a row's target columns with a key: never true with a null. */
  predicate Matches(row: Row, columns: seq<string>, key: Key) {
    KeyOf(row, columns) == key && IsComplete(key)
  }

  function MatchesKey(columns: seq<string>, key: Key): Row -> bool {
    (row: Row) => Matches(row, columns, key)
  }

  function MatchesAny(columns: seq<string>, keys: seq<Key>): Row -> bool {
    (row: Row) => exists key <- keys :: Matches(row, columns, key)
  }

  // ---------------------------------------------------------------------------------------------
  // The reference: one query for one record
  // ---------------------------------------------------------------------------------------------

  datatype Answer = Many(rows: seq<Row>) | One(row: Option<Row>)

  function LastOf(rows: seq<Row>): Option<Row> {
    if rows == [] then None else Some(rows[|rows| - 1])
  }

  /** The record's own rows: none for an incomplete key. */
  function OwnRows(cfg: Config, table: seq<Row>, record: Row): seq<Row> {
    var rows := Filter(MatchesKey(cfg.targetKeys, KeyOf(record, cfg.sourceKeys)), cfg.Seen(table));
    if cfg.Limited() then Take(cfg.limit.value, rows) else rows
  }

  function QueryAlone(cfg: Config, table: seq<Row>, record: Row): Answer {
    var rows := OwnRows(cfg, table, record);
    if cfg.kind.HasMany? then Many(rows) else One(LastOf(rows))
  }

  // ---------------------------------------------------------------------------------------------
  // The batch
  // ---------------------------------------------------------------------------------------------

  function CompleteKeys(records: seq<Row>, columns: seq<string>): (keys: seq<Key>)
    ensures forall k <- keys :: IsComplete(k) && |k| == |columns|
  {
    if records == [] then []
    else
      var rest := CompleteKeys(records[..|records| - 1], columns);
      var key := KeyOf(records[|records| - 1], columns);
      if IsComplete(key) then rest + [key] else rest
  }

  /** By what keys are told apart: a single key by its value, a composite one by its joined text. */
  datatype Ident = ByValue(v: Value) | ByText(s: string)

  function IdentOf(key: Key): Ident {
    if |key| == 1 then ByValue(key[0]) else ByText(MapKey(key))
  }

  function Idents(keys: seq<Key>): set<Ident> {
    set k <- keys :: IdentOf(k)
  }

  /** First occurrences, in order. */
  function Unique(keys: seq<Key>): (r: seq<Key>)
    ensures forall k <- r :: k in keys
    ensures Idents(r) == Idents(keys)
    ensures forall i, j :: 0 <= i < j < |r| ==> IdentOf(r[i]) != IdentOf(r[j])
  {
    if keys == [] then []
    else
      var last := keys[|keys| - 1];
      var rest := Unique(keys[..|keys| - 1]);
      assert keys == keys[..|keys| - 1] + [last];
      if IdentOf(last) in Idents(rest) then
        assert Idents(keys) == Idents(keys[..|keys| - 1]) + {IdentOf(last)};
        rest
      else
        assert Idents(rest + [last]) == Idents(rest) + {IdentOf(last)};
        rest + [last]
  }

  // How the database answers each form of batch query.

  /** `= ANY(...)`, `IN (...)`, composite `IN`: a row is returned once however many keys it matches. */
  function SemiJoin(columns: seq<string>, keys: seq<Key>, seen: seq<Row>): seq<Row> {
    Filter(MatchesAny(columns, keys), seen)
  }

  /** One copy of the row for each key that it matches. */
  function Copies(columns: seq<string>, keys: seq<Key>, row: Row): seq<Row> {
    if keys == [] then []
    else (if Matches(row, columns, keys[0]) then [row] else []) + Copies(columns, keys[1..], row)
  }

  /** `JOIN unnest(...)`: a row is returned once for each key that it matches. */
  function UnnestJoin(columns: seq<string>, keys: seq<Key>, seen: seq<Row>): seq<Row> {
    if seen == [] then [] else Copies(columns, keys, seen[0]) + UnnestJoin(columns, keys, seen[1..])
  }

  /** `unnest(...) CROSS JOIN LATERAL (... LIMIT n)`: each key in turn, its first rows. */
  function Lateral(columns: seq<string>, keys: seq<Key>, n: nat, seen: seq<Row>): seq<Row> {
    if keys == [] then []
    else Take(n, Filter(MatchesKey(columns, keys[0]), seen)) + Lateral(columns, keys[1..], n, seen)
  }

  /** `ROW_NUMBER() OVER (PARTITION BY columns ...)` of the last row, among the rows of the keys. */
  function RowNumberOfLast(columns: seq<string>, keys: seq<Key>, seen: seq<Row>): nat
    requires seen != []
  {
    |Filter((row: Row) => KeyOf(row, columns) == KeyOf(seen[|seen| - 1], columns), SemiJoin(columns, keys, seen))|
  }

  /** `... WHERE _rn <= n`. */
  function Ranked(columns: seq<string>, keys: seq<Key>, n: nat, seen: seq<Row>): seq<Row> {
    if seen == [] then []
    else
      var rest := Ranked(columns, keys, n, seen[..|seen| - 1]);
      var last := seen[|seen| - 1];
      if MatchesAny(columns, keys)(last) && RowNumberOfLast(columns, keys, seen) <= n then rest + [last] else rest
  }

  /** What the chosen strategy returns. */
  function Fetch(cfg: Config, postgres: bool, keys: seq<Key>, table: seq<Row>): seq<Row> {
    var seen := cfg.Seen(table);
    if cfg.Limited() then
      if postgres then Lateral(cfg.targetKeys, keys, cfg.limit.value, seen) else Ranked(cfg.targetKeys, keys, cfg.limit.value, seen)
    else if postgres && |cfg.sourceKeys| > 1 then UnnestJoin(cfg.targetKeys, keys, seen)
    else SemiJoin(cfg.targetKeys, keys, seen)
  }

  /** All rows of the batch: what the cap counts. */
  function BatchRows(cfg: Config, postgres: bool, records: seq<Row>, table: seq<Row>): seq<Row> {
    Fetch(cfg, postgres, Unique(CompleteKeys(records, cfg.sourceKeys)), table)
  }

  function FiledUnder(columns: seq<string>, text: string): Row -> bool {
    (row: Row) => MapKey(KeyOf(row, columns)) == text
  }

  function Bucket(columns: seq<string>, rows: seq<Row>, text: string): seq<Row> {
    Filter(FiledUnder(columns, text), rows)
  }

  /** What a record is given from the rows of the batch. */
  function Deliver(cfg: Config, rows: seq<Row>, record: Row): Answer {
    var bucket := Bucket(cfg.targetKeys, rows, MapKey(KeyOf(record, cfg.sourceKeys)));
    if cfg.kind.HasMany? then Many(bucket) else One(LastOf(bucket))
  }

  // ---------------------------------------------------------------------------------------------
  // The loops
  // ---------------------------------------------------------------------------------------------

  /** The loop that collects the keys of the batch and drops incomplete ones. */
  method CollectKeys(records: seq<Row>, columns: seq<string>) returns (keys: seq<Key>)
    ensures keys == CompleteKeys(records, columns)
  {
    keys := [];
    for i := 0 to |records|
      invariant keys == CompleteKeys(records[..i], columns)
    {
      assert records[..i + 1][..i] == records[..i];
      var key := KeyOf(records[i], columns);
      if IsComplete(key) {
        keys := keys + [key];
      }
    }
    assert records[..|records|] == records;
  }

  /** `new Set(values)`, and `getUniqueCompositeKeyTuples`. */
  method UniqueKeys(keys: seq<Key>) returns (r: seq<Key>)
    ensures r == Unique(keys)
  {
    var seen: set<Ident> := {};
    r := [];
    for i := 0 to |keys|
      invariant r == Unique(keys[..i]) && seen == Idents(r)
    {
      assert keys[..i + 1] == keys[..i] + [keys[i]];
      seen, r := KeepNew(seen, r, keys[i], keys[..i]);
    }
    assert keys[..|keys|] == keys;
  }

  method KeepNew(seen: set<Ident>, r: seq<Key>, key: Key, ghost keys: seq<Key>) returns (seen': set<Ident>, r': seq<Key>)
    requires r == Unique(keys) && seen == Idents(r)
    ensures r' == Unique(keys + [key]) && seen' == Idents(r')
  {
    var ident := IdentOf(key);
    UniqueNext(keys, key);
    seen', r' := seen, r;
    if ident !in seen {
      seen' := seen' + {ident};
      r' := r' + [key];
    }
  }

  lemma UniqueNext(keys: seq<Key>, key: Key)
    ensures Unique(keys + [key]) == if IdentOf(key) in Idents(Unique(keys)) then Unique(keys) else Unique(keys) + [key]
    ensures Idents(Unique(keys) + [key]) == Idents(Unique(keys)) + {IdentOf(key)}
  {
    assert (keys + [key])[..|keys|] == keys;
  }

  datatype RelationMap = Lists(lists: map<string, seq<Row>>) | Singles(singles: map<string, Row>)

  /** A relation map that files exactly these rows. */
  ghost predicate Files(m: RelationMap, cfg: Config, rows: seq<Row>) {
    if cfg.kind.HasMany? then
      && m.Lists?
      && (forall t :: t in m.lists <==> Bucket(cfg.targetKeys, rows, t) != [])
      && (forall t <- m.lists :: m.lists[t] == Bucket(cfg.targetKeys, rows, t))
    else
      && m.Singles?
      && (forall t :: t in m.singles <==> Bucket(cfg.targetKeys, rows, t) != [])
      && (forall t <- m.singles :: Some(m.singles[t]) == LastOf(Bucket(cfg.targetKeys, rows, t)))
  }

  lemma BucketAppend(columns: seq<string>, rows: seq<Row>, row: Row, text: string)
    ensures Bucket(columns, rows + [row], text) ==
            if MapKey(KeyOf(row, columns)) == text then Bucket(columns, rows, text) + [row] else Bucket(columns, rows, text)
  {
    FilterSnoc(FiledUnder(columns, text), rows, row);
  }

  method PushUnder(lists: map<string, seq<Row>>, text: string, row: Row) returns (r: map<string, seq<Row>>)
    ensures r == lists[text := ListAt(lists, text) + [row]]
  {
    r := lists;
    if text !in r {
      r := r[text := []];
    }
    r := r[text := r[text] + [row]];
  }

  /** The loop that groups the rows of a hasMany relation. */
  method BuildLists(columns: seq<string>, rows: seq<Row>) returns (lists: map<string, seq<Row>>)
    ensures forall t :: t in lists <==> Bucket(columns, rows, t) != []
    ensures forall t <- lists :: lists[t] == Bucket(columns, rows, t)
  {
    lists := map[];
    for i := 0 to |rows|
      invariant AreLists(lists, columns, rows[..i])
    {
      var text := MapKey(KeyOf(rows[i], columns));
      assert rows[..i + 1] == rows[..i] + [rows[i]];
      ListsNext(lists, columns, rows[..i], rows[i]);
      lists := PushUnder(lists, text, rows[i]);
    }
    assert rows[..|rows|] == rows;
  }

  function ListAt(lists: map<string, seq<Row>>, t: string): seq<Row> {
    if t in lists then lists[t] else []
  }

  ghost predicate AreLists(lists: map<string, seq<Row>>, columns: seq<string>, rows: seq<Row>) {
    forall t :: (t in lists <==> Bucket(columns, rows, t) != []) && ListAt(lists, t) == Bucket(columns, rows, t)
  }

  lemma ListsNext(lists: map<string, seq<Row>>, columns: seq<string>, rows: seq<Row>, row: Row)
    requires AreLists(lists, columns, rows)
    ensures var text := MapKey(KeyOf(row, columns)); AreLists(lists[text := ListAt(lists, text) + [row]], columns, rows + [row])
  {
    var text := MapKey(KeyOf(row, columns));
    var next := lists[text := ListAt(lists, text) + [row]];
    forall t ensures (t in next <==> Bucket(columns, rows + [row], t) != []) && ListAt(next, t) == Bucket(columns, rows + [row], t) {
      BucketAppend(columns, rows, row, t);
      assert ListAt(lists, t) == Bucket(columns, rows, t);
    }
  }

  ghost predicate AreSingles(singles: map<string, Row>, columns: seq<string>, rows: seq<Row>) {
    forall t :: (if t in singles then Some(singles[t]) else None) == LastOf(Bucket(columns, rows, t))
  }

  lemma SinglesNext(singles: map<string, Row>, columns: seq<string>, rows: seq<Row>, row: Row)
    requires AreSingles(singles, columns, rows)
    ensures AreSingles(singles[MapKey(KeyOf(row, columns)) := row], columns, rows + [row])
  {
    var next := singles[MapKey(KeyOf(row, columns)) := row];
    forall t ensures (if t in next then Some(next[t]) else None) == LastOf(Bucket(columns, rows + [row], t)) {
      BucketAppend(columns, rows, row, t);
      assert (if t in singles then Some(singles[t]) else None) == LastOf(Bucket(columns, rows, t));
    }
  }

  /** The loop of a single relation: a later row replaces an earlier one. */
  method BuildSingles(columns: seq<string>, rows: seq<Row>) returns (singles: map<string, Row>)
    ensures forall t :: t in singles <==> Bucket(columns, rows, t) != []
    ensures forall t <- singles :: Some(singles[t]) == LastOf(Bucket(columns, rows, t))
  {
    singles := map[];
    for i := 0 to |rows|
      invariant AreSingles(singles, columns, rows[..i])
    {
      var text := MapKey(KeyOf(rows[i], columns));
      assert rows[..i + 1] == rows[..i] + [rows[i]];
      SinglesNext(singles, columns, rows[..i], rows[i]);
      singles := singles[text := rows[i]];
    }
    assert rows[..|rows|] == rows;
  }

  method BuildRelationMap(cfg: Config, rows: seq<Row>) returns (m: RelationMap)
    ensures Files(m, cfg, rows)
  {
    if cfg.kind.HasMany? {
      var lists := BuildLists(cfg.targetKeys, rows);
      return Lists(lists);
    }
    var singles := BuildSingles(cfg.targetKeys, rows);
    return Singles(singles);
  }

  datatype LoadResult = Loaded(m: RelationMap) | LimitExceeded(cap: nat, found: nat)

  /** `_selectForRelation`: one row more than the cap is asked for, so that one can be missed. */
  method Select(cfg: Config, global: Option<nat>, rows: seq<Row>) returns (results: seq<Row>, exceeded: bool)
    ensures exceeded <==> cfg.CapExceeded(global, rows)
    ensures !exceeded ==> results == rows
    ensures exceeded ==> |results| == cfg.EffectiveCap(global).value + 1
  {
    var cap := cfg.EffectiveCap(global);
    var check := !cfg.Limited() && cap.Some?;
    results := if check then Take(cap.value + 1, rows) else rows;
    exceeded := check && |results| > cap.value;
  }

  /** `batchLoadRelation`: the load throws exactly when the rows of the batch exceed the effective cap. */
  method BatchLoad(cfg: Config, global: Option<nat>, postgres: bool, records: seq<Row>, table: seq<Row>) returns (r: LoadResult)
    ensures cfg.kind.HasMany? && cfg.limit.Some? ==> r.Loaded?
    ensures !(cfg.kind.HasMany? && cfg.limit.Some?) ==>
      var found := |BatchRows(cfg, postgres, records, table)|;
      match cfg.hardLimit
      case UseGlobal => r.LimitExceeded? <==> global.Some? && found > global.value
      case Disabled => r.Loaded?
      case Cap(n) => r.LimitExceeded? <==> found > n
    ensures r.LimitExceeded? ==> r.found == r.cap + 1 && (cfg.hardLimit == Cap(r.cap) || (cfg.hardLimit == UseGlobal && global == Some(r.cap)))
    ensures r.Loaded? ==> Files(r.m, cfg, BatchRows(cfg, postgres, records, table))
  {
    var collected := CollectKeys(records, cfg.sourceKeys);
    if collected == [] {
      FetchNothing(cfg, postgres, table);
      var m := BuildRelationMap(cfg, []);
      return Loaded(m);
    }
    var keys := UniqueKeys(collected);
    var results, exceeded := Select(cfg, global, Fetch(cfg, postgres, keys, table));
    if exceeded {
      return LimitExceeded(cfg.EffectiveCap(global).value, |results|);
    }
    var m := BuildRelationMap(cfg, results);
    return Loaded(m);
  }

  /** The end of `getRelation`. */
  method Lookup(cfg: Config, m: RelationMap, record: Row, ghost rows: seq<Row>) returns (answer: Answer)
    requires Files(m, cfg, rows)
    ensures answer == Deliver(cfg, rows, record)
  {
    var text := MapKey(KeyOf(record, cfg.sourceKeys));
    if cfg.kind.HasMany? {
      return Many(if text in m.lists then m.lists[text] else []);
    }
    return One(if text in m.singles then Some(m.singles[text]) else None);
  }

  lemma {:induction false} UnnestNothing(columns: seq<string>, seen: seq<Row>)
    ensures UnnestJoin(columns, [], seen) == []
  {
    if seen != [] {
      UnnestNothing(columns, seen[1..]);
    }
  }

  lemma {:induction false} RankedNothing(columns: seq<string>, n: nat, seen: seq<Row>)
    ensures Ranked(columns, [], n, seen) == []
  {
    if seen != [] {
      RankedNothing(columns, n, seen[..|seen| - 1]);
    }
  }

  /** Without keys no query is sent; one would return nothing. */
  lemma FetchNothing(cfg: Config, postgres: bool, table: seq<Row>)
    ensures Fetch(cfg, postgres, [], table) == []
  {
    var seen := cfg.Seen(table);
    FilterNone(MatchesAny(cfg.targetKeys, []), seen);
    UnnestNothing(cfg.targetKeys, seen);
    if cfg.Limited() {
      RankedNothing(cfg.targetKeys, cfg.limit.value, seen);
    }
  }

  // ---------------------------------------------------------------------------------------------
  // The forms of batch query agree
  // ---------------------------------------------------------------------------------------------

  function Times<T>(m: nat, s: seq<T>): seq<T> {
    if m == 0 then [] else s + Times(m - 1, s)
  }

  function Count(keys: seq<Key>, key: Key): nat {
    if keys == [] then 0 else (if keys[0] == key then 1 else 0) + Count(keys[1..], key)
  }

  lemma {:induction false} CountDistinct(keys: seq<Key>, key: Key)
    requires Distinct(keys)
    ensures Count(keys, key) == if key in keys then 1 else 0
  {
    if keys != [] {
      CountDistinct(keys[1..], key);
    }
  }

  lemma {:induction false} FilterAll<T(!new)>(p: T -> bool, s: seq<T>)
    requires forall x <- s :: p(x)
    ensures Filter(p, s) == s
  {
    if s != [] {
      FilterAll(p, s[1..]);
    }
  }

  lemma CopiesNext(columns: seq<string>, key: Key, keys: seq<Key>, row: Row)
    requires IsComplete(key) && Copies(columns, keys, row) == Times(Count(keys, KeyOf(row, columns)), [row])
    ensures Copies(columns, [key] + keys, row) == Times(Count([key] + keys, KeyOf(row, columns)), [row])
  {
    assert ([key] + keys)[1..] == keys;
    assert [] + Copies(columns, keys, row) == Copies(columns, keys, row);
  }

  lemma {:induction false} CopiesCount(columns: seq<string>, keys: seq<Key>, row: Row)
    requires forall k <- keys :: IsComplete(k)
    ensures Copies(columns, keys, row) == Times(Count(keys, KeyOf(row, columns)), [row])
  {
    if keys != [] {
      assert keys[0] in keys;
      CopiesCount(columns, keys[1..], row);
      CopiesNext(columns, keys[0], keys[1..], row);
      assert [keys[0]] + keys[1..] == keys;
    }
  }

  /** With distinct keys the unnest join is a semi-join. */
  lemma {:induction false} UnnestJoinIsSemiJoin(columns: seq<string>, keys: seq<Key>, seen: seq<Row>)
    requires Distinct(keys) && (forall k <- keys :: IsComplete(k))
    ensures UnnestJoin(columns, keys, seen) == SemiJoin(columns, keys, seen)
  {
    if seen != [] {
      CopiesCount(columns, keys, seen[0]);
      CountDistinct(keys, KeyOf(seen[0], columns));
      assert Times(1, [seen[0]]) == [seen[0]] + Times(0, [seen[0]]);
      UnnestJoinIsSemiJoin(columns, keys, seen[1..]);
    }
  }

  lemma FirstRowsOf(columns: seq<string>, asked: Key, n: nat, seen: seq<Row>, key: Key)
    ensures
      var first := Take(n, Filter(MatchesKey(columns, asked), seen));
      Filter(MatchesKey(columns, key), first) == if asked == key then first else []
  {
    var first := Take(n, Filter(MatchesKey(columns, asked), seen));
    assert forall row <- first :: MatchesKey(columns, asked)(row);
    if asked == key {
      FilterAll(MatchesKey(columns, key), first);
    } else {
      FilterNone(MatchesKey(columns, key), first);
    }
  }

  /** The LATERAL form gives a key its first rows as many times as the key was asked for. */
  lemma {:induction false} LateralOf(columns: seq<string>, keys: seq<Key>, n: nat, seen: seq<Row>, key: Key)
    ensures Filter(MatchesKey(columns, key), Lateral(columns, keys, n, seen)) ==
            Times(Count(keys, key), Take(n, Filter(MatchesKey(columns, key), seen)))
  {
    if keys != [] {
      var own := Take(n, Filter(MatchesKey(columns, key), seen));
      var first, rest := Take(n, Filter(MatchesKey(columns, keys[0]), seen)), Lateral(columns, keys[1..], n, seen);
      calc {
        Filter(MatchesKey(columns, key), Lateral(columns, keys, n, seen));
        Filter(MatchesKey(columns, key), first + rest);
        { FilterAppend(MatchesKey(columns, key), first, rest); }
        Filter(MatchesKey(columns, key), first) + Filter(MatchesKey(columns, key), rest);
        { FirstRowsOf(columns, keys[0], n, seen, key); }
        (if keys[0] == key then own else []) + Filter(MatchesKey(columns, key), rest);
        { LateralOf(columns, keys[1..], n, seen, key); }
        (if keys[0] == key then own else []) + Times(Count(keys[1..], key), own);
        Times(Count(keys, key), own);
      }
    }
  }

  /** One more row with the key. */
  lemma RankedNext(columns: seq<string>, keys: seq<Key>, n: nat, init: seq<Row>, last: Row, key: Key)
    requires key in keys && Matches(last, columns, key)
    ensures var own := Filter(MatchesKey(columns, key), init);
      Ranked(columns, keys, n, init + [last]) == Ranked(columns, keys, n, init) + if |own| < n then [last] else []
  {
    var seen := init + [last];
    assert seen[..|seen| - 1] == init && seen[|seen| - 1] == last;
    assert MatchesAny(columns, keys)(last);
    RowNumberOf(columns, keys, seen, key);
    FilterSnoc(MatchesKey(columns, key), init, last);
    assert Ranked(columns, keys, n, init) + [] == Ranked(columns, keys, n, init);
  }

  /** The ROW_NUMBER form gives a key its first rows, however often it was asked for. */
  lemma {:induction false} RankedOf(columns: seq<string>, keys: seq<Key>, n: nat, seen: seq<Row>, key: Key)
    requires key in keys
    ensures Filter(MatchesKey(columns, key), Ranked(columns, keys, n, seen)) == Take(n, Filter(MatchesKey(columns, key), seen))
  {
    if seen != [] {
      var init, last := seen[..|seen| - 1], seen[|seen| - 1];
      assert seen == init + [last];
      RankedOf(columns, keys, n, init, key);
      if Matches(last, columns, key) {
        RankedWithKey(columns, keys, n, init, last, key);
      } else {
        FilterSnoc(MatchesKey(columns, key), init, last);
        FilterSnoc(MatchesKey(columns, key), Ranked(columns, keys, n, init), last);
      }
    }
  }

  lemma RankedWithKey(columns: seq<string>, keys: seq<Key>, n: nat, init: seq<Row>, last: Row, key: Key)
    requires key in keys && Matches(last, columns, key)
    requires Filter(MatchesKey(columns, key), Ranked(columns, keys, n, init)) == Take(n, Filter(MatchesKey(columns, key), init))
    ensures Filter(MatchesKey(columns, key), Ranked(columns, keys, n, init + [last])) == Take(n, Filter(MatchesKey(columns, key), init + [last]))
  {
    var p := MatchesKey(columns, key);
    var ranked, own := Ranked(columns, keys, n, init), Filter(p, init);
    RankedNext(columns, keys, n, init, last, key);
    FilterSnoc(p, init, last);
    FilterSnoc(p, ranked, last);
    assert ranked + [] == ranked;
    TakeSnoc(n, own, last);
  }

  lemma TakeSnoc<T>(n: nat, s: seq<T>, x: T)
    ensures Take(n, s + [x]) == if |s| < n then Take(n, s) + [x] else Take(n, s)
  {
  }

  lemma FilterSnoc<T(!new)>(p: T -> bool, s: seq<T>, x: T)
    ensures Filter(p, s + [x]) == if p(x) then Filter(p, s) + [x] else Filter(p, s)
  {
    FilterAppend(p, s, [x]);
    assert [x][1..] == [];
  }

  lemma RowNumberOf(columns: seq<string>, keys: seq<Key>, seen: seq<Row>, key: Key)
    requires key in keys && seen != [] && Matches(seen[|seen| - 1], columns, key)
    ensures RowNumberOfLast(columns, keys, seen) == |Filter(MatchesKey(columns, key), seen)|
  {
    var same := (row: Row) => KeyOf(row, columns) == KeyOf(seen[|seen| - 1], columns);
    FilterTwice(MatchesAny(columns, keys), MatchesKey(columns, key), seen);
    FilterSame(same, MatchesKey(columns, key), SemiJoin(columns, keys, seen));
  }

  /** Whatever the form, a key that was asked for once gets exactly its own rows. */
  lemma FetchOf(cfg: Config, postgres: bool, keys: seq<Key>, table: seq<Row>, key: Key)
    requires Distinct(keys) && (forall k <- keys :: IsComplete(k)) && key in keys
    ensures Filter(MatchesKey(cfg.targetKeys, key), Fetch(cfg, postgres, keys, table)) ==
            var own := Filter(MatchesKey(cfg.targetKeys, key), cfg.Seen(table));
            if cfg.Limited() then Take(cfg.limit.value, own) else own
  {
    var seen := cfg.Seen(table);
    if cfg.Limited() {
      if postgres {
        LateralOf(cfg.targetKeys, keys, cfg.limit.value, seen, key);
        CountDistinct(keys, key);
        var own := Take(cfg.limit.value, Filter(MatchesKey(cfg.targetKeys, key), seen));
        assert Times(1, own) == own + Times(0, own);
      } else {
        RankedOf(cfg.targetKeys, keys, cfg.limit.value, seen, key);
      }
    } else {
      UnnestJoinIsSemiJoin(cfg.targetKeys, keys, seen);
      FilterTwice(MatchesAny(cfg.targetKeys, keys), MatchesKey(cfg.targetKeys, key), seen);
    }
  }

  lemma {:induction false} LateralMatches(columns: seq<string>, keys: seq<Key>, n: nat, seen: seq<Row>)
    ensures forall row <- Lateral(columns, keys, n, seen) :: MatchesAny(columns, keys)(row)
  {
    if keys != [] {
      LateralMatches(columns, keys[1..], n, seen);
      forall row <- Lateral(columns, keys, n, seen) ensures MatchesAny(columns, keys)(row) {
        if row in Take(n, Filter(MatchesKey(columns, keys[0]), seen)) {
          assert MatchesKey(columns, keys[0])(row) && keys[0] in keys;
        } else {
          assert MatchesAny(columns, keys[1..])(row);
          var k :| k in keys[1..] && Matches(row, columns, k);
          assert k in keys;
        }
      }
    }
  }

  lemma {:induction false} RankedMatches(columns: seq<string>, keys: seq<Key>, n: nat, seen: seq<Row>)
    ensures forall row <- Ranked(columns, keys, n, seen) :: MatchesAny(columns, keys)(row)
  {
    if seen != [] {
      RankedMatches(columns, keys, n, seen[..|seen| - 1]);
    }
  }

  /** Every row of the batch was asked for. */
  lemma FetchMatches(cfg: Config, postgres: bool, keys: seq<Key>, table: seq<Row>)
    requires Distinct(keys) && (forall k <- keys :: IsComplete(k))
    ensures forall row <- Fetch(cfg, postgres, keys, table) :: MatchesAny(cfg.targetKeys, keys)(row)
  {
    var seen := cfg.Seen(table);
    if cfg.Limited() {
      LateralMatches(cfg.targetKeys, keys, cfg.limit.value, seen);
      RankedMatches(cfg.targetKeys, keys, cfg.limit.value, seen);
    } else {
      UnnestJoinIsSemiJoin(cfg.targetKeys, keys, seen);
    }
  }

  lemma {:induction false} CopiesAre(columns: seq<string>, keys: seq<Key>, row: Row)
    ensures forall x <- Copies(columns, keys, row) :: x == row
  {
    if keys != [] {
      CopiesAre(columns, keys[1..], row);
    }
  }

  lemma {:induction false} UnnestJoinFrom(columns: seq<string>, keys: seq<Key>, seen: seq<Row>)
    ensures forall row <- UnnestJoin(columns, keys, seen) :: row in seen
  {
    if seen != [] {
      CopiesAre(columns, keys, seen[0]);
      UnnestJoinFrom(columns, keys, seen[1..]);
    }
  }

  lemma {:induction false} LateralFrom(columns: seq<string>, keys: seq<Key>, n: nat, seen: seq<Row>)
    ensures forall row <- Lateral(columns, keys, n, seen) :: row in seen
  {
    if keys != [] {
      LateralFrom(columns, keys[1..], n, seen);
    }
  }

  lemma {:induction false} RankedFrom(columns: seq<string>, keys: seq<Key>, n: nat, seen: seq<Row>)
    ensures forall row <- Ranked(columns, keys, n, seen) :: row in seen
  {
    if seen != [] {
      RankedFrom(columns, keys, n, seen[..|seen| - 1]);
    }
  }

  /** No form makes rows up. */
  lemma FetchFrom(cfg: Config, postgres: bool, keys: seq<Key>, table: seq<Row>)
    ensures forall row <- Fetch(cfg, postgres, keys, table) :: row in table && cfg.Sees(row)
  {
    var seen := cfg.Seen(table);
    if cfg.Limited() {
      LateralFrom(cfg.targetKeys, keys, cfg.limit.value, seen);
      RankedFrom(cfg.targetKeys, keys, cfg.limit.value, seen);
    } else {
      UnnestJoinFrom(cfg.targetKeys, keys, seen);
    }
  }

  // ---------------------------------------------------------------------------------------------
  // Batch loading refines loading one by one
  // ---------------------------------------------------------------------------------------------

  /** No complete key of the batch is rendered like another key of the batch. */
  ghost predicate NoCollision(records: seq<Row>, columns: seq<string>) {
    forall a <- records, b <- records ::
      IsComplete(KeyOf(b, columns)) && MapKey(KeyOf(a, columns)) == MapKey(KeyOf(b, columns)) ==> KeyOf(a, columns) == KeyOf(b, columns)
  }

  /** The same for keys that the query can see rows of: nothing is ever filed under the others. */
  ghost predicate Apart(cfg: Config, records: seq<Row>) {
    forall a <- records, b <- records ::
      var ka, kb := KeyOf(a, cfg.sourceKeys), KeyOf(b, cfg.sourceKeys);
      IsComplete(kb) && cfg.CanSee(kb) && MapKey(ka) == MapKey(kb) ==> ka == kb
  }

  lemma NoCollisionIsApart(cfg: Config, records: seq<Row>)
    requires NoCollision(records, cfg.sourceKeys)
    ensures Apart(cfg, records)
  {
  }

  lemma {:induction false} CompleteKeysAre(records: seq<Row>, columns: seq<string>, key: Key)
    ensures key in CompleteKeys(records, columns) <==> IsComplete(key) && exists r <- records :: KeyOf(r, columns) == key
  {
    if records != [] {
      var init, last := records[..|records| - 1], records[|records| - 1];
      CompleteKeysAre(init, columns, key);
      assert records == init + [last];
      assert last in records;
      assert (exists r <- records :: KeyOf(r, columns) == key) <==> (exists r <- init :: KeyOf(r, columns) == key) || KeyOf(last, columns) == key;
    }
  }

  /** The keys that are sent are distinct keys of the batch, and the key of each record is among them if it is complete and
      the query can see a row of it. */
  lemma SentKeys(cfg: Config, records: seq<Row>, key: Key)
    ensures
      var keys := Unique(CompleteKeys(records, cfg.sourceKeys));
      && Distinct(keys)
      && (key in keys ==> key in CompleteKeys(records, cfg.sourceKeys))
      && (Apart(cfg, records) && key in CompleteKeys(records, cfg.sourceKeys) && cfg.CanSee(key) ==> key in keys)
  {
    var all := CompleteKeys(records, cfg.sourceKeys);
    var keys := Unique(all);
    if Apart(cfg, records) && key in all && cfg.CanSee(key) {
      assert IdentOf(key) in Idents(all);
      var k :| k in keys && IdentOf(k) == IdentOf(key);
      SameIdentSameKey(cfg, records, k, key);
    }
  }

  lemma SameIdentSameKey(cfg: Config, records: seq<Row>, k: Key, key: Key)
    requires Apart(cfg, records) && cfg.CanSee(key) && IdentOf(k) == IdentOf(key)
    requires k in CompleteKeys(records, cfg.sourceKeys) && key in CompleteKeys(records, cfg.sourceKeys)
    ensures k == key
  {
    CompleteKeysAre(records, cfg.sourceKeys, key);
    CompleteKeysAre(records, cfg.sourceKeys, k);
    if |key| == 1 {
      assert k == [k[0]] && key == [key[0]];
    }
  }

  /** In the rows of the batch, what is filed under a record's text is what matches its key. */
  lemma FiledIsMatched(cfg: Config, postgres: bool, records: seq<Row>, table: seq<Row>, record: Row)
    requires cfg.Valid() && Apart(cfg, records) && record in records
    ensures
      var rows := BatchRows(cfg, postgres, records, table);
      var key := KeyOf(record, cfg.sourceKeys);
      Bucket(cfg.targetKeys, rows, MapKey(key)) == Filter(MatchesKey(cfg.targetKeys, key), rows)
  {
    var key := KeyOf(record, cfg.sourceKeys);
    var keys := Unique(CompleteKeys(records, cfg.sourceKeys));
    var rows := BatchRows(cfg, postgres, records, table);
    SentKeys(cfg, records, key);
    FetchMatches(cfg, postgres, keys, table);
    FetchFrom(cfg, postgres, keys, table);
    forall row <- rows ensures FiledUnder(cfg.targetKeys, MapKey(key))(row) == MatchesKey(cfg.targetKeys, key)(row) {
      var k :| k in keys && Matches(row, cfg.targetKeys, k);
      CompleteKeysAre(records, cfg.sourceKeys, k);
      assert cfg.CanSee(k);
    }
    FilterSame(FiledUnder(cfg.targetKeys, MapKey(key)), MatchesKey(cfg.targetKeys, key), rows);
  }

  /** What a record is given from the batch is what a query for it alone gives: all its rows in result order
      for hasMany, the last of them otherwise, none for an incomplete key, the first N with a limit. */
  lemma BatchRefinesAlone(cfg: Config, postgres: bool, records: seq<Row>, table: seq<Row>, record: Row)
    requires cfg.Valid() && Apart(cfg, records) && record in records
    ensures Deliver(cfg, BatchRows(cfg, postgres, records, table), record) == QueryAlone(cfg, table, record)
  {
    var key := KeyOf(record, cfg.sourceKeys);
    var keys := Unique(CompleteKeys(records, cfg.sourceKeys));
    FiledIsMatched(cfg, postgres, records, table, record);
    SentKeys(cfg, records, key);
    CompleteKeysAre(records, cfg.sourceKeys, key);
    if IsComplete(key) && cfg.CanSee(key) {
      FetchOf(cfg, postgres, keys, table, key);
    } else {
      NothingSeen(cfg, postgres, keys, table, key);
    }
  }

  /** Of a key that is incomplete, or that the query sees no row of, nothing is fetched by any form. */
  lemma NothingSeen(cfg: Config, postgres: bool, keys: seq<Key>, table: seq<Row>, key: Key)
    requires !IsComplete(key) || !cfg.CanSee(key)
    ensures Filter(MatchesKey(cfg.targetKeys, key), Fetch(cfg, postgres, keys, table)) == []
    ensures Filter(MatchesKey(cfg.targetKeys, key), cfg.Seen(table)) == []
  {
    FetchFrom(cfg, postgres, keys, table);
    FilterNone(MatchesKey(cfg.targetKeys, key), Fetch(cfg, postgres, keys, table));
    FilterNone(MatchesKey(cfg.targetKeys, key), cfg.Seen(table));
  }

  function MatchesRecord(cfg: Config, records: seq<Row>): Row -> bool {
    (row: Row) => exists r <- records :: Matches(row, cfg.targetKeys, KeyOf(r, cfg.sourceKeys))
  }

  /** The rows that match any record, each once, in result order. */
  function RowsOfAny(cfg: Config, records: seq<Row>, table: seq<Row>): seq<Row> {
    Filter(MatchesRecord(cfg, records), cfg.Seen(table))
  }

  /** Without a limit, the cap counts the rows that match any record of the batch, each once. */
  lemma CapCountsMatches(cfg: Config, postgres: bool, records: seq<Row>, table: seq<Row>)
    requires cfg.Valid() && Apart(cfg, records) && !cfg.Limited()
    ensures BatchRows(cfg, postgres, records, table) == RowsOfAny(cfg, records, table)
  {
    var keys := Unique(CompleteKeys(records, cfg.sourceKeys));
    var any := MatchesRecord(cfg, records);
    var seen := cfg.Seen(table);
    SentKeys(cfg, records, []);
    UnnestJoinIsSemiJoin(cfg.targetKeys, keys, seen);
    forall row <- seen ensures MatchesAny(cfg.targetKeys, keys)(row) == any(row) {
      var key := KeyOf(row, cfg.targetKeys);
      CompleteKeysAre(records, cfg.sourceKeys, key);
      SentKeys(cfg, records, key);
      assert cfg.CanSee(key);
    }
    FilterSame(MatchesAny(cfg.targetKeys, keys), any, seen);
  }

  // ---------------------------------------------------------------------------------------------
  // What a relation means, column by column
  // ---------------------------------------------------------------------------------------------

  /** The row is the record's: each target column equals the record's source column, none of them missing or null; the relation's
      conditions hold of it; and so does the model's default filter, unless the relation is a limited hasMany. */
  predicate IsWanted(cfg: Config, record: Row, row: Row)
    requires |cfg.sourceKeys| == |cfg.targetKeys|
  {
    && (forall i :: 0 <= i < |cfg.targetKeys| ==> cfg.sourceKeys[i] in record && cfg.targetKeys[i] in row && SqlEqual(record[cfg.sourceKeys[i]], row[cfg.targetKeys[i]]))
    && cfg.where(row)
    && (cfg.findFilter(row) || (cfg.kind == HasMany && cfg.limit != None))
  }

  /** Never with a null. */
  predicate SqlEqual(v: Value, w: Value) {
    match (v, w)
    case (Int(m), Int(n)) => m == n
    case (Text(s), Text(t)) => s == t
    case _ => false
  }

  function WantedBy(cfg: Config, records: seq<Row>): Row -> bool
    requires |cfg.sourceKeys| == |cfg.targetKeys|
  {
    (row: Row) => exists record <- records :: IsWanted(cfg, record, row)
  }

  lemma WantedIff(cfg: Config, record: Row, row: Row)
    requires cfg.Valid()
    ensures IsWanted(cfg, record, row) <==> Matches(row, cfg.targetKeys, KeyOf(record, cfg.sourceKeys)) && cfg.Sees(row)
  {
    var ours, theirs := KeyOf(record, cfg.sourceKeys), KeyOf(row, cfg.targetKeys);
    if forall i :: 0 <= i < |ours| ==> cfg.sourceKeys[i] in record && cfg.targetKeys[i] in row && SqlEqual(record[cfg.sourceKeys[i]], row[cfg.targetKeys[i]]) {
      assert forall i :: 0 <= i < |ours| ==> theirs[i] == ours[i] && ours[i] != Absent && ours[i] != Null;
      assert theirs == ours;
    }
    if theirs == ours && IsComplete(ours) {
      forall i | 0 <= i < |ours|
        ensures cfg.sourceKeys[i] in record && cfg.targetKeys[i] in row && SqlEqual(record[cfg.sourceKeys[i]], row[cfg.targetKeys[i]])
      {
        assert ours[i] in ours && theirs[i] == ours[i];
      }
    }
  }

  /** The rows that the query sees and that match are those of the table that are wanted. */
  lemma SeenIsWanted(cfg: Config, records: seq<Row>, table: seq<Row>, p: Row -> bool)
    requires cfg.Valid() && forall row :: cfg.Sees(row) ==> p(row) == exists record <- records :: Matches(row, cfg.targetKeys, KeyOf(record, cfg.sourceKeys))
    ensures Filter(p, cfg.Seen(table)) == Filter(WantedBy(cfg, records), table)
  {
    var wanted := WantedBy(cfg, records);
    forall row ensures wanted(row) <==> cfg.Sees(row) && p(row) {
      forall record <- records ensures IsWanted(cfg, record, row) <==> Matches(row, cfg.targetKeys, KeyOf(record, cfg.sourceKeys)) && cfg.Sees(row) {
        WantedIff(cfg, record, row);
      }
    }
    FilterSame(p, wanted, cfg.Seen(table));
    FilterTwice((row: Row) => cfg.Sees(row), wanted, table);
  }

  /** What the query for one record answers, in these terms: hasMany gives the wanted rows in order, the first ones with a
      limit; belongsTo and hasOne give the last of them, if there is one. */
  lemma AloneMeans(cfg: Config, table: seq<Row>, record: Row)
    requires cfg.Valid()
    ensures
      var rows := Filter(WantedBy(cfg, [record]), table);
      match QueryAlone(cfg, table, record)
      case Many(found) => cfg.kind == HasMany && found == if cfg.limit.Some? && cfg.limit.value < |rows| then rows[..cfg.limit.value] else rows
      case One(found) => cfg.kind != HasMany && found == if |rows| == 0 then None else Some(rows[|rows| - 1])
  {
    var key := KeyOf(record, cfg.sourceKeys);
    forall row ensures MatchesKey(cfg.targetKeys, key)(row) == exists r <- [record] :: Matches(row, cfg.targetKeys, KeyOf(r, cfg.sourceKeys)) {
      assert record in [record];
    }
    SeenIsWanted(cfg, [record], table, MatchesKey(cfg.targetKeys, key));
    if cfg.limit.Some? {
      TakeIsPrefix(cfg.limit.value, Filter(WantedBy(cfg, [record]), table));
    }
  }

  lemma {:induction false} TakeIsPrefix<T>(n: nat, s: seq<T>)
    ensures Take(n, s) == if n < |s| then s[..n] else s
  {
  }

  lemma AnyIsWanted(cfg: Config, records: seq<Row>, table: seq<Row>)
    requires cfg.Valid()
    ensures RowsOfAny(cfg, records, table) == Filter(WantedBy(cfg, records), table)
  {
    SeenIsWanted(cfg, records, table, MatchesRecord(cfg, records));
  }

  // ---------------------------------------------------------------------------------------------
  // Exactly when
  // ---------------------------------------------------------------------------------------------

  /** A row whose target columns hold the key. */
  function RowOf(columns: seq<string>, key: Key): Row
    requires |columns| == |key|
  {
    if columns == [] then map[] else RowOf(columns[1..], key[1..])[columns[0] := key[0]]
  }

  lemma {:induction false} RowOfHolds(columns: seq<string>, key: Key, i: nat)
    requires |columns| == |key| && Distinct(columns) && i < |columns|
    ensures Get(RowOf(columns, key), columns[i]) == key[i]
  {
    if i > 0 {
      RowOfHolds(columns[1..], key[1..], i - 1);
    }
  }

  lemma KeyOfRowOf(columns: seq<string>, key: Key)
    requires |columns| == |key| && Distinct(columns)
    ensures KeyOf(RowOf(columns, key), columns) == key
  {
    forall i | 0 <= i < |columns| ensures KeyOf(RowOf(columns, key), columns)[i] == key[i] {
      RowOfHolds(columns, key, i);
    }
  }

  ghost predicate RefinesAlways(cfg: Config, postgres: bool, records: seq<Row>) {
    forall table, record <- records :: Deliver(cfg, BatchRows(cfg, postgres, records, table), record) == QueryAlone(cfg, table, record)
  }

  lemma EmptyOrHasFirst<T>(s: seq<T>)
    ensures s == [] || exists x :: x in s
  {
    assert s != [] ==> s[0] in s;
  }

  /** Fetched from a table of one row: the row, if its key was sent. */
  lemma FetchOneRow(cfg: Config, postgres: bool, keys: seq<Key>, row: Row)
    requires Distinct(keys) && (forall k <- keys :: IsComplete(k))
    requires cfg.Sees(row) && IsComplete(KeyOf(row, cfg.targetKeys)) && (cfg.Limited() ==> cfg.limit.value > 0)
    ensures Fetch(cfg, postgres, keys, [row]) == if KeyOf(row, cfg.targetKeys) in keys then [row] else []
  {
    var key := KeyOf(row, cfg.targetKeys);
    var rows := Fetch(cfg, postgres, keys, [row]);
    FetchFrom(cfg, postgres, keys, [row]);
    FetchMatches(cfg, postgres, keys, [row]);
    if key in keys {
      FetchOf(cfg, postgres, keys, [row], key);
      assert [row][1..] == [] && cfg.Seen([row]) == [row];
      assert Filter(MatchesKey(cfg.targetKeys, key), [row]) == [row];
      FilterAll(MatchesKey(cfg.targetKeys, key), rows);
    } else {
      EmptyOrHasFirst(rows);
    }
  }

  /** A collision shows on a table of one row. */
  lemma CollisionShows(cfg: Config, postgres: bool, records: seq<Row>, a: Row, b: Row)
    requires cfg.Valid() && (cfg.Limited() ==> cfg.limit.value > 0)
    requires a in records && b in records && IsComplete(KeyOf(b, cfg.sourceKeys)) && cfg.CanSee(KeyOf(b, cfg.sourceKeys))
    requires MapKey(KeyOf(a, cfg.sourceKeys)) == MapKey(KeyOf(b, cfg.sourceKeys)) && KeyOf(a, cfg.sourceKeys) != KeyOf(b, cfg.sourceKeys)
    ensures !RefinesAlways(cfg, postgres, records)
  {
    var key := KeyOf(b, cfg.sourceKeys);
    var row :| KeyOf(row, cfg.targetKeys) == key && cfg.Sees(row);
    var keys := Unique(CompleteKeys(records, cfg.sourceKeys));
    SentKeys(cfg, records, key);
    FetchOneRow(cfg, postgres, keys, row);
    AloneOnOneRow(cfg, row, a);
    AloneOnOneRow(cfg, row, b);
    DeliveredOneRow(cfg, row, a);
    var given := BatchRows(cfg, postgres, records, [row]);
    if key in keys {
      assert Deliver(cfg, given, a) != QueryAlone(cfg, [row], a);
    } else {
      assert Deliver(cfg, given, b) != QueryAlone(cfg, [row], b);
    }
  }

  lemma AloneOnOneRow(cfg: Config, row: Row, record: Row)
    requires cfg.Sees(row) && (cfg.Limited() ==> cfg.limit.value > 0)
    ensures
      var own := Matches(row, cfg.targetKeys, KeyOf(record, cfg.sourceKeys));
      QueryAlone(cfg, [row], record) == if cfg.kind.HasMany? then Many(if own then [row] else []) else One(if own then Some(row) else None)
  {
    assert [row][1..] == [] && cfg.Seen([row]) == [row];
    assert Filter(MatchesKey(cfg.targetKeys, KeyOf(record, cfg.sourceKeys)), [row]) ==
      if Matches(row, cfg.targetKeys, KeyOf(record, cfg.sourceKeys)) then [row] else [];
  }

  lemma DeliveredOneRow(cfg: Config, row: Row, record: Row)
    requires MapKey(KeyOf(row, cfg.targetKeys)) == MapKey(KeyOf(record, cfg.sourceKeys))
    ensures Deliver(cfg, [row], record) == if cfg.kind.HasMany? then Many([row]) else One(Some(row))
  {
    assert [row][1..] == [];
    assert Bucket(cfg.targetKeys, [row], MapKey(KeyOf(record, cfg.sourceKeys))) == [row];
  }

  /** The batch refines loading one by one, on every table, exactly when no key that the query can see a row of is rendered
      like another key of the batch. */
  lemma RefinesIffApart(cfg: Config, postgres: bool, records: seq<Row>)
    requires cfg.Valid() && (cfg.Limited() ==> cfg.limit.value > 0)
    ensures RefinesAlways(cfg, postgres, records) <==> Apart(cfg, records)
  {
    if Apart(cfg, records) {
      forall table, record <- records ensures Deliver(cfg, BatchRows(cfg, postgres, records, table), record) == QueryAlone(cfg, table, record) {
        BatchRefinesAlone(cfg, postgres, records, table, record);
      }
    } else {
      var a, b :| a in records && b in records && IsComplete(KeyOf(b, cfg.sourceKeys)) && cfg.CanSee(KeyOf(b, cfg.sourceKeys)) &&
        MapKey(KeyOf(a, cfg.sourceKeys)) == MapKey(KeyOf(b, cfg.sourceKeys)) && KeyOf(a, cfg.sourceKeys) != KeyOf(b, cfg.sourceKeys);
      CollisionShows(cfg, postgres, records, a, b);
    }
  }

  /** Without filters that is exactly when the keys of the batch do not collide, which a caller can see from the batch
      alone. */
  lemma RefinesIffNoCollision(cfg: Config, postgres: bool, records: seq<Row>)
    requires cfg.Valid() && (cfg.Limited() ==> cfg.limit.value > 0) && Distinct(cfg.targetKeys)
    requires forall row :: cfg.Sees(row)
    ensures RefinesAlways(cfg, postgres, records) <==> NoCollision(records, cfg.sourceKeys)
  {
    RefinesIffApart(cfg, postgres, records);
    if NoCollision(records, cfg.sourceKeys) {
      NoCollisionIsApart(cfg, records);
    }
    forall b <- records ensures cfg.CanSee(KeyOf(b, cfg.sourceKeys)) {
      KeyOfRowOf(cfg.targetKeys, KeyOf(b, cfg.sourceKeys));
      assert cfg.Sees(RowOf(cfg.targetKeys, KeyOf(b, cfg.sourceKeys)));
    }
  }

  lemma {:induction false} CountTwice(keys: seq<Key>, i: nat, j: nat)
    requires i < j < |keys| && keys[i] == keys[j]
    ensures Count(keys, keys[i]) >= 2
  {
    if i > 0 {
      CountTwice(keys[1..], i - 1, j - 1);
    } else {
      CountOnce(keys[1..], j - 1);
    }
  }

  lemma {:induction false} CountOnce(keys: seq<Key>, i: nat)
    requires i < |keys|
    ensures Count(keys, keys[i]) >= 1
  {
    if i > 0 {
      CountOnce(keys[1..], i - 1);
    }
  }

  lemma {:induction false} TimesLength<T>(m: nat, x: T)
    ensures |Times(m, [x])| == m
  {
    if m > 0 {
      TimesLength(m - 1, x);
    }
  }

  /** Distinct keys are exactly what makes the unnest join a semi-join, on every table. */
  lemma UnnestJoinIff(columns: seq<string>, keys: seq<Key>)
    requires Distinct(columns) && forall k <- keys :: IsComplete(k) && |k| == |columns|
    ensures (forall seen :: UnnestJoin(columns, keys, seen) == SemiJoin(columns, keys, seen)) <==> Distinct(keys)
  {
    if Distinct(keys) {
      forall seen ensures UnnestJoin(columns, keys, seen) == SemiJoin(columns, keys, seen) {
        UnnestJoinIsSemiJoin(columns, keys, seen);
      }
    } else {
      var i, j :| 0 <= i < j < |keys| && keys[i] == keys[j];
      assert keys[i] in keys;
      var row := RowOf(columns, keys[i]);
      KeyOfRowOf(columns, keys[i]);
      JoinedTwice(columns, keys, row, i, j);
      assert UnnestJoin(columns, keys, [row]) != SemiJoin(columns, keys, [row]);
    }
  }

  lemma JoinedTwice(columns: seq<string>, keys: seq<Key>, row: Row, i: nat, j: nat)
    requires i < j < |keys| && keys[i] == keys[j] == KeyOf(row, columns) && forall k <- keys :: IsComplete(k)
    ensures |UnnestJoin(columns, keys, [row])| >= 2 && |SemiJoin(columns, keys, [row])| <= 1
  {
    CountTwice(keys, i, j);
    CopiesCount(columns, keys, row);
    TimesLength(Count(keys, keys[i]), row);
    assert [row][1..] == [];
    assert UnnestJoin(columns, keys, [row]) == Copies(columns, keys, row) + [];
  }

  /** A text key that no other kind of key is rendered like. */
  predicate IsPlainText(s: string) {
    s != "" && s != "null" && s != "undefined" && Free(s, NUL)
  }

  /** Each key column holds integers only, or plain text only. */
  predicate IsTyped(key: Key, integer: seq<bool>)
    requires |key| == |integer|
  {
    forall i :: 0 <= i < |key| ==>
      match key[i] case Int(_) => integer[i] case Text(s) => !integer[i] && IsPlainText(s) case _ => true
  }

  lemma SameTextSameValue(a: Value, b: Value, integer: bool)
    requires IsTyped([a], [integer]) && IsTyped([b], [integer]) && b != Null && b != Absent
    requires StringOf(a) == StringOf(b) || JoinPart(a) == JoinPart(b)
    ensures a == b
  {
    assert IsTyped([a], [integer]) && [a][0] == a && [b][0] == b && [integer][0] == integer;
    if b.Int? {
      assert FormatInt(b.n)[0] in FormatInt(b.n);
      if a.Int? {
        FormatIntInjective(a.n, b.n);
      }
    }
  }

  lemma JoinPartsFree(key: Key, integer: seq<bool>)
    requires |key| == |integer| && IsTyped(key, integer)
    ensures AllFree(JoinParts(key), NUL)
  {
    forall i | 0 <= i < |key| ensures Free(JoinParts(key)[i], NUL) {
      if key[i].Int? {
        assert forall c <- FormatInt(key[i].n) :: IsDigit(c) || c == '-';
      }
    }
  }

  /** Typed keys do not collide. */
  lemma TypedKeysDoNotCollide(records: seq<Row>, columns: seq<string>, integer: seq<bool>)
    requires |columns| == |integer| > 0
    requires forall r <- records :: IsTyped(KeyOf(r, columns), integer)
    ensures NoCollision(records, columns)
  {
    forall a <- records, b <- records |
      IsComplete(KeyOf(b, columns)) && MapKey(KeyOf(a, columns)) == MapKey(KeyOf(b, columns))
      ensures KeyOf(a, columns) == KeyOf(b, columns)
    {
      var ka, kb := KeyOf(a, columns), KeyOf(b, columns);
      if |columns| > 1 {
        JoinPartsFree(ka, integer);
        JoinPartsFree(kb, integer);
        JoinInjective(JoinParts(ka), JoinParts(kb), NUL);
      }
      forall i | 0 <= i < |columns| ensures ka[i] == kb[i] {
        if |columns| > 1 {
          assert JoinPart(ka[i]) == JoinParts(ka)[i] == JoinParts(kb)[i] == JoinPart(kb[i]);
        }
        assert kb[i] in kb;
        SameTextSameValue(ka[i], kb[i], integer[i]);
      }
    }
  }

  /** A record without a key is given the rows of the record whose key is the text "null". */
  lemma NullCollides(column: string)
    ensures !NoCollision([map[column := Null], map[column := Text("null")]], [column])
  {
    var a: Row, b: Row := map[column := Null], map[column := Text("null")];
    assert KeyOf(a, [column]) == [Null] && KeyOf(b, [column]) == [Text("null")];
    assert a in [a, b] && b in [a, b];
  }

  /** A record without the column is given the rows of the record whose key is the text "undefined". */
  lemma AbsentCollides(column: string)
    ensures !NoCollision([map[], map[column := Text("undefined")]], [column])
  {
    var a: Row, b: Row := map[], map[column := Text("undefined")];
    assert KeyOf(a, [column]) == [Absent] && KeyOf(b, [column]) == [Text("undefined")];
    assert a in [a, b] && b in [a, b];
  }

  // ---------------------------------------------------------------------------------------------
  // LATERAL and ROW_NUMBER
  // ---------------------------------------------------------------------------------------------

  /** Keys that are filed apart. */
  predicate FiledApart(keys: seq<Key>) {
    forall i, j :: 0 <= i < j < |keys| ==> MapKey(keys[i]) != MapKey(keys[j])
  }

  lemma BucketOf(columns: seq<string>, keys: seq<Key>, rows: seq<Row>, text: string)
    requires FiledApart(keys) && (forall row <- rows :: MatchesAny(columns, keys)(row))
    ensures forall key <- keys :: MapKey(key) == text ==> Bucket(columns, rows, text) == Filter(MatchesKey(columns, key), rows)
    ensures (forall key <- keys :: MapKey(key) != text) ==> Bucket(columns, rows, text) == []
  {
    forall key <- keys | MapKey(key) == text ensures Bucket(columns, rows, text) == Filter(MatchesKey(columns, key), rows) {
      forall row <- rows ensures FiledUnder(columns, text)(row) == MatchesKey(columns, key)(row) {
        var k :| k in keys && Matches(row, columns, k);
      }
      FilterSame(FiledUnder(columns, text), MatchesKey(columns, key), rows);
    }
    if forall key <- keys :: MapKey(key) != text {
      FilterNone(FiledUnder(columns, text), rows);
    }
  }

  /** On PostgreSQL and on the other databases a limited relation gets the same relation map: under the text of
      each key that was sent, its first n rows; under any other text, nothing. */
  lemma LateralIsRowNumber(columns: seq<string>, keys: seq<Key>, n: nat, seen: seq<Row>, text: string)
    requires FiledApart(keys) && (forall k <- keys :: IsComplete(k))
    ensures Bucket(columns, Lateral(columns, keys, n, seen), text) == Bucket(columns, Ranked(columns, keys, n, seen), text)
    ensures forall key <- keys :: MapKey(key) == text ==>
      Bucket(columns, Lateral(columns, keys, n, seen), text) == Take(n, Filter(MatchesKey(columns, key), seen))
    ensures (forall key <- keys :: MapKey(key) != text) ==> Bucket(columns, Lateral(columns, keys, n, seen), text) == []
  {
    LateralMatches(columns, keys, n, seen);
    RankedMatches(columns, keys, n, seen);
    BucketOf(columns, keys, Lateral(columns, keys, n, seen), text);
    BucketOf(columns, keys, Ranked(columns, keys, n, seen), text);
    forall key <- keys | MapKey(key) == text
      ensures Filter(MatchesKey(columns, key), Lateral(columns, keys, n, seen)) == Take(n, Filter(MatchesKey(columns, key), seen))
      ensures Filter(MatchesKey(columns, key), Ranked(columns, keys, n, seen)) == Take(n, Filter(MatchesKey(columns, key), seen))
    {
      LateralOf(columns, keys, n, seen, key);
      CountDistinct(keys, key);
      var own := Take(n, Filter(MatchesKey(columns, key), seen));
      assert Times(1, own) == own + Times(0, own);
      RankedOf(columns, keys, n, seen, key);
    }
  }

  /** `getRelation` on a fresh cache: the whole way, from the records of the batch to one record's answer. */
  method GetRelation(cfg: Config, global: Option<nat>, postgres: bool, records: seq<Row>, table: seq<Row>, record: Row)
    returns (answer: Option<Answer>)
    requires cfg.Valid() && record in records
    ensures cfg.kind.HasMany? && cfg.limit.Some? ==> answer.Some?
    ensures cfg.hardLimit.Disabled? ==> answer.Some?
    ensures Apart(cfg, records) && !(cfg.kind.HasMany? && cfg.limit.Some?) ==>
      var found := |Filter(WantedBy(cfg, records), table)|;
      match cfg.hardLimit
      case UseGlobal => answer.None? <==> global.Some? && found > global.value
      case Disabled => true
      case Cap(n) => answer.None? <==> found > n
    ensures Apart(cfg, records) && answer.Some? ==> answer.value == QueryAlone(cfg, table, record)
  {
    var loaded := BatchLoad(cfg, global, postgres, records, table);
    if Apart(cfg, records) {
      BatchRefinesAlone(cfg, postgres, records, table, record);
      if !cfg.Limited() {
        CapCountsMatches(cfg, postgres, records, table);
        AnyIsWanted(cfg, records, table);
      }
    }
    if loaded.LimitExceeded? {
      return None;
    }
    var delivered := Lookup(cfg, loaded.m, record, BatchRows(cfg, postgres, records, table));
    return Some(delivered);
  }
}
