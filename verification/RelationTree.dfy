/** Relation trees over wire rows: pluck the keys of a level, fetch its children once, group them bottom-up. */
module RelationTree {
  // The loops read a key column by the position it has in the first row and fall back on its name. What they build is
  // what a nested loop over parents and children builds, at every depth.

  import opened Sequences
  import opened KeyIdentity

  type Index = j: int | -1 <= j

  // ---------------------------------------------------------------------------------------------
  // Reading keys
  // ---------------------------------------------------------------------------------------------

  /** The first cell of that name. */
  function Named(fields: seq<Field>, name: string): Option<Wire> {
    if fields == [] then None else if fields[0].name == name then Some(fields[0].value) else Named(fields[1..], name)
  }

  function PositionOf(fields: seq<Field>, name: string): (j: Index)
    ensures j == -1 <==> Named(fields, name).None?
    ensures j >= 0 ==> j < |fields| && fields[j].name == name && Named(fields, name) == Some(fields[j].value)
  {
    if fields == [] then -1
    else if fields[0].name == name then 0
    else
      var j := PositionOf(fields[1..], name);
      if j == -1 then -1 else j + 1
  }

  function KeyFields(fields: seq<Field>, cols: seq<string>): (r: Option<seq<Wire>>)
    ensures r.Some? ==> |r.value| == |cols|
  {
    if cols == [] then Some([])
    else
      var cell, rest := Named(fields, cols[0]), KeyFields(fields, cols[1..]);
      if cell.None? || cell.value.Null? || rest.None? then None else Some([cell.value] + rest.value)
  }

  /** The key of a row, read by name: nothing when a column is absent or null. */
  function KeyOf(row: Wire, cols: seq<string>): (r: Option<seq<Wire>>)
    ensures r.Some? ==> |r.value| == |cols|
  {
    if row.Row? then KeyFields(row.fields, cols) else None
  }

  function CellAt(fields: seq<Field>, name: string, j: Index): Option<Wire> {
    if 0 <= j < |fields| && fields[j].name == name then Some(fields[j].value) else Named(fields, name)
  }

  function FieldsVia(fields: seq<Field>, cols: seq<string>, idx: seq<Index>): (r: Option<seq<Wire>>)
    requires |idx| == |cols|
    ensures r.Some? ==> |r.value| == |cols|
  {
    if cols == [] then Some([])
    else
      var cell, rest := CellAt(fields, cols[0], idx[0]), FieldsVia(fields, cols[1..], idx[1..]);
      if cell.None? || cell.value.Null? || rest.None? then None else Some([cell.value] + rest.value)
  }

  /** The key of a row, read by position where the name is right. */
  function KeyVia(row: Wire, cols: seq<string>, idx: seq<Index>): (r: Option<seq<Wire>>)
    requires |idx| == |cols|
    ensures r.Some? ==> |r.value| == |cols|
  {
    if row.Row? then FieldsVia(row.fields, cols, idx) else None
  }

  function FirstRecord(rows: seq<Wire>): Option<seq<Field>> {
    if rows == [] then None else if rows[0].Row? then Some(rows[0].fields) else FirstRecord(rows[1..])
  }

  function Positions(sample: Option<seq<Field>>, cols: seq<string>): (r: seq<Index>)
    ensures |r| == |cols|
    ensures forall i :: 0 <= i < |cols| ==> r[i] == if sample.Some? then PositionOf(sample.value, cols[i]) else -1
  {
    if cols == [] then [] else [if sample.Some? then PositionOf(sample.value, cols[0]) else -1] + Positions(sample, cols[1..])
  }

  /** Where the first record has the key columns. */
  function Indices(rows: seq<Wire>, cols: seq<string>): (r: seq<Index>)
    ensures |r| == |cols|
  {
    Positions(FirstRecord(rows), cols)
  }

  lemma {:induction false} PositionInTail(fields: seq<Field>, name: string, j: nat)
    requires j < |fields|
    requires forall k :: 0 <= k < j ==> fields[k].name != name
    requires fields[j].name == name
    ensures PositionOf(fields, name) == j
  {
    if j > 0 {
      PositionInTail(fields[1..], name, j - 1);
    }
  }

  lemma {:induction false} NoPosition(fields: seq<Field>, name: string)
    requires forall k :: 0 <= k < |fields| ==> fields[k].name != name
    ensures PositionOf(fields, name) == -1
  {
    if fields != [] {
      NoPosition(fields[1..], name);
    }
  }

  lemma {:induction false} FirstRecordIs(rows: seq<Wire>, i: nat)
    requires i <= |rows| && forall k :: 0 <= k < i ==> !rows[k].Row?
    ensures i < |rows| && rows[i].Row? ==> FirstRecord(rows) == Some(rows[i].fields)
    ensures i == |rows| ==> FirstRecord(rows) == None
  {
    if i > 0 {
      FirstRecordIs(rows[1..], i - 1);
    }
  }

  /** `resolveKeyIndicesG`. */
  method ResolveKeyIndices(rows: seq<Wire>, cols: seq<string>) returns (r: seq<Index>)
    ensures r == Indices(rows, cols)
  {
    var idx := new Index[|cols|];
    for i := 0 to |cols|
      invariant forall k :: 0 <= k < i ==> idx[k] == -1
    {
      idx[i] := -1;
    }
    for k := 0 to |rows|
      invariant forall i :: 0 <= i < k ==> !rows[i].Row?
      invariant forall i :: 0 <= i < |cols| ==> idx[i] == -1
    {
      if !rows[k].Row? {
        continue;
      }
      var fields := rows[k].fields;
      for i := 0 to |cols|
        invariant forall c :: 0 <= c < i ==> idx[c] == PositionOf(fields, cols[c])
      {
        idx[i] := -1;
        var j := 0;
        while j < |fields|
          invariant 0 <= j <= |fields|
          invariant forall f :: 0 <= f < j ==> fields[f].name != cols[i]
          invariant idx[i] == -1 && forall c :: 0 <= c < i ==> idx[c] == PositionOf(fields, cols[c])
        {
          if fields[j].name == cols[i] {
            PositionInTail(fields, cols[i], j);
            idx[i] := j;
            break;
          }
          j := j + 1;
        }
        if j == |fields| {
          NoPosition(fields, cols[i]);
        }
      }
      FirstRecordIs(rows, k);
      assert idx[..] == Indices(rows, cols);
      return idx[..];
    }
    FirstRecordIs(rows, |rows|);
    assert idx[..] == Indices(rows, cols);
    return idx[..];
  }

  /** `keyCells`. */
  method KeyCells(row: Wire, cols: seq<string>, idx: seq<Index>) returns (r: Option<seq<Wire>>)
    requires |idx| == |cols|
    ensures r == KeyVia(row, cols, idx)
  {
    if !row.Row? {
      return None;
    }
    var out: seq<Wire> := [];
    assert cols[0..] == cols && idx[0..] == idx;
    assert FieldsVia(row.fields, cols, idx).Some? ==> out + FieldsVia(row.fields, cols, idx).value == FieldsVia(row.fields, cols, idx).value;
    for i := 0 to |cols|
      invariant |out| == i
      invariant FieldsVia(row.fields, cols, idx) == Onto(out, FieldsVia(row.fields, cols[i..], idx[i..]))
    {
      var cell := CellAt(row.fields, cols[i], idx[i]);
      FieldsStep(row.fields, cols, idx, i, out);
      if cell.None? || cell.value.Null? {
        return None;
      }
      out := out + [cell.value];
    }
    assert cols[|cols|..] == [] && out + [] == out;
    return Some(out);
  }

  /** Cells already read, in front of the rest. */
  function Onto(out: seq<Wire>, rest: Option<seq<Wire>>): Option<seq<Wire>> {
    if rest.None? then None else Some(out + rest.value)
  }

  lemma FieldsStep(fields: seq<Field>, cols: seq<string>, idx: seq<Index>, i: nat, out: seq<Wire>)
    requires |idx| == |cols| && i < |cols|
    ensures var cell := CellAt(fields, cols[i], idx[i]);
      Onto(out, FieldsVia(fields, cols[i..], idx[i..])) ==
        if cell.None? || cell.value.Null? then None else Onto(out + [cell.value], FieldsVia(fields, cols[i + 1..], idx[i + 1..]))
  {
    var cell, rest := CellAt(fields, cols[i], idx[i]), FieldsVia(fields, cols[i + 1..], idx[i + 1..]);
    assert cols[i..][1..] == cols[i + 1..] && idx[i..][1..] == idx[i + 1..];
    if cell.Some? && rest.Some? {
      Regroup(out, [cell.value], rest.value);
    }
  }

  // ---------------------------------------------------------------------------------------------
  // Position and name agree
  // ---------------------------------------------------------------------------------------------

  predicate Once(fields: seq<Field>, name: string) {
    forall i, j :: 0 <= i < |fields| && 0 <= j < |fields| && fields[i].name == name && fields[j].name == name ==> i == j
  }

  predicate ColumnsOnce(row: Wire, cols: seq<string>) {
    row.Row? ==> forall i :: 0 <= i < |cols| ==> Once(row.fields, cols[i])
  }

  lemma {:induction false} FieldsAgree(fields: seq<Field>, cols: seq<string>, idx: seq<Index>)
    requires |idx| == |cols|
    requires forall i :: 0 <= i < |cols| ==> CellAt(fields, cols[i], idx[i]) == Named(fields, cols[i])
    ensures FieldsVia(fields, cols, idx) == KeyFields(fields, cols)
  {
    if cols != [] {
      FieldsAgree(fields, cols[1..], idx[1..]);
    }
  }

  /** A row that has each key column once gives the same key by position and by name, whatever row the positions were
      taken from and however its own columns are ordered. */
  lemma PositionAgreesWithName(row: Wire, cols: seq<string>, idx: seq<Index>)
    requires |idx| == |cols| && ColumnsOnce(row, cols)
    ensures KeyVia(row, cols, idx) == KeyOf(row, cols)
  {
    if row.Row? {
      forall i | 0 <= i < |cols| ensures CellAt(row.fields, cols[i], idx[i]) == Named(row.fields, cols[i]) {
        var j := PositionOf(row.fields, cols[i]);
        if 0 <= idx[i] < |row.fields| && row.fields[idx[i]].name == cols[i] && j == -1 {
          NamedThere(row.fields, cols[i], idx[i]);
        }
      }
      FieldsAgree(row.fields, cols, idx);
    }
  }

  lemma {:induction false} NamedThere(fields: seq<Field>, name: string, j: nat)
    requires j < |fields| && fields[j].name == name
    ensures Named(fields, name).Some?
  {
    if fields[0].name != name {
      NamedThere(fields[1..], name, j - 1);
    }
  }

  predicate SameColumns(a: seq<Field>, b: seq<Field>) {
    |a| == |b| && forall i :: 0 <= i < |a| ==> a[i].name == b[i].name
  }

  lemma {:induction false} SamePosition(a: seq<Field>, b: seq<Field>, name: string)
    requires SameColumns(a, b)
    ensures PositionOf(a, name) == PositionOf(b, name)
  {
    if a != [] {
      SamePosition(a[1..], b[1..], name);
    }
  }

  /** A row with the columns of the first record agrees too, even if a name is repeated. */
  lemma SameColumnsAgree(row: Wire, rows: seq<Wire>, cols: seq<string>)
    requires row.Row? ==> FirstRecord(rows).Some? && SameColumns(row.fields, FirstRecord(rows).value)
    ensures KeyVia(row, cols, Indices(rows, cols)) == KeyOf(row, cols)
  {
    if row.Row? {
      var idx := Indices(rows, cols);
      forall i | 0 <= i < |cols| ensures CellAt(row.fields, cols[i], idx[i]) == Named(row.fields, cols[i]) {
        SamePosition(row.fields, FirstRecord(rows).value, cols[i]);
      }
      FieldsAgree(row.fields, cols, idx);
    }
  }

  /** One key column and positions from anywhere: they agree for all positions exactly when the cells of that name are
      all the same. */
  lemma AgreeForAllPositionsIff(fields: seq<Field>, name: string)
    ensures (forall j: Index :: KeyVia(Row(fields), [name], [j]) == KeyOf(Row(fields), [name])) <==>
      (forall i, j :: 0 <= i < |fields| && 0 <= j < |fields| && fields[i].name == name && fields[j].name == name ==> fields[i].value == fields[j].value)
  {
    var row := Row(fields);
    forall j: Index ensures KeyVia(row, [name], [j]) == KeyOf(row, [name]) <==> CellAt(fields, name, j) == Named(fields, name) {
      OneColumn(fields, name, j);
    }
    var first := PositionOf(fields, name);
    if forall j: Index :: KeyVia(row, [name], [j]) == KeyOf(row, [name]) {
      forall j: Index | 0 <= j < |fields| && fields[j].name == name ensures Named(fields, name) == Some(fields[j].value) {
        assert KeyVia(row, [name], [j]) == KeyOf(row, [name]);
      }
    } else {
      var j: Index :| KeyVia(row, [name], [j]) != KeyOf(row, [name]);
      assert 0 <= j < |fields| && fields[j].name == name;
      NamedThere(fields, name, j);
      assert fields[first].value != fields[j].value;
    }
  }

  lemma OneColumn(fields: seq<Field>, name: string, j: Index)
    ensures KeyVia(Row(fields), [name], [j]) == KeyOf(Row(fields), [name]) <==> CellAt(fields, name, j) == Named(fields, name)
  {
    assert [name][1..] == [] && [j][1..] == [];
    assert FieldsVia(fields, [], []) == Some([]) && KeyFields(fields, []) == Some([]);
    var via, direct := CellAt(fields, name, j), Named(fields, name);
    assert via.Some? ==> [via.value] + [] == [via.value];
    assert direct.Some? ==> [direct.value] + [] == [direct.value];
    assert KeyVia(Row(fields), [name], [j]).Some? ==> via.Some? && KeyVia(Row(fields), [name], [j]).value[0] == via.value;
    if 0 <= j < |fields| && fields[j].name == name {
      NamedThere(fields, name, j);
    }
  }

  // ---------------------------------------------------------------------------------------------
  // The loops
  // ---------------------------------------------------------------------------------------------

  /** The keys of the rows that have one, in row order. */
  function KeysVia(rows: seq<Wire>, cols: seq<string>, idx: seq<Index>): seq<seq<Wire>>
    requires |idx| == |cols|
  {
    if rows == [] then []
    else
      var i := |rows| - 1;
      var key := KeyVia(rows[i], cols, idx);
      KeysVia(rows[..i], cols, idx) + if key.Some? then [key.value] else []
  }

  lemma KeysViaMore(rows: seq<Wire>, i: nat, cols: seq<string>, idx: seq<Index>)
    requires |idx| == |cols| && i < |rows|
    ensures KeysVia(rows[..i + 1], cols, idx) ==
      var key := KeyVia(rows[i], cols, idx); KeysVia(rows[..i], cols, idx) + if key.Some? then [key.value] else []
  {
    assert rows[..i + 1][..i] == rows[..i];
  }

  lemma FirstOfMore(keys: seq<seq<Wire>>, key: seq<Wire>)
    ensures FirstOfEach(keys + [key]) == if HasId(FirstOfEach(keys), IdOf(key)) then FirstOfEach(keys) else FirstOfEach(keys) + [key]
  {
    assert (keys + [key])[..|keys|] == keys;
  }

  lemma HasIdMore(keys: seq<seq<Wire>>, key: seq<Wire>, id: KeyId)
    ensures HasId(keys + [key], id) <==> HasId(keys, id) || id == IdOf(key)
  {
    var more := keys + [key];
    assert forall k :: 0 <= k < |keys| ==> keys[k] == more[k];
    assert IdOf(more[|keys|]) == IdOf(key);
  }

  predicate HasId(keys: seq<seq<Wire>>, id: KeyId) {
    exists k :: 0 <= k < |keys| && IdOf(keys[k]) == id
  }

  /** Each key where it comes first. */
  function FirstOfEach(keys: seq<seq<Wire>>): (r: seq<seq<Wire>>)
    ensures forall id :: HasId(r, id) <==> HasId(keys, id)
    ensures forall k :: 0 <= k < |r| ==> r[k] in keys
  {
    if keys == [] then []
    else
      var last := |keys| - 1;
      var sofar, key := FirstOfEach(keys[..last]), keys[last];
      var r := if HasId(keys[..last], IdOf(key)) then sofar else sofar + [key];
      assert keys == keys[..last] + [key];
      assert forall id :: HasId(r, id) <==> HasId(keys, id) by {
        forall id ensures HasId(r, id) <==> HasId(keys, id) {
          HasIdMore(keys[..last], key, id);
          HasIdMore(sofar, key, id);
        }
      }
      r
  }

  /** No key is kept twice. */
  lemma {:induction false} EachOnce(keys: seq<seq<Wire>>, i: nat, j: nat)
    requires i < j < |FirstOfEach(keys)|
    ensures IdOf(FirstOfEach(keys)[i]) != IdOf(FirstOfEach(keys)[j])
  {
    var before := keys[..|keys| - 1];
    if j < |FirstOfEach(before)| {
      EachOnce(before, i, j);
    } else {
      assert HasId(FirstOfEach(before), IdOf(FirstOfEach(before)[i]));
    }
  }

  ghost predicate SeenIn(seen: set<KeyId>, keys: seq<seq<Wire>>) {
    forall id :: id in seen <==> HasId(keys, id)
  }

  lemma SeenMore(seen: set<KeyId>, keys: seq<seq<Wire>>, key: seq<Wire>)
    requires SeenIn(seen, keys)
    ensures SeenIn(seen + {IdOf(key)}, keys + [key])
  {
    forall id ensures id in seen + {IdOf(key)} <==> HasId(keys + [key], id) {
      HasIdMore(keys, key, id);
    }
  }

  /** `dedupeKeyTuplesG`. */
  method DedupeKeyTuples(rows: seq<Wire>, cols: seq<string>) returns (out: seq<seq<Wire>>)
    ensures out == FirstOfEach(KeysVia(rows, cols, Indices(rows, cols)))
  {
    var idx := ResolveKeyIndices(rows, cols);
    var seen: set<KeyId> := {};
    out := [];
    for i := 0 to |rows|
      invariant out == FirstOfEach(KeysVia(rows[..i], cols, idx))
      invariant SeenIn(seen, out)
    {
      ghost var keys := KeysVia(rows[..i], cols, idx);
      KeysViaMore(rows, i, cols, idx);
      var cells := KeyCells(rows[i], cols, idx);
      if cells.None? {
        assert keys + [] == keys;
        continue;
      }
      seen, out := KeepFirst(seen, out, cells.value, keys);
    }
    assert rows[..|rows|] == rows;
  }

  /** A key noted where it comes first. */
  method KeepFirst(seen: set<KeyId>, out: seq<seq<Wire>>, cells: seq<Wire>, ghost keys: seq<seq<Wire>>)
    returns (seen': set<KeyId>, out': seq<seq<Wire>>)
    requires out == FirstOfEach(keys) && SeenIn(seen, out)
    ensures out' == FirstOfEach(keys + [cells]) && SeenIn(seen', out')
  {
    var id := IdentityOf(cells);
    FirstOfMore(keys, cells);
    if id in seen {
      return seen, out;
    }
    SeenMore(seen, out, cells);
    return seen + {id}, out + [cells];
  }

  /** The rows with that identity, in row order. */
  function Bucket(rows: seq<Wire>, cols: seq<string>, idx: seq<Index>, id: KeyId): seq<Wire>
    requires |idx| == |cols|
  {
    if rows == [] then []
    else
      var i := |rows| - 1;
      var key := KeyVia(rows[i], cols, idx);
      Bucket(rows[..i], cols, idx, id) + if key.Some? && IdOf(key.value) == id then [rows[i]] else []
  }

  function At(byKey: map<KeyId, seq<Wire>>, id: KeyId): seq<Wire> {
    if id in byKey then byKey[id] else []
  }

  ghost predicate AreBuckets(byKey: map<KeyId, seq<Wire>>, rows: seq<Wire>, cols: seq<string>, idx: seq<Index>)
    requires |idx| == |cols|
  {
    forall id :: At(byKey, id) == Bucket(rows, cols, idx, id)
  }

  lemma BucketsMore(byKey: map<KeyId, seq<Wire>>, rows: seq<Wire>, i: nat, cols: seq<string>, idx: seq<Index>)
    requires |idx| == |cols| && i < |rows| && AreBuckets(byKey, rows[..i], cols, idx)
    ensures
      var key := KeyVia(rows[i], cols, idx);
      AreBuckets(if key.None? then byKey else byKey[IdOf(key.value) := At(byKey, IdOf(key.value)) + [rows[i]]], rows[..i + 1], cols, idx)
  {
    var key := KeyVia(rows[i], cols, idx);
    var next := if key.None? then byKey else byKey[IdOf(key.value) := At(byKey, IdOf(key.value)) + [rows[i]]];
    assert rows[..i + 1][..i] == rows[..i];
    forall id ensures At(next, id) == Bucket(rows[..i + 1], cols, idx, id) {
      assert At(byKey, id) == Bucket(rows[..i], cols, idx, id);
      assert At(byKey, id) + [] == At(byKey, id);
    }
  }

  /** `groupByKeyG`. */
  method GroupByKey(children: seq<Wire>, fk: seq<string>) returns (byKey: map<KeyId, seq<Wire>>)
    ensures forall id :: At(byKey, id) == Bucket(children, fk, Indices(children, fk), id)
  {
    var idx := ResolveKeyIndices(children, fk);
    byKey := map[];
    for i := 0 to |children|
      invariant AreBuckets(byKey, children[..i], fk, idx)
    {
      BucketsMore(byKey, children, i, fk, idx);
      var cells := KeyCells(children[i], fk, idx);
      if cells.None? {
        continue;
      }
      var id := IdentityOf(cells.value);
      byKey := byKey[id := At(byKey, id) + [children[i]]];
    }
    assert children[..|children|] == children;
  }

  /** What is nested under a parent: the list, or the first child or null. */
  function Nest(children: seq<Wire>, single: bool): Wire {
    if !single then List(children) else if children != [] then children[0] else Null
  }

  /** `attachG`. */
  method Attach(parent: Wire, pk: seq<string>, pkIdx: seq<Index>, byKey: map<KeyId, seq<Wire>>, single: bool) returns (r: Wire)
    requires |pkIdx| == |pk|
    ensures var key := KeyVia(parent, pk, pkIdx); r == Nest(if key.Some? then At(byKey, IdOf(key.value)) else [], single)
  {
    var rows: seq<Wire> := [];
    var cells := KeyCells(parent, pk, pkIdx);
    if cells.Some? {
      var id := IdentityOf(cells.value);
      rows := At(byKey, id);
    }
    if !single {
      return List(rows);
    }
    return if |rows| > 0 then rows[0] else Null;
  }

  /** The field set: in its place when the name is there, at the end when it is not. */
  function SetField(fields: seq<Field>, name: string, v: Wire): seq<Field> {
    if fields == [] then [Field(name, v)]
    else if fields[0].name == name then [Field(name, v)] + fields[1..]
    else [fields[0]] + SetField(fields[1..], name, v)
  }

  function WithOwnKey(row: Wire, name: string, v: Wire): Wire {
    if row.Row? then Row(SetField(row.fields, name, v)) else row
  }

  lemma {:induction false} SetThere(fields: seq<Field>, name: string, v: Wire, i: nat)
    requires i <= |fields| && forall k :: 0 <= k < i ==> fields[k].name != name
    ensures i < |fields| && fields[i].name == name ==> SetField(fields, name, v) == fields[i := Field(name, v)]
    ensures i == |fields| ==> SetField(fields, name, v) == fields + [Field(name, v)]
  {
    if i > 0 {
      SetThere(fields[1..], name, v, i - 1);
    }
  }

  /** `withOwnKeyWire`. */
  method SetOwnKey(row: Wire, name: string, v: Wire) returns (r: Wire)
    requires row.Row?
    ensures r == WithOwnKey(row, name, v)
  {
    var fields := row.fields;
    for i := 0 to |fields|
      invariant forall k :: 0 <= k < i ==> fields[k].name != name
    {
      if fields[i].name == name {
        SetThere(fields, name, v, i);
        return Row(fields[i := Field(name, v)]);
      }
    }
    SetThere(fields, name, v, |fields|);
    return Row(fields + [Field(name, v)]);
  }

  /** A parent with its children, all keys read by position. */
  function GroupedOne(p: Wire, children: seq<Wire>, fk: seq<string>, into: string, pk: seq<string>, single: bool, pkIdx: seq<Index>): Wire
    requires |pkIdx| == |pk|
  {
    var key := KeyVia(p, pk, pkIdx);
    WithOwnKey(p, into, Nest(if key.Some? then Bucket(children, fk, Indices(children, fk), IdOf(key.value)) else [], single))
  }

  function Grouped(parents: seq<Wire>, children: seq<Wire>, fk: seq<string>, into: string, pk: seq<string>, single: bool, pkIdx: seq<Index>): (r: seq<Wire>)
    requires |pkIdx| == |pk|
    ensures |r| == |parents|
    ensures forall i :: 0 <= i < |r| ==> r[i] == GroupedOne(parents[i], children, fk, into, pk, single, pkIdx)
  {
    if parents == [] then []
    else [GroupedOne(parents[0], children, fk, into, pk, single, pkIdx)] + Grouped(parents[1..], children, fk, into, pk, single, pkIdx)
  }

  /** `GroupChildren`. */
  method GroupChildren(children: seq<Wire>, fk: seq<string>, into: string, parents: seq<Wire>, pk: seq<string>, single: bool)
    returns (r: seq<Wire>)
    ensures r == Grouped(parents, children, fk, into, pk, single, Indices(parents, pk))
  {
    var byKey := GroupByKey(children, fk);
    var pkIdx := ResolveKeyIndices(parents, pk);
    var out := new Wire[|parents|](_ => Null);
    for i := 0 to |parents|
      invariant forall k :: 0 <= k < i ==> out[k] == GroupedOne(parents[k], children, fk, into, pk, single, pkIdx)
    {
      if !parents[i].Row? {
        out[i] := parents[i];
        continue;
      }
      var nested := Attach(parents[i], pk, pkIdx, byKey, single);
      out[i] := SetOwnKey(parents[i], into, nested);
    }
    assert out[..] == Grouped(parents, children, fk, into, pk, single, pkIdx);
    return out[..];
  }

  function AsParam(tuple: seq<Wire>, width: nat): Wire {
    if width == 1 && |tuple| == 1 then tuple[0] else List(tuple)
  }

  function AsParams(tuples: seq<seq<Wire>>, width: nat): (r: seq<Wire>)
    ensures |r| == |tuples| && forall i :: 0 <= i < |r| ==> r[i] == AsParam(tuples[i], width)
  {
    if tuples == [] then [] else [AsParam(tuples[0], width)] + AsParams(tuples[1..], width)
  }

  function Plucked(rows: seq<Wire>, cols: seq<string>): seq<Wire> {
    AsParams(FirstOfEach(KeysVia(rows, cols, Indices(rows, cols))), |cols|)
  }

  lemma {:induction false} KeysAreWide(rows: seq<Wire>, cols: seq<string>, idx: seq<Index>)
    requires |idx| == |cols|
    ensures forall k <- KeysVia(rows, cols, idx) :: |k| == |cols|
  {
    if rows != [] {
      KeysAreWide(rows[..|rows| - 1], cols, idx);
    }
  }

  /** `PluckKeys`: single keys are sent as they are, wider ones as lists. */
  method PluckKeys(rows: seq<Wire>, cols: seq<string>) returns (r: seq<Wire>)
    ensures r == Plucked(rows, cols)
  {
    var tuples := DedupeKeyTuples(rows, cols);
    KeysAreWide(rows, cols, Indices(rows, cols));
    r := ToParams(tuples, |cols|);
  }

  method ToParams(tuples: seq<seq<Wire>>, width: nat) returns (r: seq<Wire>)
    requires forall t <- tuples :: |t| == width
    ensures r == AsParams(tuples, width)
  {
    var keys := new Wire[|tuples|](_ => Null);
    for i := 0 to |tuples|
      invariant forall k :: 0 <= k < i ==> keys[k] == AsParam(tuples[k], width)
    {
      if width == 1 {
        keys[i] := tuples[i][0];
        continue;
      }
      keys[i] := List(tuples[i]);
    }
    assert keys[..] == AsParams(tuples, width);
    return keys[..];
  }

  // ---------------------------------------------------------------------------------------------
  // The nested loop
  // ---------------------------------------------------------------------------------------------

  ghost predicate TuplesAgree(a: seq<Wire>, b: seq<Wire>) {
    |a| == |b| && forall i :: 0 <= i < |a| ==> Agree(a[i], b[i])
  }

  /** The child belongs to the parent: both have a key, and the keys agree column by column. */
  ghost predicate Belongs(p: Wire, pk: seq<string>, c: Wire, fk: seq<string>) {
    var a, b := KeyOf(p, pk), KeyOf(c, fk);
    a.Some? && b.Some? && TuplesAgree(a.value, b.value)
  }

  ghost function ChildrenOf(p: Wire, pk: seq<string>, rows: seq<Wire>, fk: seq<string>): (r: seq<Wire>)
    ensures forall c <- r :: c in rows
  {
    if rows == [] then []
    else
      var last := |rows| - 1;
      ChildrenOf(p, pk, rows[..last], fk) + if Belongs(p, pk, rows[last], fk) then [rows[last]] else []
  }

  /** The key columns occur once each, and the texts of a wide key have no NUL. */
  predicate WellKeyed(row: Wire, cols: seq<string>) {
    ColumnsOnce(row, cols) && var key := KeyOf(row, cols); key.Some? && |cols| > 2 ==> NulFree(key.value)
  }

  predicate AllWellKeyed(rows: seq<Wire>, cols: seq<string>) {
    forall i :: 0 <= i < |rows| ==> WellKeyed(rows[i], cols)
  }

  lemma {:induction false} BucketIsChildren(p: Wire, pk: seq<string>, rows: seq<Wire>, fk: seq<string>, idx: seq<Index>)
    requires |pk| == |fk| == |idx| && WellKeyed(p, pk) && AllWellKeyed(rows, fk)
    requires KeyOf(p, pk).Some?
    ensures Bucket(rows, fk, idx, IdOf(KeyOf(p, pk).value)) == ChildrenOf(p, pk, rows, fk)
  {
    if rows != [] {
      var last := |rows| - 1;
      BucketIsChildren(p, pk, rows[..last], fk, idx);
      PositionAgreesWithName(rows[last], fk, idx);
      var key := KeyOf(rows[last], fk);
      if key.Some? {
        SameKeyIff(KeyOf(p, pk).value, key.value);
      }
    }
  }

  lemma {:induction false} NoKeyNoChildren(p: Wire, pk: seq<string>, rows: seq<Wire>, fk: seq<string>)
    requires KeyOf(p, pk).None?
    ensures ChildrenOf(p, pk, rows, fk) == []
  {
    if rows != [] {
      NoKeyNoChildren(p, pk, rows[..|rows| - 1], fk);
    }
  }

  /** Grouping gives each parent exactly the children a nested loop gives it, in their order; the first of them or null
      for a single relation; and leaves what is no row alone. */
  lemma GroupIsNestedLoop(parents: seq<Wire>, children: seq<Wire>, fk: seq<string>, into: string, pk: seq<string>, single: bool, i: nat)
    requires |pk| == |fk| && AllWellKeyed(parents, pk) && AllWellKeyed(children, fk) && i < |parents|
    ensures Grouped(parents, children, fk, into, pk, single, Indices(parents, pk))[i] ==
      WithOwnKey(parents[i], into, Nest(ChildrenOf(parents[i], pk, children, fk), single))
  {
    var p := parents[i];
    PositionAgreesWithName(p, pk, Indices(parents, pk));
    if KeyOf(p, pk).Some? {
      BucketIsChildren(p, pk, children, fk, Indices(children, fk));
    } else {
      NoKeyNoChildren(p, pk, children, fk);
    }
  }

  // ---------------------------------------------------------------------------------------------
  // Trees
  // ---------------------------------------------------------------------------------------------

  /** A relation of a level: the table its children come from, in the order of the query, the rows that the database's
      own comparison lets through besides, the keys on both sides, and the relations of the children. */
  datatype Relation = Relation(table: seq<Wire>, loose: set<Wire>, pk: seq<string>, fk: seq<string>, into: string, single: bool, below: seq<Relation>)

  function TupleOf(param: Wire, width: nat): seq<Wire> {
    if width == 1 then [param] else if param.List? then param.items else []
  }

  ghost predicate Wanted(c: Wire, fk: seq<string>, params: seq<Wire>) {
    KeyOf(c, fk).Some? && exists k :: 0 <= k < |params| && TuplesAgree(TupleOf(params[k], |fk|), KeyOf(c, fk).value)
  }

  /** The child query of a level, for the keys it is sent. */
  ghost function Fetch(table: seq<Wire>, loose: set<Wire>, fk: seq<string>, params: seq<Wire>): (r: seq<Wire>)
    ensures forall c <- r :: c in table
  {
    if table == [] then []
    else
      var last := |table| - 1;
      Fetch(table[..last], loose, fk, params) + if Wanted(table[last], fk, params) || table[last] in loose then [table[last]] else []
  }

  /** The level by level load: keys and children of every relation are read from the rows as fetched; the children are
      completed first and then grouped. */
  ghost function Load(fetched: seq<Wire>, done: seq<Wire>, rels: seq<Relation>): (r: seq<Wire>)
    ensures |r| == |done|
    decreases rels
  {
    if rels == [] then done
    else
      var r := rels[0];
      var kids := Fetch(r.table, r.loose, r.fk, Plucked(fetched, r.pk));
      var full := Load(kids, kids, r.below);
      Load(fetched, Grouped(done, full, r.fk, r.into, r.pk, r.single, Indices(done, r.pk)), rels[1..])
  }

  /** What a row should become: for each relation the children that belong to it in the whole table, completed in the
      same way. */
  ghost function Nested(row: Wire, done: Wire, rels: seq<Relation>): Wire
    decreases rels, 0
  {
    if rels == [] then done
    else
      var r := rels[0];
      var kids := NestedAll(ChildrenOf(row, r.pk, r.table, r.fk), r.below);
      Nested(row, WithOwnKey(done, r.into, Nest(kids, r.single)), rels[1..])
  }

  ghost function NestedAll(rows: seq<Wire>, rels: seq<Relation>): (r: seq<Wire>)
    ensures |r| == |rows|
    ensures forall i :: 0 <= i < |r| ==> r[i] == Nested(rows[i], rows[i], rels)
    decreases rels, 1, |rows|
  {
    if rows == [] then []
    else NestedAll(rows[..|rows| - 1], rels) + [Nested(rows[|rows| - 1], rows[|rows| - 1], rels)]
  }

  /** No relation is nested under one of these columns. */
  predicate Keeps(rels: seq<Relation>, cols: seq<string>) {
    forall i :: 0 <= i < |rels| ==> rels[i].into !in cols
  }

  /** Keys of one width on both sides, rows with well-formed keys, and no relation nested under a column that is still to
      be read as a key. */
  predicate Sound(rels: seq<Relation>)
    decreases rels
  {
    rels == [] ||
    var r := rels[0];
    && |r.pk| == |r.fk|
    && AllWellKeyed(r.table, r.fk)
    && Keeps(r.below, r.fk)
    && RootsWell(r.table, r.below)
    && (forall i :: 1 <= i < |rels| ==> r.into !in rels[i].pk)
    && Sound(r.below)
    && Sound(rels[1..])
  }

  predicate RootsWell(rows: seq<Wire>, rels: seq<Relation>) {
    forall i :: 0 <= i < |rels| ==> AllWellKeyed(rows, rels[i].pk)
  }

  lemma {:induction false} SetKeeps(fields: seq<Field>, name: string, v: Wire, col: string)
    requires name != col
    ensures Named(SetField(fields, name, v), col) == Named(fields, col)
    ensures Once(fields, col) ==> Once(SetField(fields, name, v), col)
  {
    if fields != [] && fields[0].name != name {
      SetKeeps(fields[1..], name, v, col);
      var more := SetField(fields[1..], name, v);
      if Once(fields, col) {
        OnceTail(fields, col);
        NotNamed(fields[1..], col);
        NotNamed(more, col);
      }
    }
  }

  lemma OnceTail(fields: seq<Field>, col: string)
    requires fields != [] && Once(fields, col)
    ensures Once(fields[1..], col)
    ensures fields[0].name == col ==> forall i :: 0 <= i < |fields[1..]| ==> fields[1..][i].name != col
  {
    forall i, j | 0 <= i < |fields[1..]| && 0 <= j < |fields[1..]| && fields[1..][i].name == col && fields[1..][j].name == col
      ensures i == j
    {
      assert fields[i + 1] == fields[1..][i] && fields[j + 1] == fields[1..][j];
    }
    forall i | 0 <= i < |fields[1..]| && fields[0].name == col ensures fields[1..][i].name != col {
      assert fields[i + 1] == fields[1..][i];
    }
  }

  lemma {:induction false} NotNamed(fields: seq<Field>, col: string)
    ensures Named(fields, col).None? <==> forall i :: 0 <= i < |fields| ==> fields[i].name != col
  {
    if fields != [] {
      NotNamed(fields[1..], col);
    }
  }

  lemma {:induction false} SetKeepsKey(row: Wire, name: string, v: Wire, cols: seq<string>)
    requires name !in cols
    ensures KeyOf(WithOwnKey(row, name, v), cols) == KeyOf(row, cols)
    ensures ColumnsOnce(row, cols) ==> ColumnsOnce(WithOwnKey(row, name, v), cols)
  {
    if row.Row? {
      forall i | 0 <= i < |cols|
        ensures Named(SetField(row.fields, name, v), cols[i]) == Named(row.fields, cols[i])
        ensures Once(row.fields, cols[i]) ==> Once(SetField(row.fields, name, v), cols[i])
      {
        SetKeeps(row.fields, name, v, cols[i]);
      }
      SameNamed(SetField(row.fields, name, v), row.fields, cols);
    }
  }

  lemma {:induction false} SameNamed(a: seq<Field>, b: seq<Field>, cols: seq<string>)
    requires forall i :: 0 <= i < |cols| ==> Named(a, cols[i]) == Named(b, cols[i])
    ensures KeyFields(a, cols) == KeyFields(b, cols)
  {
    if cols != [] {
      SameNamed(a, b, cols[1..]);
    }
  }

  /** Completing a row leaves its keys alone. */
  lemma {:induction false} NestedKeepsKeys(row: Wire, done: Wire, rels: seq<Relation>, cols: seq<string>)
    requires Keeps(rels, cols)
    ensures KeyOf(Nested(row, done, rels), cols) == KeyOf(done, cols)
    ensures ColumnsOnce(done, cols) ==> ColumnsOnce(Nested(row, done, rels), cols)
    decreases rels
  {
    if rels != [] {
      var r := rels[0];
      var kids := NestedAll(ChildrenOf(row, r.pk, r.table, r.fk), r.below);
      SetKeepsKey(done, r.into, Nest(kids, r.single), cols);
      NestedKeepsKeys(row, WithOwnKey(done, r.into, Nest(kids, r.single)), rels[1..], cols);
    }
  }

  lemma CompletedWellKeyed(rows: seq<Wire>, rels: seq<Relation>, cols: seq<string>)
    requires Keeps(rels, cols) && AllWellKeyed(rows, cols)
    ensures AllWellKeyed(NestedAll(rows, rels), cols)
  {
    forall i | 0 <= i < |rows| ensures WellKeyed(NestedAll(rows, rels)[i], cols) {
      NestedKeepsKeys(rows[i], rows[i], rels, cols);
    }
  }

  lemma ChildrenOfMore(p: Wire, pk: seq<string>, rows: seq<Wire>, c: Wire, fk: seq<string>)
    ensures ChildrenOf(p, pk, rows + [c], fk) == ChildrenOf(p, pk, rows, fk) + if Belongs(p, pk, c, fk) then [c] else []
  {
    assert (rows + [c])[..|rows|] == rows;
  }

  lemma NestedAllMore(rows: seq<Wire>, c: Wire, rels: seq<Relation>)
    ensures NestedAll(rows + [c], rels) == NestedAll(rows, rels) + [Nested(c, c, rels)]
  {
    assert (rows + [c])[..|rows|] == rows;
  }

  /** Picking children and completing them can be swapped. */
  lemma {:induction false} ChildrenOfCompleted(p: Wire, pk: seq<string>, rows: seq<Wire>, fk: seq<string>, rels: seq<Relation>)
    requires Keeps(rels, fk)
    ensures ChildrenOf(p, pk, NestedAll(rows, rels), fk) == NestedAll(ChildrenOf(p, pk, rows, fk), rels)
  {
    if rows != [] {
      var init, last := rows[..|rows| - 1], rows[|rows| - 1];
      assert rows == init + [last];
      ChildrenOfCompleted(p, pk, init, fk, rels);
      CompletedMore(p, pk, init, last, fk, rels);
    }
  }

  lemma CompletedMore(p: Wire, pk: seq<string>, init: seq<Wire>, last: Wire, fk: seq<string>, rels: seq<Relation>)
    requires Keeps(rels, fk)
    requires ChildrenOf(p, pk, NestedAll(init, rels), fk) == NestedAll(ChildrenOf(p, pk, init, fk), rels)
    ensures ChildrenOf(p, pk, NestedAll(init + [last], rels), fk) == NestedAll(ChildrenOf(p, pk, init + [last], fk), rels)
  {
    var few, full := ChildrenOf(p, pk, init, fk), Nested(last, last, rels);
    NestedKeepsKeys(last, last, rels, fk);
    assert Belongs(p, pk, full, fk) <==> Belongs(p, pk, last, fk);
    NestedAllMore(init, last, rels);
    ChildrenOfMore(p, pk, init, last, fk);
    ChildrenOfMore(p, pk, NestedAll(init, rels), full, fk);
    if Belongs(p, pk, last, fk) {
      NestedAllMore(few, last, rels);
    } else {
      assert few + [] == few;
      assert ChildrenOf(p, pk, NestedAll(init, rels), fk) + [] == ChildrenOf(p, pk, NestedAll(init, rels), fk);
    }
  }

  lemma {:induction false} SameKeySameChildren(p: Wire, q: Wire, pk: seq<string>, rows: seq<Wire>, fk: seq<string>)
    requires KeyOf(p, pk) == KeyOf(q, pk)
    ensures ChildrenOf(p, pk, rows, fk) == ChildrenOf(q, pk, rows, fk)
  {
    if rows != [] {
      SameKeySameChildren(p, q, pk, rows[..|rows| - 1], fk);
    }
  }

  lemma {:induction false} KeysViaNames(rows: seq<Wire>, cols: seq<string>, idx: seq<Index>, i: nat)
    requires |idx| == |cols| && AllWellKeyed(rows, cols) && i < |rows| && KeyOf(rows[i], cols).Some?
    ensures KeyOf(rows[i], cols).value in KeysVia(rows, cols, idx)
  {
    var last := |rows| - 1;
    PositionAgreesWithName(rows[last], cols, idx);
    if i < last {
      KeysViaNames(rows[..last], cols, idx, i);
    }
  }

  lemma {:induction false} KeysViaFree(rows: seq<Wire>, cols: seq<string>, idx: seq<Index>)
    requires |idx| == |cols| && AllWellKeyed(rows, cols)
    ensures forall k <- KeysVia(rows, cols, idx) :: |k| == |cols| && (|cols| > 2 ==> NulFree(k))
  {
    if rows != [] {
      var last := |rows| - 1;
      PositionAgreesWithName(rows[last], cols, idx);
      KeysViaFree(rows[..last], cols, idx);
    }
  }

  ghost predicate SomeAgrees(keys: seq<seq<Wire>>, b: seq<Wire>) {
    exists k :: 0 <= k < |keys| && TuplesAgree(keys[k], b)
  }

  lemma FirstsSuffice(keys: seq<seq<Wire>>, a: seq<Wire>, b: seq<Wire>)
    requires a in keys && TuplesAgree(a, b)
    requires forall k <- keys :: |k| == |b| && (|b| > 2 ==> NulFree(k))
    requires |b| > 2 ==> NulFree(b)
    ensures SomeAgrees(FirstOfEach(keys), b)
  {
    var firsts := FirstOfEach(keys);
    var i :| 0 <= i < |keys| && keys[i] == a;
    assert HasId(keys, IdOf(a));
    assert HasId(firsts, IdOf(a));
    var k :| 0 <= k < |firsts| && IdOf(firsts[k]) == IdOf(a);
    assert firsts[k] in keys;
    SameKeyIff(a, b);
    SameKeyIff(firsts[k], b);
    assert TuplesAgree(firsts[k], b);
  }

  /** The query asks for every child that belongs to one of the rows. */
  lemma BelongingIsWanted(rows: seq<Wire>, pk: seq<string>, i: nat, c: Wire, fk: seq<string>)
    requires |pk| == |fk| && i < |rows| && AllWellKeyed(rows, pk) && WellKeyed(c, fk)
    requires Belongs(rows[i], pk, c, fk)
    ensures Wanted(c, fk, Plucked(rows, pk))
  {
    var idx := Indices(rows, pk);
    var keys := KeysVia(rows, pk, idx);
    var b := KeyOf(c, fk).value;
    KeysViaNames(rows, pk, idx, i);
    KeysViaFree(rows, pk, idx);
    FirstsSuffice(keys, KeyOf(rows[i], pk).value, b);
    AskedFor(FirstOfEach(keys), b);
  }

  lemma AskedFor(keys: seq<seq<Wire>>, b: seq<Wire>)
    requires SomeAgrees(keys, b)
    ensures exists k :: 0 <= k < |AsParams(keys, |b|)| && TuplesAgree(TupleOf(AsParams(keys, |b|)[k], |b|), b)
  {
    var k :| 0 <= k < |keys| && TuplesAgree(keys[k], b);
    assert TupleOf(AsParams(keys, |b|)[k], |b|) == keys[k] by {
      if |b| == 1 {
        assert keys[k] == [keys[k][0]];
      }
    }
  }

  /** What else is fetched does not matter. */
  lemma {:induction false} FetchIsEnough(rows: seq<Wire>, pk: seq<string>, i: nat, table: seq<Wire>, loose: set<Wire>, fk: seq<string>)
    requires |pk| == |fk| && i < |rows| && AllWellKeyed(rows, pk) && AllWellKeyed(table, fk)
    ensures ChildrenOf(rows[i], pk, Fetch(table, loose, fk, Plucked(rows, pk)), fk) == ChildrenOf(rows[i], pk, table, fk)
  {
    if table != [] {
      var init, last := table[..|table| - 1], table[|table| - 1];
      FetchIsEnough(rows, pk, i, init, loose, fk);
      var got := Fetch(init, loose, fk, Plucked(rows, pk));
      if Belongs(rows[i], pk, last, fk) {
        BelongingIsWanted(rows, pk, i, last, fk);
      }
      ChildrenOfMore(rows[i], pk, got, last, fk);
      assert got + [] == got;
      var few := ChildrenOf(rows[i], pk, got, fk);
      assert few + [] == few;
    }
  }

  /** Done so far: the row still has the keys it was fetched with. */
  predicate StillKeyed(fetched: seq<Wire>, done: seq<Wire>, rels: seq<Relation>) {
    |fetched| == |done| &&
    forall i, k :: 0 <= i < |done| && 0 <= k < |rels| ==>
      KeyOf(done[i], rels[k].pk) == KeyOf(fetched[i], rels[k].pk) && ColumnsOnce(done[i], rels[k].pk)
  }

  lemma StillWellKeyed(fetched: seq<Wire>, done: seq<Wire>, rels: seq<Relation>)
    requires rels != [] && StillKeyed(fetched, done, rels) && RootsWell(fetched, rels)
    ensures AllWellKeyed(done, rels[0].pk) && AllWellKeyed(fetched, rels[0].pk)
  {
    forall i | 0 <= i < |done| ensures WellKeyed(done[i], rels[0].pk) {
      assert WellKeyed(fetched[i], rels[0].pk);
    }
  }

  ghost predicate SetsOnly(row: Wire, name: string, r: Wire) {
    exists v :: r == WithOwnKey(row, name, v)
  }

  lemma GroupingKeepsKeys(fetched: seq<Wire>, done: seq<Wire>, rels: seq<Relation>, grouped: seq<Wire>)
    requires rels != [] && StillKeyed(fetched, done, rels) && |grouped| == |done|
    requires forall k :: 1 <= k < |rels| ==> rels[0].into !in rels[k].pk
    requires forall i :: 0 <= i < |done| ==> SetsOnly(done[i], rels[0].into, grouped[i])
    ensures StillKeyed(fetched, grouped, rels[1..])
  {
    forall i, k | 0 <= i < |done| && 0 <= k < |rels[1..]|
      ensures KeyOf(grouped[i], rels[1..][k].pk) == KeyOf(fetched[i], rels[1..][k].pk) && ColumnsOnce(grouped[i], rels[1..][k].pk)
    {
      var v :| grouped[i] == WithOwnKey(done[i], rels[0].into, v);
      assert rels[1..][k] == rels[k + 1];
      SetKeepsKey(done[i], rels[0].into, v, rels[k + 1].pk);
    }
  }

  /** One relation: what is grouped under each row are its completed children from the whole table. */
  lemma LevelIsNestedLoop(fetched: seq<Wire>, done: seq<Wire>, rels: seq<Relation>, full: seq<Wire>, i: nat)
    requires rels != [] && StillKeyed(fetched, done, rels) && RootsWell(fetched, rels) && Sound(rels) && i < |done|
    requires var r := rels[0]; full == NestedAll(Fetch(r.table, r.loose, r.fk, Plucked(fetched, r.pk)), r.below)
    ensures var r := rels[0];
      Grouped(done, full, r.fk, r.into, r.pk, r.single, Indices(done, r.pk))[i] ==
        WithOwnKey(done[i], r.into, Nest(NestedAll(ChildrenOf(fetched[i], r.pk, r.table, r.fk), r.below), r.single))
  {
    var r := rels[0];
    var kids := Fetch(r.table, r.loose, r.fk, Plucked(fetched, r.pk));
    StillWellKeyed(fetched, done, rels);
    assert AllWellKeyed(kids, r.fk) by {
      forall j | 0 <= j < |kids| ensures WellKeyed(kids[j], r.fk) {
        assert kids[j] in r.table;
      }
    }
    CompletedWellKeyed(kids, r.below, r.fk);
    GroupIsNestedLoop(done, full, r.fk, r.into, r.pk, r.single, i);
    SameKeySameChildren(done[i], fetched[i], r.pk, full, r.fk);
    ChildrenOfCompleted(fetched[i], r.pk, kids, r.fk, r.below);
    FetchIsEnough(fetched, r.pk, i, r.table, r.loose, r.fk);
  }

  /** The rows that are fetched can be asked for their own relations. */
  lemma KidsWell(r: Relation, fetched: seq<Wire>)
    requires RootsWell(r.table, r.below)
    ensures RootsWell(Fetch(r.table, r.loose, r.fk, Plucked(fetched, r.pk)), r.below)
  {
    var kids := Fetch(r.table, r.loose, r.fk, Plucked(fetched, r.pk));
    forall k, j | 0 <= k < |r.below| && 0 <= j < |kids| ensures WellKeyed(kids[j], r.below[k].pk) {
      assert kids[j] in r.table;
    }
  }

  /** One relation, for all rows: they are nested, and keep the keys of the relations to come. */
  lemma LevelIsDone(fetched: seq<Wire>, done: seq<Wire>, rels: seq<Relation>, full: seq<Wire>, grouped: seq<Wire>)
    requires rels != [] && StillKeyed(fetched, done, rels) && RootsWell(fetched, rels) && Sound(rels)
    requires var r := rels[0];
      && full == NestedAll(Fetch(r.table, r.loose, r.fk, Plucked(fetched, r.pk)), r.below)
      && grouped == Grouped(done, full, r.fk, r.into, r.pk, r.single, Indices(done, r.pk))
    ensures |grouped| == |done| && StillKeyed(fetched, grouped, rels[1..]) && RootsWell(fetched, rels[1..])
    ensures var r := rels[0];
      forall i :: 0 <= i < |done| ==>
        grouped[i] == WithOwnKey(done[i], r.into, Nest(NestedAll(ChildrenOf(fetched[i], r.pk, r.table, r.fk), r.below), r.single))
  {
    var r := rels[0];
    forall i | 0 <= i < |done|
      ensures grouped[i] == WithOwnKey(done[i], r.into, Nest(NestedAll(ChildrenOf(fetched[i], r.pk, r.table, r.fk), r.below), r.single))
    {
      LevelIsNestedLoop(fetched, done, rels, full, i);
    }
    assert forall i :: 0 <= i < |done| ==> SetsOnly(done[i], r.into, grouped[i]);
    GroupingKeepsKeys(fetched, done, rels, grouped);
  }

  /** Whatever the depth, loading level by level gives what the nested loops give. */
  lemma {:induction false} LoadIsNested(fetched: seq<Wire>, done: seq<Wire>, rels: seq<Relation>)
    requires StillKeyed(fetched, done, rels) && RootsWell(fetched, rels) && Sound(rels)
    ensures forall i :: 0 <= i < |done| ==> Load(fetched, done, rels)[i] == Nested(fetched[i], done[i], rels)
    decreases rels
  {
    if rels != [] {
      var r := rels[0];
      var kids := Fetch(r.table, r.loose, r.fk, Plucked(fetched, r.pk));
      var full := Load(kids, kids, r.below);
      KidsWell(r, fetched);
      LoadIsNested(kids, kids, r.below);
      assert full == NestedAll(kids, r.below);
      var grouped := Grouped(done, full, r.fk, r.into, r.pk, r.single, Indices(done, r.pk));
      LevelIsDone(fetched, done, rels, full, grouped);
      LoadIsNested(fetched, grouped, rels[1..]);
    }
  }

  /** A tree of relations over the rows of a query: level by level it is loaded as by nested loops, each parent with
      exactly its children, in the order of their table. */
  lemma TreeIsNestedLoops(rows: seq<Wire>, rels: seq<Relation>)
    requires RootsWell(rows, rels) && Sound(rels)
    ensures Load(rows, rows, rels) == NestedAll(rows, rels)
  {
    forall i, k | 0 <= i < |rows| && 0 <= k < |rels| ensures ColumnsOnce(rows[i], rels[k].pk) {
      assert WellKeyed(rows[i], rels[k].pk);
    }
    LoadIsNested(rows, rows, rels);
  }

  // ---------------------------------------------------------------------------------------------
  // What is in the tree
  // ---------------------------------------------------------------------------------------------

  /** The value of a column that is there and is not null. */
  predicate HasValue(fields: seq<Field>, col: string, v: Wire) {
    v != Null && exists i :: 0 <= i < |fields| && fields[i] == Field(col, v) && forall j :: 0 <= j < i ==> fields[j].name != col
  }

  lemma {:induction false} NamedIsFirst(fields: seq<Field>, col: string, v: Wire)
    requires v != Null
    ensures HasValue(fields, col, v) <==> Named(fields, col) == Some(v)
  {
    if fields != [] {
      NamedIsFirst(fields[1..], col, v);
      if fields[0].name != col {
        if HasValue(fields[1..], col, v) {
          var i :| 0 <= i < |fields[1..]| && fields[1..][i] == Field(col, v) && forall j :: 0 <= j < i ==> fields[1..][j].name != col;
          assert fields[i + 1] == Field(col, v);
          assert forall j :: 0 <= j < i + 1 ==> fields[j].name != col;
        }
        if HasValue(fields, col, v) {
          var i :| 0 <= i < |fields| && fields[i] == Field(col, v) && forall j :: 0 <= j < i ==> fields[j].name != col;
          assert fields[1..][i - 1] == Field(col, v);
          assert forall j :: 0 <= j < i - 1 ==> fields[1..][j].name != col;
        }
      } else if fields[0].value == v {
        assert fields[0] == Field(col, v);
      }
    }
  }

  /** A row's key is made of the values of its columns, in their order, and there is one exactly if none is absent or null. */
  lemma {:induction false} KeyIs(fields: seq<Field>, cols: seq<string>, key: seq<Wire>)
    ensures KeyOf(Row(fields), cols) == Some(key) <==> |key| == |cols| && forall i :: 0 <= i < |cols| ==> HasValue(fields, cols[i], key[i])
  {
    if |key| == |cols| && cols != [] {
      KeyIs(fields, cols[1..], key[1..]);
      if key[0] != Null {
        NamedIsFirst(fields, cols[0], key[0]);
      }
      assert key == [key[0]] + key[1..];
      assert (forall i :: 0 <= i < |cols| ==> HasValue(fields, cols[i], key[i])) <==>
        HasValue(fields, cols[0], key[0]) && forall i :: 0 <= i < |cols[1..]| ==> HasValue(fields, cols[1..][i], key[1..][i]);
    }
  }

  /** What stands in a parent's field: all its children, or with a single relation the first of them, or null. */
  predicate IsNest(v: Wire, children: seq<Wire>, single: bool) {
    if single then (if |children| == 0 then v == Null else v == children[0]) else v == List(children)
  }

  lemma {:induction false} SetIsThere(fields: seq<Field>, name: string, v: Wire)
    ensures Named(SetField(fields, name, v), name) == Some(v)
  {
    if fields != [] && fields[0].name != name {
      SetIsThere(fields[1..], name, v);
    }
  }

  /** Columns under which nothing is nested are left as they are. */
  lemma {:induction false} NestedOthers(row: Wire, done: Wire, rels: seq<Relation>, name: string)
    requires done.Row? && forall j :: 0 <= j < |rels| ==> rels[j].into != name
    ensures Nested(row, done, rels).Row? && Named(Nested(row, done, rels).fields, name) == Named(done.fields, name)
    decreases |rels|
  {
    if rels != [] {
      var r := rels[0];
      var next := Nest(NestedAll(ChildrenOf(row, r.pk, r.table, r.fk), r.below), r.single);
      SetKeeps(done.fields, r.into, next, name);
      NestedOthers(row, WithOwnKey(done, r.into, next), rels[1..], name);
    }
  }

  /** Every relation stands in its own field: the children from the whole table that belong to the row, in order, each completed in
      the same way. */
  lemma {:induction false} NestedHolds(row: Wire, done: Wire, rels: seq<Relation>, k: nat)
    requires done.Row? && k < |rels| && forall j :: k < j < |rels| ==> rels[j].into != rels[k].into
    ensures
      var r, nested := rels[k], Nested(row, done, rels);
      && nested.Row? && Named(nested.fields, r.into).Some?
      && IsNest(Named(nested.fields, r.into).value, NestedAll(ChildrenOf(row, r.pk, r.table, r.fk), r.below), r.single)
    decreases |rels|
  {
    var r := rels[0];
    var next := Nest(NestedAll(ChildrenOf(row, r.pk, r.table, r.fk), r.below), r.single);
    if k == 0 {
      SetIsThere(done.fields, r.into, next);
      NestedOthers(row, WithOwnKey(done, r.into, next), rels[1..], r.into);
    } else {
      NestedHolds(row, WithOwnKey(done, r.into, next), rels[1..], k - 1);
    }
  }
}
