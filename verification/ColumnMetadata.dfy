/** Decorator metadata of a forest of classes: copied from what a class inherits on its first registration. */
module ColumnMetadata {
  import opened Sequences

  datatype Entry = Entry(property: string, meta: int)

  /** A column map, where a property is set again in its place, or a relation list, which only grows. */
  datatype Kind = Columns | Relations

  function SetEntry(entries: seq<Entry>, e: Entry): seq<Entry> {
    if entries == [] then [e]
    else if entries[0].property == e.property then [e] + entries[1..]
    else [entries[0]] + SetEntry(entries[1..], e)
  }

  function Add(kind: Kind, entries: seq<Entry>, e: Entry): seq<Entry> {
    if kind.Columns? then SetEntry(entries, e) else entries + [e]
  }

  // ---------------------------------------------------------------------------------------------
  // As values
  // ---------------------------------------------------------------------------------------------

  /** For each class its base, an earlier class or -1, and its own metadata if it has some. */
  datatype State = State(kind: Kind, bases: seq<int>, own: seq<Option<seq<Entry>>>)

  predicate IsForest(bases: seq<int>) {
    forall c :: 0 <= c < |bases| ==> -1 <= bases[c] < c
  }

  predicate WellFormed(s: State) {
    |s.own| == |s.bases| && IsForest(s.bases)
  }

  /** What a class sees: its own metadata or else its base's. */
  function Effective(s: State, c: nat): seq<Entry>
    requires WellFormed(s) && c < |s.bases|
  {
    if s.own[c].Some? then s.own[c].value
    else if s.bases[c] == -1 then []
    else Effective(s, s.bases[c])
  }

  function Registered(s: State, c: nat, e: Entry): (r: State)
    requires WellFormed(s) && c < |s.bases|
    ensures WellFormed(r)
  {
    s.(own := s.own[c := Some(Add(s.kind, Effective(s, c), e))])
  }

  datatype Registration = Registration(owner: nat, entry: Entry)

  predicate Owned(ops: seq<Registration>, n: nat) {
    forall i :: 0 <= i < |ops| ==> ops[i].owner < n
  }

  /** Classes that were just declared. */
  function Declared(kind: Kind, bases: seq<int>): (s: State)
    ensures |s.own| == |bases| && forall c :: 0 <= c < |bases| ==> s.own[c].None?
  {
    State(kind, bases, Nothings(|bases|))
  }

  function Nothings(n: nat): (r: seq<Option<seq<Entry>>>)
    ensures |r| == n && forall i :: 0 <= i < n ==> r[i].None?
  {
    if n == 0 then [] else Nothings(n - 1) + [None]
  }

  /** After these registrations in this order. */
  function Run(kind: Kind, bases: seq<int>, ops: seq<Registration>): (s: State)
    requires IsForest(bases) && Owned(ops, |bases|)
    ensures WellFormed(s) && s.kind == kind && s.bases == bases
  {
    if ops == [] then Declared(kind, bases)
    else
      var op := ops[|ops| - 1];
      Registered(Run(kind, bases, ops[..|ops| - 1]), op.owner, op.entry)
  }

  // ---------------------------------------------------------------------------------------------
  // In the heap
  // ---------------------------------------------------------------------------------------------

  class Table {
    var entries: seq<Entry>

    constructor (from: seq<Entry>)
      ensures entries == from
    {
      entries := from;
    }

    method Put(kind: Kind, e: Entry)
      modifies this
      ensures entries == Add(kind, old(entries), e)
    {
      if kind.Relations? {
        entries := entries + [e];
        return;
      }
      for i := 0 to |entries|
        invariant entries == old(entries)
        invariant forall k :: 0 <= k < i ==> entries[k].property != e.property
      {
        if entries[i].property == e.property {
          SetThere(entries, e, i);
          entries := entries[i := e];
          return;
        }
      }
      SetThere(entries, e, |entries|);
      entries := entries + [e];
    }
  }

  lemma {:induction false} SetThere(entries: seq<Entry>, e: Entry, i: nat)
    requires i <= |entries| && forall k :: 0 <= k < i ==> entries[k].property != e.property
    ensures i < |entries| && entries[i].property == e.property ==> SetEntry(entries, e) == entries[i := e]
    ensures i == |entries| ==> SetEntry(entries, e) == entries + [e]
  {
    if i > 0 {
      SetThere(entries[1..], e, i - 1);
    }
  }

  /** The metadata of one key, by class. */
  class Registry {
    const kind: Kind
    var bases: seq<int>
    var tables: seq<Table?>

    /** No two classes share a table. */
    ghost predicate Valid()
      reads this
    {
      |tables| == |bases| && IsForest(bases) &&
      forall i, j :: 0 <= i < j < |tables| && tables[i] != null ==> tables[i] != tables[j]
    }

    ghost function Own(n: nat): (r: seq<Option<seq<Entry>>>)
      requires n <= |tables|
      reads this, tables
      ensures |r| == n && forall c :: 0 <= c < n ==> r[c] == if tables[c] == null then None else Some(tables[c].entries)
    {
      if n == 0 then [] else Own(n - 1) + [if tables[n - 1] == null then None else Some(tables[n - 1].entries)]
    }

    ghost function View(): (s: State)
      requires Valid()
      reads this, tables
      ensures WellFormed(s) && s.kind == kind && s.bases == bases
    {
      State(kind, bases, Own(|tables|))
    }

    constructor (k: Kind)
      ensures Valid() && kind == k && View() == Declared(k, [])
    {
      kind := k;
      bases := [];
      tables := [];
    }

    /** A class declaration. */
    method Declare(base: int) returns (c: nat)
      requires Valid() && -1 <= base < |bases|
      modifies this
      ensures Valid() && c == old(|bases|)
      ensures View() == old(State(kind, bases + [base], View().own + [None]))
    {
      c := |bases|;
      bases := bases + [base];
      tables := tables + [null];
      assert View().own == old(View().own) + [None];
    }

    /** `Reflect.getMetadata`: the class's own table or the nearest base's. */
    method Inherited(c: nat) returns (t: Table?)
      requires Valid() && c < |bases|
      ensures t == null ==> Effective(View(), c) == []
      ensures t != null ==> t in tables && t.entries == Effective(View(), c)
    {
      var i: int := c;
      while i != -1
        invariant -1 <= i < |bases|
        invariant Effective(View(), c) == if i == -1 then [] else Effective(View(), i)
        decreases i
      {
        if tables[i] != null {
          return tables[i];
        }
        i := bases[i];
      }
      return null;
    }

    /** `legacyColumnMap`, `standardColumnMap` and their relation twins: the class's own table, copied from the inherited
        one when it has none. */
    method TableFor(c: nat) returns (t: Table)
      requires Valid() && c < |bases|
      modifies this
      ensures Valid() && bases == old(bases) && tables == old(tables)[c := t]
      ensures if old(tables[c]) == null then fresh(t) else t == old(tables[c])
      ensures t.entries == old(Effective(View(), c))
    {
      if tables[c] != null {
        t := tables[c];
        return;
      }
      var inherited := Inherited(c);
      t := new Table(if inherited != null then inherited.entries else []);
      tables := tables[c := t];
    }

    /** `registerColumn` into the class's table: the whole state is what the registration makes of it, so no other class's
        own table changes. */
    method Register(c: nat, e: Entry)
      requires Valid() && c < |bases|
      modifies this, tables
      ensures Valid() && bases == old(bases)
      ensures View() == Registered(old(View()), c, e)
      ensures forall i :: 0 <= i < |tables| && i != c ==> tables[i] == old(tables[i])
      ensures tables[c] != null && (old(tables[c]) == null ==> fresh(tables[c]))
      ensures old(tables[c]) != null ==> tables[c] == old(tables[c])
    {
      var t := TableFor(c);
      t.Put(kind, e);
      assert View().own == Registered(old(View()), c, e).own;
    }

    /** Registrations one after the other. */
    method RegisterAll(ops: seq<Registration>)
      requires Valid() && Owned(ops, |bases|) && forall c :: 0 <= c < |tables| ==> tables[c] == null
      modifies this
      ensures Valid() && bases == old(bases)
      ensures View() == Run(kind, bases, ops)
    {
      assert View().own == Declared(kind, bases).own;
      for n := 0 to |ops|
        invariant Valid() && bases == old(bases)
        invariant forall i :: 0 <= i < |tables| && tables[i] != null ==> fresh(tables[i])
        invariant View() == Run(kind, bases, ops[..n])
      {
        assert ops[..n + 1][..n] == ops[..n];
        Register(ops[n].owner, ops[n].entry);
      }
      assert ops[..|ops|] == ops;
    }
  }

  // ---------------------------------------------------------------------------------------------
  // Properties
  // ---------------------------------------------------------------------------------------------

  /** a is c or one of its bases. */
  predicate IsAncestor(bases: seq<int>, a: nat, c: nat)
    requires IsForest(bases) && c < |bases|
  {
    a == c || (bases[c] != -1 && IsAncestor(bases, a, bases[c]))
  }

  /** A registration changes what a class sees only if the class is its owner, or inherits from it and has no metadata of
      its own; bases and siblings never see it. */
  lemma {:induction false} RegistrationIsLocal(s: State, d: nat, e: Entry, c: nat)
    requires WellFormed(s) && d < |s.bases| && c < |s.bases|
    requires c != d && (s.own[c].Some? || !IsAncestor(s.bases, d, c))
    ensures Effective(Registered(s, d, e), c) == Effective(s, c)
  {
    if s.own[c].None? && s.bases[c] != -1 {
      RegistrationIsLocal(s, d, e, s.bases[c]);
    }
  }

  /** The entries registered on a class, in order. */
  function OwnEntries(ops: seq<Registration>, c: nat): seq<Entry> {
    if ops == [] then []
    else
      var op := ops[|ops| - 1];
      OwnEntries(ops[..|ops| - 1], c) + if op.owner == c then [op.entry] else []
  }

  function Overlay(kind: Kind, entries: seq<Entry>, over: seq<Entry>): seq<Entry> {
    if over == [] then entries else Add(kind, Overlay(kind, entries, over[..|over| - 1]), over[|over| - 1])
  }

  /** What a class should see: what its base should, overlaid with its own registrations. */
  function Expected(kind: Kind, bases: seq<int>, ops: seq<Registration>, c: nat): seq<Entry>
    requires IsForest(bases) && c < |bases|
    decreases c
  {
    Overlay(kind, if bases[c] == -1 then [] else Expected(kind, bases, ops, bases[c]), OwnEntries(ops, c))
  }

  /** The registrations of a class come before those of the classes that inherit from it. */
  predicate BasesFirst(bases: seq<int>, ops: seq<Registration>)
    requires IsForest(bases) && Owned(ops, |bases|)
  {
    forall i, j :: 0 <= i < j < |ops| && IsAncestor(bases, ops[j].owner, ops[i].owner) ==> ops[j].owner == ops[i].owner
  }

  lemma {:induction false} OwnIffRegistered(kind: Kind, bases: seq<int>, ops: seq<Registration>, c: nat)
    requires IsForest(bases) && Owned(ops, |bases|) && c < |bases|
    ensures Run(kind, bases, ops).own[c].Some? <==> OwnEntries(ops, c) != []
  {
    if ops != [] {
      OwnIffRegistered(kind, bases, ops[..|ops| - 1], c);
    }
  }

  lemma {:induction false} OwnsSomeRegistration(ops: seq<Registration>, c: nat)
    ensures OwnEntries(ops, c) != [] <==> exists i :: 0 <= i < |ops| && ops[i].owner == c
  {
    if ops != [] {
      var init := ops[..|ops| - 1];
      OwnsSomeRegistration(init, c);
      assert forall i :: 0 <= i < |init| ==> init[i] == ops[i];
    }
  }

  lemma {:induction false} ExpectedUnaffected(kind: Kind, bases: seq<int>, ops: seq<Registration>, op: Registration, c: nat)
    requires IsForest(bases) && c < |bases| && !IsAncestor(bases, op.owner, c)
    ensures Expected(kind, bases, ops + [op], c) == Expected(kind, bases, ops, c)
    decreases c
  {
    assert (ops + [op])[..|ops|] == ops;
    assert OwnEntries(ops, c) + [] == OwnEntries(ops, c);
    if bases[c] != -1 {
      ExpectedUnaffected(kind, bases, ops, op, bases[c]);
    }
  }

  lemma {:induction false} NotItsOwnBase(bases: seq<int>, c: nat, d: nat)
    requires IsForest(bases) && d < c < |bases|
    ensures !IsAncestor(bases, c, d)
  {
    if bases[d] != -1 {
      NotItsOwnBase(bases, c, bases[d]);
    }
  }

  lemma ExpectedOwner(kind: Kind, bases: seq<int>, ops: seq<Registration>, op: Registration)
    requires IsForest(bases) && op.owner < |bases|
    ensures Expected(kind, bases, ops + [op], op.owner) == Add(kind, Expected(kind, bases, ops, op.owner), op.entry)
  {
    var c := op.owner;
    assert (ops + [op])[..|ops|] == ops;
    var over := OwnEntries(ops, c);
    assert OwnEntries(ops + [op], c) == over + [op.entry];
    assert (over + [op.entry])[..|over|] == over;
    if bases[c] != -1 {
      NotItsOwnBase(bases, c, bases[c]);
      ExpectedUnaffected(kind, bases, ops, op, bases[c]);
    }
  }

  /** One more registration. */
  lemma {:induction false} OneMore(kind: Kind, bases: seq<int>, ops: seq<Registration>, op: Registration, c: nat)
    requires IsForest(bases) && Owned(ops + [op], |bases|) && Owned(ops, |bases|) && c < |bases| && op.owner < |bases|
    requires BasesFirst(bases, ops + [op])
    requires forall k :: 0 <= k < |bases| ==> Effective(Run(kind, bases, ops), k) == Expected(kind, bases, ops, k)
    ensures Effective(Registered(Run(kind, bases, ops), op.owner, op.entry), c) == Expected(kind, bases, ops + [op], c)
    decreases c
  {
    var s := Run(kind, bases, ops);
    OwnIffRegistered(kind, bases, ops, c);
    OwnsSomeRegistration(ops, c);
    if c == op.owner {
      ExpectedOwner(kind, bases, ops, op);
    } else if s.own[c].Some? {
      var i :| 0 <= i < |ops| && ops[i].owner == c;
      assert (ops + [op])[i] == ops[i] && (ops + [op])[|ops|] == op;
      ExpectedUnaffected(kind, bases, ops, op, c);
    } else {
      assert (ops + [op])[..|ops|] == ops;
      assert OwnEntries(ops + [op], c) == [];
      if bases[c] != -1 {
        OneMore(kind, bases, ops, op, bases[c]);
      }
    }
  }

  /** Whatever the forest and the order of registrations, as long as bases come before the classes that inherit from them,
      every class sees what it inherits overlaid with its own registrations. */
  lemma {:induction false} SeesInheritedAndOwn(kind: Kind, bases: seq<int>, ops: seq<Registration>, c: nat)
    requires IsForest(bases) && Owned(ops, |bases|) && BasesFirst(bases, ops) && c < |bases|
    ensures Effective(Run(kind, bases, ops), c) == Expected(kind, bases, ops, c)
    decreases |ops|, c
  {
    if ops == [] {
      if bases[c] != -1 {
        SeesInheritedAndOwn(kind, bases, ops, bases[c]);
      }
    } else {
      var init, op := ops[..|ops| - 1], ops[|ops| - 1];
      assert ops == init + [op];
      assert forall i :: 0 <= i < |init| ==> init[i] == ops[i];
      forall k | 0 <= k < |bases| ensures Effective(Run(kind, bases, init), k) == Expected(kind, bases, init, k) {
        SeesInheritedAndOwn(kind, bases, init, k);
      }
      OneMore(kind, bases, init, op, c);
    }
  }

  // ---------------------------------------------------------------------------------------------
  // Every order of registrations
  // ---------------------------------------------------------------------------------------------

  /** When among the first n a class registers for the first time; n if it does not. */
  function FirstAmong(ops: seq<Registration>, c: nat, n: nat): (r: nat)
    requires n <= |ops|
    ensures r <= n && (r < n ==> ops[r].owner == c) && forall i :: 0 <= i < r ==> ops[i].owner != c
  {
    if n == 0 then 0
    else
      var r := FirstAmong(ops, c, n - 1);
      if r < n - 1 || ops[n - 1].owner == c then r else n
  }

  /** When a class registers for the first time, or the number of registrations if it never does. */
  function FirstOwn(ops: seq<Registration>, c: nat): (n: nat)
    ensures n <= |ops|
    ensures n < |ops| ==> ops[n].owner == c
    ensures forall i :: 0 <= i < n ==> ops[i].owner != c
  {
    FirstAmong(ops, c, |ops|)
  }

  /** What a class sees of its base: what the base saw when the class first registered. */
  function Sees(kind: Kind, bases: seq<int>, ops: seq<Registration>, c: nat): seq<Entry>
    requires IsForest(bases) && c < |bases|
    decreases c
  {
    Overlay(kind, if bases[c] == -1 then [] else Sees(kind, bases, ops[..FirstOwn(ops, c)], bases[c]), OwnEntries(ops, c))
  }

  lemma {:induction false} NeverOwned(ops: seq<Registration>, c: nat)
    ensures OwnEntries(ops, c) == [] <==> FirstOwn(ops, c) == |ops|
  {
    if ops != [] {
      NeverOwned(ops[..|ops| - 1], c);
    }
  }

  lemma {:induction false} FirstOwnNext(ops: seq<Registration>, op: Registration, c: nat)
    requires FirstOwn(ops, c) < |ops| || op.owner == c
    ensures FirstOwn(ops + [op], c) == FirstOwn(ops, c) && (ops + [op])[..FirstOwn(ops, c)] == ops[..FirstOwn(ops, c)]
  {
    assert (ops + [op])[..|ops|] == ops;
  }

  lemma SeesNext(kind: Kind, bases: seq<int>, ops: seq<Registration>, op: Registration, c: nat)
    requires IsForest(bases) && c < |bases| && (FirstOwn(ops, c) < |ops| || op.owner == c)
    ensures Sees(kind, bases, ops + [op], c) == if op.owner == c then Add(kind, Sees(kind, bases, ops, c), op.entry) else Sees(kind, bases, ops, c)
  {
    FirstOwnNext(ops, op, c);
    assert (ops + [op])[..|ops|] == ops;
    var over := OwnEntries(ops, c);
    assert over + [] == over;
    assert (over + [op.entry])[..|over|] == over;
  }

  /** Whatever the forest and whatever the order of registrations, a class sees its own registrations over what its base saw
      when the class first registered. */
  lemma {:induction false} EveryOrder(kind: Kind, bases: seq<int>, ops: seq<Registration>, c: nat)
    requires IsForest(bases) && Owned(ops, |bases|) && c < |bases|
    ensures Effective(Run(kind, bases, ops), c) == Sees(kind, bases, ops, c)
    decreases |ops|, c
  {
    OwnIffRegistered(kind, bases, ops, c);
    NeverOwned(ops, c);
    if OwnEntries(ops, c) == [] {
      assert ops[..|ops|] == ops;
      if bases[c] != -1 {
        EveryOrder(kind, bases, ops, bases[c]);
      }
    } else {
      var init, op := ops[..|ops| - 1], ops[|ops| - 1];
      assert ops == init + [op];
      EveryOrder(kind, bases, init, c);
      OwnIffRegistered(kind, bases, init, c);
      NeverOwned(init, c);
      SeesNext(kind, bases, init, op, c);
    }
  }

  /** The registration is of the class or a base of it, and no class between registered earlier. */
  predicate Reaches(bases: seq<int>, ops: seq<Registration>, i: nat, c: nat)
    requires IsForest(bases) && Owned(ops, |bases|) && i < |ops| && c < |bases|
  {
    IsAncestor(bases, ops[i].owner, c) &&
    forall j :: 0 <= j < i && ops[j].owner != ops[i].owner ==> !(IsAncestor(bases, ops[i].owner, ops[j].owner) && IsAncestor(bases, ops[j].owner, c))
  }

  /** The entries have the property. */
  predicate Names(entries: seq<Entry>, property: string) {
    exists e :: e in entries && e.property == property
  }

  lemma {:induction false} NamesSet(entries: seq<Entry>, e: Entry, property: string)
    ensures Names(SetEntry(entries, e), property) <==> Names(entries, property) || e.property == property
  {
    if entries == [] {
      assert Names([e], property) <==> e.property == property by { assert e in [e]; }
    } else {
      NamesAppend([entries[0]], entries[1..], property);
      assert [entries[0]] + entries[1..] == entries;
      NamesAppend([e], entries[1..], property);
      NamesOne(e, property);
      NamesOne(entries[0], property);
      NamesAppend([entries[0]], SetEntry(entries[1..], e), property);
      NamesSet(entries[1..], e, property);
    }
  }

  lemma NamesOne(e: Entry, property: string)
    ensures Names([e], property) <==> e.property == property
  {
    assert e in [e];
  }

  lemma NamesAppend(a: seq<Entry>, b: seq<Entry>, property: string)
    ensures Names(a + b, property) <==> Names(a, property) || Names(b, property)
  {
    assert forall e :: e in a + b <==> e in a || e in b;
  }

  lemma {:induction false} NamesOverlay(kind: Kind, entries: seq<Entry>, over: seq<Entry>, property: string)
    ensures Names(Overlay(kind, entries, over), property) <==> Names(entries, property) || Names(over, property)
  {
    if over != [] {
      var init, e := over[..|over| - 1], over[|over| - 1];
      NamesOverlay(kind, entries, init, property);
      NamesSet(Overlay(kind, entries, init), e, property);
      NamesAppend(Overlay(kind, entries, init), [e], property);
      NamesAppend(init, [e], property);
      NamesOne(e, property);
      assert init + [e] == over;
    }
  }

  /** The property is registered on a class by one of the registrations. */
  predicate Registers(ops: seq<Registration>, c: nat, property: string) {
    exists i :: 0 <= i < |ops| && ops[i].owner == c && ops[i].entry.property == property
  }

  lemma {:induction false} OwnNames(ops: seq<Registration>, c: nat, property: string)
    ensures Names(OwnEntries(ops, c), property) <==> Registers(ops, c, property)
  {
    if ops != [] {
      var init, op := ops[..|ops| - 1], ops[|ops| - 1];
      OwnNames(init, c, property);
      NamesAppend(OwnEntries(init, c), if op.owner == c then [op.entry] else [], property);
      NamesOne(op.entry, property);
      assert forall i :: 0 <= i < |init| ==> init[i] == ops[i];
    }
  }

  lemma {:induction false} AncestorIsEarlier(bases: seq<int>, a: nat, c: nat)
    requires IsForest(bases) && c < |bases| && IsAncestor(bases, a, c)
    ensures a <= c
  {
    if a != c {
      AncestorIsEarlier(bases, a, bases[c]);
    }
  }

  lemma {:induction false} AncestorOfAncestor(bases: seq<int>, a: nat, b: nat, c: nat)
    requires IsForest(bases) && b < |bases| && c < |bases| && IsAncestor(bases, a, b) && IsAncestor(bases, b, c)
    ensures IsAncestor(bases, a, c)
  {
    if b != c {
      AncestorOfAncestor(bases, a, b, bases[c]);
    }
  }

  /** A class's own registrations all reach it. */
  lemma OwnReach(bases: seq<int>, ops: seq<Registration>, i: nat, c: nat)
    requires IsForest(bases) && Owned(ops, |bases|) && i < |ops| && c < |bases| && ops[i].owner == c
    ensures Reaches(bases, ops, i, c)
  {
    forall j | 0 <= j < i && IsAncestor(bases, c, ops[j].owner) && IsAncestor(bases, ops[j].owner, c) ensures ops[j].owner == c {
      AncestorIsEarlier(bases, c, ops[j].owner);
      AncestorIsEarlier(bases, ops[j].owner, c);
    }
  }

  /** A registration of another class reaches a class exactly when it came before the first of the class's own and reached
      its base. */
  lemma BaseReaches(bases: seq<int>, ops: seq<Registration>, i: nat, c: nat)
    requires IsForest(bases) && Owned(ops, |bases|) && i < |ops| && c < |bases| && ops[i].owner != c
    ensures Reaches(bases, ops, i, c) <==> bases[c] != -1 && i < FirstOwn(ops, c) && Reaches(bases, ops[..FirstOwn(ops, c)], i, bases[c])
  {
    var first, own := FirstOwn(ops, c), ops[i].owner;
    var before := ops[..first];
    if Reaches(bases, ops, i, c) {
      assert bases[c] != -1 && IsAncestor(bases, own, bases[c]);
      assert IsAncestor(bases, c, c);
      assert forall j :: 0 <= j < i ==> ops[j].owner != c;
      assert i < first && before[i] == ops[i];
    }
    if bases[c] != -1 && i < first && Reaches(bases, before, i, bases[c]) {
      assert before[i] == ops[i] && IsAncestor(bases, own, c);
      forall j | 0 <= j < i && ops[j].owner != own && IsAncestor(bases, own, ops[j].owner) ensures !IsAncestor(bases, ops[j].owner, c) {
        assert before[j] == ops[j];
      }
    }
  }

  /** Some registration of the property reaches the class. */
  predicate ReachedBy(bases: seq<int>, ops: seq<Registration>, c: nat, property: string)
    requires IsForest(bases) && Owned(ops, |bases|) && c < |bases|
  {
    exists i :: 0 <= i < |ops| && ops[i].entry.property == property && Reaches(bases, ops, i, c)
  }

  lemma ReachedByParts(bases: seq<int>, ops: seq<Registration>, c: nat, property: string)
    requires IsForest(bases) && Owned(ops, |bases|) && c < |bases|
    ensures ReachedBy(bases, ops, c, property) <==>
      Registers(ops, c, property) || (bases[c] != -1 && ReachedBy(bases, ops[..FirstOwn(ops, c)], bases[c], property))
  {
    var before := ops[..FirstOwn(ops, c)];
    forall i | 0 <= i < |ops| ensures ops[i].owner == c ==> Reaches(bases, ops, i, c) {
      if ops[i].owner == c {
        OwnReach(bases, ops, i, c);
      }
    }
    if ReachedBy(bases, ops, c, property) && !Registers(ops, c, property) {
      var i :| 0 <= i < |ops| && ops[i].entry.property == property && Reaches(bases, ops, i, c);
      BaseReaches(bases, ops, i, c);
      assert before[i] == ops[i];
    }
    if bases[c] != -1 && ReachedBy(bases, before, bases[c], property) {
      var i :| 0 <= i < |before| && before[i].entry.property == property && Reaches(bases, before, i, bases[c]);
      assert before[i] == ops[i] && ops[i].owner != c;
      BaseReaches(bases, ops, i, c);
    }
  }

  lemma {:induction false} SeesReached(kind: Kind, bases: seq<int>, ops: seq<Registration>, c: nat, property: string)
    requires IsForest(bases) && Owned(ops, |bases|) && c < |bases|
    ensures Names(Sees(kind, bases, ops, c), property) <==> ReachedBy(bases, ops, c, property)
    decreases c
  {
    var before := ops[..FirstOwn(ops, c)];
    NamesOverlay(kind, if bases[c] == -1 then [] else Sees(kind, bases, before, bases[c]), OwnEntries(ops, c), property);
    OwnNames(ops, c, property);
    ReachedByParts(bases, ops, c, property);
    if bases[c] != -1 {
      SeesReached(kind, bases, before, bases[c], property);
    }
  }

  /** Which registrations a class misses, in any order: a property is there exactly when it was registered on the class or on
      a base of it before any class between them, the class itself included, had registered anything. */
  lemma SeenIff(kind: Kind, bases: seq<int>, ops: seq<Registration>, c: nat, property: string)
    requires IsForest(bases) && Owned(ops, |bases|) && c < |bases|
    ensures Names(Effective(Run(kind, bases, ops), c), property) <==> ReachedBy(bases, ops, c, property)
  {
    EveryOrder(kind, bases, ops, c);
    SeesReached(kind, bases, ops, c, property);
  }

  /** No two registrations are of one property. */
  predicate OncePerProperty(ops: seq<Registration>) {
    forall i, j :: 0 <= i < j < |ops| ==> ops[i].entry.property != ops[j].entry.property
  }

  lemma {:induction false} ExpectedNames(kind: Kind, bases: seq<int>, ops: seq<Registration>, i: nat, c: nat)
    requires IsForest(bases) && Owned(ops, |bases|) && i < |ops| && c < |bases| && IsAncestor(bases, ops[i].owner, c)
    ensures Names(Expected(kind, bases, ops, c), ops[i].entry.property)
    decreases c
  {
    var property := ops[i].entry.property;
    NamesOverlay(kind, if bases[c] == -1 then [] else Expected(kind, bases, ops, bases[c]), OwnEntries(ops, c), property);
    OwnNames(ops, c, property);
    if ops[i].owner != c {
      ExpectedNames(kind, bases, ops, i, bases[c]);
    }
  }

  /** A registration after one of a class that inherits from its owner is missed by that class. */
  lemma LateBase(kind: Kind, bases: seq<int>, ops: seq<Registration>, i: nat, j: nat)
    requires IsForest(bases) && Owned(ops, |bases|) && OncePerProperty(ops)
    requires i < j < |ops| && IsAncestor(bases, ops[j].owner, ops[i].owner) && ops[j].owner != ops[i].owner
    ensures !Names(Effective(Run(kind, bases, ops), ops[i].owner), ops[j].entry.property)
  {
    var c, property := ops[i].owner, ops[j].entry.property;
    SeenIff(kind, bases, ops, c, property);
    forall k | 0 <= k < |ops| && ops[k].entry.property == property ensures !Reaches(bases, ops, k, c) {
      assert k == j && IsAncestor(bases, ops[i].owner, c);
    }
  }

  /** If no property is registered twice, every class sees what it inherits overlaid with its own registrations exactly when
      bases come before the classes that inherit from them. */
  lemma AllSeeAllIff(kind: Kind, bases: seq<int>, ops: seq<Registration>)
    requires IsForest(bases) && Owned(ops, |bases|) && OncePerProperty(ops)
    ensures (forall c :: 0 <= c < |bases| ==> Effective(Run(kind, bases, ops), c) == Expected(kind, bases, ops, c)) <==> BasesFirst(bases, ops)
  {
    if BasesFirst(bases, ops) {
      forall c | 0 <= c < |bases| ensures Effective(Run(kind, bases, ops), c) == Expected(kind, bases, ops, c) {
        SeesInheritedAndOwn(kind, bases, ops, c);
      }
    } else {
      var i, j :| 0 <= i < j < |ops| && IsAncestor(bases, ops[j].owner, ops[i].owner) && ops[j].owner != ops[i].owner;
      LateBase(kind, bases, ops, i, j);
      ExpectedNames(kind, bases, ops, j, ops[i].owner);
    }
  }

  // ---------------------------------------------------------------------------------------------
  // What metadata it sees
  // ---------------------------------------------------------------------------------------------

  /** The entries of those of the first n registrations that reach the class, in order. */
  function Reaching(bases: seq<int>, ops: seq<Registration>, c: nat, n: nat): seq<Entry>
    requires IsForest(bases) && Owned(ops, |bases|) && c < |bases| && n <= |ops|
  {
    if n == 0 then [] else Reaching(bases, ops, c, n - 1) + if Reaches(bases, ops, n - 1, c) then [ops[n - 1].entry] else []
  }

  /** Reaching depends on nothing later. */
  lemma {:induction false} ReachingPrefix(bases: seq<int>, ops: seq<Registration>, before: seq<Registration>, c: nat, n: nat)
    requires IsForest(bases) && Owned(ops, |bases|) && c < |bases| && n <= |before| && before <= ops
    ensures Owned(before, |bases|) && Reaching(bases, before, c, n) == Reaching(bases, ops, c, n)
  {
    assert forall i :: 0 <= i < |before| ==> before[i] == ops[i];
    if n > 0 {
      ReachingPrefix(bases, ops, before, c, n - 1);
      assert Reaches(bases, before, n - 1, c) <==> Reaches(bases, ops, n - 1, c);
    }
  }

  /** What reaches the class of its base's among the first n. */
  function Inherited(bases: seq<int>, before: seq<Registration>, c: nat, n: nat): seq<Entry>
    requires IsForest(bases) && Owned(before, |bases|) && c < |bases|
  {
    if bases[c] == -1 then [] else Reaching(bases, before, bases[c], if n < |before| then n else |before|)
  }

  /** The registrations before the first of the class's own. */
  predicate IsBefore(ops: seq<Registration>, c: nat, before: seq<Registration>) {
    before == ops[..FirstOwn(ops, c)]
  }

  lemma InheritedNext(bases: seq<int>, ops: seq<Registration>, before: seq<Registration>, c: nat, n: nat)
    requires IsForest(bases) && Owned(ops, |bases|) && Owned(before, |bases|) && IsBefore(ops, c, before) && c < |bases| && n < |ops| && ops[n].owner != c
    ensures Inherited(bases, before, c, n + 1) == Inherited(bases, before, c, n) + if Reaches(bases, ops, n, c) then [ops[n].entry] else []
  {
    BaseReaches(bases, ops, n, c);
    if n < FirstOwn(ops, c) {
      assert before[n] == ops[n];
    }
  }

  /** The class's own among the first n. */
  function OwnAmong(ops: seq<Registration>, c: nat, n: nat): seq<Entry>
    requires n <= |ops|
  {
    if n == 0 then [] else OwnAmong(ops, c, n - 1) + if ops[n - 1].owner == c then [ops[n - 1].entry] else []
  }

  lemma {:induction false} OwnAmongPrefix(ops: seq<Registration>, before: seq<Registration>, c: nat, n: nat)
    requires n <= |before| && before <= ops
    ensures OwnAmong(before, c, n) == OwnAmong(ops, c, n)
  {
    if n > 0 {
      OwnAmongPrefix(ops, before, c, n - 1);
    }
  }

  lemma {:induction false} OwnAmongAll(ops: seq<Registration>, c: nat)
    ensures OwnEntries(ops, c) == OwnAmong(ops, c, |ops|)
  {
    if ops != [] {
      var init := ops[..|ops| - 1];
      OwnAmongAll(init, c);
      OwnAmongPrefix(ops, init, c, |init|);
    }
  }

  lemma {:induction false} NoOwnBefore(ops: seq<Registration>, c: nat, n: nat)
    requires n <= |ops| && forall i :: 0 <= i < n ==> ops[i].owner != c
    ensures OwnAmong(ops, c, n) == []
    decreases n
  {
    if n > 0 {
      NoOwnBefore(ops, c, n - 1);
    }
  }

  /** One more registration of the class itself. */
  lemma ReachingOwn(bases: seq<int>, ops: seq<Registration>, before: seq<Registration>, c: nat, n: nat)
    requires IsForest(bases) && Owned(ops, |bases|) && Owned(before, |bases|) && IsBefore(ops, c, before) && c < |bases| && n < |ops| && ops[n].owner == c
    requires Reaching(bases, ops, c, n) == Inherited(bases, before, c, n) + OwnAmong(ops, c, n)
    ensures Reaching(bases, ops, c, n + 1) == Inherited(bases, before, c, n + 1) + OwnAmong(ops, c, n + 1)
  {
    OwnReach(bases, ops, n, c);
    assert FirstOwn(ops, c) <= n;
    Regroup(Inherited(bases, before, c, n), OwnAmong(ops, c, n), [ops[n].entry]);
  }

  /** One more of another class. */
  lemma ReachingOther(bases: seq<int>, ops: seq<Registration>, before: seq<Registration>, c: nat, n: nat)
    requires IsForest(bases) && Owned(ops, |bases|) && Owned(before, |bases|) && IsBefore(ops, c, before) && c < |bases| && n < |ops| && ops[n].owner != c
    requires Reaching(bases, ops, c, n) == Inherited(bases, before, c, n) + OwnAmong(ops, c, n)
    ensures Reaching(bases, ops, c, n + 1) == Inherited(bases, before, c, n + 1) + OwnAmong(ops, c, n + 1)
  {
    InheritedNext(bases, ops, before, c, n);
    assert OwnAmong(ops, c, n + 1) == OwnAmong(ops, c, n);
    if n < FirstOwn(ops, c) {
      NoOwnBefore(ops, c, n);
    } else {
      BaseReaches(bases, ops, n, c);
    }
  }

  /** Up to the class's first registration its base's reach it, and from then on its own. */
  lemma {:induction false} ReachingParts(bases: seq<int>, ops: seq<Registration>, before: seq<Registration>, c: nat, n: nat)
    requires IsForest(bases) && Owned(ops, |bases|) && Owned(before, |bases|) && IsBefore(ops, c, before) && c < |bases| && n <= |ops|
    ensures Reaching(bases, ops, c, n) == Inherited(bases, before, c, n) + OwnAmong(ops, c, n)
    decreases n
  {
    if n > 0 {
      ReachingParts(bases, ops, before, c, n - 1);
      if ops[n - 1].owner == c {
        ReachingOwn(bases, ops, before, c, n - 1);
      } else {
        ReachingOther(bases, ops, before, c, n - 1);
      }
    }
  }

  lemma {:induction false} OverlayAppend(kind: Kind, entries: seq<Entry>, a: seq<Entry>, b: seq<Entry>)
    ensures Overlay(kind, Overlay(kind, entries, a), b) == Overlay(kind, entries, a + b)
  {
    if b == [] {
      assert a + b == a;
    } else {
      OverlayAppend(kind, entries, a, b[..|b| - 1]);
      assert (a + b)[..|a + b| - 1] == a + b[..|b| - 1];
    }
  }

  lemma {:induction false} SeesReaching(kind: Kind, bases: seq<int>, ops: seq<Registration>, c: nat)
    requires IsForest(bases) && Owned(ops, |bases|) && c < |bases|
    ensures Sees(kind, bases, ops, c) == Overlay(kind, [], Reaching(bases, ops, c, |ops|))
    decreases c
  {
    var before := ops[..FirstOwn(ops, c)];
    ReachingParts(bases, ops, before, c, |ops|);
    OwnAmongAll(ops, c);
    if bases[c] == -1 {
      assert [] + OwnEntries(ops, c) == OwnEntries(ops, c);
    } else {
      SeesReaching(kind, bases, before, bases[c]);
      OverlayAppend(kind, [], Reaching(bases, before, bases[c], |before|), OwnEntries(ops, c));
    }
  }

  /** The property's entry is the last one given to it. */
  ghost predicate IsLastOf(entries: seq<Entry>, e: Entry) {
    exists i :: IsLastAt(entries, e, i)
  }

  predicate IsLastAt(entries: seq<Entry>, e: Entry, i: int) {
    0 <= i < |entries| && entries[i] == e && forall j :: i < j < |entries| ==> entries[j].property != e.property
  }

  predicate OncePerName(entries: seq<Entry>) {
    forall i, j :: 0 <= i < j < |entries| ==> entries[i].property != entries[j].property
  }

  lemma RestOncePerName(entries: seq<Entry>)
    requires entries != [] && OncePerName(entries)
    ensures OncePerName(entries[1..]) && forall g <- entries[1..] :: g.property != entries[0].property
  {
    var rest := entries[1..];
    assert forall i :: 0 <= i < |rest| ==> rest[i] == entries[i + 1];
  }

  lemma HeadOncePerName(head: Entry, rest: seq<Entry>)
    requires OncePerName(rest) && forall g <- rest :: g.property != head.property
    ensures OncePerName([head] + rest)
  {
  }

  lemma {:induction false} SetEntryIs(entries: seq<Entry>, e: Entry)
    requires OncePerName(entries)
    ensures OncePerName(SetEntry(entries, e))
    ensures forall f :: f in SetEntry(entries, e) <==> f == e || (f in entries && f.property != e.property)
  {
    if entries == [] {
      assert SetEntry(entries, e) == [e];
    } else {
      var rest := entries[1..];
      RestOncePerName(entries);
      assert entries == [entries[0]] + rest;
      if entries[0].property == e.property {
        HeadOncePerName(e, rest);
      } else {
        SetEntryIs(rest, e);
        HeadOncePerName(entries[0], SetEntry(rest, e));
      }
    }
  }

  lemma LastNext(init: seq<Entry>, last: Entry, e: Entry)
    ensures IsLastOf(init + [last], e) <==> e == last || (IsLastOf(init, e) && e.property != last.property)
  {
    var all := init + [last];
    assert all[|init|] == last && forall i :: 0 <= i < |init| ==> all[i] == init[i];
    if e == last {
      assert IsLastAt(all, e, |init|);
    }
    if IsLastOf(init, e) && e.property != last.property {
      var i :| IsLastAt(init, e, i);
      assert IsLastAt(all, e, i);
    }
    if IsLastOf(all, e) && e != last {
      var i :| IsLastAt(all, e, i);
      assert IsLastAt(init, e, i);
    }
  }

  /** Column entries put over nothing: each property once, with what was given last. */
  lemma {:induction false} ColumnsAreLast(over: seq<Entry>, e: Entry)
    ensures OncePerName(Overlay(Columns, [], over)) && (e in Overlay(Columns, [], over) <==> IsLastOf(over, e))
  {
    if over != [] {
      var init, last := over[..|over| - 1], over[|over| - 1];
      assert over == init + [last];
      ColumnsAreLast(init, e);
      SetEntryIs(Overlay(Columns, [], init), last);
      LastNext(init, last, e);
    }
  }

  /** Relation entries put over nothing are all there, in order. */
  lemma {:induction false} RelationsAreAll(over: seq<Entry>)
    ensures Overlay(Relations, [], over) == over
  {
    if over != [] {
      RelationsAreAll(over[..|over| - 1]);
    }
  }

  /** Whatever the order of registrations: a class sees each column property once, with the metadata of the last registration of
      it that reaches the class; and it sees all relations that reach it, in the order in which they were registered. */
  lemma SeesLast(bases: seq<int>, ops: seq<Registration>, c: nat, e: Entry)
    requires IsForest(bases) && Owned(ops, |bases|) && c < |bases|
    ensures
      var columns, reaching := Effective(Run(Columns, bases, ops), c), Reaching(bases, ops, c, |ops|);
      OncePerName(columns) && (e in columns <==> IsLastOf(reaching, e))
    ensures Effective(Run(Relations, bases, ops), c) == Reaching(bases, ops, c, |ops|)
  {
    var reaching := Reaching(bases, ops, c, |ops|);
    EveryOrder(Columns, bases, ops, c);
    EveryOrder(Relations, bases, ops, c);
    SeesReaching(Columns, bases, ops, c);
    SeesReaching(Relations, bases, ops, c);
    ColumnsAreLast(reaching, e);
    RelationsAreAll(reaching);
  }
}
