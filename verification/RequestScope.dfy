/** Request scopes: the middleware instances of a request, its commits, and the runs inside it. */
module RequestScope {
  // A step carries the scope it runs in, so that requests may interleave in any way. Objects are told apart by the number
  // they get when they are made.

  import opened Sequences

  /** A middleware class: the base class itself, or one of its subclasses. */
  datatype Class = Middleware | Subclass(name: string)

  // ---------------------------------------------------------------------------------------------
  // As values
  // ---------------------------------------------------------------------------------------------

  /** What a scope holds: an instance for some classes, and its record of commits. */
  datatype ScopeView = ScopeView(middlewares: map<Class, nat>, log: nat)

  /** All scopes in the order they were opened, all records of commits, and how many instances were made. */
  datatype World = World(scopes: seq<ScopeView>, logs: seq<map<int, int>>, created: nat)

  /** `at` is the scope the step runs in; a number that is no scope means that there is none. */
  datatype Step =
    | Get(at: int, cls: Class)
    | Open(at: int, cls: Class)
    | Clear(at: int, cls: Class)
    | Commit(at: int, clock: int, time: int)

  predicate Inside(w: World, at: int) {
    0 <= at < |w.scopes|
  }

  function Without(m: map<Class, nat>, cls: Class): map<Class, nat> {
    m - {cls}
  }

  /** What `hasContext` answers. */
  predicate Has(w: World, at: int, cls: Class) {
    Inside(w, at) && cls in w.scopes[at].middlewares
  }

  /** The instance that `getCurrentContext` returns. */
  function Seen(w: World, at: int, cls: Class): nat {
    if Has(w, at, cls) then w.scopes[at].middlewares[cls] else w.created
  }

  function Apply(w: World, step: Step): World
    requires WellFormed(w)
  {
    match step
    case Get(at, cls) =>
      if !Inside(w, at) then w.(created := w.created + 1)
      else if cls in w.scopes[at].middlewares then w
      else
        var s := w.scopes[at];
        World(w.scopes[at := s.(middlewares := s.middlewares[cls := w.created])], w.logs, w.created + 1)
    case Open(at, cls) =>
      if cls.Middleware? || !Inside(w, at) then World(w.scopes + [ScopeView(map[], |w.logs|)], w.logs + [map[]], w.created)
      else w.(scopes := w.scopes + [ScopeView(Without(w.scopes[at].middlewares, cls), w.scopes[at].log)])
    case Clear(at, cls) =>
      if !Inside(w, at) then w
      else
        var s := w.scopes[at];
        w.(scopes := w.scopes[at := s.(middlewares := Without(s.middlewares, cls))])
    case Commit(at, clock, time) =>
      if !Inside(w, at) then w
      else
        var log := w.scopes[at].log;
        w.(logs := w.logs[log := w.logs[log][clock := time]])
  }

  predicate WellFormed(w: World) {
    forall s :: 0 <= s < |w.scopes| ==> w.scopes[s].log < |w.logs| && forall cls :: cls in w.scopes[s].middlewares ==> w.scopes[s].middlewares[cls] < w.created
  }

  lemma StaysWellFormed(w: World, step: Step)
    requires WellFormed(w)
    ensures WellFormed(Apply(w, step))
    ensures |Apply(w, step).scopes| >= |w.scopes| && |Apply(w, step).logs| >= |w.logs|
    ensures forall s :: 0 <= s < |w.scopes| ==> Apply(w, step).scopes[s].log == w.scopes[s].log
  {
  }

  function Run(w: World, steps: seq<Step>): (r: World)
    requires WellFormed(w)
    ensures WellFormed(r)
    ensures |r.scopes| >= |w.scopes| && |r.logs| >= |w.logs|
    ensures forall s :: 0 <= s < |w.scopes| ==> r.scopes[s].log == w.scopes[s].log
  {
    if steps == [] then w
    else
      var before := Run(w, steps[..|steps| - 1]);
      StaysWellFormed(before, steps[|steps| - 1]);
      Apply(before, steps[|steps| - 1])
  }

  const NOBODY := World([], [], 0)

  // ---------------------------------------------------------------------------------------------
  // In the heap
  // ---------------------------------------------------------------------------------------------

  class Instance {
    ghost const id: nat

    constructor (ghost n: nat)
      ensures id == n
    {
      id := n;
    }
  }

  class Commits {
    ghost const id: nat
    var times: map<int, int>

    constructor (ghost n: nat)
      ensures id == n && times == map[]
    {
      id := n;
      times := map[];
    }
  }

  class Scope {
    var middlewares: map<Class, Instance>
    const commits: Commits

    constructor (m: map<Class, Instance>, c: Commits)
      ensures middlewares == m && commits == c
    {
      middlewares := m;
      commits := c;
    }

    /** The scope is as the view says. */
    ghost predicate Shows(v: ScopeView)
      reads this
    {
      && v.log == commits.id
      && (forall cls :: cls in v.middlewares <==> cls in middlewares)
      && (forall cls :: cls in middlewares ==> v.middlewares[cls] == middlewares[cls].id)
    }
  }

  /** `getCurrentContext` in the current scope, or outside any. */
  method GetCurrentContext(scope: Scope?, cls: Class, ghost created: nat) returns (instance: Instance)
    modifies scope
    ensures if scope == null || cls !in old(scope.middlewares) then fresh(instance) && instance.id == created else instance == old(scope.middlewares)[cls]
    ensures scope != null ==> scope.middlewares == old(scope.middlewares)[cls := instance]
  {
    if scope != null && cls in scope.middlewares {
      return scope.middlewares[cls];
    }
    instance := new Instance(created);
    if scope != null {
      scope.middlewares := scope.middlewares[cls := instance];
    }
  }

  /** The scope that `run` opens. */
  method OpenScope(enclosing: Scope?, cls: Class, ghost logs: nat) returns (s: Scope)
    ensures fresh(s)
    ensures if cls.Middleware? || enclosing == null
      then s.middlewares == map[] && fresh(s.commits) && s.commits.id == logs && s.commits.times == map[]
      else s.middlewares == enclosing.middlewares - {cls} && s.commits == enclosing.commits
  {
    if cls.Middleware? || enclosing == null {
      var commits := new Commits(logs);
      s := new Scope(map[], commits);
      return;
    }
    var middlewares := enclosing.middlewares;
    middlewares := middlewares - {cls};
    s := new Scope(middlewares, enclosing.commits);
  }

  /** Does the scope hold an instance, by what it shows? */
  method HasContext(scope: Scope?, cls: Class, ghost v: ScopeView) returns (b: bool)
    requires scope != null ==> scope.Shows(v)
    ensures b <==> scope != null && cls in v.middlewares
  {
    return scope != null && cls in scope.middlewares;
  }

  method ClearContext(scope: Scope?, cls: Class)
    modifies scope
    ensures scope != null ==> scope.middlewares == old(scope.middlewares) - {cls}
  {
    if scope != null {
      scope.middlewares := scope.middlewares - {cls};
    }
  }

  /** A commit noted for the request, by the clock that watches it. */
  method NoteCommit(scope: Scope?, clock: int, time: int)
    modifies if scope == null then {} else {scope.commits}
    ensures scope != null ==> scope.commits.times == old(scope.commits.times)[clock := time]
  {
    if scope != null {
      scope.commits.times := scope.commits.times[clock := time];
    }
  }

  /** All requests of a process. */
  class Server {
    var scopes: seq<Scope>
    ghost var logs: seq<Commits>
    ghost var instances: seq<Instance>

    ghost predicate Valid()
      reads this, scopes
    {
      && (forall i, j :: 0 <= i < j < |scopes| ==> scopes[i] != scopes[j])
      && (forall i :: 0 <= i < |logs| ==> logs[i].id == i)
      && (forall i :: 0 <= i < |instances| ==> instances[i].id == i)
      && (forall i :: 0 <= i < |scopes| ==> scopes[i].commits.id < |logs| && logs[scopes[i].commits.id] == scopes[i].commits)
      && (forall i :: 0 <= i < |scopes| ==> HoldsKnown(scopes[i]))
    }

    ghost predicate HoldsKnown(s: Scope)
      reads this, s
    {
      forall cls :: cls in s.middlewares ==> Knows(s.middlewares[cls])
    }

    ghost predicate Knows(instance: Instance)
      reads this
    {
      instance.id < |instances| && instances[instance.id] == instance
    }

    /** The heap is as the value says. */
    ghost predicate Shows(w: World)
      reads this, scopes, logs
    {
      && |w.scopes| == |scopes| && (forall i :: 0 <= i < |scopes| ==> scopes[i].Shows(w.scopes[i]))
      && |w.logs| == |logs| && (forall i :: 0 <= i < |logs| ==> logs[i].times == w.logs[i])
      && w.created == |instances|
    }

    constructor ()
      ensures Valid() && Shows(NOBODY)
    {
      scopes := [];
      logs := [];
      instances := [];
    }

    lemma ShownIsWellFormed(w: World)
      requires Valid() && Shows(w)
      ensures WellFormed(w)
    {
      forall s, cls | 0 <= s < |w.scopes| && cls in w.scopes[s].middlewares ensures w.scopes[s].middlewares[cls] < w.created {
        assert HoldsKnown(scopes[s]) && scopes[s].Shows(w.scopes[s]);
      }
    }

    function At(at: int): (scope: Scope?)
      reads this
      ensures if 0 <= at < |scopes| then scope == scopes[at] else scope == null
    {
      if 0 <= at < |scopes| then scopes[at] else null
    }

    /** A step that asks for the current instance. */
    method DoGet(at: int, cls: Class, ghost w: World) returns (instance: Instance)
      requires Valid() && Shows(w)
      modifies this, At(at)
      ensures Valid() && WellFormed(w) && Shows(Apply(w, Get(at, cls)))
      ensures Knows(instance) && instance.id == Seen(w, at, cls)
    {
      ShownIsWellFormed(w);
      if HasIt(At(at), cls) {
        instance := DoGetHeld(at, cls, w);
      } else {
        instance := DoGetNew(at, cls, w);
      }
    }

    method DoGetHeld(at: int, cls: Class, ghost w: World) returns (instance: Instance)
      requires Valid() && Shows(w) && WellFormed(w) && HasIt(At(at), cls)
      modifies At(at)
      ensures Valid() && Shows(Apply(w, Get(at, cls)))
      ensures Knows(instance) && instance.id == Seen(w, at, cls)
    {
      assert HoldsKnown(scopes[at]) && scopes[at].Shows(w.scopes[at]);
      instance := GetCurrentContext(At(at), cls, |instances|);
      assert scopes[at].middlewares == old(scopes[at].middlewares);
      forall i | 0 <= i < |scopes| ensures scopes[i].Shows(w.scopes[i]) && HoldsKnown(scopes[i]) {
        assert old(scopes[i].Shows(w.scopes[i])) && old(HoldsKnown(scopes[i]));
      }
    }

    method DoGetNew(at: int, cls: Class, ghost w: World) returns (instance: Instance)
      requires Valid() && Shows(w) && WellFormed(w) && !HasIt(At(at), cls)
      modifies this, At(at)
      ensures Valid() && Shows(Apply(w, Get(at, cls)))
      ensures Knows(instance) && instance.id == Seen(w, at, cls)
    {
      ghost var next := Apply(w, Get(at, cls));
      assert 0 <= at < |scopes| ==> scopes[at].Shows(w.scopes[at]);
      instance := GetCurrentContext(At(at), cls, |instances|);
      instances := instances + [instance];
      forall i | 0 <= i < |scopes| ensures scopes[i].Shows(next.scopes[i]) && HoldsKnown(scopes[i]) {
        assert old(scopes[i].Shows(w.scopes[i])) && old(HoldsKnown(scopes[i]));
        if i != at {
          assert next.scopes[i] == w.scopes[i];
        }
      }
    }

    static predicate HasIt(scope: Scope?, cls: Class)
      reads scope
    {
      scope != null && cls in scope.middlewares
    }

    /** A step that opens a run. */
    method DoOpen(at: int, cls: Class, ghost w: World)
      requires Valid() && Shows(w)
      modifies this
      ensures Valid() && WellFormed(w) && Shows(Apply(w, Open(at, cls)))
    {
      ShownIsWellFormed(w);
      assert 0 <= at < |scopes| ==> HoldsKnown(scopes[at]) && scopes[at].Shows(w.scopes[at]);
      var s := OpenScope(At(at), cls, |logs|);
      if s.commits.id == |logs| {
        logs := logs + [s.commits];
      }
      scopes := scopes + [s];
      ghost var next := Apply(w, Open(at, cls));
      forall i | 0 <= i < |scopes| ensures scopes[i].Shows(next.scopes[i]) {
        if i < |scopes| - 1 {
          assert old(scopes[i].Shows(w.scopes[i]));
        }
      }
      forall i | 0 <= i < |scopes| ensures HoldsKnown(scopes[i]) {
        assert i < |scopes| - 1 ==> old(HoldsKnown(scopes[i]));
      }
    }

    /** A step that drops an instance. */
    method DoClear(at: int, cls: Class, ghost w: World)
      requires Valid() && Shows(w)
      modifies At(at)
      ensures Valid() && WellFormed(w) && Shows(Apply(w, Clear(at, cls)))
    {
      ShownIsWellFormed(w);
      assert 0 <= at < |scopes| ==> HoldsKnown(scopes[at]) && scopes[at].Shows(w.scopes[at]);
      ClearContext(At(at), cls);
      ghost var next := Apply(w, Clear(at, cls));
      forall i | 0 <= i < |scopes| ensures scopes[i].Shows(next.scopes[i]) {
        assert old(scopes[i].Shows(w.scopes[i]));
        if i != at {
          assert next.scopes[i] == w.scopes[i];
        }
      }
      forall i | 0 <= i < |scopes| ensures HoldsKnown(scopes[i]) {
        assert i != at ==> old(HoldsKnown(scopes[i]));
      }
    }

    /** A question that changes nothing. */
    method DoHas(at: int, cls: Class, ghost w: World) returns (b: bool)
      requires Valid() && Shows(w)
      ensures b <==> Has(w, at, cls)
    {
      assert 0 <= at < |scopes| ==> scopes[at].Shows(w.scopes[at]);
      b := HasContext(At(at), cls, if Inside(w, at) then w.scopes[at] else ScopeView(map[], 0));
    }

    /** A step that notes a commit. */
    method DoCommit(at: int, clock: int, time: int, ghost w: World)
      requires Valid() && Shows(w)
      modifies if 0 <= at < |scopes| then {scopes[at].commits} else {}
      ensures Valid() && WellFormed(w) && Shows(Apply(w, Commit(at, clock, time)))
    {
      ShownIsWellFormed(w);
      assert 0 <= at < |scopes| ==> scopes[at].Shows(w.scopes[at]);
      NoteCommit(At(at), clock, time);
      forall i | 0 <= i < |logs| ensures logs[i].times == Apply(w, Commit(at, clock, time)).logs[i] {
        assert logs[i].id == i;
      }
    }
  }

  // ---------------------------------------------------------------------------------------------
  // Properties of every interleaving
  // ---------------------------------------------------------------------------------------------

  /** The step belongs to the request with that record of commits. */
  predicate IsOf(w: World, step: Step, log: nat) {
    Inside(w, step.at) && w.scopes[step.at].log == log
  }

  /** The steps of a run, none of which belongs to the request when it is taken. */
  predicate NoneOf(w: World, steps: seq<Step>, log: nat)
    requires WellFormed(w)
  {
    steps == [] ||
    (NoneOf(w, steps[..|steps| - 1], log) && !IsOf(Run(w, steps[..|steps| - 1]), steps[|steps| - 1], log))
  }

  /** All that a request can see is the same in both worlds: its scopes and what they hold, and its commits. */
  predicate SameFor(w: World, v: World, log: nat) {
    && log < |w.logs| && log < |v.logs| && w.logs[log] == v.logs[log] && |w.scopes| <= |v.scopes|
    && (forall s :: 0 <= s < |w.scopes| && w.scopes[s].log == log ==> v.scopes[s] == w.scopes[s])
    && (forall s :: 0 <= s < |v.scopes| && v.scopes[s].log == log ==> s < |w.scopes| && w.scopes[s].log == log)
  }

  lemma OneStepOfOthers(w: World, step: Step, log: nat)
    requires WellFormed(w) && log < |w.logs| && !IsOf(w, step, log)
    ensures SameFor(w, Apply(w, step), log)
  {
  }

  /** However requests interleave, what the others do changes nothing that a request sees. */
  lemma {:induction false} OthersChangeNothing(w: World, steps: seq<Step>, log: nat)
    requires WellFormed(w) && log < |w.logs| && NoneOf(w, steps, log)
    ensures SameFor(w, Run(w, steps), log)
  {
    if steps != [] {
      OthersChangeNothing(w, steps[..|steps| - 1], log);
      OneStepOfOthers(Run(w, steps[..|steps| - 1]), steps[|steps| - 1], log);
    }
  }

  /** No instance is held by two requests. */
  predicate NothingShared(w: World) {
    forall s, t, c, d :: 0 <= s < |w.scopes| && 0 <= t < |w.scopes| && c in w.scopes[s].middlewares && d in w.scopes[t].middlewares ==>
      w.scopes[s].middlewares[c] == w.scopes[t].middlewares[d] ==> w.scopes[s].log == w.scopes[t].log
  }

  lemma StaysUnshared(w: World, step: Step)
    requires WellFormed(w) && NothingShared(w)
    ensures NothingShared(Apply(w, step))
  {
  }

  /** In every run from the start, requests hold different instances. */
  lemma {:induction false} RequestsShareNothing(steps: seq<Step>)
    ensures NothingShared(Run(NOBODY, steps))
  {
    if steps != [] {
      RequestsShareNothing(steps[..|steps| - 1]);
      StaysUnshared(Run(NOBODY, steps[..|steps| - 1]), steps[|steps| - 1]);
    }
  }

  predicate Cleared(steps: seq<Step>, at: int, cls: Class) {
    exists i :: 0 <= i < |steps| && steps[i] == Clear(at, cls)
  }

  lemma ClearedNext(steps: seq<Step>, at: int, cls: Class)
    requires steps != []
    ensures Cleared(steps, at, cls) <==> Cleared(steps[..|steps| - 1], at, cls) || steps[|steps| - 1] == Clear(at, cls)
  {
    var init := steps[..|steps| - 1];
    assert forall i :: 0 <= i < |init| ==> init[i] == steps[i];
  }

  /** Whatever happens in any request, a scope goes on to see the instance it holds exactly as long as that instance is not
      cleared from this scope. */
  lemma {:induction false} SameUntilCleared(w: World, steps: seq<Step>, at: nat, cls: Class)
    requires WellFormed(w) && at < |w.scopes| && cls in w.scopes[at].middlewares
    ensures Seen(Run(w, steps), at, cls) == w.scopes[at].middlewares[cls] <==> !Cleared(steps, at, cls)
    ensures Run(w, steps).created >= w.created
    ensures !Cleared(steps, at, cls) ==> cls in Run(w, steps).scopes[at].middlewares
    ensures Cleared(steps, at, cls) ==> Seen(Run(w, steps), at, cls) >= w.created
  {
    if steps != [] {
      var init, step := steps[..|steps| - 1], steps[|steps| - 1];
      SameUntilCleared(w, init, at, cls);
      ClearedNext(steps, at, cls);
    }
  }

  /** Some step is this one, and no later step drops the instance. */
  predicate GotSince(steps: seq<Step>, at: int, cls: Class) {
    exists i :: 0 <= i < |steps| && steps[i] == Get(at, cls) && !Cleared(steps[i + 1..], at, cls)
  }

  lemma ClearedLater(steps: seq<Step>, i: nat, at: int, cls: Class)
    requires i < |steps| - 1
    ensures Cleared(steps[i + 1..], at, cls) <==> Cleared(steps[..|steps| - 1][i + 1..], at, cls) || steps[|steps| - 1] == Clear(at, cls)
  {
    var later := steps[i + 1..];
    assert later[..|later| - 1] == steps[..|steps| - 1][i + 1..];
    ClearedNext(later, at, cls);
  }

  lemma GotNext(steps: seq<Step>, at: int, cls: Class)
    requires steps != []
    ensures
      var init, step := steps[..|steps| - 1], steps[|steps| - 1];
      GotSince(steps, at, cls) <==> step == Get(at, cls) || (GotSince(init, at, cls) && step != Clear(at, cls))
  {
    var n := |steps| - 1;
    var init, step := steps[..n], steps[n];
    assert steps[n + 1..] == [];
    if GotSince(init, at, cls) {
      var i :| 0 <= i < |init| && init[i] == Get(at, cls) && !Cleared(init[i + 1..], at, cls);
      ClearedLater(steps, i, at, cls);
    }
    if GotSince(steps, at, cls) {
      var i :| 0 <= i < |steps| && steps[i] == Get(at, cls) && !Cleared(steps[i + 1..], at, cls);
      if i < n {
        ClearedLater(steps, i, at, cls);
        assert init[i] == Get(at, cls);
      }
    }
  }

  /** Whatever happens in any request, `hasContext` is true exactly if the class was accessed in this very scope and not
      cleared there since, or was held before and not cleared in between. */
  lemma {:induction false} HasIff(w: World, steps: seq<Step>, at: int, cls: Class)
    requires WellFormed(w) && Inside(w, at)
    ensures Has(Run(w, steps), at, cls) <==> GotSince(steps, at, cls) || (Has(w, at, cls) && !Cleared(steps, at, cls))
  {
    if steps != [] {
      HasIff(w, steps[..|steps| - 1], at, cls);
      ClearedNext(steps, at, cls);
      GotNext(steps, at, cls);
    }
  }

  /** The same for the scope that `X.run` opens: it begins with what the enclosing scope holds except X, and a request begins
      with nothing; what happens later in the enclosing scope does not matter. */
  lemma HasSinceOpening(w: World, at: int, x: Class, steps: seq<Step>, cls: Class)
    requires WellFormed(w)
    ensures
      var inner := |w.scopes|;
      Has(Run(Apply(w, Open(at, x)), steps), inner, cls) <==>
      GotSince(steps, inner, cls) || (x.Subclass? && cls != x && Has(w, at, cls) && !Cleared(steps, inner, cls))
  {
    HasIff(Apply(w, Open(at, x)), steps, |w.scopes|, cls);
  }

  /** `X.run` inside a request: the new scope will make its own X, never one that exists; it has every other instance and
      the commits of the enclosing scope; and the enclosing scope is as it was. */
  lemma RunRefreshesOnlyX(w: World, at: nat, cls: Class, other: Class)
    requires WellFormed(w) && at < |w.scopes| && cls.Subclass?
    ensures var v := Apply(w, Open(at, cls));
      var inner := |w.scopes|;
      && v.scopes[..inner] == w.scopes && |v.scopes| == inner + 1 && v.logs == w.logs
      && v.scopes[inner].log == w.scopes[at].log
      && Seen(v, inner, cls) == w.created
      && (other != cls ==> Seen(v, inner, other) == Seen(w, at, other))
  {
  }

  /** Inner and enclosing scope go on sharing another class's instance, and never share X, until one of them is cleared. */
  lemma SharedExceptX(w: World, at: nat, x: Class, other: Class, steps: seq<Step>)
    requires WellFormed(w) && at < |w.scopes| && x.Subclass? && other != x
    requires other in w.scopes[at].middlewares && x in w.scopes[at].middlewares
    requires !Cleared(steps, at, other) && !Cleared(steps, |w.scopes|, other) && !Cleared(steps, at, x)
    ensures var v := Run(Apply(w, Open(at, x)), steps);
      && Seen(v, at, other) == Seen(v, |w.scopes|, other)
      && Seen(v, at, x) != Seen(v, |w.scopes|, x)
      && v.scopes[at].log == v.scopes[|w.scopes|].log
  {
    var after := Apply(w, Open(at, x));
    RunRefreshesOnlyX(w, at, x, other);
    SameUntilCleared(after, steps, at, other);
    SameUntilCleared(after, steps, |w.scopes|, other);
    SameUntilCleared(after, steps, at, x);
    NewerInstances(after, steps, |w.scopes|, x, w.created);
  }

  /** An instance that a scope did not hold is newer than all there were. */
  lemma {:induction false} NewerInstances(w: World, steps: seq<Step>, at: nat, cls: Class, n: nat)
    requires WellFormed(w) && at < |w.scopes| && n <= w.created && cls !in w.scopes[at].middlewares
    ensures Run(w, steps).created >= n
    ensures Seen(Run(w, steps), at, cls) >= n
  {
    if steps != [] {
      NewerInstances(w, steps[..|steps| - 1], at, cls, n);
    }
  }

  predicate HeldByNobody(w: World, n: nat) {
    n < w.created && forall s, c :: 0 <= s < |w.scopes| && c in w.scopes[s].middlewares ==> w.scopes[s].middlewares[c] != n
  }

  /** Outside every scope an access makes an instance for that access alone: no scope is changed, and whatever happens
      afterwards nobody holds it and no access in or outside any scope sees it again. */
  lemma {:induction false} OutsideIsFresh(w: World, at: int, cls: Class, steps: seq<Step>, at': int, cls': Class)
    requires WellFormed(w) && !Inside(w, at)
    ensures Apply(w, Get(at, cls)).scopes == w.scopes && Apply(w, Get(at, cls)).logs == w.logs
    ensures
      var v := Run(Apply(w, Get(at, cls)), steps);
      HeldByNobody(v, Seen(w, at, cls)) && Seen(v, at', cls') != Seen(w, at, cls)
  {
    if steps != [] {
      OutsideIsFresh(w, at, cls, steps[..|steps| - 1], at', cls');
    }
  }

  // ---------------------------------------------------------------------------------------------
  // Commits
  // ---------------------------------------------------------------------------------------------

  /** With this step a commit is noted for the clock, in the request with that record. */
  predicate Notes(w: World, step: Step, log: nat, clock: int) {
    step.Commit? && step.clock == clock && IsOf(w, step, log)
  }

  /** The time of the last commit noted for the clock in any scope of the request, if there is one. */
  function LastNoted(w: World, steps: seq<Step>, log: nat, clock: int): Option<int>
    requires WellFormed(w)
  {
    if steps == [] then None
    else
      var init, step := steps[..|steps| - 1], steps[|steps| - 1];
      if Notes(Run(w, init), step, log, clock) then Some(step.time) else LastNoted(w, init, log, clock)
  }

  /** Whatever other requests and other steps do in between, a request's record has for every clock the last time that was
      noted in any scope of the request, and otherwise what it had. */
  lemma {:induction false} LastCommitIsKept(w: World, steps: seq<Step>, log: nat, clock: int)
    requires WellFormed(w) && log < |w.logs|
    ensures
      var times, last := Run(w, steps).logs[log], LastNoted(w, steps, log, clock);
      match last
      case Some(time) => clock in times && times[clock] == time
      case None => (clock in times <==> clock in w.logs[log]) && (clock in times ==> times[clock] == w.logs[log][clock])
  {
    if steps != [] {
      LastCommitIsKept(w, steps[..|steps| - 1], log, clock);
    }
  }
}
