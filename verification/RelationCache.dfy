/** The cache of a relation context: loads shared by concurrent first accesses and dropped when they fail. */
module RelationCache {

  /** A load is known by its number; `started[l]` is the cache key that load l was started for.  `pending`: not
      settled; `failing`: rejected, its `catch` callback not yet run. */
  datatype Cache = Cache(held: map<string, nat>, started: seq<string>, pending: set<nat>, failing: set<nat>) {
    /** The load that an access to the key waits for. */
    function LoadFor(key: string): nat {
      if key in held then held[key] else |started|
    }

    function Access(key: string): Cache {
      if key in held then this
      else Cache(held[key := |started|], started + [key], pending + {|started|}, failing)
    }

    function Complete(load: nat): Cache {
      this.(pending := pending - {load})
    }

    function Fail(load: nat): Cache {
      if load in pending then this.(pending := pending - {load}, failing := failing + {load}) else this
    }

    /** The `catch` callback: a load is dropped only if it is still the one that is held. */
    function Catch(load: nat): Cache {
      if load !in failing || load >= |started| then this
      else
        var key := started[load];
        var rest := this.(failing := failing - {load});
        if key in held && held[key] == load then rest.(held := held - {key}) else rest
    }

    function Clear(): Cache {
      this.(held := map[])
    }
  }

  const EMPTY := Cache(map[], [], {}, {})

  /** The cache as the field that the context updates in place. */
  class BatchCache {
    var held: map<string, nat>
    var started: seq<string>
    var pending: set<nat>
    var failing: set<nat>

    ghost function View(): Cache
      reads this
    {
      Cache(held, started, pending, failing)
    }

    constructor ()
      ensures View() == EMPTY
    {
      held, started, pending, failing := map[], [], {}, {};
    }

    /** `getRelation` up to its `await`. */
    method Access(key: string) returns (load: nat)
      modifies this
      ensures load == old(View()).LoadFor(key)
      ensures View() == old(View()).Access(key)
    {
      if key in held {
        return held[key];
      }
      load := |started|;
      started, pending := started + [key], pending + {load};
      held := held[key := load];
    }

    method Fail(load: nat)
      modifies this
      ensures View() == old(View()).Fail(load)
    {
      if load in pending {
        pending, failing := pending - {load}, failing + {load};
      }
    }

    method Catch(load: nat)
      modifies this
      ensures View() == old(View()).Catch(load)
    {
      if load in failing && load < |started| {
        failing := failing - {load};
        var key := started[load];
        if key in held && held[key] == load {
          held := held - {key};
        }
      }
    }

    method ClearCache()
      modifies this
      ensures View() == old(View()).Clear()
    {
      held := map[];
    }
  }

  // ---------------------------------------------------------------------------------------------
  // Every interleaving
  // ---------------------------------------------------------------------------------------------

  datatype Step = Accesses(key: string) | Completes(load: nat) | Fails(load: nat) | Catches(load: nat) | Clears

  function Do(c: Cache, step: Step): Cache {
    match step
    case Accesses(key) => c.Access(key)
    case Completes(load) => c.Complete(load)
    case Fails(load) => c.Fail(load)
    case Catches(load) => c.Catch(load)
    case Clears => c.Clear()
  }

  function Run(c: Cache, steps: seq<Step>): Cache {
    if steps == [] then c else Do(Run(c, steps[..|steps| - 1]), steps[|steps| - 1])
  }

  /** What is held was started for its key and has not been caught failing; what is not settled was started. */
  ghost predicate Inv(c: Cache) {
    && (forall key <- c.held :: c.held[key] < |c.started| && c.started[c.held[key]] == key)
    && (forall l <- c.pending :: l < |c.started| && l !in c.failing)
    && (forall l <- c.failing :: l < |c.started|)
  }

  lemma InvKept(c: Cache, step: Step)
    requires Inv(c)
    ensures Inv(Do(c, step))
    ensures |Do(c, step).started| >= |c.started| && Do(c, step).started[..|c.started|] == c.started
  {
  }

  lemma {:induction false} InvRun(c: Cache, steps: seq<Step>)
    requires Inv(c)
    ensures Inv(Run(c, steps))
    ensures |Run(c, steps).started| >= |c.started| && Run(c, steps).started[..|c.started|] == c.started
  {
    if steps != [] {
      var init := steps[..|steps| - 1];
      InvRun(c, init);
      InvKept(Run(c, init), steps[|steps| - 1]);
    }
  }

  /** Does the load get dropped while these steps run? */
  predicate Drops(c: Cache, steps: seq<Step>, load: nat) {
    exists i :: 0 <= i < |steps| &&
      (steps[i] == Clears || (steps[i] == Catches(load) && load in Run(c, steps[..i]).failing))
  }

  lemma DropsInit(c: Cache, steps: seq<Step>, load: nat)
    requires steps != []
    ensures
      var init, last := steps[..|steps| - 1], steps[|steps| - 1];
      Drops(c, steps, load) <==> Drops(c, init, load) || last == Clears || (last == Catches(load) && load in Run(c, init).failing)
  {
    var init, last := steps[..|steps| - 1], steps[|steps| - 1];
    assert forall i :: 0 <= i < |init| ==> init[i] == steps[i] && init[..i] == steps[..i];
    if last == Clears || (last == Catches(load) && load in Run(c, init).failing) {
      assert steps[|steps| - 1] == last && steps[..|steps| - 1] == init;
    }
  }

  /** Once dropped, a load never comes back: new loads have new numbers. */
  lemma {:induction false} DroppedForGood(c: Cache, steps: seq<Step>, key: string)
    requires Inv(c) && key in c.held
    ensures
      var load, c' := c.held[key], Run(c, steps);
      (key in c'.held && c'.held[key] == load) <==> !Drops(c, steps, load)
  {
    var load := c.held[key];
    if steps != [] {
      var init, last := steps[..|steps| - 1], steps[|steps| - 1];
      DroppedForGood(c, init, key);
      InvRun(c, init);
      DropsInit(c, steps, load);
    }
  }

  /** Two accesses to a relation share one load exactly when between them the cache was not cleared and the load
      was not caught failing, whatever else went on. */
  lemma SharedUntilDropped(c: Cache, key: string, between: seq<Step>)
    requires Inv(c)
    ensures
      var load, c1 := c.LoadFor(key), c.Access(key);
      Run(c1, between).LoadFor(key) == load <==> !Drops(c1, between, load)
  {
    var load, c1 := c.LoadFor(key), c.Access(key);
    InvKept(c, Accesses(key));
    DroppedForGood(c1, between, key);
    InvRun(c1, between);
  }

  /** Failures of other relations' loads and of older loads of this one, however many and whenever they are caught, never
      take a load away. */
  lemma {:induction false} StaleFailureKeeps(c: Cache, key: string, steps: seq<Step>)
    requires Inv(c) && key in c.held && forall i :: 0 <= i < |steps| ==> steps[i] != Clears && steps[i] != Catches(c.held[key])
    ensures key in Run(c, steps).held && Run(c, steps).held[key] == c.held[key]
  {
    DroppedForGood(c, steps, key);
  }

  ghost predicate NotHeld(c: Cache, load: nat) {
    load < |c.started| && forall key <- c.held :: c.held[key] != load
  }

  /** Once its callback has run, a failed load is given to no later access of any relation, whatever happens. */
  lemma {:induction false} FailedLoadIsEvicted(c: Cache, load: nat, steps: seq<Step>, key: string)
    requires Inv(c) && load in c.failing
    ensures NotHeld(Run(c.Catch(load), steps), load) && Run(c.Catch(load), steps).LoadFor(key) != load
  {
    if steps == [] {
      InvKept(c, Catches(load));
    } else {
      FailedLoadIsEvicted(c, load, steps[..|steps| - 1], key);
    }
  }

  // ---------------------------------------------------------------------------------------------
  // How many loads
  // ---------------------------------------------------------------------------------------------

  function Starts(started: seq<string>, key: string): nat {
    if started == [] then 0
    else Starts(started[..|started| - 1], key) + if started[|started| - 1] == key then 1 else 0
  }

  /** With this step the load that is held for the key is dropped: by a clear, or because it is caught failing. */
  predicate Loses(c: Cache, step: Step, key: string) {
    key in c.held && (step == Clears || (step == Catches(c.held[key]) && c.held[key] in c.failing))
  }

  function Losses(c: Cache, steps: seq<Step>, key: string): nat {
    if steps == [] then 0
    else
      var init, last := steps[..|steps| - 1], steps[|steps| - 1];
      Losses(c, init, key) + if Loses(Run(c, init), last, key) then 1 else 0
  }

  function IsHeld(c: Cache, key: string): nat {
    if key in c.held then 1 else 0
  }

  lemma CountStep(c: Cache, step: Step, key: string)
    requires Inv(c)
    ensures Starts(Do(c, step).started, key) + IsHeld(c, key) ==
      Starts(c.started, key) + IsHeld(Do(c, step), key) + if Loses(c, step, key) then 1 else 0
  {
    if step.Accesses? && step.key !in c.held {
      assert (c.started + [step.key])[..|c.started|] == c.started;
    }
  }

  /** A relation is loaded exactly once for the load that is held, and once for each that was held and dropped. */
  lemma {:induction false} LoadsAreCounted(steps: seq<Step>, key: string)
    ensures
      var c := Run(EMPTY, steps);
      Starts(c.started, key) == Losses(EMPTY, steps, key) + if key in c.held then 1 else 0
  {
    if steps != [] {
      var init := steps[..|steps| - 1];
      LoadsAreCounted(init, key);
      InvRun(EMPTY, init);
      CountStep(Run(EMPTY, init), steps[|steps| - 1], key);
    }
  }

  ghost predicate Settled(c: Cache, key: string, load: nat) {
    key in c.held && c.held[key] == load && load !in c.pending && load !in c.failing && load < |c.started|
  }

  /** A load that has completed is held until the cache is cleared, whatever else fails. */
  lemma {:induction false} CompletedIsKept(c: Cache, key: string, steps: seq<Step>)
    requires Inv(c) && key in c.held && c.held[key] in c.pending && forall i :: 0 <= i < |steps| ==> steps[i] != Clears
    ensures Settled(Run(c.Complete(c.held[key]), steps), key, c.held[key])
  {
    if steps != [] {
      CompletedIsKept(c, key, steps[..|steps| - 1]);
    }
  }
}
