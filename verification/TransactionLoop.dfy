/** The retry loop with its own variables, against a world that answers its awaits and acts while it waits. */
module TransactionLoop {
  import opened TransactionProtocol
  import opened TransactionOutcomes

  /** An answer to something that the loop sent; `took`: the server did it although the answer is an error. */
  datatype Reply = Done | Failed(e: Thrown, took: bool)

  /** What the outside world answers in one attempt. */
  datatype Answers = Answers(link: nat, connect: Reply, begin: Reply, body: Outcome, end: Reply, caught: bool)

  function Outside(steps: seq<Step>): seq<Step> {
    if steps == [] then []
    else if IsOutside(steps[0]) then [steps[0]] + Outside(steps[1..])
    else Outside(steps[1..])
  }

  predicate SameLoop(s: State, s': State) {
    && s'.pc == s.pc && s'.o == s.o && s'.committing == s.committing && |s'.attempts| == |s.attempts|
  }

  lemma OutsideStepKeepsLoop(s: State, step: Step)
    requires IsOutside(step)
    ensures SameLoop(s, Do(s, step))
  {
    if Enabled(s, step) && step.Runs? {
      ServerRunsFrame(s, step.k, step.id, step.effect);
    }
  }

  lemma {:induction false} OutsideKeepsLoop(s: State, steps: seq<Step>)
    ensures SameLoop(s, Run(s, Outside(steps)))
    decreases |steps|
  {
    if steps != [] {
      if IsOutside(steps[0]) {
        OutsideStepKeepsLoop(s, steps[0]);
        OutsideKeepsLoop(Do(s, steps[0]), steps[1..]);
        assert Outside(steps)[1..] == Outside(steps[1..]);
      } else {
        OutsideKeepsLoop(s, steps[1..]);
      }
    }
  }

  /** One await: the rest of the world runs. */
  method Await(ghost o: Options, s: State, ghost trace: seq<Step>, meanwhile: seq<Step>) returns (s': State, ghost trace': seq<Step>)
    requires s == Run(Init(o), trace)
    ensures s' == Run(Init(o), trace') && SameLoop(s, s') && trace <= trace'
  {
    OutsideKeepsLoop(s, meanwhile);
    RunAppend(Init(o), trace, Outside(meanwhile));
    s' := Run(s, Outside(meanwhile));
    trace' := trace + Outside(meanwhile);
  }

  /** One step of the loop. */
  method Take(ghost o: Options, s: State, ghost trace: seq<Step>, step: Step) returns (s': State, ghost trace': seq<Step>)
    requires s == Run(Init(o), trace) && Enabled(s, step)
    ensures s' == Next(s, step) == Run(Init(o), trace') && trace' == trace + [step]
  {
    RunOne(Init(o), trace, step);
    s' := Next(s, step);
    trace' := trace + [step];
  }

  /** The wait of `settle`: every pending query is answered in the end. */
  method AwaitPending(ghost o: Options, s: State, ghost trace: seq<Step>) returns (s': State, ghost trace': seq<Step>)
    requires s == Run(Init(o), trace) && s.attempts != []
    ensures s' == Run(Init(o), trace') && SameLoop(s, s') && s'.Current().inflight == {} && trace <= trace'
  {
    s', trace' := s, trace;
    while s'.Current().inflight != {}
      invariant s' == Run(Init(o), trace') && SameLoop(s, s') && trace <= trace'
      decreases |s'.Current().inflight|
    {
      var id :| id in s'.Current().inflight;
      ghost var before := s'.Current().inflight;
      s', trace' := Take(o, s', trace', Answered(s'.Last(), id));
      assert s'.Current().inflight == before - {id};
    }
  }

  lemma {:induction false} UnusedLink(used: set<nat>) returns (c: nat)
    ensures forall x <- used :: x < c
  {
    if used == {} {
      c := 0;
    } else {
      var x :| x in used;
      var d := UnusedLink(used - {x});
      assert forall y <- used :: y == x || y in used - {x};
      c := if d <= x then x + 1 else d;
    }
  }

  /** The pool hands out the connection that the world proposes, if it is idle and live, or a new one. */
  method GetConnection(s: State, proposed: nat) returns (c: nat)
    ensures s.LinkOf(c) == Link(true, Idle)
  {
    if s.LinkOf(proposed) == Link(true, Idle) {
      return proposed;
    }
    ghost var unused := UnusedLink(s.links.Keys);
    assert unused !in s.links;
    c :| c !in s.links;
  }

  /** The connection of an attempt: the one that was given, or one of the pool. */
  method TakeLink(o: Options, s: State, ghost trace: seq<Step>, proposed: nat) returns (s': State, ghost trace': seq<Step>)
    requires s == Run(Init(o), trace) && s.pc.Connecting? && s.o == o
    ensures s' == Run(Init(o), trace') && s'.pc.Beginning? && s'.o == o && |s'.attempts| == |s.attempts| + 1 && !s'.committing
  {
    var connection := GIVEN_LINK;
    if !o.given {
      connection := GetConnection(s, proposed);
    }
    s', trace' := Take(o, s, trace, TakeConnection(connection));
  }

  /** An answer that did not come is a lost connection. */
  method Refusal(reply: Reply) returns (e: Thrown, took: bool)
    ensures reply.Failed? ==> e == reply.e && took == reply.took
    ensures reply.Done? ==> e == Thrown(Connection, true) && !took
  {
    if reply.Failed? {
      return reply.e, reply.took;
    }
    return Thrown(Connection, true), false;
  }

  predicate SameAttempt(s: State, s': State) {
    s'.o == s.o && |s'.attempts| == |s.attempts|
  }

  /** Where the try block leaves the loop: it returned, or something was thrown and its ROLLBACK was sent. */
  predicate TryEnds(s: State, s': State, thrown: Outcome) {
    && SameAttempt(s, s')
    && s'.attempts != []
    && s'.pc == if thrown.Value? then Returned else Catching(thrown.e)
  }

  /** COMMIT. */
  method TryCommit(o: Options, s: State, ghost trace: seq<Step>, reply: Reply, meanwhile: seq<Step>)
    returns (s': State, ghost trace': seq<Step>, thrown: Outcome)
    requires s == Run(Init(o), trace) && s.pc.Committing? && s.attempts != [] && s.committing
    ensures s' == Run(Init(o), trace') && TryEnds(s, s', thrown) && s'.committing
  {
    s', trace' := Await(o, s, trace, meanwhile);
    if reply.Done? && Enabled(s', CommitOk) {
      s', trace' := Take(o, s', trace', CommitOk);
      thrown := Value;
    } else {
      var e, took := Refusal(reply);
      e := e.(isError := true);
      s', trace' := Take(o, s', trace', CommitFails(e, took && !e.kind.Abort? && s'.CurrentLink().alive));
      thrown := Error(e);
    }
  }

  /** The ROLLBACK of rollbackOnly. */
  method TryRollbackOnly(o: Options, s: State, ghost trace: seq<Step>, reply: Reply, meanwhile: seq<Step>)
    returns (s': State, ghost trace': seq<Step>, thrown: Outcome)
    requires s == Run(Init(o), trace) && s.pc.RollingBackOnly? && s.attempts != []
    ensures s' == Run(Init(o), trace') && TryEnds(s, s', thrown) && s'.committing == s.committing
  {
    s', trace' := Await(o, s, trace, meanwhile);
    if reply.Done? && Enabled(s', RollbackOnlyOk) {
      s', trace' := Take(o, s', trace', RollbackOnlyOk);
      thrown := Value;
    } else {
      var e, took := Refusal(reply);
      s', trace' := Take(o, s', trace', RollbackOnlyFails(e, took));
      thrown := Error(e);
    }
  }

  /** `guard.settle`: the body, the closing of the gate, and the wait for what is pending. */
  method SettleBody(o: Options, s: State, ghost trace: seq<Step>, body: Outcome, during: seq<Step>, after: seq<Step>)
    returns (s': State, ghost trace': seq<Step>, settled: Outcome, ghost j: nat)
    requires s == Run(Init(o), trace) && s.pc.InBody? && s.attempts != [] && s.o == o
    ensures s' == Run(Init(o), trace') && SameAttempt(s, s')
    ensures SettlesAt(o, trace', j, s.Last()) && trace'[j].outcome == body
    ensures settled == if LeftOpen(o, trace'[..j], s.Last()) then Error(Thrown(Misuse, true)) else body
    ensures settled.Error? ==> s'.pc == Catching(settled.e) && s'.committing == s.committing
    ensures settled.Value? ==> s'.pc == (if o.rollbackOnly then RollingBackOnly else Committing) && s'.committing == (s.committing || !o.rollbackOnly)
  {
    s', trace' := Await(o, s, trace, during);
    var pending := s'.Current().guard.unfinished;
    j := |trace'|;
    ghost var before := trace';
    s', trace' := Take(o, s', trace', BodySettles(body));
    ghost var settling := trace';
    assert settling[..j] == before && settling[j] == BodySettles(body);
    WhenSettling(o, settling, j, s.Last());
    assert s'.pc == Draining(pending, body);
    s', trace' := Await(o, s', trace', after);
    s', trace' := AwaitPending(o, s', trace');
    s', trace' := Take(o, s', trace', Drained);
    assert trace'[..j] == before && trace'[j] == BodySettles(body) by {
      assert settling <= trace';
    }
    settled := if pending != {} then Error(Thrown(Misuse, true)) else body;
  }

  /** The try block; `committing` is the loop's own flag. */
  method TryBlock(o: Options, s: State, ghost trace: seq<Step>, answers: Answers, meanwhile: nat -> seq<Step>)
    returns (s': State, ghost trace': seq<Step>, committing: bool, thrown: Outcome)
    requires s == Run(Init(o), trace) && s.pc.Beginning? && s.attempts != [] && s.o == o && !s.committing
    ensures s' == Run(Init(o), trace') && TryEnds(s, s', thrown) && s'.committing == committing
  {
    committing := false;
    s', trace' := Await(o, s, trace, meanwhile(0));
    if !answers.begin.Done? || !Enabled(s', BeginOk) {
      var e, took := Refusal(answers.begin);
      s', trace' := Take(o, s', trace', BeginFails(e, took));
      return s', trace', committing, Error(e);
    }
    s', trace' := Take(o, s', trace', BeginOk);
    ghost var settling;
    s', trace', thrown, settling := SettleBody(o, s', trace', answers.body, meanwhile(1), meanwhile(2));
    if thrown.Error? {
      return;
    }
    if o.rollbackOnly {
      s', trace', thrown := TryRollbackOnly(o, s', trace', answers.end, meanwhile(3));
    } else {
      committing := true;
      s', trace', thrown := TryCommit(o, s', trace', answers.end, meanwhile(3));
    }
  }

  /** The body of some attempt left a query open. */
  ghost predicate Misused(o: Options, steps: seq<Step>) {
    exists j, k: nat :: SettlesAt(o, steps, j, k) && LeftOpen(o, steps[..j], k)
  }

  /** Then, wherever that was, the loop ends in the guard's own error. */
  lemma MisuseIsRaised(o: Options, steps: seq<Step>)
    requires Misused(o, steps)
    ensures var s := Run(Init(o), steps); !s.pc.Returned? && (s.pc.Raised? ==> s.pc.e == Thrown(Misuse, true))
  {
    var j, k: nat :| SettlesAt(o, steps, j, k) && LeftOpen(o, steps[..j], k);
    LeftOpenIsRaised(o, steps, j, k);
  }

  /** What holds when the loop has ended. */
  ghost predicate Promises(s: State) {
    && |s.attempts| <= Max(1, s.o.retryLimit)
    && Observe(s.wire) != Broken
    && (forall a <- s.attempts :: a.releases == if s.o.given then 0 else 1)
    && (!BeginCommits(s.o) ==> OneCommit(s))
  }

  lemma HoldsOfTheRun(o: Options, steps: seq<Step>)
    ensures Run(Init(o), steps).o == o
    ensures Run(Init(o), steps).pc.Returned? || Run(Init(o), steps).pc.Raised? ==> Promises(Run(Init(o), steps))
  {
    InvFromInit(o, steps);
    WireIsOrdered(o, steps);
    AttemptsAreBounded(o, steps);
    ReleasedExactlyOnce(o, steps);
    if !BeginCommits(o) {
      OneCommitAtMost(o, steps);
    }
  }

  /** `transaction()` outside any transaction.  Whatever the answers and whatever happens meanwhile, what the
      loop does is a run of the step machine that ends, so all that holds of every run holds of it. */
  method Transaction(o: Options, world: nat -> Answers, meanwhile: nat -> nat -> seq<Step>)
    returns (result: Outcome, s: State, ghost trace: seq<Step>)
    ensures s == Run(Init(o), trace)
    ensures s.pc == if result.Value? then Returned else Raised(result.e)
    ensures Promises(s)
    ensures Misused(o, trace) ==> result == Error(Thrown(Misuse, true))
  {
    result, s, trace := RetryLoop(o, world, meanwhile);
    if Misused(o, trace) {
      MisuseIsRaised(o, trace);
    }
  }

  /** The loop itself. */
  method RetryLoop(o: Options, world: nat -> Answers, meanwhile: nat -> nat -> seq<Step>)
    returns (result: Outcome, s: State, ghost trace: seq<Step>)
    ensures s == Run(Init(o), trace)
    ensures s.pc == if result.Value? then Returned else Raised(result.e)
    ensures Promises(s)
  {
    s, trace := Init(o), [];
    var attempt := 0;
    while true
      invariant s == Run(Init(o), trace) && s.o == o && s.pc.Connecting? && attempt == |s.attempts|
      invariant attempt == 0 || attempt < o.retryLimit
      decreases Max(1, o.retryLimit) - attempt
    {
      var answers := world(attempt);
      attempt := attempt + 1;
      if !o.given && answers.connect.Failed? {
        s, trace := Take(o, s, trace, ConnectFails(answers.connect.e));
        HoldsOfTheRun(o, trace);
        return Error(answers.connect.e), s, trace;
      }
      s, trace := TakeLink(o, s, trace, answers.link);
      var committing, thrown;
      s, trace, committing, thrown := TryBlock(o, s, trace, answers, meanwhile(attempt));
      if thrown.Value? {
        HoldsOfTheRun(o, trace);
        return thrown, s, trace;
      }
      s, trace := Await(o, s, trace, meanwhile(attempt)(4));
      s, trace := Take(o, s, trace, CatchRollbackEnds(answers.caught));
      if !(o.retryOnError && attempt < o.retryLimit && !IsUnretriedConnectionError(thrown.e, committing, o.given) && IsRetryable(thrown.e)) {
        HoldsOfTheRun(o, trace);
        return thrown, s, trace;
      }
      s, trace := Await(o, s, trace, meanwhile(attempt)(5));
      s, trace := Take(o, s, trace, Slept);
    }
  }

  // ---------------------------------------------------------------------------------------------
  // acquireConnection
  // ---------------------------------------------------------------------------------------------

  /** The object that `acquireConnection` returns: `frees` lists what the pool was told. */
  class AcquiredConnection {
    var released: bool
    var frees: seq<bool>

    ghost predicate Valid()
      reads this
    {
      |frees| == if released then 1 else 0
    }

    constructor ()
      ensures Valid() && frees == []
    {
      released, frees := false, [];
    }

    /** The first release frees the pool's slot, and only it says whether the connection is destroyed. */
    method Release(destroy: bool)
      requires Valid()
      modifies this
      ensures Valid() && released
      ensures frees == if old(frees) == [] then [destroy] else old(frees)
    {
      if released {
        return;
      }
      released := true;
      frees := frees + [destroy];
    }
  }

  /** However often, and with whatever arguments, release is called on it, the slot is freed once. */
  method ReleaseAll(c: AcquiredConnection, calls: seq<bool>)
    requires c.Valid() && c.frees == []
    modifies c
    ensures c.Valid() && c.frees == if calls == [] then [] else [calls[0]]
  {
    for i := 0 to |calls|
      invariant c.Valid() && c.frees == if i == 0 then [] else [calls[0]]
    {
      c.Release(calls[i]);
    }
  }
}
