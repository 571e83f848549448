/** What becomes of an attempt, by how its body settled: which error is raised, which is retried, and when COMMIT is sent. */
module TransactionOutcomes {
  import opened TransactionProtocol

  // ---------------------------------------------------------------------------------------------
  // What a body leaves unfinished
  // ---------------------------------------------------------------------------------------------

  /** With step i the body of attempt k starts a query. */
  ghost predicate Starts(o: Options, steps: seq<Step>, i: int, k: nat, id: nat) {
    0 <= i < |steps| && steps[i] == StartQuery(k, id) && Enabled(Run(Init(o), steps[..i]), steps[i]) &&
    !Run(Init(o), steps[..i]).attempts[k].guard.closed
  }

  ghost predicate Finishes(o: Options, steps: seq<Step>, i: int, k: nat, id: nat) {
    0 <= i < |steps| && steps[i] == Finished(k, id) && Enabled(Run(Init(o), steps[..i]), steps[i])
  }

  /** The query was started, and has not finished. */
  ghost predicate StillOpen(o: Options, steps: seq<Step>, k: nat, id: nat) {
    exists i :: Starts(o, steps, i, k, id) && forall h :: i < h < |steps| ==> !Finishes(o, steps, h, k, id)
  }

  ghost predicate LeftOpen(o: Options, steps: seq<Step>, k: nat) {
    exists id: nat :: StillOpen(o, steps, k, id)
  }

  predicate IsTracked(s: State, k: nat, id: nat) {
    k < |s.attempts| && id in s.attempts[k].guard.unfinished
  }

  lemma TrackedInCatch(s: State, ran: bool, k: nat, id: nat)
    requires Enabled(s, CatchRollbackEnds(ran))
    ensures IsTracked(Next(s, CatchRollbackEnds(ran)), k, id) <==> IsTracked(s, k, id)
  {
    var s1 := if ran then s.WithTx(Idle) else s;
    assert s1.attempts == s.attempts;
    ReleaseFrame(s1.(pc := Raised(s.pc.e)), true);
  }

  lemma TrackedAtEnd(s: State, step: Step, k: nat, id: nat)
    requires Enabled(s, step) && (step.RollbackOnlyOk? || step.CommitOk? || step.Slept? || step.Drained?)
    ensures IsTracked(Next(s, step), k, id) <==> IsTracked(s, k, id)
  {
  }

  /** One step: a started query is tracked, a finished one is not, and nothing else changes that. */
  lemma TrackedNext(s: State, step: Step, k: nat, id: nat)
    requires Enabled(s, step)
    ensures IsTracked(Next(s, step), k, id) <==>
      (step == StartQuery(k, id) && !s.attempts[k].guard.closed) || (IsTracked(s, k, id) && step != Finished(k, id))
  {
    if step.CatchRollbackEnds? {
      TrackedInCatch(s, step.ran, k, id);
    } else if step.Runs? {
      ServerRunsFrame(s, step.k, step.id, step.effect);
    } else if step.RollbackOnlyOk? || step.CommitOk? || step.Slept? || step.Drained? {
      TrackedAtEnd(s, step, k, id);
    }
  }

  lemma OpenNext(o: Options, init: seq<Step>, step: Step, k: nat, id: nat)
    ensures
      var steps, n := init + [step], |init|;
      StillOpen(o, steps, k, id) <==> Starts(o, steps, n, k, id) || (StillOpen(o, init, k, id) && !Finishes(o, steps, n, k, id))
  {
    var steps, n := init + [step], |init|;
    forall h | 0 <= h < n ensures steps[h] == init[h] && steps[..h] == init[..h] {
    }
    assert forall h :: 0 <= h < n ==> (Starts(o, steps, h, k, id) <==> Starts(o, init, h, k, id));
    assert forall h :: 0 <= h < n ==> (Finishes(o, steps, h, k, id) <==> Finishes(o, init, h, k, id));
    if StillOpen(o, init, k, id) && !Finishes(o, steps, n, k, id) {
      var i :| Starts(o, init, i, k, id) && forall h :: i < h < n ==> !Finishes(o, init, h, k, id);
      assert Starts(o, steps, i, k, id);
    }
    if StillOpen(o, steps, k, id) && !Starts(o, steps, n, k, id) {
      var i :| Starts(o, steps, i, k, id) && forall h :: i < h < |steps| ==> !Finishes(o, steps, h, k, id);
      assert Starts(o, init, i, k, id);
    }
  }

  /** What the guard tracks is what was started and has not finished. */
  lemma {:induction false} TrackedIff(o: Options, steps: seq<Step>, k: nat, id: nat)
    ensures IsTracked(Run(Init(o), steps), k, id) <==> StillOpen(o, steps, k, id)
  {
    if steps != [] {
      var init, step := steps[..|steps| - 1], steps[|steps| - 1];
      assert steps == init + [step] && steps[..|init|] == init;
      TrackedIff(o, init, k, id);
      RunOne(Init(o), init, step);
      OpenNext(o, init, step, k, id);
      if Enabled(Run(Init(o), init), step) {
        TrackedNext(Run(Init(o), init), step, k, id);
      }
    }
  }

  // ---------------------------------------------------------------------------------------------
  // What is thrown, and what is retried
  // ---------------------------------------------------------------------------------------------

  /** With step j the body of attempt k settles. */
  ghost predicate SettlesAt(o: Options, steps: seq<Step>, j: int, k: nat) {
    0 <= j < |steps| && steps[j].BodySettles? && Enabled(Run(Init(o), steps[..j]), steps[j]) && |Run(Init(o), steps[..j]).attempts| == k + 1
  }

  /** What settling makes of what the body returned or threw: with a query left open it is an error of its own. */
  ghost function Verdict(o: Options, before: seq<Step>, k: nat, outcome: Outcome): Outcome {
    if LeftOpen(o, before, k) then Error(Thrown(Misuse, true)) else outcome
  }

  /** Another attempt follows attempt k after this error: retries are on and left; the error says that the transaction was lost
      to another one, or that the connection broke, though not on a connection that was given, nor once COMMIT was sent. */
  predicate Again(o: Options, k: nat, e: Thrown, sent: bool) {
    o.retryOnError && k + 1 < o.retryLimit && (e.kind == Abort || (e.kind == Connection && !((o.given || sent) && e.isError)))
  }

  /** Since attempt k failed with this error: no COMMIT is sent any more; the loop is about to roll back, has raised that very
      error, or has gone on to another attempt; the last exactly if the error asks for it. */
  ghost predicate ErrorFate(s: State, k: nat, e: Thrown, sent: bool) {
    && |s.attempts| >= k + 1
    && (Commit(k) in s.wire <==> sent)
    && (|s.attempts| > k + 1 ==> Again(s.o, k, e, sent))
    && (|s.attempts| == k + 1 ==>
      s.committing == sent &&
      match s.pc
      case Draining(pending, outcome) => !sent && (pending != {} || outcome.Error?) && e == (if pending != {} then Thrown(Misuse, true) else outcome.e)
      case Catching(x) => x == e
      case Raised(x) => x == e || Again(s.o, k, e, sent)
      case Sleeping => Again(s.o, k, e, sent)
      case Connecting => Again(s.o, k, e, sent)
      case _ => false)
  }

  predicate IsDestroyed(s: State, k: nat) {
    k < |s.attempts| && !s.LinkOf(s.attempts[k].link).alive
  }

  /** A connection of the pool on which an attempt failed is destroyed when the loop is done with it. */
  predicate LinkFate(s: State, k: nat) {
    !s.o.given && (|s.attempts| > k + 1 || s.pc.Raised? || s.pc.Connecting?) ==> IsDestroyed(s, k)
  }

  lemma LinkFateOutside(s: State, step: Step, k: nat)
    requires |s.attempts| >= k + 1 && LinkFate(s, k) && Enabled(s, step) && IsOutside(step)
    ensures LinkFate(Next(s, step), k)
  {
    if step.Runs? {
      ServerRunsFrame(s, step.k, step.id, step.effect);
    }
  }

  lemma LinkFateInCatch(s: State, ran: bool, k: nat)
    requires |s.attempts| >= k + 1 && LinkFate(s, k) && Enabled(s, CatchRollbackEnds(ran))
    ensures LinkFate(Next(s, CatchRollbackEnds(ran)), k)
  {
    var s1 := if ran then s.WithTx(Idle) else s;
    assert s1.attempts == s.attempts;
    ReleaseFrame(s1.(pc := Raised(s.pc.e)), true);
  }

  lemma LinkFateSlept(s: State, k: nat)
    requires |s.attempts| >= k + 1 && LinkFate(s, k) && Enabled(s, Slept)
    ensures LinkFate(Next(s, Slept), k)
  {
    ReleaseFrame(s.(pc := Connecting), true);
  }

  lemma LinkFateLater(s: State, step: Step, k: nat)
    requires |s.attempts| >= k + 1 && LinkFate(s, k) && Enabled(s, step)
    requires !IsOutside(step) && !step.CatchRollbackEnds? && !step.Slept?
    ensures LinkFate(Next(s, step), k)
  {
  }

  lemma LinkFateKept(s: State, step: Step, k: nat)
    requires |s.attempts| >= k + 1 && LinkFate(s, k)
    ensures LinkFate(Do(s, step), k)
  {
    if Enabled(s, step) {
      if IsOutside(step) {
        LinkFateOutside(s, step, k);
      } else if step.CatchRollbackEnds? {
        LinkFateInCatch(s, step.ran, k);
      } else if step.Slept? {
        LinkFateSlept(s, k);
      } else {
        LinkFateLater(s, step, k);
      }
    }
  }

  lemma ErrorFateOutside(s: State, step: Step, k: nat, e: Thrown, sent: bool)
    requires ErrorFate(s, k, e, sent) && Enabled(s, step) && IsOutside(step)
    ensures ErrorFate(Next(s, step), k, e, sent)
  {
    if step.Runs? {
      ServerRunsFrame(s, step.k, step.id, step.effect);
    }
  }

  lemma ErrorFateInCatch(s: State, ran: bool, k: nat, e: Thrown, sent: bool)
    requires ErrorFate(s, k, e, sent) && Enabled(s, CatchRollbackEnds(ran))
    ensures ErrorFate(Next(s, CatchRollbackEnds(ran)), k, e, sent)
  {
    var s1 := if ran then s.WithTx(Idle) else s;
    assert s1.attempts == s.attempts && s1.wire == s.wire;
    ReleaseFrame(s1.(pc := Raised(s.pc.e)), true);
  }

  lemma ErrorFateLater(s: State, step: Step, k: nat, e: Thrown, sent: bool)
    requires ErrorFate(s, k, e, sent) && Enabled(s, step) && !IsOutside(step) && !step.CatchRollbackEnds?
    ensures ErrorFate(Next(s, step), k, e, sent)
  {
  }

  lemma ErrorFateKept(s: State, step: Step, k: nat, e: Thrown, sent: bool)
    requires ErrorFate(s, k, e, sent)
    ensures ErrorFate(Do(s, step), k, e, sent)
  {
    if Enabled(s, step) {
      if IsOutside(step) {
        ErrorFateOutside(s, step, k, e, sent);
      } else if step.CatchRollbackEnds? {
        ErrorFateInCatch(s, step.ran, k, e, sent);
      } else {
        ErrorFateLater(s, step, k, e, sent);
      }
    }
  }

  /** The loop raises something else only when it could not connect again. */
  lemma RaisedNext(s: State, step: Step, k: nat, e: Thrown, sent: bool)
    requires ErrorFate(s, k, e, sent) && Again(s.o, k, e, sent) && !s.pc.Raised?
    ensures var s' := Do(s, step); s'.o == s.o && (|s'.attempts| == k + 1 && s'.pc.Raised? ==> step == ConnectFails(s'.pc.e))
  {
    if Enabled(s, step) {
      if step.CatchRollbackEnds? {
        assert |s.attempts| == k + 1 ==> s.pc == Catching(e) && s.committing == sent;
      } else if step.Runs? {
        ServerRunsFrame(s, step.k, step.id, step.effect);
      }
    }
  }

  lemma RaisedStays(s: State, step: Step)
    requires s.pc.Raised?
    ensures Do(s, step).pc == s.pc && |Do(s, step).attempts| == |s.attempts|
  {
    if Enabled(s, step) && step.Runs? {
      ServerRunsFrame(s, step.k, step.id, step.effect);
    }
  }

  lemma {:induction false} RaisedRun(s: State, steps: seq<Step>)
    requires s.pc.Raised?
    ensures Run(s, steps).pc == s.pc
    decreases |steps|
  {
    if steps != [] {
      RaisedStays(s, steps[0]);
      RaisedRun(Do(s, steps[0]), steps[1..]);
    }
  }

  lemma {:induction false} ErrorFateRun(s: State, steps: seq<Step>, k: nat, e: Thrown, sent: bool)
    requires ErrorFate(s, k, e, sent) && LinkFate(s, k)
    ensures ErrorFate(Run(s, steps), k, e, sent) && Run(s, steps).o == s.o && LinkFate(Run(s, steps), k)
    ensures
      var s' := Run(s, steps);
      Again(s.o, k, e, sent) && !s.pc.Raised? && |s'.attempts| == k + 1 && s'.pc.Raised? ==> ConnectFails(s'.pc.e) in steps
    decreases |steps|
  {
    if steps != [] {
      var s1 := Do(s, steps[0]);
      ErrorFateKept(s, steps[0], k, e, sent);
      LinkFateKept(s, steps[0], k);
      SameOptions(s, steps[0]);
      ErrorFateRun(s1, steps[1..], k, e, sent);
      if Again(s.o, k, e, sent) && !s.pc.Raised? {
        RaisedNext(s, steps[0], k, e, sent);
        if s1.pc.Raised? {
          RaisedRun(s1, steps[1..]);
          AttemptsStayAfter(s1, steps[1..]);
        }
      }
    }
  }

  lemma {:induction false} AttemptsStayAfter(s: State, steps: seq<Step>)
    requires s.pc.Raised?
    ensures |Run(s, steps).attempts| == |s.attempts|
    decreases |steps|
  {
    if steps != [] {
      RaisedStays(s, steps[0]);
      AttemptsStayAfter(Do(s, steps[0]), steps[1..]);
    }
  }

  // When the body settles.

  /** The flag is up only from COMMIT on. */
  predicate FlagInv(s: State) {
    s.pc.Beginning? || s.pc.InBody? || s.pc.Draining? || s.pc.RollingBackOnly? ==> !s.committing
  }

  lemma FlagInvKept(s: State, step: Step)
    requires FlagInv(s)
    ensures FlagInv(Do(s, step))
  {
    if Enabled(s, step) && step.Runs? {
      ServerRunsFrame(s, step.k, step.id, step.effect);
    }
  }

  lemma {:induction false} FlagInvRun(s: State, steps: seq<Step>)
    requires FlagInv(s)
    ensures FlagInv(Run(s, steps))
    decreases |steps|
  {
    if steps != [] {
      FlagInvKept(s, steps[0]);
      FlagInvRun(Do(s, steps[0]), steps[1..]);
    }
  }

  /** While the monitor has an attempt open, it has not seen its COMMIT. */
  lemma NoCommitInside(wire: seq<Event>, k: nat, inflight: set<nat>)
    requires Observe(wire) == Inside(k, inflight)
    ensures Commit(k) !in wire
  {
    assert wire[..|wire|] == wire;
    if Commit(k) in wire {
      var i :| 0 <= i < |wire| && wire[i] == Commit(k);
      ObserveAt(wire, i);
      AttemptsGoUp(wire, i + 1, |wire|);
      assert false;
    }
  }

  /** What is known when the body of attempt k settles. */
  lemma WhenSettling(o: Options, steps: seq<Step>, j: int, k: nat)
    requires SettlesAt(o, steps, j, k)
    ensures
      var s, s' := Run(Init(o), steps[..j]), Run(Init(o), steps[..j + 1]);
      && s.o == o && !s.committing && s.pc.InBody? && s.Last() == k && Commit(k) !in s.wire
      && (s.Current().guard.unfinished != {} <==> LeftOpen(o, steps[..j], k))
      && s' == Next(s, steps[j])
  {
    var before := steps[..j];
    var s := Run(Init(o), before);
    InvFromInit(o, before);
    FlagInvRun(Init(o), before);
    NoCommitInside(s.wire, k, s.Current().inflight);
    assert steps[..j + 1] == before + [steps[j]];
    RunOne(Init(o), before, steps[j]);
    forall id: nat ensures id in s.Current().guard.unfinished <==> StillOpen(o, before, k, id) {
      TrackedIff(o, before, k, id);
    }
  }

  lemma RestOfRun(o: Options, steps: seq<Step>, j: nat)
    requires j < |steps|
    ensures Run(Init(o), steps) == Run(Run(Init(o), steps[..j + 1]), steps[j + 1..])
  {
    RunAppend(Init(o), steps[..j + 1], steps[j + 1..]);
    assert steps == steps[..j + 1] + steps[j + 1..];
  }

  /** With step j attempt k fails with this error: at BEGIN, with its body, at the ROLLBACK of rollbackOnly, or at COMMIT. */
  ghost predicate FailsAt(o: Options, steps: seq<Step>, j: int, k: nat, e: Thrown, sent: bool) {
    && 0 <= j < |steps| && Enabled(Run(Init(o), steps[..j]), steps[j]) && |Run(Init(o), steps[..j]).attempts| == k + 1
    && match steps[j]
       case BodySettles(outcome) => !sent && Verdict(o, steps[..j], k, outcome) == Error(e)
       case BeginFails(x, _) => !sent && x == e
       case RollbackOnlyFails(x, _) => !sent && x == e
       case CommitFails(x, _) => sent && x == e
       case _ => false
  }

  /** What the wire says while an attempt is on. */
  ghost predicate WireInv(s: State) {
    s.attempts != [] && InAttempt(s.pc) ==>
      (s.pc.Committing? ==> Commit(s.Last()) in s.wire) && (s.pc.Beginning? || s.pc.InBody? || s.pc.Draining? || s.pc.RollingBackOnly? ==> Commit(s.Last()) !in s.wire)
  }

  lemma WireInvKept(s: State, step: Step)
    requires GuardInv(s) && WireInv(s)
    ensures WireInv(Do(s, step))
  {
    if Enabled(s, step) {
      if IsOutside(step) {
        WireInvOutside(s, step);
      } else if step.TakeConnection? {
        NothingOfNext(s);
      } else if step.CatchRollbackEnds? {
        var s1 := if step.ran then s.WithTx(Idle) else s;
        ReleaseFrame(s1.(pc := Raised(s.pc.e)), true);
      }
    }
  }

  lemma WireInvOutside(s: State, step: Step)
    requires WireInv(s) && Enabled(s, step) && IsOutside(step)
    ensures WireInv(Next(s, step))
  {
    if step.Runs? {
      ServerRunsFrame(s, step.k, step.id, step.effect);
    }
  }

  /** Nothing of an attempt to come is on the wire. */
  lemma NothingOfNext(s: State)
    requires GuardInv(s) && s.pc.Connecting?
    ensures Commit(|s.attempts|) !in s.wire
  {
    var k, wire := |s.attempts|, s.wire;
    assert wire[..|wire|] == wire;
    if Commit(k) in wire {
      var i :| 0 <= i < |wire| && wire[i] == Commit(k);
      ObserveAt(wire, i);
      AttemptsGoUp(wire, i + 1, |wire|);
      assert false;
    }
  }

  lemma {:induction false} WireInvRun(o: Options, steps: seq<Step>)
    ensures WireInv(Run(Init(o), steps))
  {
    if steps != [] {
      var init := steps[..|steps| - 1];
      assert steps == init + [steps[|steps| - 1]];
      WireInvRun(o, init);
      InvFromInit(o, init);
      WireInvKept(Run(Init(o), init), steps[|steps| - 1]);
      RunOne(Init(o), init, steps[|steps| - 1]);
    }
  }

  lemma WhenFailing(o: Options, steps: seq<Step>, j: int, k: nat, e: Thrown, sent: bool)
    requires FailsAt(o, steps, j, k, e, sent)
    ensures
      var s := Run(Init(o), steps[..j + 1]);
      s.o == o && ErrorFate(s, k, e, sent) && s.pc != Connecting && !s.pc.Raised? && |s.attempts| == k + 1
  {
    var before := steps[..j];
    if steps[j].BodySettles? {
      WhenSettling(o, steps, j, k);
    } else {
      WireInvRun(o, before);
      FlagInvRun(Init(o), before);
      InvFromInit(o, before);
      assert steps[..j + 1] == before + [steps[j]];
      RunOne(Init(o), before, steps[j]);
    }
  }

  /** A failed attempt, over every later run: COMMIT is not sent if it was not; the loop never returns from that attempt; it
      raises that very error, unless the error asks for a retry, and then it raises only what connecting again failed with. */
  lemma FailedAttempt(o: Options, steps: seq<Step>, j: int, k: nat, e: Thrown, sent: bool)
    requires FailsAt(o, steps, j, k, e, sent)
    ensures
      var s := Run(Init(o), steps);
      && (Commit(k) in s.wire <==> sent)
      && (s.pc.Returned? ==> |s.attempts| > k + 1)
      && (|s.attempts| > k + 1 ==> Again(o, k, e, sent))
      && (s.pc.Raised? && |s.attempts| == k + 1 ==> if Again(o, k, e, sent) then ConnectFails(s.pc.e) in steps else s.pc.e == e)
      && (!o.given && (s.pc.Raised? || |s.attempts| > k + 1) ==> IsDestroyed(s, k))
  {
    WhenFailing(o, steps, j, k, e, sent);
    RestOfRun(o, steps, j);
    var s := Run(Init(o), steps[..j + 1]);
    ErrorFateRun(s, steps[j + 1..], k, e, sent);
    assert forall step :: step in steps[j + 1..] ==> step in steps;
  }

  /** In particular when a query was left open: the loop ends in the guard's own error, or has not ended. */
  lemma LeftOpenIsRaised(o: Options, steps: seq<Step>, j: int, k: nat)
    requires SettlesAt(o, steps, j, k) && LeftOpen(o, steps[..j], k)
    ensures
      var s := Run(Init(o), steps);
      && Commit(k) !in s.wire && |s.attempts| == k + 1 && !s.pc.Returned?
      && (s.pc.Raised? ==> s.pc.e == Thrown(Misuse, true))
  {
    var e := Thrown(Misuse, true);
    FailedAttempt(o, steps, j, k, e, false);
    WhenFailing(o, steps, j, k, e, false);
    RestOfRun(o, steps, j);
    ErrorFateRun(Run(Init(o), steps[..j + 1]), steps[j + 1..], k, e, false);
  }

  // ---------------------------------------------------------------------------------------------
  // When COMMIT is sent
  // ---------------------------------------------------------------------------------------------

  predicate IsDraining(s: State, k: nat) {
    |s.attempts| == k + 1 && s.pc.Draining?
  }

  /** Since the body of attempt k returned with no query open: once those are answered COMMIT is sent, unless rollbackOnly. */
  ghost predicate ValueFate(s: State, k: nat) {
    && |s.attempts| >= k + 1
    && (|s.attempts| == k + 1 ==> !s.pc.Beginning? && !s.pc.InBody?)
    && (IsDraining(s, k) ==> s.pc == Draining({}, Value) && Commit(k) !in s.wire)
    && (!IsDraining(s, k) ==> (Commit(k) in s.wire <==> !s.o.rollbackOnly))
    && (|s.attempts| == k + 1 && s.pc.Committing? ==> Commit(k) in s.wire)
  }

  lemma ValueFateOutside(s: State, step: Step, k: nat)
    requires ValueFate(s, k) && Enabled(s, step) && IsOutside(step)
    ensures ValueFate(Next(s, step), k)
  {
    if step.Runs? {
      ServerRunsFrame(s, step.k, step.id, step.effect);
    }
  }

  lemma ValueFateInCatch(s: State, ran: bool, k: nat)
    requires ValueFate(s, k) && Enabled(s, CatchRollbackEnds(ran))
    ensures ValueFate(Next(s, CatchRollbackEnds(ran)), k)
  {
    var s1 := if ran then s.WithTx(Idle) else s;
    assert s1.attempts == s.attempts && s1.wire == s.wire;
    ReleaseFrame(s1.(pc := Raised(s.pc.e)), true);
  }

  lemma ValueFateLater(s: State, step: Step, k: nat)
    requires ValueFate(s, k) && Enabled(s, step) && !IsOutside(step) && !step.CatchRollbackEnds? && !step.Drained?
    ensures ValueFate(Next(s, step), k)
  {
  }

  lemma ValueFateDrained(s: State, k: nat)
    requires ValueFate(s, k) && Enabled(s, Drained)
    ensures ValueFate(Next(s, Drained), k)
  {
  }

  lemma {:induction false} ValueFateRun(s: State, steps: seq<Step>, k: nat)
    requires ValueFate(s, k)
    ensures ValueFate(Run(s, steps), k)
    decreases |steps|
  {
    if steps != [] {
      var step := steps[0];
      if Enabled(s, step) {
        if IsOutside(step) {
          ValueFateOutside(s, step, k);
        } else if step.CatchRollbackEnds? {
          ValueFateInCatch(s, step.ran, k);
        } else if step.Drained? {
          ValueFateDrained(s, k);
        } else {
          ValueFateLater(s, step, k);
        }
      }
      ValueFateRun(Do(s, step), steps[1..], k);
    }
  }

  /** When the wait for an attempt's queries is over, its COMMIT has been sent exactly if its body returned with no query left
      open and rollbackOnly is off. */
  lemma CommitSentIff(o: Options, steps: seq<Step>, j: int, k: nat)
    requires SettlesAt(o, steps, j, k) && !IsDraining(Run(Init(o), steps), k)
    ensures Commit(k) in Run(Init(o), steps).wire <==>
      steps[j].outcome.Value? && !LeftOpen(o, steps[..j], k) && !o.rollbackOnly
  {
    if steps[j].outcome.Value? && !LeftOpen(o, steps[..j], k) {
      WhenSettling(o, steps, j, k);
      RestOfRun(o, steps, j);
      ValueFateRun(Run(Init(o), steps[..j + 1]), steps[j + 1..], k);
      InvFromInit(o, steps);
    } else {
      FailedAttempt(o, steps, j, k, if LeftOpen(o, steps[..j], k) then Thrown(Misuse, true) else steps[j].outcome.e, false);
    }
  }

  /** A connection whose transaction ended well goes back as it is, idle and alive. */
  lemma GoodConnectionIsKept(s: State, step: Step)
    requires Enabled(s, step) && (step.CommitOk? || step.RollbackOnlyOk?)
    ensures var s' := Next(s, step); s'.pc.Returned? && |s'.attempts| == |s.attempts| && s'.CurrentLink() == Link(true, Idle)
  {
  }
}
