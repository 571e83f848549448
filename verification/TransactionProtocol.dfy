/** The transaction protocol: guard, attempts of the retry loop, and a server that may lose the reply to a COMMIT. */
module TransactionProtocol {
  // One step machine.  A run is any list of steps.  Steps of the loop (`BodySettles`, `Drained`, `CommitOk`, ...) and
  // steps of everything else (a query started by anybody who still holds a guard, a statement that the server runs, an
  // answer, a lost link) may come in any order; a step that is not enabled is skipped.

  // ---------------------------------------------------------------------------------------------
  // Errors and options
  // ---------------------------------------------------------------------------------------------

  /** How the loop classifies an error: a message or code that says the connection broke, another message that
      asks for a retry, the guard's own "transaction closed" error, or anything else. */
  datatype Kind = Connection | Abort | Misuse | Other

  /** A thrown value; `isError` is false for a thrown value that is not an `Error` instance. */
  datatype Thrown = Thrown(kind: Kind, isError: bool)

  /** What a server does with a BEGIN on a connection whose transaction is still open: it goes on with it (PostgreSQL), it
      commits it first (MySQL), or it refuses (SQLite). */
  datatype Server = Joins | Commits | Refuses

  datatype Options = Options(retryOnError: bool, retryLimit: int, rollbackOnly: bool, given: bool, server: Server)

  predicate IsUnretriedConnectionError(e: Thrown, committing: bool, given: bool) {
    (committing || given) && e.isError && e.kind.Connection?
  }

  predicate IsRetryable(e: Thrown) {
    e.kind.Connection? || e.kind.Abort?
  }

  predicate Retries(o: Options, attempt: nat, e: Thrown, committing: bool) {
    && o.retryOnError
    && attempt < o.retryLimit
    && !IsUnretriedConnectionError(e, committing, o.given)
    && IsRetryable(e)
  }

  // ---------------------------------------------------------------------------------------------
  // The guard
  // ---------------------------------------------------------------------------------------------

  /** The value of one transaction guard: is its gate closed, and which queries has it not seen finish. */
  datatype Guard = Guard(closed: bool, unfinished: set<nat>) {
    function Admit(id: nat): Guard {
      if closed then this else this.(unfinished := unfinished + {id})
    }
    function Forget(id: nat): Guard {
      this.(unfinished := unfinished - {id})
    }
    function Close(): Guard {
      this.(closed := true)
    }
  }

  /** The guard as the object that `createTransactionGuard` closes over. */
  class TransactionGuard {
    var closed: bool
    var unfinished: set<nat>

    ghost function View(): Guard
      reads this
    {
      Guard(closed, unfinished)
    }

    constructor ()
      ensures View() == Guard(false, {})
    {
      closed, unfinished := false, {};
    }

    /** `run`: the query is started, and tracked from the moment it is started, unless the gate is closed. */
    method Run(id: nat) returns (started: bool)
      modifies this
      ensures started == !old(closed)
      ensures View() == old(View()).Admit(id)
    {
      if closed {
        return false;
      }
      unfinished := unfinished + {id};
      return true;
    }

    /** The `finally` of `track`. */
    method Finish(id: nat)
      modifies this
      ensures View() == old(View()).Forget(id)
    {
      unfinished := unfinished - {id};
    }

    /** The part of `settle` between the body settling and the wait: close, then take the pending queries. */
    method Settle() returns (pending: set<nat>)
      modifies this
      ensures View() == old(View()).Close()
      ensures pending == old(unfinished)
    {
      closed := true;
      pending := unfinished;
    }
  }

  // ---------------------------------------------------------------------------------------------
  // The machine's state
  // ---------------------------------------------------------------------------------------------

  /** A query of the body: the attempt whose guard it went through, and its number there. */
  datatype Tag = Tag(attempt: nat, id: nat)

  /** One attempt.  `handed`: the body received the guard.  `issued`/`inflight`: queries sent / sent and not
      answered.  `ran`/`wrote`: queries the server ran / whose writes it took.  `aborted`: a statement made the
      server abort this attempt's transaction.  `ended`: and end it.  `releases`: calls of `release` by the loop. */
  datatype Attempt = Attempt(link: nat, guard: Guard, handed: bool, issued: set<nat>, inflight: set<nat>,
                             ran: set<nat>, wrote: set<nat>, aborted: bool, ended: bool, releases: nat)

  /** The server's side of one connection. */
  datatype Tx = Idle | Open(writes: set<Tag>) | Aborted
  datatype Link = Link(alive: bool, tx: Tx)

  /** What the client puts on, or hears from, its connection. */
  datatype Event =
    | Begin(attempt: nat)
    | Query(attempt: nat, id: nat)
    | Answer(attempt: nat, id: nat)
    | Commit(attempt: nat)
    | Rollback(attempt: nat)

  datatype Outcome = Value | Error(e: Thrown)

  /** Where the loop is.  Each of these is an `await` of the loop, except the two ends. */
  datatype Pc =
    | Connecting
    | Beginning
    | InBody
    | Draining(pending: set<nat>, outcome: Outcome)
    | RollingBackOnly
    | Committing
    | Catching(e: Thrown)
    | Sleeping
    | Returned
    | Raised(e: Thrown)

  /** `store` lists what the server made durable, one unit per commit; `strays` those that were no transaction's, because the
      server had ended it. */
  datatype State = State(o: Options, pc: Pc, attempts: seq<Attempt>, links: map<nat, Link>,
                         store: seq<set<Tag>>, strays: seq<set<Tag>>, wire: seq<Event>, committing: bool)
  {
    function LinkOf(c: nat): Link {
      if c in links then links[c] else Link(true, Idle)
    }

    function Last(): nat
      requires attempts != []
    {
      |attempts| - 1
    }

    function Current(): Attempt
      requires attempts != []
    {
      attempts[|attempts| - 1]
    }

    function CurrentLink(): Link
      requires attempts != []
    {
      LinkOf(Current().link)
    }

    function WithLink(c: nat, l: Link): State {
      this.(links := links[c := l])
    }

    function WithTx(tx: Tx): State
      requires attempts != []
    {
      WithLink(Current().link, CurrentLink().(tx := tx))
    }

    function WithAttempt(k: nat, a: Attempt): State
      requires k < |attempts|
    {
      this.(attempts := attempts[k := a])
    }

    function Says(e: Event): State {
      this.(wire := wire + [e])
    }

    /** The `finally` block: a connection that was given is left to its owner; a destroyed one is closed,
        so the server discards its transaction. */
    function Release(destroy: bool): State
      requires attempts != []
    {
      if o.given then
        this
      else
        var a := Current();
        var s := WithAttempt(Last(), a.(releases := a.releases + 1));
        if destroy then s.WithLink(a.link, Link(false, Idle)) else s
    }
  }

  const GIVEN_LINK: nat := 0

  function Init(o: Options): State {
    State(o, Connecting, [], map[], [], [], [], false)
  }

  function NewAttempt(c: nat): Attempt {
    Attempt(c, Guard(false, {}), false, {}, {}, {}, {}, false, false, 0)
  }

  function Tags(k: nat, ids: set<nat>): set<Tag> {
    set id | id in ids :: Tag(k, id)
  }

  // ---------------------------------------------------------------------------------------------
  // The steps
  // ---------------------------------------------------------------------------------------------

  /** What running a statement does on the server. A statement that fails may leave the transaction as it is; or make the server
      refuse all but the end of the transaction (PostgreSQL, after any error); or make the server roll the transaction back and
      end it there and then (MySQL, after a deadlock), so that whatever runs next is committed by itself. */
  datatype Effect = Writes | Fails | AbortsTransaction | EndsTransaction

  datatype Step =
    // steps of the loop; the arguments are what the outside world answers
    | TakeConnection(c: nat)
    | ConnectFails(e: Thrown)
    | BeginOk
    | BeginFails(e: Thrown, began: bool)
    | BodySettles(outcome: Outcome)
    | Drained
    | RollbackOnlyOk
    | RollbackOnlyFails(e: Thrown, ran: bool)
    | CommitOk
    | CommitFails(e: Thrown, applied: bool)
    | CatchRollbackEnds(ran: bool)
    | Slept
    // steps of the body, of code that leaked out of a body, of the server and of the network
    | StartQuery(k: nat, id: nat)
    | Runs(k: nat, id: nat, effect: Effect)
    | Answered(k: nat, id: nat)
    | Finished(k: nat, id: nat)
    | LosesLink(c: nat)

  predicate IsOutside(step: Step) {
    step.StartQuery? || step.Runs? || step.Answered? || step.Finished? || step.LosesLink?
  }

  predicate Enabled(s: State, step: Step) {
    match step
    // a pool hands out an idle live connection; a given connection is whatever it is by now
    case TakeConnection(c) => s.pc.Connecting? && (if s.o.given then c == GIVEN_LINK else s.LinkOf(c) == Link(true, Idle))
    case ConnectFails(_) => s.pc.Connecting? && !s.o.given
    case BeginOk => s.pc.Beginning? && s.attempts != [] && s.CurrentLink().alive && !s.CurrentLink().tx.Aborted? && !(s.CurrentLink().tx.Open? && s.o.server.Refuses?)
    case BeginFails(_, _) => s.pc.Beginning? && s.attempts != []
    case BodySettles(_) => s.pc.InBody? && s.attempts != []
    case Drained => s.pc.Draining? && s.attempts != [] && s.pc.pending !! s.Current().inflight
    case RollbackOnlyOk => s.pc.RollingBackOnly? && s.attempts != [] && s.CurrentLink().alive
    case RollbackOnlyFails(_, _) => s.pc.RollingBackOnly? && s.attempts != []
    case CommitOk => s.pc.Committing? && s.attempts != [] && s.CurrentLink().alive
    // an abort message at COMMIT means that the server did abort
    case CommitFails(e, applied) => s.pc.Committing? && s.attempts != [] && e.isError && (applied ==> !e.kind.Abort? && s.CurrentLink().alive)
    case CatchRollbackEnds(_) => s.pc.Catching? && s.attempts != []
    case Slept => s.pc.Sleeping? && s.attempts != []
    case StartQuery(k, id) => k < |s.attempts| && s.attempts[k].handed && id !in s.attempts[k].issued
    case Runs(k, id, _) => k < |s.attempts| && id in s.attempts[k].inflight && id !in s.attempts[k].ran && s.LinkOf(s.attempts[k].link).alive
    case Answered(k, id) => k < |s.attempts| && id in s.attempts[k].inflight
    case Finished(k, id) => k < |s.attempts| && id in s.attempts[k].guard.unfinished && id !in s.attempts[k].inflight
    case LosesLink(_) => true
  }

  /** The catch block up to its ROLLBACK. */
  function ToCatch(s: State, e: Thrown): State
    requires s.attempts != []
  {
    s.(pc := Catching(e)).Says(Rollback(s.Last()))
  }

  /** BEGIN, seen by the server. */
  function ServerBegins(s: State): State
    requires s.attempts != []
  {
    match s.CurrentLink().tx
    case Idle => s.WithTx(Open({}))
    case Open(writes) => if s.o.server.Commits? then s.WithTx(Open({})).(store := s.store + [writes]) else s
    case Aborted => s
  }

  /** COMMIT, seen by the server. */
  function ServerCommits(s: State): State
    requires s.attempts != []
  {
    var tx := s.CurrentLink().tx;
    if tx.Open? then s.WithTx(Idle).(store := s.store + [tx.writes]) else s.WithTx(Idle)
  }

  /** A statement, seen by the server; outside any transaction a write is committed at once. */
  function ServerRuns(s: State, k: nat, id: nat, effect: Effect): State
    requires k < |s.attempts|
  {
    var a := s.attempts[k];
    var link := s.LinkOf(a.link);
    var s' := s.WithAttempt(k, a.(ran := a.ran + {id}));
    if link.tx.Aborted? || effect.Fails? then
      s'
    else if effect.AbortsTransaction? || effect.EndsTransaction? then
      var ends := effect.EndsTransaction? && link.tx.Open?;
      var lost := s'.WithAttempt(k, a.(ran := a.ran + {id}, aborted := true, ended := a.ended || ends));
      if link.tx.Open? then lost.WithLink(a.link, link.(tx := if ends then Idle else Aborted)) else lost
    else
      var wrote := s'.WithAttempt(k, a.(ran := a.ran + {id}, wrote := a.wrote + {id}));
      if link.tx.Open? then
        wrote.WithLink(a.link, link.(tx := Open(link.tx.writes + {Tag(k, id)})))
      else
        wrote.(store := s.store + [{Tag(k, id)}], strays := s.strays + [{Tag(k, id)}])
  }

  function Next(s: State, step: Step): State
    requires Enabled(s, step)
  {
    match step
    case TakeConnection(c) =>
      s.(pc := Beginning, attempts := s.attempts + [NewAttempt(c)], committing := false).Says(Begin(|s.attempts|))
    case ConnectFails(e) =>
      s.(pc := Raised(e))
    case BeginOk =>
      ServerBegins(s).(pc := InBody).WithAttempt(s.Last(), s.Current().(handed := true))
    case BeginFails(e, began) =>
      ToCatch(if began && s.CurrentLink().alive then ServerBegins(s) else s, e)
    case BodySettles(outcome) =>
      var a := s.Current();
      s.(pc := Draining(a.guard.unfinished, outcome)).WithAttempt(s.Last(), a.(guard := a.guard.Close()))
    case Drained =>
      if s.pc.pending != {} then ToCatch(s, Thrown(Misuse, true))
      else if s.pc.outcome.Error? then ToCatch(s, s.pc.outcome.e)
      else if s.o.rollbackOnly then s.(pc := RollingBackOnly).Says(Rollback(s.Last()))
      else s.(pc := Committing, committing := true).Says(Commit(s.Last()))
    case RollbackOnlyOk =>
      s.WithTx(Idle).(pc := Returned).Release(false)
    case RollbackOnlyFails(e, ran) =>
      ToCatch(if ran && s.CurrentLink().alive then s.WithTx(Idle) else s, e)
    case CommitOk =>
      ServerCommits(s).(pc := Returned).Release(false)
    case CommitFails(e, applied) =>
      ToCatch(if applied then ServerCommits(s) else if e.kind.Abort? then s.WithTx(Idle) else s, e)
    case CatchRollbackEnds(ran) =>
      // whether the client saw this ROLLBACK fail does not matter: its error is dropped
      var s' := if ran then s.WithTx(Idle) else s;
      if Retries(s.o, |s.attempts|, s.pc.e, s.committing) then s'.(pc := Sleeping) else s'.(pc := Raised(s.pc.e)).Release(true)
    case Slept =>
      s.(pc := Connecting).Release(true)
    case StartQuery(k, id) =>
      var a := s.attempts[k];
      if a.guard.closed then
        s
      else
        s.WithAttempt(k, a.(guard := a.guard.Admit(id), issued := a.issued + {id}, inflight := a.inflight + {id})).Says(Query(k, id))
    case Runs(k, id, effect) =>
      ServerRuns(s, k, id, effect)
    case Answered(k, id) =>
      var a := s.attempts[k];
      s.WithAttempt(k, a.(inflight := a.inflight - {id})).Says(Answer(k, id))
    case Finished(k, id) =>
      var a := s.attempts[k];
      s.WithAttempt(k, a.(guard := a.guard.Forget(id)))
    case LosesLink(c) =>
      s.WithLink(c, Link(false, Idle))
  }

  function Do(s: State, step: Step): State {
    if Enabled(s, step) then Next(s, step) else s
  }

  function Run(s: State, steps: seq<Step>): State
    decreases |steps|
  {
    if steps == [] then s else Run(Do(s, steps[0]), steps[1..])
  }

  lemma {:induction false} RunAppend(s: State, a: seq<Step>, b: seq<Step>)
    ensures Run(s, a + b) == Run(Run(s, a), b)
    decreases |a|
  {
    if a == [] {
      assert a + b == b;
    } else {
      assert (a + b)[1..] == a[1..] + b;
      RunAppend(Do(s, a[0]), a[1..], b);
    }
  }

  // ---------------------------------------------------------------------------------------------
  // The wire: a reference monitor that knows nothing of guards
  // ---------------------------------------------------------------------------------------------

  /** Attempts follow one another; queries lie between their own attempt's BEGIN and its first COMMIT or
      ROLLBACK; and that COMMIT or ROLLBACK is sent when no query of the attempt is unanswered. */
  datatype Monitor = Outside | Inside(k: nat, inflight: set<nat>) | Ended(k: nat) | Broken

  function Watch(m: Monitor, e: Event): Monitor {
    match e
    case Begin(k) =>
      if (m.Outside? && k == 0) || (m.Ended? && k == m.k + 1) then Inside(k, {}) else Broken
    case Query(k, id) =>
      if m.Inside? && k == m.k then Inside(k, m.inflight + {id}) else Broken
    case Answer(k, id) =>
      if m.Inside? && k == m.k && id in m.inflight then Inside(k, m.inflight - {id}) else Broken
    case Commit(k) =>
      if m == Inside(k, {}) then Ended(k) else Broken
    case Rollback(k) =>
      if m == Inside(k, {}) || m == Ended(k) then Ended(k) else Broken
  }

  function Observe(wire: seq<Event>): Monitor {
    if wire == [] then Outside else Watch(Observe(wire[..|wire| - 1]), wire[|wire| - 1])
  }

  lemma ObserveSays(wire: seq<Event>, e: Event)
    ensures Observe(wire + [e]) == Watch(Observe(wire), e)
  {
    assert (wire + [e])[..|wire|] == wire;
  }

  // ---------------------------------------------------------------------------------------------
  // The invariant of every run
  // ---------------------------------------------------------------------------------------------

  /** An attempt that is over: nobody can start a query on it, and none of its queries is unanswered. */
  predicate Over(a: Attempt) {
    (a.handed ==> a.guard.closed) && a.inflight == {}
  }

  predicate InAttempt(pc: Pc) {
    !pc.Connecting? && !pc.Returned? && !pc.Raised?
  }

  /** The part about the guards: which attempts are over, and what the monitor has seen. */
  ghost predicate GuardInv(s: State) {
    && (InAttempt(s.pc) ==> s.attempts != [])
    && (s.pc.Returned? ==> s.attempts != [])
    && (forall i :: 0 <= i < |s.attempts| - 1 ==> Over(s.attempts[i]))
    && (s.attempts == [] ==> Observe(s.wire) == Outside)
    && (s.attempts != [] ==>
      var a := s.Current();
      && a.inflight <= a.guard.unfinished
      && match s.pc
         case Beginning => !a.handed && a.guard == Guard(false, {}) && a.inflight == {} && Observe(s.wire) == Inside(s.Last(), {})
         case InBody => a.handed && !a.guard.closed && Observe(s.wire) == Inside(s.Last(), a.inflight)
         case Draining(pending, _) => a.handed && a.guard.closed && a.inflight <= pending && Observe(s.wire) == Inside(s.Last(), a.inflight)
         case _ => Over(a) && Observe(s.wire) == Ended(s.Last()))
  }

  /** The current attempt is over, and nothing forbids another ROLLBACK. */
  ghost predicate MayRollBack(s: State) {
    && s.attempts != []
    && (forall i :: 0 <= i < |s.attempts| ==> Over(s.attempts[i]))
    && s.Current().inflight <= s.Current().guard.unfinished
    && Observe(s.wire) in {Inside(s.Last(), {}), Ended(s.Last())}
  }

  lemma ToCatchKeeps(s: State, e: Thrown)
    requires MayRollBack(s)
    ensures GuardInv(ToCatch(s, e))
  {
    ObserveSays(s.wire, Rollback(s.Last()));
  }

  lemma GuardInvDrained(s: State)
    requires GuardInv(s) && Enabled(s, Drained)
    ensures GuardInv(Next(s, Drained))
  {
    assert s.Current().inflight == {};
    assert MayRollBack(s);
    if s.pc.pending != {} {
      ToCatchKeeps(s, Thrown(Misuse, true));
    } else if s.pc.outcome.Error? {
      ToCatchKeeps(s, s.pc.outcome.e);
    } else if s.o.rollbackOnly {
      ObserveSays(s.wire, Rollback(s.Last()));
    } else {
      ObserveSays(s.wire, Commit(s.Last()));
    }
  }

  lemma GuardInvErrors(s: State, step: Step)
    requires GuardInv(s) && Enabled(s, step)
    requires step.BeginFails? || step.RollbackOnlyFails? || step.CommitFails?
    ensures GuardInv(Next(s, step))
  {
    var before := BeforeCatch(s, step);
    assert MayRollBack(before);
    ToCatchKeeps(before, step.e);
  }

  /** What the server may have done although the answer is an error. */
  function BeforeCatch(s: State, step: Step): (r: State)
    requires Enabled(s, step) && (step.BeginFails? || step.RollbackOnlyFails? || step.CommitFails?)
    ensures s.attempts != [] && r.attempts == s.attempts && r.wire == s.wire && Next(s, step) == ToCatch(r, step.e)
  {
    match step
    case BeginFails(_, began) => if began && s.CurrentLink().alive then ServerBegins(s) else s
    case RollbackOnlyFails(_, ran) => if ran && s.CurrentLink().alive then s.WithTx(Idle) else s
    case CommitFails(e, applied) => if applied then ServerCommits(s) else if e.kind.Abort? then s.WithTx(Idle) else s
    case _ => s
  }

  /** `release` touches nothing that the guards or the monitor depend on. */
  lemma ReleaseFrame(s: State, destroy: bool)
    requires s.attempts != []
    ensures
      var s' := s.Release(destroy);
      && s'.pc == s.pc && s'.wire == s.wire && s'.o == s.o && s'.store == s.store && s'.strays == s.strays && s'.committing == s.committing
      && s'.attempts == s.attempts[s.Last() := s.Current().(releases := s'.Current().releases)]
      && s'.Current().releases == s.Current().releases + if s.o.given then 0 else 1
  {
  }

  lemma QuietKeeps(s: State, s': State, releases: nat)
    requires GuardInv(s) && (s.pc.Catching? || s.pc.Sleeping? || s.pc.Committing? || s.pc.RollingBackOnly?)
    requires s'.pc.Sleeping? || s'.pc.Connecting? || s'.pc.Returned? || s'.pc.Raised?
    requires s'.wire == s.wire && s'.attempts == s.attempts[s.Last() := s.Current().(releases := releases)]
    ensures GuardInv(s')
  {
  }

  lemma GuardInvEnds(s: State, step: Step)
    requires GuardInv(s) && Enabled(s, step)
    requires step.RollbackOnlyOk? || step.CommitOk? || step.Slept?
    ensures GuardInv(Next(s, step))
  {
    var s1 := if step.CommitOk? then ServerCommits(s).(pc := Returned)
              else if step.Slept? then s.(pc := Connecting) else s.WithTx(Idle).(pc := Returned);
    assert s1.attempts == s.attempts && s1.wire == s.wire;
    ReleaseFrame(s1, step.Slept?);
    assert Next(s, step) == s1.Release(step.Slept?);
    QuietKeeps(s, Next(s, step), Next(s, step).Current().releases);
  }

  lemma GuardInvCaught(s: State, ran: bool)
    requires GuardInv(s) && Enabled(s, CatchRollbackEnds(ran))
    ensures GuardInv(Next(s, CatchRollbackEnds(ran)))
  {
    var s' := Next(s, CatchRollbackEnds(ran));
    var s1 := if ran then s.WithTx(Idle) else s;
    assert s1.attempts == s.attempts && s1.wire == s.wire;
    ReleaseFrame(s1.(pc := Raised(s.pc.e)), true);
    assert s' == s1.(pc := Sleeping) || s' == s1.(pc := Raised(s.pc.e)).Release(true);
    QuietKeeps(s, s', s'.Current().releases);
  }

  lemma GuardInvStarts(s: State, step: Step)
    requires GuardInv(s) && Enabled(s, step)
    requires step.TakeConnection? || step.ConnectFails? || step.BeginOk? || step.BodySettles?
    ensures GuardInv(Next(s, step))
  {
    ObserveSays(s.wire, Begin(|s.attempts|));
  }

  lemma GuardInvSent(s: State, step: Step)
    requires GuardInv(s) && Enabled(s, step)
    requires step.StartQuery? || step.Answered?
    ensures GuardInv(Next(s, step))
  {
    if step.StartQuery? {
      ObserveSays(s.wire, Query(step.k, step.id));
    } else {
      ObserveSays(s.wire, Answer(step.k, step.id));
    }
  }

  /** A statement on the server touches no guard, no wire and no other attempt. */
  lemma ServerRunsFrame(s: State, k: nat, id: nat, effect: Effect)
    requires k < |s.attempts|
    ensures
      var s' := ServerRuns(s, k, id, effect);
      && s'.pc == s.pc && s'.wire == s.wire && s'.o == s.o && s'.committing == s.committing
      && |s'.attempts| == |s.attempts|
      && s'.attempts == s.attempts[k := s'.attempts[k]]
      && s'.attempts[k] == s.attempts[k].(ran := s.attempts[k].ran + {id}, wrote := s'.attempts[k].wrote, aborted := s'.attempts[k].aborted, ended := s'.attempts[k].ended)
  {
  }

  lemma GuardInvUnsent(s: State, step: Step)
    requires GuardInv(s) && Enabled(s, step)
    requires step.Runs? || step.Finished? || step.LosesLink?
    ensures GuardInv(Next(s, step))
  {
    if step.Runs? {
      var s' := ServerRuns(s, step.k, step.id, step.effect);
      ServerRunsFrame(s, step.k, step.id, step.effect);
      assert Next(s, step) == s';
    }
  }

  lemma GuardInvKept(s: State, step: Step)
    requires GuardInv(s)
    ensures GuardInv(Do(s, step))
  {
    if Enabled(s, step) {
      match step
      case Drained => GuardInvDrained(s);
      case CatchRollbackEnds(ran) => GuardInvCaught(s, ran);
      case BeginFails(_, _) => GuardInvErrors(s, step);
      case RollbackOnlyFails(_, _) => GuardInvErrors(s, step);
      case CommitFails(_, _) => GuardInvErrors(s, step);
      case TakeConnection(_) => GuardInvStarts(s, step);
      case ConnectFails(_) => GuardInvStarts(s, step);
      case BeginOk => GuardInvStarts(s, step);
      case BodySettles(_) => GuardInvStarts(s, step);
      case StartQuery(_, _) => GuardInvSent(s, step);
      case Answered(_, _) => GuardInvSent(s, step);
      case Runs(_, _, _) => GuardInvUnsent(s, step);
      case Finished(_, _) => GuardInvUnsent(s, step);
      case LosesLink(_) => GuardInvUnsent(s, step);
      case _ => GuardInvEnds(s, step);
    }
  }

  // ---------------------------------------------------------------------------------------------
  // What the monitor's acceptance means
  // ---------------------------------------------------------------------------------------------

  lemma {:induction false} ObservePrefix(wire: seq<Event>, n: nat)
    requires n <= |wire| && Observe(wire) != Broken
    ensures Observe(wire[..n]) != Broken
    decreases |wire| - n
  {
    if n == |wire| {
      assert wire[..n] == wire;
    } else {
      ObservePrefix(wire, n + 1);
      assert wire[..n + 1][..n] == wire[..n];
    }
  }

  /** The attempt that the monitor is at; attempts only go up. */
  function At(m: Monitor): int {
    match m case Inside(k, _) => k case Ended(k) => k case _ => -1
  }

  lemma {:induction false} AttemptsGoUp(wire: seq<Event>, i: nat, j: nat)
    requires i <= j <= |wire| && Observe(wire) != Broken
    ensures At(Observe(wire[..i])) <= At(Observe(wire[..j]))
    ensures At(Observe(wire[..i])) == At(Observe(wire[..j])) && Observe(wire[..i]).Ended? ==> Observe(wire[..j]).Ended?
    decreases j - i
  {
    if i < j {
      AttemptsGoUp(wire, i, j - 1);
      ObservePrefix(wire, j - 1);
      ObservePrefix(wire, j);
      assert wire[..j] == wire[..j - 1] + [wire[j - 1]];
      ObserveSays(wire[..j - 1], wire[j - 1]);
    }
  }

  lemma ObserveAt(wire: seq<Event>, i: nat)
    requires i < |wire| && Observe(wire) != Broken
    ensures Observe(wire[..i + 1]) == Watch(Observe(wire[..i]), wire[i]) != Broken
  {
    ObservePrefix(wire, i + 1);
    assert wire[..i + 1] == wire[..i] + [wire[i]];
    ObserveSays(wire[..i], wire[i]);
  }

  /** After an attempt's COMMIT or ROLLBACK, a query on the wire belongs to a later attempt. */
  lemma NoQueryAfterEnd(wire: seq<Event>, i: nat, j: nat)
    requires Observe(wire) != Broken && i < j < |wire|
    requires (wire[i].Commit? || wire[i].Rollback?) && wire[j].Query?
    ensures wire[j].attempt > wire[i].attempt
  {
    ObserveAt(wire, i);
    ObserveAt(wire, j);
    AttemptsGoUp(wire, i + 1, j);
  }

  lemma {:induction false} UnansweredStays(wire: seq<Event>, i: nat, j: nat)
    requires Observe(wire) != Broken && i < j <= |wire| && wire[i].Query?
    requires forall m :: i < m < j ==> wire[m] != Answer(wire[i].attempt, wire[i].id)
    ensures Observe(wire[..j]).Inside? && Observe(wire[..j]).k == wire[i].attempt && wire[i].id in Observe(wire[..j]).inflight
    decreases j
  {
    ObserveAt(wire, j - 1);
    if i + 1 < j {
      UnansweredStays(wire, i, j - 1);
    }
  }

  /** Whatever was sent before a COMMIT, or a ROLLBACK, was answered before it. */
  lemma AnsweredBeforeEnd(wire: seq<Event>, i: nat, j: nat)
    requires Observe(wire) != Broken && i < j < |wire|
    requires wire[i].Query? && (wire[j].Commit? || wire[j].Rollback?)
    ensures exists m :: i < m < j && wire[m] == Answer(wire[i].attempt, wire[i].id)
  {
    if forall m :: i < m < j ==> wire[m] != Answer(wire[i].attempt, wire[i].id) {
      UnansweredStays(wire, i, j);
      ObserveAt(wire, j);
      assert false;
    }
  }

  // ---------------------------------------------------------------------------------------------
  // Attempts, releases and commits
  // ---------------------------------------------------------------------------------------------

  function Released(s: State): nat {
    if s.o.given then 0 else 1
  }

  function Max(a: int, b: int): int {
    if a < b then b else a
  }

  /** The part about the loop: how many attempts, who was released how often, how many commits. */
  ghost predicate LoopInv(s: State) {
    && (InAttempt(s.pc) ==> s.attempts != [])
    && |s.attempts| <= Max(1, s.o.retryLimit)
    && (s.pc.Sleeping? ==> |s.attempts| < s.o.retryLimit)
    && (s.pc.Connecting? ==> s.attempts == [] || |s.attempts| < s.o.retryLimit)
    && (forall i :: 0 <= i < |s.attempts| - 1 ==> s.attempts[i].releases == Released(s))
    && (s.attempts != [] ==> s.Current().releases == if InAttempt(s.pc) then 0 else Released(s))
    // a statement runs outside a transaction exactly if an earlier one ended it
    && (s.pc.InBody? || s.pc.Draining? ==> s.CurrentLink().alive ==> (s.CurrentLink().tx.Idle? <==> s.Current().ended))
    && (s.attempts != [] && s.Current().ended ==> s.Current().aborted)
    && (s.pc.Beginning? ==> !s.Current().ended)
    && (s.pc.Committing? ==> s.committing)
    && (s.pc.RollingBackOnly? ==> s.o.rollbackOnly)
    && (s.o.rollbackOnly ==> !s.pc.Committing?)
    // only a connection that is used again can have a transaction open at BEGIN
    && (s.attempts == [] ==> s.LinkOf(GIVEN_LINK).tx.Idle?)
    && (s.pc.Sleeping? || (s.pc.Connecting? && s.attempts != []) ==> s.o.retryOnError)
    && (s.pc.Beginning? && !ReusesConnection(s.o) ==> s.CurrentLink().tx.Idle?)
    && (!BeginCommits(s.o) ==> StoreInv(s))
  }

  /** Of what is durable, all but the strays came from the one COMMIT that ends the loop. */
  ghost predicate StoreInv(s: State) {
    && OneCommit(s)
    && (s.store != s.strays ==> s.pc.Returned? || s.pc.Raised? || (s.pc.Catching? && s.committing && s.pc.e.isError && !s.pc.e.kind.Abort?))
  }

  /** What is durable are the strays and then at most one unit that was committed, none with rollbackOnly. */
  predicate OneCommit(s: State) {
    s.strays <= s.store && |s.store| <= |s.strays| + if s.o.rollbackOnly then 0 else 1
  }

  /** Can the loop send BEGIN on a connection with an open transaction, to a server that then commits it? */
  predicate BeginCommits(o: Options) {
    o.server.Commits? && ReusesConnection(o)
  }

  lemma LoopInvRuns(s: State, step: Step)
    requires GuardInv(s) && LoopInv(s) && Enabled(s, step) && step.Runs?
    ensures LoopInv(Next(s, step))
  {
    ServerRunsFrame(s, step.k, step.id, step.effect);
    assert step.k == s.Last() && (s.pc.InBody? || s.pc.Draining?);
  }

  lemma LoopInvQuery(s: State, step: Step)
    requires GuardInv(s) && LoopInv(s) && Enabled(s, step) && (step.StartQuery? || step.Answered? || step.Finished?)
    ensures LoopInv(Next(s, step))
  {
  }

  lemma LoopInvLosesLink(s: State, c: nat)
    requires LoopInv(s)
    ensures LoopInv(Next(s, LosesLink(c)))
  {
  }

  lemma LoopInvStarts(s: State, step: Step)
    requires LoopInv(s) && Enabled(s, step)
    requires step.TakeConnection? || step.ConnectFails? || step.BeginOk? || step.BodySettles?
    ensures LoopInv(Next(s, step))
  {
  }

  lemma LoopInvDrained(s: State)
    requires LoopInv(s) && Enabled(s, Drained)
    ensures LoopInv(Next(s, Drained))
  {
  }

  lemma LoopInvRollbackOnlyFails(s: State, step: Step)
    requires LoopInv(s) && Enabled(s, step) && step.RollbackOnlyFails?
    ensures LoopInv(Next(s, step))
  {
  }

  lemma LoopInvBeginFails(s: State, step: Step)
    requires LoopInv(s) && Enabled(s, step) && step.BeginFails?
    ensures LoopInv(Next(s, step))
  {
  }

  lemma LoopInvCommitFails(s: State, step: Step)
    requires LoopInv(s) && Enabled(s, step) && step.CommitFails?
    ensures LoopInv(Next(s, step))
  {
  }

  lemma LoopInvEnds(s: State, step: Step)
    requires LoopInv(s) && Enabled(s, step)
    requires step.RollbackOnlyOk? || step.CommitOk? || step.Slept?
    ensures LoopInv(Next(s, step))
  {
    var s' := Next(s, step);
    assert |s'.attempts| == |s.attempts|;
    assert forall i :: 0 <= i < |s.attempts| - 1 ==> s'.attempts[i] == s.attempts[i];
  }

  lemma LoopInvRetries(s: State, s': State)
    requires LoopInv(s) && s.pc.Catching? && s.attempts != [] && Retries(s.o, |s.attempts|, s.pc.e, s.committing)
    requires s' == s.(pc := Sleeping) || s' == s.WithTx(Idle).(pc := Sleeping)
    ensures LoopInv(s')
  {
  }

  lemma LoopInvRaises(s: State, s1: State)
    requires LoopInv(s) && s.pc.Catching? && s.attempts != [] && (s1 == s || s1 == s.WithTx(Idle))
    ensures LoopInv(s1.(pc := Raised(s.pc.e)).Release(true))
  {
    assert s1.attempts == s.attempts && s1.store == s.store;
    ReleaseFrame(s1.(pc := Raised(s.pc.e)), true);
  }

  lemma LoopInvCaught(s: State, ran: bool)
    requires LoopInv(s) && Enabled(s, CatchRollbackEnds(ran))
    ensures LoopInv(Next(s, CatchRollbackEnds(ran)))
  {
    if Retries(s.o, |s.attempts|, s.pc.e, s.committing) {
      LoopInvRetries(s, Next(s, CatchRollbackEnds(ran)));
    } else {
      LoopInvRaises(s, if ran then s.WithTx(Idle) else s);
    }
  }

  lemma LoopInvKept(s: State, step: Step)
    requires GuardInv(s) && LoopInv(s)
    ensures LoopInv(Do(s, step))
  {
    if Enabled(s, step) {
      if step.Runs? {
        LoopInvRuns(s, step);
      } else if step.LosesLink? {
        LoopInvLosesLink(s, step.c);
      } else if IsOutside(step) {
        LoopInvQuery(s, step);
      } else if step.TakeConnection? || step.ConnectFails? || step.BeginOk? || step.BodySettles? {
        LoopInvStarts(s, step);
      } else if step.CatchRollbackEnds? {
        LoopInvCaught(s, step.ran);
      } else if step.RollbackOnlyOk? || step.CommitOk? || step.Slept? {
        LoopInvEnds(s, step);
      } else if step.CommitFails? {
        LoopInvCommitFails(s, step);
      } else if step.BeginFails? {
        LoopInvBeginFails(s, step);
      } else if step.Drained? {
        LoopInvDrained(s);
      } else {
        LoopInvRollbackOnlyFails(s, step);
      }
    }
  }

  // ---------------------------------------------------------------------------------------------
  // What exactly was committed
  // ---------------------------------------------------------------------------------------------

  /** Can the loop open a second transaction on a connection that it did not acquire? */
  predicate ReusesConnection(o: Options) {
    o.given && o.retryOnError && o.retryLimit > 1
  }

  /** On a connection that will be used again, with a server that does not refuse a BEGIN there, the ROLLBACK of the catch block
      does take effect. */
  predicate Benign(o: Options, step: Step) {
    step.CatchRollbackEnds? && ReusesConnection(o) && !o.server.Refuses? ==> step.ran
  }

  /** The writes of the current attempt. */
  function Written(s: State): set<Tag>
    requires s.attempts != []
  {
    Tags(s.Last(), s.Current().wrote)
  }

  ghost predicate ContentInv(s: State) {
    && StoreInv(s)
    && (s.attempts == [] ==> s.store == [] && s.LinkOf(GIVEN_LINK).tx.Idle?)
    && ((s.pc.Connecting? || s.pc.Sleeping?) && s.o.given && !s.o.server.Refuses? ==> s.LinkOf(GIVEN_LINK).tx.Idle?)
    && (s.o.given ==> forall a <- s.attempts :: a.link == GIVEN_LINK)
    && (s.attempts != [] ==>
      var a := s.Current();
      && (s.pc.Beginning? ==> (s.o.server.Refuses? || s.CurrentLink().tx.Idle?) && a.wrote == {} && !a.aborted && !a.ended)
      && ((s.pc.InBody? || s.pc.Draining? || s.pc.Committing?) && s.CurrentLink().alive ==>
          s.CurrentLink().tx == if a.ended then Idle else if a.aborted then Aborted else Open(Written(s)))
      && (s.store != s.strays ==> s.store == s.strays + [Written(s)] && !a.aborted)
      && (s.pc.Returned? && !s.o.rollbackOnly && !a.aborted ==> s.store == s.strays + [Written(s)]))
  }

  lemma ContentInvRuns(s: State, step: Step)
    requires GuardInv(s) && LoopInv(s) && ContentInv(s) && Enabled(s, step) && step.Runs?
    ensures ContentInv(Next(s, step))
  {
    var s' := Next(s, step);
    ServerRunsFrame(s, step.k, step.id, step.effect);
    assert step.k == s.Last() && (s.pc.InBody? || s.pc.Draining?);
    assert Tags(s.Last(), s.Current().wrote + {step.id}) == Written(s) + {Tag(step.k, step.id)};
  }

  /** Guards, answers and the wire do not matter for what was committed. */
  lemma ContentFrame(s: State, s': State)
    requires ContentInv(s)
    requires s'.pc == s.pc && s'.o == s.o && s'.store == s.store && s'.strays == s.strays && s'.committing == s.committing && s'.links == s.links && |s'.attempts| == |s.attempts|
    requires forall i :: 0 <= i < |s.attempts| ==>
      s'.attempts[i].link == s.attempts[i].link && s'.attempts[i].wrote == s.attempts[i].wrote && s'.attempts[i].aborted == s.attempts[i].aborted && s'.attempts[i].ended == s.attempts[i].ended
    ensures ContentInv(s')
  {
    forall a | a in s'.attempts && s.o.given ensures a.link == GIVEN_LINK {
      var i :| 0 <= i < |s'.attempts| && s'.attempts[i] == a;
      assert s.attempts[i] in s.attempts;
    }
  }

  lemma ContentInvOutside(s: State, step: Step)
    requires ContentInv(s) && Enabled(s, step) && IsOutside(step) && !step.Runs?
    ensures ContentInv(Next(s, step))
  {
    var s' := Next(s, step);
    if step.LosesLink? {
      assert s' == s.WithLink(step.c, Link(false, Idle));
    } else {
      ContentFrame(s, s');
    }
  }

  lemma ContentInvStarts(s: State, step: Step)
    requires LoopInv(s) && ContentInv(s) && Enabled(s, step)
    requires step.TakeConnection? || step.ConnectFails? || step.BeginOk? || step.BodySettles?
    ensures ContentInv(Next(s, step))
  {
  }

  lemma ContentInvDrained(s: State)
    requires LoopInv(s) && ContentInv(s) && Enabled(s, Drained)
    ensures ContentInv(Next(s, Drained))
  {
  }

  lemma ContentInvUnended(s: State, step: Step)
    requires LoopInv(s) && ContentInv(s) && Enabled(s, step) && (step.BeginFails? || step.RollbackOnlyFails?)
    ensures ContentInv(Next(s, step))
  {
  }

  lemma ContentInvCommitFails(s: State, step: Step)
    requires LoopInv(s) && ContentInv(s) && Enabled(s, step) && step.CommitFails?
    ensures ContentInv(Next(s, step))
  {
  }

  lemma ContentInvEnds(s: State, step: Step)
    requires LoopInv(s) && ContentInv(s) && Enabled(s, step) && Benign(s.o, step)
    requires step.RollbackOnlyOk? || step.CommitOk? || step.Slept?
    ensures ContentInv(Next(s, step))
  {
  }

  lemma ContentInvCaught(s: State, ran: bool)
    requires LoopInv(s) && ContentInv(s) && Enabled(s, CatchRollbackEnds(ran)) && Benign(s.o, CatchRollbackEnds(ran))
    ensures ContentInv(Next(s, CatchRollbackEnds(ran)))
  {
  }

  lemma ContentInvKept(s: State, step: Step)
    requires GuardInv(s) && LoopInv(s) && ContentInv(s) && Benign(s.o, step)
    ensures ContentInv(Do(s, step))
  {
    if Enabled(s, step) {
      if step.Runs? {
        ContentInvRuns(s, step);
      } else if IsOutside(step) {
        ContentInvOutside(s, step);
      } else if step.TakeConnection? || step.ConnectFails? || step.BeginOk? || step.BodySettles? {
        ContentInvStarts(s, step);
      } else if step.CatchRollbackEnds? {
        ContentInvCaught(s, step.ran);
      } else if step.RollbackOnlyOk? || step.CommitOk? || step.Slept? {
        ContentInvEnds(s, step);
      } else if step.CommitFails? {
        ContentInvCommitFails(s, step);
      } else if step.Drained? {
        ContentInvDrained(s);
      } else {
        ContentInvUnended(s, step);
      }
    }
  }

  // ---------------------------------------------------------------------------------------------
  // Every run
  // ---------------------------------------------------------------------------------------------

  lemma {:induction false} InvRun(s: State, steps: seq<Step>)
    requires GuardInv(s) && LoopInv(s)
    ensures GuardInv(Run(s, steps)) && LoopInv(Run(s, steps)) && Run(s, steps).o == s.o
    ensures ContentInv(s) && (forall step <- steps :: Benign(s.o, step)) ==> ContentInv(Run(s, steps))
    decreases |steps|
  {
    if steps != [] {
      GuardInvKept(s, steps[0]);
      LoopInvKept(s, steps[0]);
      if ContentInv(s) && Benign(s.o, steps[0]) {
        ContentInvKept(s, steps[0]);
      }
      SameOptions(s, steps[0]);
      InvRun(Do(s, steps[0]), steps[1..]);
    }
  }

  lemma SameOptions(s: State, step: Step)
    ensures Do(s, step).o == s.o
  {
  }

  lemma InvFromInit(o: Options, steps: seq<Step>)
    ensures GuardInv(Run(Init(o), steps)) && LoopInv(Run(Init(o), steps)) && Run(Init(o), steps).o == o
    ensures (forall step <- steps :: Benign(o, step)) ==> ContentInv(Run(Init(o), steps))
  {
    InvRun(Init(o), steps);
  }

  /** In every interleaving the connection carries what the monitor accepts: see `NoQueryAfterEnd` and
      `AnsweredBeforeEnd` for what that means. */
  lemma WireIsOrdered(o: Options, steps: seq<Step>)
    ensures Observe(Run(Init(o), steps).wire) != Broken
  {
    InvFromInit(o, steps);
  }

  /** The loop ends within max(1, retryLimit) attempts. */
  lemma AttemptsAreBounded(o: Options, steps: seq<Step>)
    ensures |Run(Init(o), steps).attempts| <= Max(1, o.retryLimit)
  {
    InvFromInit(o, steps);
  }

  /** Once the loop has ended, each connection that it took was released exactly once, and a connection that
      it was given never. */
  lemma ReleasedExactlyOnce(o: Options, steps: seq<Step>)
    ensures
      var s := Run(Init(o), steps);
      s.pc.Returned? || s.pc.Raised? ==> forall a <- s.attempts :: a.releases == if o.given then 0 else 1
  {
    InvFromInit(o, steps);
  }

  lemma RunOne(s: State, steps: seq<Step>, step: Step)
    ensures Run(s, steps + [step]) == Do(Run(s, steps), step)
  {
    RunAppend(s, steps, [step]);
    assert [step][1..] == [];
  }

  // ---------------------------------------------------------------------------------------------
  // What the server made of the statements
  // ---------------------------------------------------------------------------------------------

  /** With this step a statement of attempt k makes the server abort its transaction. */
  predicate Aborts(s: State, step: Step, k: nat) {
    && step.Runs? && step.k == k && (step.effect.AbortsTransaction? || step.effect.EndsTransaction?) && Enabled(s, step)
    && !s.LinkOf(s.attempts[k].link).tx.Aborted?
  }

  /** And end it. */
  predicate Ends(s: State, step: Step, k: nat) {
    step.Runs? && step.k == k && step.effect.EndsTransaction? && Enabled(s, step) && s.LinkOf(s.attempts[k].link).tx.Open?
  }

  /** With this step a statement of attempt k that writes is run. */
  predicate Takes(s: State, step: Step, k: nat) {
    step.Runs? && step.k == k && step.effect.Writes? && Enabled(s, step)
  }

  /** Among these steps a statement of attempt k aborted its transaction, or ended it. */
  ghost predicate AbortedIn(o: Options, steps: seq<Step>, k: nat) {
    exists i :: 0 <= i < |steps| && Aborts(Run(Init(o), steps[..i]), steps[i], k)
  }

  ghost predicate EndedIn(o: Options, steps: seq<Step>, k: nat) {
    exists i :: 0 <= i < |steps| && Ends(Run(Init(o), steps[..i]), steps[i], k)
  }

  /** A statement of an attempt takes effect after one that ended the attempt's transaction. */
  ghost predicate StraysIn(o: Options, steps: seq<Step>) {
    exists j, k: nat :: StraysAt(o, steps, j, k)
  }

  ghost predicate StraysAt(o: Options, steps: seq<Step>, j: int, k: nat) {
    0 <= j < |steps| && Takes(Run(Init(o), steps[..j]), steps[j], k) && EndedIn(o, steps[..j], k)
  }

  predicate IsAborted(s: State, k: nat) {
    k < |s.attempts| && s.attempts[k].aborted
  }

  predicate IsEnded(s: State, k: nat) {
    k < |s.attempts| && s.attempts[k].ended
  }

  /** What the server has done for attempt k is the same, and so is what was committed outside any transaction. */
  predicate SameRecord(s: State, s': State, k: nat) {
    && s'.strays == s.strays && |s'.attempts| >= |s.attempts|
    && (k < |s.attempts| ==>
      var a, a' := s.attempts[k], s'.attempts[k];
      a'.inflight == a.inflight && a'.ran == a.ran && a'.aborted == a.aborted && a'.ended == a.ended)
    && (|s.attempts| <= k < |s'.attempts| ==>
      var a' := s'.attempts[k];
      a'.inflight == {} && !a'.aborted && !a'.ended)
  }

  lemma RecordStaysInCatch(s: State, ran: bool, k: nat)
    requires Enabled(s, CatchRollbackEnds(ran))
    ensures SameRecord(s, Next(s, CatchRollbackEnds(ran)), k)
  {
    var s1 := if ran then s.WithTx(Idle) else s;
    assert s1.attempts == s.attempts && s1.strays == s.strays;
    ReleaseFrame(s1.(pc := Raised(s.pc.e)), true);
  }

  lemma RecordStaysAtEnd(s: State, step: Step, k: nat)
    requires Enabled(s, step) && (step.RollbackOnlyOk? || step.CommitOk? || step.Slept? || step.Drained?)
    ensures SameRecord(s, Next(s, step), k)
  {
  }

  lemma RecordStays(s: State, step: Step, k: nat)
    requires Enabled(s, step) && !step.Runs? && !step.StartQuery? && !step.Answered?
    ensures SameRecord(s, Next(s, step), k)
  {
    if step.CatchRollbackEnds? {
      RecordStaysInCatch(s, step.ran, k);
    } else if step.RollbackOnlyOk? || step.CommitOk? || step.Slept? || step.Drained? {
      RecordStaysAtEnd(s, step, k);
    }
  }

  lemma FlagsOfStatement(s: State, step: Step, k: nat)
    requires Enabled(s, step) && step.Runs?
    ensures IsAborted(Next(s, step), k) <==> IsAborted(s, k) || Aborts(s, step, k)
    ensures IsEnded(Next(s, step), k) <==> IsEnded(s, k) || Ends(s, step, k)
  {
    ServerRunsFrame(s, step.k, step.id, step.effect);
  }

  lemma FlagsOfQuery(s: State, step: Step, k: nat)
    requires Enabled(s, step) && (step.StartQuery? || step.Answered?)
    ensures Next(s, step).strays == s.strays && (IsAborted(Next(s, step), k) <==> IsAborted(s, k)) && (IsEnded(Next(s, step), k) <==> IsEnded(s, k))
  {
  }

  lemma FlagsStep(s: State, step: Step, k: nat)
    ensures IsAborted(Do(s, step), k) <==> IsAborted(s, k) || Aborts(s, step, k)
    ensures IsEnded(Do(s, step), k) <==> IsEnded(s, k) || Ends(s, step, k)
  {
    if Enabled(s, step) {
      if step.Runs? {
        FlagsOfStatement(s, step, k);
      } else if step.StartQuery? || step.Answered? {
        FlagsOfQuery(s, step, k);
      } else {
        RecordStays(s, step, k);
      }
    }
  }

  lemma AbortedInNext(o: Options, init: seq<Step>, step: Step, k: nat)
    ensures AbortedIn(o, init + [step], k) <==> AbortedIn(o, init, k) || Aborts(Run(Init(o), init), step, k)
    ensures EndedIn(o, init + [step], k) <==> EndedIn(o, init, k) || Ends(Run(Init(o), init), step, k)
  {
    var steps := init + [step];
    assert forall i :: 0 <= i < |init| ==> steps[..i] == init[..i] && steps[i] == init[i];
    assert steps[..|init|] == init && steps[|init|] == step;
  }

  /** The flags of an attempt say no more than its statements do. */
  lemma {:induction false} AbortedIff(o: Options, steps: seq<Step>, k: nat)
    ensures IsAborted(Run(Init(o), steps), k) <==> AbortedIn(o, steps, k)
    ensures IsEnded(Run(Init(o), steps), k) <==> EndedIn(o, steps, k)
  {
    if steps != [] {
      var init, step := steps[..|steps| - 1], steps[|steps| - 1];
      assert steps == init + [step];
      AbortedIff(o, init, k);
      RunOne(Init(o), init, step);
      FlagsStep(Run(Init(o), init), step, k);
      AbortedInNext(o, init, step, k);
    }
  }

  // ---------------------------------------------------------------------------------------------
  // Strays
  // ---------------------------------------------------------------------------------------------

  /** With this step a statement is committed by itself. */
  ghost predicate StraysNow(s: State, step: Step) {
    exists k: nat :: Takes(s, step, k) && IsEnded(s, k)
  }

  lemma StraysStep(s: State, step: Step)
    requires GuardInv(s) && LoopInv(s)
    ensures Do(s, step).strays == s.strays + if StraysNow(s, step) then [{Tag(step.k, step.id)}] else []
  {
    if Enabled(s, step) && step.Runs? {
      assert step.k == s.Last() && (s.pc.InBody? || s.pc.Draining?);
      assert step.effect.Writes? ==> (StraysNow(s, step) <==> s.CurrentLink().tx.Idle?) by {
        assert StraysNow(s, step) <==> Takes(s, step, s.Last()) && IsEnded(s, s.Last());
      }
    } else if Enabled(s, step) && !step.StartQuery? && !step.Answered? {
      RecordStays(s, step, 0);
    }
  }

  lemma StraysInNext(o: Options, init: seq<Step>, step: Step)
    ensures StraysIn(o, init + [step]) <==> StraysIn(o, init) || exists k: nat :: Takes(Run(Init(o), init), step, k) && EndedIn(o, init, k)
  {
    var steps := init + [step];
    var n := |init|;
    assert steps[..n] == init && steps[n] == step;
    assert forall j :: 0 <= j < n ==> steps[..j] == init[..j] && steps[j] == init[j];
    assert forall j, k: nat :: 0 <= j < n ==> (StraysAt(o, steps, j, k) <==> StraysAt(o, init, j, k));
    assert forall k: nat :: StraysAt(o, steps, n, k) <==> Takes(Run(Init(o), init), step, k) && EndedIn(o, init, k);
  }

  /** Something was committed outside any transaction exactly when a statement of an attempt took effect after one that ended
      its transaction. */
  lemma {:induction false} StraysIff(o: Options, steps: seq<Step>)
    ensures Run(Init(o), steps).strays != [] <==> StraysIn(o, steps)
  {
    if steps != [] {
      var init, step := steps[..|steps| - 1], steps[|steps| - 1];
      assert steps == init + [step];
      StraysIff(o, init);
      RunOne(Init(o), init, step);
      InvFromInit(o, init);
      StraysStep(Run(Init(o), init), step);
      forall k: nat ensures IsEnded(Run(Init(o), init), k) <==> EndedIn(o, init, k) {
        AbortedIff(o, init, k);
      }
      StraysInNext(o, init, step);
    }
  }

  /** One write of an attempt whose transaction was aborted. */
  ghost predicate IsStray(s: State, unit: set<Tag>) {
    exists k: nat, id: nat :: unit == {Tag(k, id)} && IsAborted(s, k)
  }

  ghost predicate StrayInv(s: State) {
    forall i :: 0 <= i < |s.strays| ==> IsStray(s, s.strays[i])
  }

  lemma StrayInvKept(s: State, step: Step)
    requires GuardInv(s) && LoopInv(s) && StrayInv(s)
    ensures StrayInv(Do(s, step))
  {
    var s' := Do(s, step);
    StraysStep(s, step);
    forall i | 0 <= i < |s'.strays| ensures IsStray(s', s'.strays[i]) {
      if i < |s.strays| {
        var k: nat, id: nat :| s.strays[i] == {Tag(k, id)} && IsAborted(s, k);
        FlagsStep(s, step, k);
      } else {
        FlagsStep(s, step, step.k);
        assert s'.strays[i] == {Tag(step.k, step.id)} && step.k == s.Last();
      }
    }
  }

  lemma {:induction false} StrayInvRun(s: State, steps: seq<Step>)
    requires GuardInv(s) && LoopInv(s) && StrayInv(s)
    ensures StrayInv(Run(s, steps))
    decreases |steps|
  {
    if steps != [] {
      GuardInvKept(s, steps[0]);
      LoopInvKept(s, steps[0]);
      StrayInvKept(s, steps[0]);
      StrayInvRun(Do(s, steps[0]), steps[1..]);
    }
  }

  /** A body that never has two queries in flight, and starts none after one that failed. */
  ghost predicate Careful(o: Options, steps: seq<Step>) {
    forall j :: 0 <= j < |steps| ==> StartsAlone(o, steps[..j], steps[j])
  }

  ghost predicate StartsAlone(o: Options, before: seq<Step>, step: Step) {
    var s := Run(Init(o), before);
    step.StartQuery? && Enabled(s, step) && !s.attempts[step.k].guard.closed ==>
      s.attempts[step.k].inflight == {} && !FailedIn(o, before, step.k)
  }

  predicate RunsFailing(s: State, step: Step, k: nat) {
    step.Runs? && step.k == k && !step.effect.Writes? && Enabled(s, step)
  }

  ghost predicate FailedIn(o: Options, steps: seq<Step>, k: nat) {
    exists i :: 0 <= i < |steps| && RunsFailing(Run(Init(o), steps[..i]), steps[i], k)
  }

  /** At most one query is unanswered, and none that has not run if the transaction was ended. */
  predicate AloneInv(s: State, k: nat) {
    k < |s.attempts| ==>
      var a := s.attempts[k];
      (forall x <- a.inflight, y <- a.inflight :: x == y) && (a.ended ==> a.inflight <= a.ran)
  }

  lemma AloneInvKept(o: Options, before: seq<Step>, step: Step, k: nat)
    requires AloneInv(Run(Init(o), before), k) && StartsAlone(o, before, step)
    ensures AloneInv(Do(Run(Init(o), before), step), k)
  {
    var s := Run(Init(o), before);
    if Enabled(s, step) {
      if step.StartQuery? {
        AbortedIff(o, before, step.k);
        EndedHasFailed(o, before, step.k);
        AloneInvStarts(s, step, k);
      } else if step.Runs? {
        AloneInvRuns(s, step, k);
      } else if !step.Answered? {
        RecordStays(s, step, k);
      }
    }
  }

  lemma EndedHasFailed(o: Options, before: seq<Step>, k: nat)
    ensures EndedIn(o, before, k) ==> FailedIn(o, before, k)
  {
    assert forall i :: 0 <= i < |before| && Ends(Run(Init(o), before[..i]), before[i], k) ==> RunsFailing(Run(Init(o), before[..i]), before[i], k);
  }

  lemma AloneInvStarts(s: State, step: Step, k: nat)
    requires AloneInv(s, k) && step.StartQuery? && Enabled(s, step)
    requires !s.attempts[step.k].guard.closed ==> s.attempts[step.k].inflight == {} && !s.attempts[step.k].ended
    ensures AloneInv(Next(s, step), k)
  {
  }

  lemma AloneInvRuns(s: State, step: Step, k: nat)
    requires AloneInv(s, k) && step.Runs? && Enabled(s, step)
    ensures AloneInv(Next(s, step), k)
  {
    ServerRunsFrame(s, step.k, step.id, step.effect);
  }

  lemma {:induction false} AloneInvRun(o: Options, steps: seq<Step>, k: nat)
    requires Careful(o, steps)
    ensures AloneInv(Run(Init(o), steps), k)
  {
    if steps != [] {
      var init, step := steps[..|steps| - 1], steps[|steps| - 1];
      assert steps == init + [step];
      assert StartsAlone(o, init, step);
      CarefulPrefix(o, steps);
      AloneInvRun(o, init, k);
      RunOne(Init(o), init, step);
      AloneInvKept(o, init, step, k);
    }
  }

  lemma CarefulPrefix(o: Options, steps: seq<Step>)
    requires steps != [] && Careful(o, steps)
    ensures Careful(o, steps[..|steps| - 1])
  {
    var init := steps[..|steps| - 1];
    forall j | 0 <= j < |init| ensures StartsAlone(o, init[..j], init[j]) {
      assert init[..j] == steps[..j] && init[j] == steps[j];
    }
  }

  /** Such a body never has a statement committed by itself, whatever the server does with its transaction. */
  lemma {:induction false} CarefulNeverStrays(o: Options, steps: seq<Step>)
    requires Careful(o, steps)
    ensures !StraysIn(o, steps)
  {
    if steps != [] {
      var init, step := steps[..|steps| - 1], steps[|steps| - 1];
      assert steps == init + [step];
      CarefulPrefix(o, steps);
      CarefulNeverStrays(o, init);
      StraysInNext(o, init, step);
      forall k: nat | Takes(Run(Init(o), init), step, k) ensures !EndedIn(o, init, k) {
        AloneInvRun(o, init, k);
        AbortedIff(o, init, k);
      }
    }
  }

  // ---------------------------------------------------------------------------------------------
  // How much is durable
  // ---------------------------------------------------------------------------------------------

  /** However COMMIT replies are lost, at most one COMMIT is ever applied, and none with rollbackOnly, unless a BEGIN can commit
      what an earlier attempt left open; and nothing else is durable unless a statement took effect after one that ended its
      transaction. */
  lemma OneCommitAtMost(o: Options, steps: seq<Step>)
    requires !BeginCommits(o)
    ensures OneCommit(Run(Init(o), steps))
    ensures !StraysIn(o, steps) ==> |Run(Init(o), steps).store| <= if o.rollbackOnly then 0 else 1
  {
    InvFromInit(o, steps);
    StraysIff(o, steps);
  }

  /** Nothing of an earlier attempt is durable: what is, is all that the last attempt wrote. A normal return means exactly
      that was committed, unless a failed statement had made the server abort the transaction and the body swallowed its
      error: then nothing was. */
  ghost predicate ExactlyLast(s: State) {
    && (s.store == [] || (s.attempts != [] && s.store == [Written(s)] && !s.Current().aborted))
    && (s.pc.Returned? ==> s.attempts != [] && (s.store == [Written(s)] <==> !s.o.rollbackOnly && !s.Current().aborted))
  }

  /** A stray belongs to no attempt that is committed. */
  lemma StraysAreNotLast(s: State)
    requires StrayInv(s) && s.strays != [] && s.strays <= s.store
    ensures !ExactlyLast(s)
  {
    var k: nat, id: nat :| s.strays[0] == {Tag(k, id)} && IsAborted(s, k);
    assert s.store[0] == {Tag(k, id)};
    if s.store == [Written(s)] {
      assert Tag(k, id) in Written(s);
      assert k == s.Last();
    }
  }

  /** That holds of a run exactly when no statement of an attempt takes effect after one that ended the attempt's transaction. */
  lemma CommittedExactly(o: Options, steps: seq<Step>)
    requires forall step <- steps :: Benign(o, step)
    ensures ExactlyLast(Run(Init(o), steps)) <==> !StraysIn(o, steps)
  {
    InvFromInit(o, steps);
    StraysIff(o, steps);
    StrayInvRun(Init(o), steps);
    if StraysIn(o, steps) {
      StraysAreNotLast(Run(Init(o), steps));
    }
  }

  // ---------------------------------------------------------------------------------------------
  // When one commit can hold the writes of two attempts
  // ---------------------------------------------------------------------------------------------

  /** No commit holds the writes of more than one attempt. */
  ghost predicate SingleAttempt(s: State) {
    forall unit <- s.store, t <- unit, u <- unit :: t.attempt == u.attempt
  }

  /** An attempt of a body that writes once, up to the wait for its pending queries. */
  ghost function OneWrite(c: nat, k: nat, outcome: Outcome): seq<Step> {
    [TakeConnection(c), BeginOk, StartQuery(k, 0), Runs(k, 0, Writes), Answered(k, 0), Finished(k, 0), BodySettles(outcome)]
  }

  ghost function Mid(s: State, c: nat, a: Attempt, pc: Pc, tx: Tx, wire: seq<Event>): State {
    s.(pc := pc, attempts := s.attempts + [a], links := s.links[c := Link(true, tx)], wire := s.wire + wire, committing := false)
  }

  lemma StepTo(s: State, steps: seq<Step>, s': State)
    requires steps != [] && Do(s, steps[0]) == s'
    ensures Run(s, steps) == Run(s', steps[1..])
  {
  }

  /** What OneWrite is about to do, has done up to its answer, and has done. */
  ghost function Started(s: State, c: nat, w: set<Tag>): State {
    var k := |s.attempts|;
    Mid(s, c, Attempt(c, Guard(false, {0}), true, {0}, {0}, {}, {}, false, false, 0), InBody, Open(w), [Begin(k), Query(k, 0)])
  }

  ghost function Wrote(s: State, c: nat, w: set<Tag>): State {
    var k := |s.attempts|;
    Mid(s, c, Attempt(c, Guard(false, {0}), true, {0}, {}, {0}, {0}, false, false, 0), InBody, Open(w + {Tag(k, 0)}), [Begin(k), Query(k, 0), Answer(k, 0)])
  }

  ghost function Settled(s: State, c: nat, w: set<Tag>, outcome: Outcome): State {
    var k := |s.attempts|;
    Mid(s, c, Attempt(c, Guard(true, {}), true, {0}, {}, {0}, {0}, false, false, 0), Draining({}, outcome), Open(w + {Tag(k, 0)}), [Begin(k), Query(k, 0), Answer(k, 0)])
  }

  /** The writes that a BEGIN finds still open and goes on with. */
  ghost function Carried(s: State, c: nat): set<Tag> {
    if s.LinkOf(c).tx.Open? && s.o.server.Joins? then s.LinkOf(c).tx.writes else {}
  }

  /** What the server has done at BEGIN with those that it does not go on with. */
  ghost function AtBegin(s: State, c: nat): State {
    if s.LinkOf(c).tx.Open? && s.o.server.Commits? then s.(store := s.store + [s.LinkOf(c).tx.writes]) else s
  }

  /** The loop can take the connection, and a BEGIN on it is answered. */
  predicate CanBegin(s: State, c: nat) {
    var link := s.LinkOf(c);
    s.pc.Connecting? && (if s.o.given then c == GIVEN_LINK && link.alive && !link.tx.Aborted? && !(link.tx.Open? && s.o.server.Refuses?) else link == Link(true, Idle))
  }

  ghost function Begun(s: State, c: nat): State {
    Mid(AtBegin(s, c), c, NewAttempt(c).(handed := true), InBody, Open(Carried(s, c)), [Begin(|s.attempts|)])
  }

  ghost function Taken(s: State, c: nat): State {
    s.(pc := Beginning, attempts := s.attempts + [NewAttempt(c)], committing := false).Says(Begin(|s.attempts|))
  }

  lemma BeginsOn(s: State, c: nat)
    requires CanBegin(s, c)
    ensures Do(Taken(s, c), BeginOk) == Begun(s, c)
  {
    var s1 := Taken(s, c);
    assert s1.CurrentLink() == s.LinkOf(c) && s1.Current() == NewAttempt(c);
    assert s1.attempts[s1.Last() := NewAttempt(c).(handed := true)] == Begun(s, c).attempts;
    assert ServerBegins(s1).store == Begun(s, c).store;
    assert s1.links[c := Link(true, Open(Carried(s, c)))] == Begun(s, c).links;
    assert s.LinkOf(c).tx.Open? && s.o.server.Joins? ==> s1.links == Begun(s, c).links;
  }

  lemma OneWriteBegins(s: State, c: nat, outcome: Outcome)
    requires CanBegin(s, c)
    ensures Run(s, OneWrite(c, |s.attempts|, outcome)) == Run(Begun(s, c), OneWrite(c, |s.attempts|, outcome)[2..])
  {
    var steps := OneWrite(c, |s.attempts|, outcome);
    assert Do(s, steps[0]) == Taken(s, c);
    BeginsOn(s, c);
    StepTo(s, steps, Taken(s, c));
    StepTo(Taken(s, c), steps[1..], Begun(s, c));
  }

  lemma OneWriteStarts(s: State, c: nat, outcome: Outcome)
    requires CanBegin(s, c)
    ensures Run(s, OneWrite(c, |s.attempts|, outcome)) == Run(Started(AtBegin(s, c), c, Carried(s, c)), OneWrite(c, |s.attempts|, outcome)[3..])
  {
    var k := |s.attempts|;
    var steps := OneWrite(c, k, outcome);
    OneWriteBegins(s, c, outcome);
    FirstQuery(AtBegin(s, c), c, Carried(s, c));
    StepTo(Begun(s, c), steps[2..], Started(AtBegin(s, c), c, Carried(s, c)));
  }

  lemma FirstQuery(s: State, c: nat, w: set<Tag>)
    ensures Do(Mid(s, c, NewAttempt(c).(handed := true), InBody, Open(w), [Begin(|s.attempts|)]), StartQuery(|s.attempts|, 0)) == Started(s, c, w)
  {
    var k := |s.attempts|;
    var s2 := Mid(s, c, NewAttempt(c).(handed := true), InBody, Open(w), [Begin(k)]);
    var s3 := Started(s, c, w);
    assert s2.wire + [Query(k, 0)] == s3.wire;
    assert s2.attempts[k := s3.attempts[k]] == s3.attempts;
    assert {} + {0} == {0};
  }

  lemma OneWriteWrites(s: State, c: nat, w: set<Tag>, outcome: Outcome)
    ensures Run(Started(s, c, w), OneWrite(c, |s.attempts|, outcome)[3..]) == Run(Wrote(s, c, w), OneWrite(c, |s.attempts|, outcome)[5..])
  {
    var k := |s.attempts|;
    var steps := OneWrite(c, k, outcome);
    var s3 := Started(s, c, w);
    var s4 := Mid(s, c, Attempt(c, Guard(false, {0}), true, {0}, {0}, {0}, {0}, false, false, 0), InBody, Open(w + {Tag(k, 0)}), [Begin(k), Query(k, 0)]);
    assert {} + {0} == {0};
    assert s3.attempts[k := s4.attempts[k]] == s4.attempts;
    assert Do(s3, steps[3]) == s4;
    var s5 := Wrote(s, c, w);
    assert s4.wire + [Answer(k, 0)] == s5.wire;
    assert s4.attempts[k := s5.attempts[k]] == s5.attempts;
    assert {0} - {0} == {};
    assert Do(s4, steps[4]) == s5;
    StepTo(s3, steps[3..], s4);
    StepTo(s4, steps[4..], s5);
  }

  lemma OneWriteSettles(s: State, c: nat, w: set<Tag>, outcome: Outcome)
    ensures Run(Wrote(s, c, w), OneWrite(c, |s.attempts|, outcome)[5..]) == Settled(s, c, w, outcome)
  {
    var k := |s.attempts|;
    var steps := OneWrite(c, k, outcome);
    var s5 := Wrote(s, c, w);
    var s6 := Mid(s, c, Attempt(c, Guard(false, {}), true, {0}, {}, {0}, {0}, false, false, 0), InBody, Open(w + {Tag(k, 0)}), [Begin(k), Query(k, 0), Answer(k, 0)]);
    assert s5.attempts[k := s6.attempts[k]] == s6.attempts;
    assert {0} - {0} == {};
    assert Do(s5, steps[5]) == s6;
    var s7 := Settled(s, c, w, outcome);
    assert s6.attempts[k := s7.attempts[k]] == s7.attempts;
    assert Do(s6, steps[6]) == s7;
    StepTo(s5, steps[5..], s6);
    StepTo(s6, steps[6..], s7);
    assert steps[7..] == [];
  }

  lemma OneWriteRuns(s: State, c: nat, outcome: Outcome)
    requires CanBegin(s, c)
    ensures Run(s, OneWrite(c, |s.attempts|, outcome)) == Settled(AtBegin(s, c), c, Carried(s, c), outcome)
  {
    OneWriteStarts(s, c, outcome);
    OneWriteWrites(AtBegin(s, c), c, Carried(s, c), outcome);
    OneWriteSettles(AtBegin(s, c), c, Carried(s, c), outcome);
  }

  /** The catch block, the wait and the release. */
  ghost function Again(ran: bool): seq<Step> {
    [Drained, CatchRollbackEnds(ran), Slept]
  }

  lemma RolledBackInVain(s: State, e: Thrown, ran: bool)
    requires !ran && s.pc == Draining({}, Error(e)) && |s.attempts| == 1 && !s.committing && e.kind.Abort? && ReusesConnection(s.o)
    ensures Run(s, Again(ran)) == s.(pc := Connecting).Says(Rollback(0))
  {
    var steps := Again(ran);
    var s2 := s.(pc := Catching(e)).Says(Rollback(0));
    assert Do(s, steps[0]) == s2;
    var s3 := s2.(pc := Sleeping);
    assert Do(s2, steps[1]) == s3;
    StepTo(s, steps, s2);
    StepTo(s2, steps[1..], s3);
    StepTo(s3, steps[2..], s3.(pc := Connecting));
    assert steps[3..] == [];
  }

  lemma FirstTryLeavesWrites(o: Options, e: Thrown, ran: bool)
    requires ReusesConnection(o) && e.kind.Abort? && !ran
    ensures
      var s := Run(Init(o), OneWrite(GIVEN_LINK, 0, Error(e)) + Again(ran));
      s.pc.Connecting? && |s.attempts| == 1 && s.store == [] && s.strays == [] && s.o == o && s.LinkOf(GIVEN_LINK) == Link(true, Open({Tag(0, 0)}))
  {
    OneWriteRuns(Init(o), GIVEN_LINK, Error(e));
    var s := Settled(Init(o), GIVEN_LINK, {}, Error(e));
    RolledBackInVain(s, e, ran);
    RunAppend(Init(o), OneWrite(GIVEN_LINK, 0, Error(e)), Again(ran));
    assert {} + {Tag(0, 0)} == {Tag(0, 0)};
  }

  lemma CommitOfOpen(s: State, writes: set<Tag>)
    requires s.pc.Committing? && s.attempts != [] && s.CurrentLink() == Link(true, Open(writes))
    ensures var s' := Do(s, CommitOk); s'.store == s.store + [writes] && s'.strays == s.strays && s'.pc.Returned?
  {
  }

  lemma SecondTryCommits(s: State, c: nat)
    requires CanBegin(s, c) && !s.o.rollbackOnly
    ensures
      var s' := Run(s, OneWrite(c, |s.attempts|, Value) + [Drained] + [CommitOk]);
      s'.store == AtBegin(s, c).store + [Carried(s, c) + {Tag(|s.attempts|, 0)}] && s'.strays == s.strays && s'.pc.Returned?
  {
    var second := OneWrite(c, |s.attempts|, Value);
    OneWriteRuns(s, c, Value);
    var s1 := Settled(AtBegin(s, c), c, Carried(s, c), Value);
    var s2 := s1.(pc := Committing, committing := true).Says(Commit(|s.attempts|));
    assert Do(s1, Drained) == s2;
    RunOne(s, second, Drained);
    RunOne(s, second + [Drained], CommitOk);
    CommitOfOpen(s2, Carried(s, c) + {Tag(|s.attempts|, 0)});
  }

  // ---------------------------------------------------------------------------------------------
  // A statement that nobody can take back
  // ---------------------------------------------------------------------------------------------

  /** A body that has two queries in flight: the second one is a deadlock, and the server ends the transaction; then the first
      one is run, and committed by itself. The body reports the deadlock. */
  ghost function Deadlocked(c: nat, e: Thrown): seq<Step> {
    [TakeConnection(c), BeginOk, StartQuery(0, 0), StartQuery(0, 1), Runs(0, 1, EndsTransaction), Runs(0, 0, Writes),
     Answered(0, 1), Answered(0, 0), Finished(0, 1), Finished(0, 0), BodySettles(Error(e))]
  }

  ghost function First(o: Options, c: nat, guard: Guard, issued: set<nat>, inflight: set<nat>, pc: Pc, wire: seq<Event>): State {
    State(o, pc, [Attempt(c, guard, true, issued, inflight, {}, {}, false, false, 0)], map[c := Link(true, Open({}))], [], [], [Begin(0)] + wire, false)
  }

  /** After the server has run both. */
  ghost function Strayed(o: Options, c: nat, guard: Guard, inflight: set<nat>, pc: Pc, wire: seq<Event>): State {
    State(o, pc, [Attempt(c, guard, true, {0, 1}, inflight, {0, 1}, {0}, true, true, 0)], map[c := Link(true, Idle)],
          [{Tag(0, 0)}], [{Tag(0, 0)}], [Begin(0), Query(0, 0), Query(0, 1)] + wire, false)
  }

  lemma DeadlockBegins(o: Options, c: nat, e: Thrown)
    requires o.given ==> c == GIVEN_LINK
    ensures Run(Init(o), Deadlocked(c, e)) == Run(First(o, c, Guard(false, {}), {}, {}, InBody, []), Deadlocked(c, e)[2..])
  {
    var steps := Deadlocked(c, e);
    var s1 := State(o, Beginning, [NewAttempt(c)], map[], [], [], [Begin(0)], false);
    assert Do(Init(o), steps[0]) == s1;
    var s2 := First(o, c, Guard(false, {}), {}, {}, InBody, []);
    assert Do(s1, steps[1]) == s2;
    StepTo(Init(o), steps, s1);
    StepTo(s1, steps[1..], s2);
  }

  lemma DeadlockStarts(o: Options, c: nat, e: Thrown)
    ensures Run(First(o, c, Guard(false, {}), {}, {}, InBody, []), Deadlocked(c, e)[2..]) ==
      Run(First(o, c, Guard(false, {0, 1}), {0, 1}, {0, 1}, InBody, [Query(0, 0), Query(0, 1)]), Deadlocked(c, e)[4..])
  {
    var steps := Deadlocked(c, e);
    var s2 := First(o, c, Guard(false, {}), {}, {}, InBody, []);
    var s3 := First(o, c, Guard(false, {0}), {0}, {0}, InBody, [Query(0, 0)]);
    assert {} + {0} == {0} && {0} + {1} == {0, 1};
    assert s2.wire + [Query(0, 0)] == s3.wire && s2.attempts[0 := s3.attempts[0]] == s3.attempts;
    assert Do(s2, steps[2]) == s3;
    var s4 := First(o, c, Guard(false, {0, 1}), {0, 1}, {0, 1}, InBody, [Query(0, 0), Query(0, 1)]);
    assert s3.wire + [Query(0, 1)] == s4.wire && s3.attempts[0 := s4.attempts[0]] == s4.attempts;
    assert Do(s3, steps[3]) == s4;
    StepTo(s2, steps[2..], s3);
    StepTo(s3, steps[3..], s4);
  }

  lemma DeadlockRuns(o: Options, c: nat, e: Thrown)
    ensures Run(First(o, c, Guard(false, {0, 1}), {0, 1}, {0, 1}, InBody, [Query(0, 0), Query(0, 1)]), Deadlocked(c, e)[4..]) ==
      Run(Strayed(o, c, Guard(false, {0, 1}), {0, 1}, InBody, []), Deadlocked(c, e)[6..])
  {
    var steps := Deadlocked(c, e);
    var s4 := First(o, c, Guard(false, {0, 1}), {0, 1}, {0, 1}, InBody, [Query(0, 0), Query(0, 1)]);
    var s5 := State(o, InBody, [Attempt(c, Guard(false, {0, 1}), true, {0, 1}, {0, 1}, {1}, {}, true, true, 0)], map[c := Link(true, Idle)],
                    [], [], [Begin(0), Query(0, 0), Query(0, 1)], false);
    assert {} + {1} == {1};
    assert s4.attempts[0 := s5.attempts[0]] == s5.attempts;
    assert Do(s4, steps[4]) == s5;
    var s6 := Strayed(o, c, Guard(false, {0, 1}), {0, 1}, InBody, []);
    assert {1} + {0} == {0, 1} && {} + {0} == {0};
    assert s5.attempts[0 := s6.attempts[0]] == s6.attempts;
    assert Do(s5, steps[5]) == s6;
    StepTo(s4, steps[4..], s5);
    StepTo(s5, steps[5..], s6);
  }

  lemma DeadlockAnswers(o: Options, c: nat, e: Thrown)
    ensures Run(Strayed(o, c, Guard(false, {0, 1}), {0, 1}, InBody, []), Deadlocked(c, e)[6..]) ==
      Run(Strayed(o, c, Guard(false, {0, 1}), {}, InBody, [Answer(0, 1), Answer(0, 0)]), Deadlocked(c, e)[8..])
  {
    var steps := Deadlocked(c, e);
    var s6 := Strayed(o, c, Guard(false, {0, 1}), {0, 1}, InBody, []);
    var s7 := Strayed(o, c, Guard(false, {0, 1}), {0}, InBody, [Answer(0, 1)]);
    var s8 := Strayed(o, c, Guard(false, {0, 1}), {}, InBody, [Answer(0, 1), Answer(0, 0)]);
    assert {0, 1} - {1} == {0} && {0} - {0} == {};
    assert s6.wire + [Answer(0, 1)] == s7.wire && s6.attempts[0 := s7.attempts[0]] == s7.attempts;
    assert Do(s6, steps[6]) == s7;
    assert s7.wire + [Answer(0, 0)] == s8.wire && s7.attempts[0 := s8.attempts[0]] == s8.attempts;
    assert Do(s7, steps[7]) == s8;
    StepTo(s6, steps[6..], s7);
    StepTo(s7, steps[7..], s8);
  }

  lemma DeadlockSettles(o: Options, c: nat, e: Thrown)
    ensures Run(Strayed(o, c, Guard(false, {0, 1}), {}, InBody, [Answer(0, 1), Answer(0, 0)]), Deadlocked(c, e)[8..]) ==
      Strayed(o, c, Guard(true, {}), {}, Draining({}, Error(e)), [Answer(0, 1), Answer(0, 0)])
  {
    var steps, wire := Deadlocked(c, e), [Answer(0, 1), Answer(0, 0)];
    var s8 := Strayed(o, c, Guard(false, {0, 1}), {}, InBody, wire);
    var s9 := Strayed(o, c, Guard(false, {0}), {}, InBody, wire);
    var s10 := Strayed(o, c, Guard(false, {}), {}, InBody, wire);
    var s11 := Strayed(o, c, Guard(true, {}), {}, Draining({}, Error(e)), wire);
    assert {0, 1} - {1} == {0} && {0} - {0} == {};
    assert s8.attempts[0 := s9.attempts[0]] == s9.attempts;
    assert Do(s8, steps[8]) == s9;
    assert s9.attempts[0 := s10.attempts[0]] == s10.attempts;
    assert Do(s9, steps[9]) == s10;
    assert s10.attempts[0 := s11.attempts[0]] == s11.attempts;
    assert Do(s10, steps[10]) == s11;
    StepTo(s8, steps[8..], s9);
    StepTo(s9, steps[9..], s10);
    StepTo(s10, steps[10..], s11);
    assert steps[11..] == [];
  }

  /** Whatever the options, rollbackOnly included, the first query is durable when the body has failed. */
  lemma StrayIsDurable(o: Options, c: nat, e: Thrown)
    requires o.given ==> c == GIVEN_LINK
    ensures Run(Init(o), Deadlocked(c, e)) == Strayed(o, c, Guard(true, {}), {}, Draining({}, Error(e)), [Answer(0, 1), Answer(0, 0)])
    ensures Run(Init(o), Deadlocked(c, e)).store == [{Tag(0, 0)}]
  {
    DeadlockBegins(o, c, e);
    DeadlockStarts(o, c, e);
    DeadlockRuns(o, c, e);
    DeadlockAnswers(o, c, e);
    DeadlockSettles(o, c, e);
  }

  lemma RollbackAfterEnd(s: State, c: nat, e: Thrown, ran: bool)
    requires s.pc == Draining({}, Error(e)) && |s.attempts| == 1 && s.Current().link == c && s.CurrentLink() == Link(true, Idle) && !s.committing
    requires Retries(s.o, 1, e, false)
    ensures
      var s' := Run(s, Again(ran));
      && s'.pc.Connecting? && s'.o == s.o && s'.store == s.store && s'.strays == s.strays && |s'.attempts| == 1
      && (if s.o.given then s'.LinkOf(c) == Link(true, Idle) else forall d: nat :: d != c ==> s'.LinkOf(d) == s.LinkOf(d))
  {
    var steps := Again(ran);
    var s2 := s.(pc := Catching(e)).Says(Rollback(0));
    assert Do(s, steps[0]) == s2;
    var s3 := (if ran then s2.WithTx(Idle) else s2).(pc := Sleeping);
    assert Do(s2, steps[1]) == s3;
    var s4 := s3.(pc := Connecting).Release(true);
    assert Do(s3, steps[2]) == s4;
    StepTo(s, steps, s2);
    StepTo(s2, steps[1..], s3);
    StepTo(s3, steps[2..], s4);
    assert steps[3..] == [];
  }

  /** The deadlock is retried, on another connection unless one was given, and the retry writes. */
  ghost function DeadlockRetried(c: nat, d: nat, e: Thrown, ran: bool): seq<Step> {
    Deadlocked(c, e) + Again(ran) + (OneWrite(d, 1, Value) + [Drained] + [CommitOk])
  }

  lemma DeadlockReconnects(o: Options, c: nat, d: nat, e: Thrown, ran: bool)
    requires Retries(o, 1, e, false) && if o.given then c == d == GIVEN_LINK else c != d
    ensures
      var s := Run(Init(o), Deadlocked(c, e) + Again(ran));
      CanBegin(s, d) && s.o == o && |s.attempts| == 1 && s.LinkOf(d).tx.Idle? && s.store == [{Tag(0, 0)}]
  {
    StrayIsDurable(o, c, e);
    RollbackAfterEnd(Run(Init(o), Deadlocked(c, e)), c, e, ran);
    RunAppend(Init(o), Deadlocked(c, e), Again(ran));
  }

  /** Then what the body wrote is durable twice, whatever becomes of the ROLLBACK. */
  lemma WrittenTwice(o: Options, c: nat, d: nat, e: Thrown, ran: bool)
    requires Retries(o, 1, e, false) && !o.rollbackOnly && if o.given then c == d == GIVEN_LINK else c != d
    ensures var s := Run(Init(o), DeadlockRetried(c, d, e, ran)); s.pc.Returned? && s.store == [{Tag(0, 0)}, {Tag(1, 0)}]
  {
    DeadlockReconnects(o, c, d, e, ran);
    var s := Run(Init(o), Deadlocked(c, e) + Again(ran));
    var second := OneWrite(d, 1, Value) + [Drained] + [CommitOk];
    SecondTryCommits(s, d);
    RunAppend(Init(o), Deadlocked(c, e) + Again(ran), second);
    assert {} + {Tag(1, 0)} == {Tag(1, 0)};
    assert [{Tag(0, 0)}] + [{Tag(1, 0)}] == [{Tag(0, 0)}, {Tag(1, 0)}];
  }

  /** A body that writes and then reports a lost lock, on a connection that is given, with a ROLLBACK that the
      server never runs; then the same body again, successfully. */
  ghost function TwoTries(e: Thrown, ran: bool): seq<Step> {
    OneWrite(GIVEN_LINK, 0, Error(e)) + Again(ran) + (OneWrite(GIVEN_LINK, 1, Value) + [Drained] + [CommitOk])
  }

  /** A server that goes on with the open transaction commits the writes of both. */
  lemma WritesOfTwoAttempts(o: Options, e: Thrown, ran: bool)
    requires ReusesConnection(o) && !o.rollbackOnly && o.server.Joins? && e.kind.Abort? && !ran
    ensures var s := Run(Init(o), TwoTries(e, ran)); s.store == [{Tag(0, 0), Tag(1, 0)}] && s.strays == []
  {
    FirstTryLeavesWrites(o, e, ran);
    var s := Run(Init(o), OneWrite(GIVEN_LINK, 0, Error(e)) + Again(ran));
    SecondTryCommits(s, GIVEN_LINK);
    RunAppend(Init(o), OneWrite(GIVEN_LINK, 0, Error(e)) + Again(ran), OneWrite(GIVEN_LINK, 1, Value) + [Drained] + [CommitOk]);
    assert {Tag(0, 0)} + {Tag(1, 0)} == {Tag(0, 0), Tag(1, 0)};
  }

  /** A server that commits it makes two units durable: the first at the second BEGIN. */
  lemma CommitsOfTwoAttempts(o: Options, e: Thrown, ran: bool)
    requires BeginCommits(o) && !o.rollbackOnly && e.kind.Abort? && !ran
    ensures var s := Run(Init(o), TwoTries(e, ran)); s.store == [{Tag(0, 0)}, {Tag(1, 0)}] && s.strays == []
  {
    FirstTryLeavesWrites(o, e, ran);
    var s := Run(Init(o), OneWrite(GIVEN_LINK, 0, Error(e)) + Again(ran));
    SecondTryCommits(s, GIVEN_LINK);
    RunAppend(Init(o), OneWrite(GIVEN_LINK, 0, Error(e)) + Again(ran), OneWrite(GIVEN_LINK, 1, Value) + [Drained] + [CommitOk]);
    assert {} + {Tag(1, 0)} == {Tag(1, 0)};
    assert [{Tag(0, 0)}] + [{Tag(1, 0)}] == [{Tag(0, 0)}, {Tag(1, 0)}];
  }

  /** Even with rollbackOnly the second BEGIN makes the writes of the first try durable. */
  lemma PreviewIsCommitted(o: Options, e: Thrown, ran: bool)
    requires BeginCommits(o) && e.kind.Abort? && !ran
    ensures var s := Run(Init(o), OneWrite(GIVEN_LINK, 0, Error(e)) + Again(ran) + OneWrite(GIVEN_LINK, 1, Value)); s.store == [{Tag(0, 0)}] && s.strays == [] && |s.attempts| == 2
  {
    FirstTryLeavesWrites(o, e, ran);
    var s := Run(Init(o), OneWrite(GIVEN_LINK, 0, Error(e)) + Again(ran));
    OneWriteRuns(s, GIVEN_LINK, Value);
    RunAppend(Init(o), OneWrite(GIVEN_LINK, 0, Error(e)) + Again(ran), OneWrite(GIVEN_LINK, 1, Value));
  }

  /** Exactly when at most one commit is promised, whatever happens, and none with rollbackOnly, beside statements that take
      effect after their transaction was ended: unless the server commits at BEGIN and the loop may open a second transaction
      on a connection that it was given. */
  lemma OneCommitIff(o: Options)
    ensures (forall steps :: OneCommit(Run(Init(o), steps))) <==> !BeginCommits(o)
    ensures (forall steps :: !StraysIn(o, steps) ==> |Run(Init(o), steps).store| <= if o.rollbackOnly then 0 else 1) <==> !BeginCommits(o)
  {
    if !BeginCommits(o) {
      forall steps ensures OneCommit(Run(Init(o), steps)) && (!StraysIn(o, steps) ==> |Run(Init(o), steps).store| <= if o.rollbackOnly then 0 else 1) {
        OneCommitAtMost(o, steps);
      }
    } else {
      var steps := TwoCommits(o);
      StraysIff(o, steps);
      InvFromInit(o, steps);
      assert !OneCommit(Run(Init(o), steps));
    }
  }

  lemma TwoCommits(o: Options) returns (steps: seq<Step>)
    requires BeginCommits(o)
    ensures var s := Run(Init(o), steps); s.strays == [] && |s.store| > if o.rollbackOnly then 0 else 1
  {
    var e := Thrown(Abort, true);
    if o.rollbackOnly {
      PreviewIsCommitted(o, e, false);
      steps := OneWrite(GIVEN_LINK, 0, Error(e)) + Again(false) + OneWrite(GIVEN_LINK, 1, Value);
    } else {
      CommitsOfTwoAttempts(o, e, false);
      steps := TwoTries(e, false);
    }
  }

  // With a server that never goes on with an open transaction, no transaction has the writes of two attempts.

  ghost predicate OfOne(writes: set<Tag>) {
    forall t <- writes, u <- writes :: t.attempt == u.attempt
  }

  ghost predicate UnitInv(s: State) {
    && (forall unit <- s.store :: OfOne(unit))
    && (forall c <- s.links :: s.links[c].tx.Open? ==> OfOne(s.links[c].tx.writes))
    && (s.attempts != [] && (s.pc.InBody? || s.pc.Draining? || s.pc.Committing?) && s.CurrentLink().tx.Open? ==>
      forall t <- s.CurrentLink().tx.writes :: t.attempt == s.Last())
  }

  lemma UnitInvWrites(s: State, id: nat)
    requires UnitInv(s) && s.attempts != [] && Enabled(s, Runs(s.Last(), id, Writes)) && (s.pc.InBody? || s.pc.Draining?)
    ensures UnitInv(Next(s, Runs(s.Last(), id, Writes)))
  {
    var s' := Next(s, Runs(s.Last(), id, Writes));
    var tag := Tag(s.Last(), id);
    ServerRunsFrame(s, s.Last(), id, Writes);
    assert s'.store == s.store || (s'.store == s.store + [{tag}] && OfOne({tag}));
    assert forall c <- s'.links :: c != s.Current().link ==> c in s.links && s'.links[c] == s.links[c];
  }

  lemma UnitInvFails(s: State, id: nat, effect: Effect)
    requires UnitInv(s) && s.attempts != [] && Enabled(s, Runs(s.Last(), id, effect)) && !effect.Writes? && (s.pc.InBody? || s.pc.Draining?)
    ensures UnitInv(Next(s, Runs(s.Last(), id, effect)))
  {
    ServerRunsFrame(s, s.Last(), id, effect);
  }

  lemma UnitInvRuns(s: State, step: Step)
    requires GuardInv(s) && LoopInv(s) && UnitInv(s) && Enabled(s, step) && step.Runs?
    ensures UnitInv(Next(s, step))
  {
    assert step.k == s.Last() && (s.pc.InBody? || s.pc.Draining?);
    if step.effect.Writes? {
      UnitInvWrites(s, step.id);
    } else {
      UnitInvFails(s, step.id, step.effect);
    }
  }

  lemma UnitInvOutside(s: State, step: Step)
    requires UnitInv(s) && Enabled(s, step) && IsOutside(step) && !step.Runs?
    ensures UnitInv(Next(s, step))
  {
  }

  lemma UnitInvBegins(s: State, step: Step)
    requires UnitInv(s) && Enabled(s, step) && !s.o.server.Joins?
    requires step.TakeConnection? || step.ConnectFails? || step.BeginOk? || step.BeginFails? || step.BodySettles? || step.Drained?
    ensures UnitInv(Next(s, step))
  {
  }

  lemma UnitInvEnds(s: State, step: Step)
    requires LoopInv(s) && UnitInv(s) && Enabled(s, step)
    requires step.RollbackOnlyOk? || step.RollbackOnlyFails? || step.Slept?
    ensures UnitInv(Next(s, step))
  {
  }

  lemma UnitInvCaught(s: State, ran: bool)
    requires LoopInv(s) && UnitInv(s) && Enabled(s, CatchRollbackEnds(ran))
    ensures UnitInv(Next(s, CatchRollbackEnds(ran)))
  {
  }

  lemma UnitInvCommits(s: State, step: Step)
    requires LoopInv(s) && UnitInv(s) && Enabled(s, step) && (step.CommitOk? || step.CommitFails?)
    ensures UnitInv(Next(s, step))
  {
  }

  lemma UnitInvKept(s: State, step: Step)
    requires GuardInv(s) && LoopInv(s) && UnitInv(s) && !s.o.server.Joins?
    ensures UnitInv(Do(s, step))
  {
    if Enabled(s, step) {
      if step.Runs? {
        UnitInvRuns(s, step);
      } else if IsOutside(step) {
        UnitInvOutside(s, step);
      } else if step.TakeConnection? || step.ConnectFails? || step.BeginOk? || step.BeginFails? || step.BodySettles? || step.Drained? {
        UnitInvBegins(s, step);
      } else if step.CommitOk? || step.CommitFails? {
        UnitInvCommits(s, step);
      } else if step.CatchRollbackEnds? {
        UnitInvCaught(s, step.ran);
      } else {
        UnitInvEnds(s, step);
      }
    }
  }

  lemma {:induction false} UnitInvRun(s: State, steps: seq<Step>)
    requires GuardInv(s) && LoopInv(s) && UnitInv(s) && !s.o.server.Joins?
    ensures UnitInv(Run(s, steps))
    decreases |steps|
  {
    if steps != [] {
      GuardInvKept(s, steps[0]);
      LoopInvKept(s, steps[0]);
      UnitInvKept(s, steps[0]);
      SameOptions(s, steps[0]);
      UnitInvRun(Do(s, steps[0]), steps[1..]);
    }
  }

  /** Exactly when the options promise, whatever happens, that no commit holds writes of two attempts: unless
      the loop may open a second, committing, transaction on a connection that it was given, and the server goes on with the
      first one. */
  lemma SingleAttemptIff(o: Options)
    ensures (forall steps :: SingleAttempt(Run(Init(o), steps))) <==> !ReusesConnection(o) || o.rollbackOnly || !o.server.Joins?
  {
    if ReusesConnection(o) && !o.rollbackOnly && o.server.Joins? {
      var e := Thrown(Abort, true);
      WritesOfTwoAttempts(o, e, false);
      var s := Run(Init(o), TwoTries(e, false));
      assert s.store[0] in s.store && Tag(0, 0) in s.store[0] && Tag(1, 0) in s.store[0];
      assert !SingleAttempt(s);
    } else {
      forall steps ensures SingleAttempt(Run(Init(o), steps)) {
        if o.server.Joins? {
          InvFromInit(o, steps);
          StrayInvRun(Init(o), steps);
          StraysAndLast(Run(Init(o), steps));
        } else {
          UnitInvRun(Init(o), steps);
          assert forall unit <- Run(Init(o), steps).store :: OfOne(unit);
        }
      }
    }
  }

  lemma StraysAndLast(s: State)
    requires StrayInv(s) && (s.store == s.strays || (s.attempts != [] && s.store == s.strays + [Written(s)]))
    ensures SingleAttempt(s)
  {
    forall unit, t, u | unit in s.store && t in unit && u in unit ensures t.attempt == u.attempt {
      var i :| 0 <= i < |s.store| && s.store[i] == unit;
      assert i < |s.strays| ==> s.store[i] == s.strays[i] && IsStray(s, s.strays[i]);
    }
  }

  /** Exactly when it is promised, whatever happens, that only the last attempt's writes are durable unless a statement takes
      effect after its transaction was ended: unless the loop may open
      a second transaction on a connection that it was given, to a server that takes its BEGIN with the first one still open;
      and even then if nothing is to be committed and the server does not commit at BEGIN. */
  lemma CommittedExactlyIff(o: Options)
    ensures (forall steps :: ExactlyLast(Run(Init(o), steps)) <==> !StraysIn(o, steps)) <==>
      !ReusesConnection(o) || o.server.Refuses? || (o.server.Joins? && o.rollbackOnly)
  {
    if !ReusesConnection(o) || o.server.Refuses? || (o.server.Joins? && o.rollbackOnly) {
      forall steps ensures ExactlyLast(Run(Init(o), steps)) <==> !StraysIn(o, steps) {
        InvFromInit(o, steps);
        StraysIff(o, steps);
        StrayInvRun(Init(o), steps);
        if StraysIn(o, steps) {
          StraysAreNotLast(Run(Init(o), steps));
        }
      }
    } else {
      var steps := Inexact(o);
      StraysIff(o, steps);
      assert !ExactlyLast(Run(Init(o), steps));
    }
  }

  lemma Inexact(o: Options) returns (steps: seq<Step>)
    requires ReusesConnection(o) && !o.server.Refuses? && !(o.server.Joins? && o.rollbackOnly)
    ensures var s := Run(Init(o), steps); !ExactlyLast(s) && s.strays == []
  {
    var e := Thrown(Abort, true);
    steps := if o.rollbackOnly then OneWrite(GIVEN_LINK, 0, Error(e)) + Again(false) + OneWrite(GIVEN_LINK, 1, Value) else TwoTries(e, false);
    var s := Run(Init(o), steps);
    if o.rollbackOnly {
      PreviewIsCommitted(o, e, false);
      assert Tag(0, 0) in s.store[0] && Tag(0, 0) !in Written(s);
    } else if o.server.Joins? {
      WritesOfTwoAttempts(o, e, false);
      assert Tag(0, 0) in s.store[0] && Tag(1, 0) in s.store[0];
    } else {
      CommitsOfTwoAttempts(o, e, false);
    }
  }

  // ---------------------------------------------------------------------------------------------
  // When a normal return committed nothing
  // ---------------------------------------------------------------------------------------------

  /** What a normal return means. If a statement that the returning attempt's body started made the server abort the
      transaction, nothing was committed by COMMIT although the body went on to settle without an error; otherwise exactly what
      the attempt wrote was. What else is durable are the strays. */
  lemma ReturnedInVainIff(o: Options, steps: seq<Step>)
    requires (forall step <- steps :: Benign(o, step)) && !o.rollbackOnly
    requires Run(Init(o), steps).pc.Returned?
    ensures
      var s := Run(Init(o), steps);
      && s.attempts != []
      && s.store == s.strays + (if AbortedIn(o, steps, s.Last()) then [] else [Written(s)])
      && (s.strays == [] <==> !StraysIn(o, steps))
  {
    InvFromInit(o, steps);
    AbortedIff(o, steps, Run(Init(o), steps).Last());
    StraysIff(o, steps);
  }

  /** A body whose only statement fails and aborts the transaction, and that settles with a value all the same. */
  ghost function SwallowedAbort(id: nat): seq<Step> {
    [TakeConnection(GIVEN_LINK), BeginOk, StartQuery(0, id), Runs(0, id, AbortsTransaction), Answered(0, id), Finished(0, id), BodySettles(Value), Drained, CommitOk]
  }

  ghost function Swallowing(o: Options, guard: Guard, inflight: set<nat>, id: nat, aborted: bool, pc: Pc, wire: seq<Event>): State {
    State(o, pc, [Attempt(GIVEN_LINK, guard, true, {id}, inflight, if aborted then {id} else {}, {}, aborted, false, 0)],
          map[GIVEN_LINK := Link(true, if aborted then Aborted else Open({}))], [], [], wire, pc.Committing?)
  }

  lemma SwallowedBegins(o: Options, id: nat)
    ensures Run(Init(o), SwallowedAbort(id)) == Run(Begun0(o), SwallowedAbort(id)[2..])
  {
    var steps := SwallowedAbort(id);
    var s1 := State(o, Beginning, [NewAttempt(GIVEN_LINK)], map[], [], [], [Begin(0)], false);
    assert Do(Init(o), steps[0]) == s1;
    assert Do(s1, steps[1]) == Begun0(o);
    StepTo(Init(o), steps, s1);
    StepTo(s1, steps[1..], Begun0(o));
  }

  ghost function Begun0(o: Options): State {
    State(o, InBody, [NewAttempt(GIVEN_LINK).(handed := true)], map[GIVEN_LINK := Link(true, Open({}))], [], [], [Begin(0)], false)
  }

  lemma SwallowedRuns(o: Options, id: nat)
    ensures Run(Init(o), SwallowedAbort(id)) ==
      Run(Swallowing(o, Guard(false, {id}), {id}, id, true, InBody, [Begin(0), Query(0, id)]), SwallowedAbort(id)[4..])
  {
    var steps := SwallowedAbort(id);
    SwallowedBegins(o, id);
    var s2 := Begun0(o);
    var s3 := Swallowing(o, Guard(false, {id}), {id}, id, false, InBody, [Begin(0), Query(0, id)]);
    assert {} + {id} == {id};
    assert s2.wire + [Query(0, id)] == s3.wire && s2.attempts[0 := s3.attempts[0]] == s3.attempts;
    assert Do(s2, steps[2]) == s3;
    var s4 := Swallowing(o, Guard(false, {id}), {id}, id, true, InBody, [Begin(0), Query(0, id)]);
    assert s3.attempts[0 := s4.attempts[0]] == s4.attempts;
    assert Do(s3, steps[3]) == s4;
    StepTo(s2, steps[2..], s3);
    StepTo(s3, steps[3..], s4);
  }

  lemma SwallowedSettles(o: Options, id: nat)
    ensures Run(Swallowing(o, Guard(false, {id}), {id}, id, true, InBody, [Begin(0), Query(0, id)]), SwallowedAbort(id)[4..]) ==
      Run(Swallowing(o, Guard(true, {}), {}, id, true, Draining({}, Value), [Begin(0), Query(0, id), Answer(0, id)]), SwallowedAbort(id)[7..])
  {
    var steps := SwallowedAbort(id);
    var s4 := Swallowing(o, Guard(false, {id}), {id}, id, true, InBody, [Begin(0), Query(0, id)]);
    var s5 := Swallowing(o, Guard(false, {id}), {}, id, true, InBody, [Begin(0), Query(0, id), Answer(0, id)]);
    assert {id} - {id} == {};
    assert s4.wire + [Answer(0, id)] == s5.wire && s4.attempts[0 := s5.attempts[0]] == s5.attempts;
    assert Do(s4, steps[4]) == s5;
    var s6 := Swallowing(o, Guard(false, {}), {}, id, true, InBody, s5.wire);
    assert s5.attempts[0 := s6.attempts[0]] == s6.attempts;
    assert Do(s5, steps[5]) == s6;
    var s7 := Swallowing(o, Guard(true, {}), {}, id, true, Draining({}, Value), s5.wire);
    assert s6.attempts[0 := s7.attempts[0]] == s7.attempts;
    assert Do(s6, steps[6]) == s7;
    StepTo(s4, steps[4..], s5);
    StepTo(s5, steps[5..], s6);
    StepTo(s6, steps[6..], s7);
  }

  /** It happens, whatever the options, as long as the transaction is to be committed: a normal return, and nothing durable. */
  lemma ReturnedInVain(o: Options, id: nat)
    requires !o.rollbackOnly
    ensures var s := Run(Init(o), SwallowedAbort(id)); s.pc.Returned? && s.store == []
  {
    var steps := SwallowedAbort(id);
    SwallowedRuns(o, id);
    SwallowedSettles(o, id);
    var s7 := Swallowing(o, Guard(true, {}), {}, id, true, Draining({}, Value), [Begin(0), Query(0, id), Answer(0, id)]);
    var s8 := s7.(pc := Committing, committing := true).Says(Commit(0));
    assert Do(s7, steps[7]) == s8;
    var s9 := Do(s8, steps[8]);
    assert s9 == ServerCommits(s8).(pc := Returned).Release(false);
    StepTo(s7, steps[7..], s8);
    StepTo(s8, steps[8..], s9);
    assert steps[9..] == [];
  }
}
