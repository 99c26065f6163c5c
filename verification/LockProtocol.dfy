/** N processes sharing the lock's row, their steps interleaved in any order. */
module LockProtocol {
  import opened Wrappers
  import opened AppLock

  /** What one statement of a renewal has done to the row so far. */
  datatype Exec = NotRun | Ran(at: int, hit: bool)

  /** Where a process stands in `Bootstrap`. */
  datatype Phase =
    | Idle
    | InTransaction                                     // inside Acquire, its timestamp taken
    | Waiting(waitUntil: Option<int>)                   // Acquire has succeeded
    | Ready                                             // wait over, Release registered
    | Sleeping                                          // in RunRenewal, waiting for a tick
    | Attempting(k: nat, stamp: int, exec: Exec)        // in renew, attempt k
    | Pausing(after: nat, resumeAt: int)                // in renew, after a failed attempt
    | Left(why: RenewResult)                            // services stopped, Release not yet done
    | Done

  /** `known` is the latest expiry the process has seen acknowledged, `granted` the latest one it has
      written, `readyAt` the moment its wait ends, `rank` its place in the order of acquisitions. */
  datatype Proc = Proc(phase: Phase, acquiredAt: int, readyAt: int, rank: nat,
                       known: int, granted: int, nextTick: int, renewed: bool)

  datatype Tx = Tx(pid: nat, stamp: int, force: bool)

  datatype State = State(clock: int, row: Row, tx: Option<Tx>, commits: nat, procs: seq<Proc>) {
    function Put(p: nat, x: Proc): State
      requires p < |procs|
    {
      this.(procs := procs[p := x])
    }

    function Enter(p: nat, phase: Phase): State
      requires p < |procs|
    {
      Put(p, procs[p].(phase := phase))
    }
  }

  datatype Event =
    | Advance(to: int)
    | Begin(p: nat, force: bool)
    | Commit(p: nat, reported: bool)
    | Rollback(p: nat)
    | FinishWait(p: nat)
    | AbandonWait(p: nat)
    | StartRenewal(p: nat)
    | FailStart(p: nat)
    | TakeTick(p: nat)
    | RunUpdate(p: nat)
    | SeeReply(p: nat, delivered: bool, ctxDone: bool)
    | Retry(p: nat)
    | Cancel(p: nat)
    | RunRelease(p: nat)
    | DropRelease(p: nat)

  function Max(a: int, b: int): int {
    if a < b then b else a
  }

  /** A ticker keeps one pending tick and drops those that fire while it is pending. */
  function NextTick(tick: int, clock: int): (next: int)
    requires tick <= clock
    ensures clock < next <= clock + RENEW_INTERVAL && (next - tick) % RENEW_INTERVAL == 0
  {
    tick + RENEW_INTERVAL * ((clock - tick) / RENEW_INTERVAL + 1)
  }

  function VerdictAfter(exec: Exec, delivered: bool): Verdict {
    if exec.NotRun? || !delivered then Failed else if exec.hit then Hit else Miss
  }

  predicate Enabled(s: State, e: Event) {
    if e.Advance? then s.clock < e.to
    else
      && e.p < |s.procs|
      && var x := s.procs[e.p];
      match e
      case Begin(_, _) => x.phase.Idle? && s.tx.None?
      case Commit(_, _) => s.tx.Some? && s.tx.value.pid == e.p
      case Rollback(_) => s.tx.Some? && s.tx.value.pid == e.p
      case FinishWait(_) => x.phase.Waiting? && (x.phase.waitUntil.Some? ==> 1000 * x.phase.waitUntil.value <= s.clock)
      case AbandonWait(_) => x.phase.Waiting?
      case StartRenewal(_) => x.phase.Ready?
      case FailStart(_) => x.phase.Ready?
      case TakeTick(_) => x.phase.Sleeping? && x.nextTick <= s.clock
      case RunUpdate(_) =>
        x.phase.Attempting? && x.phase.exec.NotRun? && s.tx.None? && s.clock <= x.phase.stamp + OP_TIMEOUT
      case SeeReply(_, delivered, _) => x.phase.Attempting? && (delivered ==> x.phase.exec.Ran?)
      case Retry(_) => x.phase.Pausing? && x.phase.resumeAt <= s.clock
      case Cancel(_) => x.phase.Sleeping? || x.phase.Pausing?
      case RunRelease(_) => x.phase.Left? && s.tx.None?
      case DropRelease(_) => x.phase.Left?
  }

  /** Acquire's statement and commit. The process goes on only if it is told of its success. */
  function ApplyCommit(s: State, p: nat, reported: bool): State
    requires Enabled(s, Commit(p, reported))
  {
    var t := s.tx.value;
    var s' := s.(row := AfterAcquire(s.row, p, t.stamp, t.force), tx := None);
    if AcquireGuard(s.row, Unix(t.stamp), t.force) && reported then
      var wait := WaitFor(s.row, p, t.stamp, t.force);
      var readyAt := if wait.Some? then Max(t.stamp, 1000 * wait.value) else t.stamp;
      var expiry := ExpiryOf(t.stamp);
      s'.(commits := s.commits + 1)
        .Put(p, Proc(Waiting(wait), t.stamp, readyAt, s.commits, expiry, expiry, 0, false))
    else
      s'.Enter(p, Done)
  }

  function ApplyReply(s: State, p: nat, delivered: bool, ctxDone: bool): State
    requires Enabled(s, SeeReply(p, delivered, ctxDone))
  {
    var x := s.procs[p];
    var k := x.phase.k;
    match AfterVerdict(k, VerdictAfter(x.phase.exec, delivered), ctxDone)
    case Again => s.Enter(p, Pausing(k, s.clock + RETRY_PAUSE))
    case Return(Renewed) =>
      s.Put(p, x.(phase := Sleeping, known := ExpiryOf(x.phase.stamp), renewed := true))
    case Return(why) => s.Enter(p, Left(why))
  }

  function Apply(s: State, e: Event): State
    requires Enabled(s, e)
  {
    match e
    case Advance(to) => s.(clock := to)
    case Begin(p, force) => s.(tx := Some(Tx(p, s.clock, force))).Enter(p, InTransaction)
    case Commit(p, reported) => ApplyCommit(s, p, reported)
    case Rollback(p) => s.(tx := None).Enter(p, Done)
    case FinishWait(p) => s.Enter(p, Ready)
    case AbandonWait(p) => s.Enter(p, Done)
    case StartRenewal(p) => s.Put(p, s.procs[p].(phase := Sleeping, nextTick := s.clock + RENEW_INTERVAL))
    case FailStart(p) => s.Enter(p, Left(Cancelled))
    case TakeTick(p) =>
      s.Put(p, s.procs[p].(phase := Attempting(1, s.clock, NotRun), nextTick := NextTick(s.procs[p].nextTick, s.clock)))
    case RunUpdate(p) =>
      var x := s.procs[p];
      var hit := RenewGuard(s.row, p, Unix(x.phase.stamp));
      s.(row := AfterRenew(s.row, p, x.phase.stamp))
        .Put(p, x.(phase := x.phase.(exec := Ran(s.clock, hit)),
                   granted := if hit then ExpiryOf(x.phase.stamp) else x.granted))
    case SeeReply(p, delivered, ctxDone) => ApplyReply(s, p, delivered, ctxDone)
    case Retry(p) => s.Enter(p, Attempting(s.procs[p].phase.after + 1, s.clock, NotRun))
    case Cancel(p) => s.Enter(p, Left(Cancelled))
    case RunRelease(p) => s.(row := AfterRelease(s.row, p)).Enter(p, Done)
    case DropRelease(p) => s.Enter(p, Done)
  }

  /** Nobody has started; the row is absent or left over from a process that is gone. */
  ghost predicate Init(s: State) {
    && s.tx.None? && s.commits == 0
    && (forall p :: 0 <= p < |s.procs| ==> s.procs[p].phase.Idle?)
    && (s.row.Some? ==> s.row.value.lockId >= |s.procs| && s.row.value.expiresAt <= ExpiryOf(s.clock))
  }

  ghost predicate IsRun(states: seq<State>, events: seq<Event>) {
    && |states| == |events| + 1
    && Init(states[0])
    && forall i :: 0 <= i < |events| ==> Enabled(states[i], events[i]) && states[i + 1] == Apply(states[i], events[i])
  }

  /** Acquire has succeeded and Release is not yet over. */
  predicate Active(x: Proc) {
    !x.phase.Idle? && !x.phase.InTransaction? && !x.phase.Done?
  }

  /** Active and past the wait. */
  predicate Started(x: Proc) {
    Active(x) && !x.phase.Waiting?
  }

  predicate Renewing(x: Proc) {
    x.phase.Sleeping? || x.phase.Attempting? || x.phase.Pausing?
  }

  /** From the end of its wait until its release or the last expiry it knows of, a process holds the lock. */
  predicate Holds(s: State, p: nat) {
    p < |s.procs| && Started(s.procs[p]) && s.clock < 1000 * s.procs[p].known
  }

  ghost predicate ProcInv(s: State, p: nat)
    requires p < |s.procs|
  {
    var x := s.procs[p];
    && (x.phase.InTransaction? <==> s.tx.Some? && s.tx.value.pid == p)
    && (Active(x) ==>
      && x.known <= x.granted <= ExpiryOf(s.clock)
      && x.acquiredAt <= s.clock && x.acquiredAt <= x.readyAt && x.rank < s.commits
      && x.granted >= ExpiryOf(x.acquiredAt))
    && (x.phase.Waiting? ==>
      x.readyAt == if x.phase.waitUntil.Some? then Max(x.acquiredAt, 1000 * x.phase.waitUntil.value) else x.acquiredAt)
    && (Started(x) ==> x.readyAt <= s.clock)
    && (x.phase.Waiting? || x.phase.Ready? ==> x.granted == ExpiryOf(x.acquiredAt) && !x.renewed)
    && (x.phase.Attempting? ==>
      && x.phase.stamp <= s.clock && 1 <= x.phase.k <= RENEW_RETRIES
      && (x.phase.exec.NotRun? ==> x.granted <= ExpiryOf(x.phase.stamp))
      && (x.phase.exec.Ran? && x.phase.exec.hit ==> x.granted == ExpiryOf(x.phase.stamp)))
    && (x.phase.Pausing? ==> 1 <= x.phase.after < RENEW_RETRIES)
  }

  /** A later acquirer is ready only after every expiry an earlier, still active one has written. */
  ghost predicate OrderInv(s: State) {
    forall p, q :: 0 <= p < |s.procs| && 0 <= q < |s.procs| && p != q && Active(s.procs[p]) && Active(s.procs[q]) ==>
      && s.procs[p].rank != s.procs[q].rank
      && (s.procs[p].rank < s.procs[q].rank ==> 1000 * s.procs[p].granted <= s.procs[q].readyAt)
  }

  /** The row bounds every written expiry, and its owner, if active, is the latest acquirer. */
  ghost predicate RowInv(s: State) {
    match s.row
    case None => forall p :: 0 <= p < |s.procs| && Active(s.procs[p]) ==> 1000 * s.procs[p].granted <= s.clock
    case Some(r) =>
      && r.expiresAt <= ExpiryOf(s.clock)
      && (forall p :: 0 <= p < |s.procs| && Active(s.procs[p]) ==> s.procs[p].granted <= r.expiresAt)
      && (r.lockId < |s.procs| ==>
        && !s.procs[r.lockId].phase.Idle? && !s.procs[r.lockId].phase.InTransaction?
        && (Active(s.procs[r.lockId]) ==>
          && s.procs[r.lockId].granted == r.expiresAt
          && forall q :: 0 <= q < |s.procs| && q != r.lockId && Active(s.procs[q]) ==>
               s.procs[q].rank < s.procs[r.lockId].rank))
  }

  /** What an open transaction has read still holds when it commits, measured by its own timestamp. */
  ghost predicate TxInv(s: State) {
    s.tx.Some? ==>
      && s.tx.value.pid < |s.procs| && s.tx.value.stamp <= s.clock
      && (s.row.Some? ==> s.row.value.expiresAt <= ExpiryOf(s.tx.value.stamp))
      && (s.row.None? ==> forall p :: 0 <= p < |s.procs| && Active(s.procs[p]) ==>
            1000 * s.procs[p].granted <= s.tx.value.stamp)
  }

  ghost predicate Inv(s: State) {
    && (forall p :: 0 <= p < |s.procs| ==> ProcInv(s, p))
    && SharedInv(s)
  }

  lemma CommitKeepsProcInv(s: State, p: nat, reported: bool)
    requires Inv(s) && Enabled(s, Commit(p, reported))
    ensures ProcInv(Apply(s, Commit(p, reported)), p)
  {
    assert ProcInv(s, p);
  }

  lemma ReplyKeepsProcInv(s: State, p: nat, delivered: bool, ctxDone: bool)
    requires p < |s.procs| && ProcInv(s, p) && Enabled(s, SeeReply(p, delivered, ctxDone))
    ensures ProcInv(Apply(s, SeeReply(p, delivered, ctxDone)), p)
  {
    var after := ApplyReply(s, p, delivered, ctxDone);
    assert after.tx == s.tx && after.clock == s.clock && after.commits == s.commits;
  }

  lemma RenewalStepKeepsProcInv(s: State, e: Event)
    requires Inv(s) && Enabled(s, e) && (e.TakeTick? || e.RunUpdate? || e.Retry? || e.Cancel?)
    ensures ProcInv(Apply(s, e), e.p)
  {
    assert ProcInv(s, e.p);
  }

  lemma OwnStepKeepsProcInv(s: State, e: Event)
    requires Inv(s) && Enabled(s, e) && !e.Advance?
    requires !e.Commit? && !e.SeeReply? && !e.TakeTick? && !e.RunUpdate? && !e.Retry? && !e.Cancel?
    ensures ProcInv(Apply(s, e), e.p)
  {
    assert ProcInv(s, e.p);
  }

  /** A step of one process, or of the clock, leaves the others as they are. */
  lemma OthersUnchanged(s: State, e: Event, p: nat)
    requires Enabled(s, e) && p < |s.procs| && (e.Advance? || e.p != p)
    ensures var s' := Apply(s, e);
      && |s'.procs| == |s.procs| && s'.procs[p] == s.procs[p] && s.clock <= s'.clock && s.commits <= s'.commits
      && (e.Begin? || e.Commit? || e.Rollback? || s'.tx == s.tx)
      && (e.Begin? ==> s.tx.None? && s'.tx.Some? && s'.tx.value.pid == e.p)
      && (e.Commit? || e.Rollback? ==> s.tx.Some? && s.tx.value.pid == e.p && s'.tx.None?)
  {
  }

  lemma OtherStepKeepsProcInv(s: State, e: Event, p: nat)
    requires Inv(s) && Enabled(s, e) && p < |s.procs| && (e.Advance? || e.p != p)
    ensures ProcInv(Apply(s, e), p)
  {
    OthersUnchanged(s, e, p);
    assert ProcInv(s, p);
  }

  lemma StepKeepsProcInv(s: State, e: Event, p: nat)
    requires Inv(s) && Enabled(s, e) && p < |s.procs|
    ensures ProcInv(Apply(s, e), p)
  {
    if e.Advance? || p != e.p {
      OtherStepKeepsProcInv(s, e, p);
    } else {
      match e
      case Commit(_, reported) => CommitKeepsProcInv(s, p, reported);
      case SeeReply(_, delivered, ctxDone) => ReplyKeepsProcInv(s, p, delivered, ctxDone);
      case TakeTick(_) => RenewalStepKeepsProcInv(s, e);
      case RunUpdate(_) => RenewalStepKeepsProcInv(s, e);
      case Retry(_) => RenewalStepKeepsProcInv(s, e);
      case Cancel(_) => RenewalStepKeepsProcInv(s, e);
      case _ => OwnStepKeepsProcInv(s, e);
    }
  }

  ghost predicate SharedInv(s: State) {
    OrderInv(s) && RowInv(s) && TxInv(s)
  }

  lemma CommitKeepsOrderInv(s: State, p: nat, reported: bool)
    requires Inv(s) && Enabled(s, Commit(p, reported))
    ensures OrderInv(Apply(s, Commit(p, reported)))
  {
    assert ProcInv(s, p);
    forall q | 0 <= q < |s.procs| && Active(s.procs[q])
      ensures s.procs[q].rank < s.commits
    {
      assert ProcInv(s, q);
    }
  }

  lemma CommitKeepsRowInv(s: State, p: nat, reported: bool)
    requires Inv(s) && Enabled(s, Commit(p, reported))
    ensures RowInv(Apply(s, Commit(p, reported))) && TxInv(Apply(s, Commit(p, reported)))
  {
    assert ProcInv(s, p);
    forall q | 0 <= q < |s.procs| && Active(s.procs[q])
      ensures s.procs[q].rank < s.commits
    {
      assert ProcInv(s, q);
    }
  }

  lemma UpdateKeepsSharedInv(s: State, p: nat)
    requires Inv(s) && Enabled(s, RunUpdate(p))
    ensures SharedInv(Apply(s, RunUpdate(p)))
  {
    assert ProcInv(s, p);
  }

  lemma ReleaseKeepsSharedInv(s: State, p: nat)
    requires Inv(s) && Enabled(s, RunRelease(p))
    ensures SharedInv(Apply(s, RunRelease(p)))
  {
    assert ProcInv(s, p);
  }

  /** The steps that leave the row alone also leave what the shared invariant says of each process. */
  lemma OtherStepIsQuiet(s: State, e: Event, q: nat)
    requires Enabled(s, e) && !e.Commit? && !e.RunUpdate? && !e.RunRelease? && q < |s.procs|
    ensures var x, x' := s.procs[q], Apply(s, e).procs[q];
      && (Active(x') ==> Active(x) && x'.granted == x.granted && x'.rank == x.rank && x'.readyAt == x.readyAt)
      && (x'.phase.Idle? || x'.phase.InTransaction? ==> x.phase.Idle? || x.phase.InTransaction?)
  {
  }

  /** The row and the order of acquisitions stay as they are, and nobody is more active than before. */
  ghost predicate Quiet(s: State, s': State) {
    && s'.row == s.row && s.clock <= s'.clock && |s'.procs| == |s.procs| && s'.commits == s.commits
    && (s'.tx == s.tx || s'.tx.None? || (s'.tx.value.stamp == s.clock == s'.clock && s'.tx.value.pid < |s.procs|))
    && forall q :: 0 <= q < |s.procs| ==>
         var x, x' := s.procs[q], s'.procs[q];
         && (Active(x') ==> Active(x) && x'.granted == x.granted && x'.rank == x.rank && x'.readyAt == x.readyAt)
         && (x'.phase.Idle? || x'.phase.InTransaction? ==> x.phase.Idle? || x.phase.InTransaction?)
  }

  lemma QuietKeepsSharedInv(s: State, s': State)
    requires SharedInv(s) && Quiet(s, s')
    ensures SharedInv(s')
  {
  }

  lemma OtherStepKeepsSharedInv(s: State, e: Event)
    requires Inv(s) && Enabled(s, e) && !e.Commit? && !e.RunUpdate? && !e.RunRelease?
    ensures SharedInv(Apply(s, e))
  {
    var s' := Apply(s, e);
    forall q | 0 <= q < |s.procs|
      ensures var x, x' := s.procs[q], s'.procs[q];
        && (Active(x') ==> Active(x) && x'.granted == x.granted && x'.rank == x.rank && x'.readyAt == x.readyAt)
        && (x'.phase.Idle? || x'.phase.InTransaction? ==> x.phase.Idle? || x.phase.InTransaction?)
    {
      OtherStepIsQuiet(s, e, q);
    }
    QuietKeepsSharedInv(s, s');
  }

  lemma StepKeepsSharedInv(s: State, e: Event)
    requires Inv(s) && Enabled(s, e)
    ensures SharedInv(Apply(s, e))
  {
    match e
    case Commit(p, reported) =>
      CommitKeepsOrderInv(s, p, reported);
      CommitKeepsRowInv(s, p, reported);
    case RunUpdate(p) => UpdateKeepsSharedInv(s, p);
    case RunRelease(p) => ReleaseKeepsSharedInv(s, p);
    case _ => OtherStepKeepsSharedInv(s, e);
  }

  lemma SameProcesses(s: State, e: Event)
    requires Enabled(s, e)
    ensures |Apply(s, e).procs| == |s.procs|
  {
  }

  lemma StepKeepsInv(s: State, e: Event)
    requires Inv(s) && Enabled(s, e)
    ensures Inv(Apply(s, e))
  {
    SameProcesses(s, e);
    StepKeepsSharedInv(s, e);
    forall p | 0 <= p < |s.procs|
      ensures ProcInv(Apply(s, e), p)
    {
      StepKeepsProcInv(s, e, p);
    }
  }

  lemma {:induction false} RunKeepsInv(states: seq<State>, events: seq<Event>, i: nat)
    requires IsRun(states, events) && i < |states|
    ensures Inv(states[i])
  {
    if i > 0 {
      RunKeepsInv(states, events, i - 1);
      StepKeepsInv(states[i - 1], events[i - 1]);
    }
  }

  /** In every state of every run at most one process holds the lock. */
  lemma MutualExclusion(states: seq<State>, events: seq<Event>, i: nat, p: nat, q: nat)
    requires IsRun(states, events) && i < |states|
    requires Holds(states[i], p) && Holds(states[i], q)
    ensures p == q
  {
    RunKeepsInv(states, events, i);
    assert ProcInv(states[i], p) && ProcInv(states[i], q);
  }

  /** Any two processes that are both past their waits are ordered: the later one has started no
      earlier than the last expiry the earlier one ever wrote, acknowledged or not. */
  lemma LaterStartsAfterEarlierExpiry(states: seq<State>, events: seq<Event>, i: nat, p: nat, q: nat)
    requires IsRun(states, events) && i < |states|
    requires p < |states[i].procs| && q < |states[i].procs| && p != q
    requires Active(states[i].procs[p]) && Started(states[i].procs[q])
    requires states[i].procs[p].rank < states[i].procs[q].rank
    ensures states[i].procs[p].known <= states[i].procs[p].granted
    ensures 1000 * states[i].procs[p].granted <= states[i].procs[q].readyAt <= states[i].clock
  {
    RunKeepsInv(states, events, i);
    assert ProcInv(states[i], p) && ProcInv(states[i], q);
  }

  /** As long as no release empties the row, no step moves its expiry back. */
  lemma ExpiryNeverDecreases(states: seq<State>, events: seq<Event>, i: nat)
    requires IsRun(states, events) && i < |events|
    requires states[i].row.Some? && states[i + 1].row.Some?
    ensures states[i].row.value.expiresAt <= states[i + 1].row.value.expiresAt
  {
    RunKeepsInv(states, events, i);
    if !events[i].Advance? {
      assert ProcInv(states[i], events[i].p);
    }
  }

  /** A takeover without force happens a full second after the stored expiry or later, although its
      timestamp is older than its statement. */
  lemma TakeoverOnlyAfterExpiry(states: seq<State>, events: seq<Event>, i: nat)
    requires IsRun(states, events) && i < |events|
    requires states[i].row.Some? && states[i + 1].row.Some?
    requires states[i].row.value.lockId != states[i + 1].row.value.lockId
    ensures events[i].Commit? && states[i].tx.Some? && events[i].p == states[i + 1].row.value.lockId
    ensures !states[i].tx.value.force ==> 1000 * (states[i].row.value.expiresAt + 1) <= states[i].clock
  {
    RunKeepsInv(states, events, i);
  }

  // The steps of the protocol are the calls of the service.

  /** An attempt of `AppLockService.Renew` is a statement (unless it is never applied) and a reply. */
  lemma AttemptMatchesService(s: State, p: nat, world: seq<Attempt>, i: nat)
    requires p < |s.procs| && s.tx.None? && i < |world|
    requires s.procs[p].phase == Attempting(i + 1, world[i].now, NotRun) && s.row == world[i].before
    requires s.clock <= world[i].now + OP_TIMEOUT
    ensures world[i].link.NeverRan? || Enabled(s, RunUpdate(p))
    ensures var s1 := if world[i].link.NeverRan? then s else Apply(s, RunUpdate(p));
      && var reply := SeeReply(p, world[i].link.Delivered?, world[i].ctxDone);
      && Enabled(s1, reply)
      && var s2 := Apply(s1, reply);
      && s2.row == RowAfterAttempt(world[i], p)
      && s2.procs[p].phase ==
           match StepAfter(world, p, i)
           case Again => Pausing(i + 1, s.clock + RETRY_PAUSE)
           case Return(Renewed) => Sleeping
           case Return(why) => Left(why)
  {
  }

  /** A commit does to the row what `AppLockService.Acquire` does, and the process goes on to wait for
      the second Acquire returns exactly when Acquire returns one. */
  lemma CommitMatchesService(s: State, p: nat, reported: bool)
    requires Inv(s) && Enabled(s, Commit(p, reported))
    ensures var t := s.tx.value; var s' := Apply(s, Commit(p, reported));
      && s'.row == AfterAcquire(s.row, p, t.stamp, t.force)
      && (s'.procs[p].phase == Waiting(WaitFor(s.row, p, t.stamp, t.force)) <==>
            reported && AcquireGuard(s.row, Unix(t.stamp), t.force))
      && (s'.procs[p].phase.Waiting? || s'.procs[p].phase.Done?)
  {
    assert ProcInv(s, p);
  }

  /** Around its renewals a process abandons its wait without touching the row, or is past it only when the
      time Acquire has returned has come; a release of its own row, or one that is lost, is its last step. */
  lemma StepsAroundRenewals(s: State, e: Event)
    requires Inv(s) && Enabled(s, e) && !e.Advance?
    ensures var before, after := s.procs[e.p].phase, Apply(s, e).procs[e.p].phase;
      && (before.Waiting? ==>
            && Apply(s, e).row == s.row
            && if e.AbandonWait? then after.Done?
               else after.Ready? && (before.waitUntil.Some? ==> 1000 * before.waitUntil.value <= s.clock))
      && (before.Ready? ==> Apply(s, e).row == s.row && (after.Sleeping? || after == Left(Cancelled)))
      && (before.Left? ==> after.Done? && Apply(s, e).row == if e.RunRelease? then AfterRelease(s.row, e.p) else s.row)
      && !before.Done?
      && (after.Done? ==> before.InTransaction? || before.Waiting? || before.Left?)
  {
    assert ProcInv(s, e.p);
  }

  function AcquireEvent(p: nat, fault: Link): Event {
    if fault.NeverRan? then Rollback(p) else Commit(p, fault.Delivered?)
  }

  function ReleaseEvent(p: nat, fault: Link): Event {
    if fault.NeverRan? then DropRelease(p) else RunRelease(p)
  }

  /** The first half of a life: what Acquire leaves is what the exits of `AppLock.Bootstrap` say, and a
      process that is told of its success can go on from exactly the moment at which Bootstrap may. */
  lemma LifeBegins(s: State, p: nat, life: Life, force: bool)
    requires Inv(s) && p < |s.procs| && s.clock == life.now && s.tx == Some(Tx(p, life.now, force))
    ensures Enabled(s, AcquireEvent(p, life.acquireFault))
    ensures var s1, exit := Apply(s, AcquireEvent(p, life.acquireFault)), ExitOf(life, p, s.row, force);
      var x, wait := s1.procs[p], WaitFor(s.row, p, life.now, force);
      if exit.AcquireFailed? then x.phase.Done? && s1.row == RowAfterLife(life, p, s.row, force)
      else
        && x.phase == Waiting(wait) && x.readyAt == WaitEnds(life.now, wait)
        && Enabled(s1, AbandonWait(p))
        && (exit.WaitCancelled? ==>
              && Apply(s1, AbandonWait(p)).procs[p].phase.Done?
              && Apply(s1, AbandonWait(p)).row == RowAfterLife(life, p, s.row, force))
        && forall t :: t >= life.now ==> (Enabled(s1.(clock := t), FinishWait(p)) <==> t >= WaitEnds(life.now, wait))
  {
    assert ProcInv(s, p);
  }

  /** The second half: whatever its services have come to, a process that has started leaves the row that
      Bootstrap leaves, by its last step. */
  lemma LifeEnds(s: State, p: nat, life: Life, row: Row, force: bool)
    requires Inv(s) && p < |s.procs| && s.procs[p].phase.Left? && s.tx.None? && s.row == life.rowAtExit
    requires ExitOf(life, p, row, force).StartupFailed? || ExitOf(life, p, row, force).Served?
    ensures Enabled(s, ReleaseEvent(p, life.releaseFault))
    ensures var s' := Apply(s, ReleaseEvent(p, life.releaseFault));
      && s'.row == RowAfterLife(life, p, row, force) && s'.procs[p].phase.Done?
      && forall e: Event :: !e.Advance? && e.p == p ==> !Enabled(s', e)
  {
    assert ProcInv(s, p);
  }
}
