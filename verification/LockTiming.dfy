/** What the lock's time constants give a process whose timers fire on time.

    `delta` bounds the time from Acquire's timestamp to the start of the renewal ticker. */
module LockTiming {
  import opened Wrappers
  import opened AppLock
  import opened LockProtocol

  const LAST := RENEW_RETRIES

  datatype Run = Run(states: seq<State>, events: seq<Event>)

  /** The clock has not run past a timer of p that is due, nor past the timeout of its statement. */
  predicate Punctual(s: State, p: nat, delta: nat) {
    p < |s.procs| ==>
      match s.procs[p].phase
      case Waiting(_) => s.clock <= s.procs[p].acquiredAt + delta
      case Ready => s.clock <= s.procs[p].acquiredAt + delta
      case Sleeping => s.clock <= s.procs[p].nextTick
      case Attempting(_, stamp, _) => s.clock <= stamp + OP_TIMEOUT
      case Pausing(_, resumeAt) => s.clock <= resumeAt
      case _ => true
  }

  ghost predicate PunctualRun(r: Run, p: nat, delta: nat) {
    && IsRun(r.states, r.events)
    && (forall i :: 0 <= i < |r.states| ==> p < |r.states[i].procs| && Punctual(r.states[i], p, delta))
  }

  /** The startup delay weighs on the first round only. */
  function Slack(x: Proc, delta: nat): nat {
    if x.renewed then 0 else delta
  }

  /** The moment the lease runs out, the tick of the current round, and how far they are apart. */
  ghost predicate TimedInv(x: Proc, delta: nat) {
    var leaseEnd, tick := 1000 * x.granted, x.nextTick - RENEW_INTERVAL;
    match x.phase
    case Sleeping => x.nextTick + 9_000 < leaseEnd + Slack(x, delta)
    case Attempting(k, stamp, _) =>
      tick + 9_000 < leaseEnd + Slack(x, delta) && tick <= stamp <= tick + (k - 1) * 4_000
    case Pausing(k, resumeAt) =>
      tick + 9_000 < leaseEnd + Slack(x, delta) && tick <= resumeAt <= tick + k * 4_000
    case _ => true
  }

  lemma ReplyKeepsTimedInv(s: State, p: nat, delivered: bool, ctxDone: bool, delta: nat)
    requires Inv(s) && Enabled(s, SeeReply(p, delivered, ctxDone))
    requires Punctual(s, p, delta) && TimedInv(s.procs[p], delta)
    ensures TimedInv(Apply(s, SeeReply(p, delivered, ctxDone)).procs[p], delta)
  {
    assert ProcInv(s, p);
  }

  lemma OwnStepKeepsTimedInv(s: State, e: Event, delta: nat)
    requires Inv(s) && Enabled(s, e) && !e.Advance? && !e.SeeReply?
    requires Punctual(s, e.p, delta) && TimedInv(s.procs[e.p], delta)
    ensures TimedInv(Apply(s, e).procs[e.p], delta)
  {
    assert ProcInv(s, e.p);
    match e
    case TakeTick(p) => assert NextTick(s.procs[p].nextTick, s.clock) == s.clock + RENEW_INTERVAL;
    case _ =>
  }

  lemma StepKeepsTimedInv(s: State, e: Event, p: nat, delta: nat)
    requires Inv(s) && Enabled(s, e) && p < |s.procs|
    requires Punctual(s, p, delta) && TimedInv(s.procs[p], delta)
    ensures TimedInv(Apply(s, e).procs[p], delta)
  {
    if e.Advance? || e.p != p {
      OthersUnchanged(s, e, p);
    } else if e.SeeReply? {
      ReplyKeepsTimedInv(s, p, e.delivered, e.ctxDone, delta);
    } else {
      OwnStepKeepsTimedInv(s, e, delta);
    }
  }

  lemma {:induction false} TimedInvHolds(r: Run, p: nat, delta: nat, i: nat)
    requires PunctualRun(r, p, delta) && i < |r.states|
    ensures TimedInv(r.states[i].procs[p], delta)
  {
    if i > 0 {
      TimedInvHolds(r, p, delta, i - 1);
      RunKeepsInv(r.states, r.events, i - 1);
      StepKeepsTimedInv(r.states[i - 1], r.events[i - 1], p, delta);
    }
  }

  lemma InvsHold(r: Run, p: nat, delta: nat, i: nat)
    requires PunctualRun(r, p, delta) && i < |r.states|
    ensures Inv(r.states[i]) && ProcInv(r.states[i], p) && TimedInv(r.states[i].procs[p], delta)
  {
    RunKeepsInv(r.states, r.events, i);
    TimedInvHolds(r, p, delta, i);
  }

  /** A round is over 11 s after its tick, so no tick is ever dropped. */
  lemma NoTickDropped(r: Run, p: nat, delta: nat, i: nat)
    requires PunctualRun(r, p, delta) && i < |r.events|
    ensures var x := r.states[i].procs[p];
      x.phase.Attempting? || x.phase.Pausing? ==> r.states[i].clock <= x.nextTick - RENEW_INTERVAL + 11_000 < x.nextTick
    ensures r.events[i] == TakeTick(p) ==> r.states[i + 1].procs[p].nextTick == r.states[i].procs[p].nextTick + RENEW_INTERVAL
  {
    InvsHold(r, p, delta, i);
  }

  /** A process is out of RunRenewal less than 2 s (plus, in its first round, the startup delay) after
      the last expiry it has written. A later acquirer starts at that expiry or after it, so the two
      overlap by less than that. */
  lemma OverlapBound(r: Run, p: nat, q: nat, delta: nat, i: nat)
    requires PunctualRun(r, p, delta) && i < |r.states|
    requires Renewing(r.states[i].procs[p])
    ensures r.states[i].clock < 1000 * r.states[i].procs[p].granted + 2_000 + Slack(r.states[i].procs[p], delta)
    ensures Overtakes(r.states[i], p, q) ==>
      r.states[i].clock < r.states[i].procs[q].readyAt + 2_000 + Slack(r.states[i].procs[p], delta)
  {
    InvsHold(r, p, delta, i);
    if Overtakes(r.states[i], p, q) {
      LaterStartsAfterEarlierExpiry(r.states, r.events, i, p, q);
    }
  }

  /** q has acquired after p and is past its wait. */
  predicate Overtakes(s: State, p: nat, q: nat) {
    && p < |s.procs| && q < |s.procs| && p != q
    && Active(s.procs[p]) && Started(s.procs[q]) && s.procs[p].rank < s.procs[q].rank
  }

  /** The stretch of a round in which the lease may already be over. With a startup delay of at most a
      second this is a part of the third attempt only. */
  predicate InTail(s: State, p: nat, delta: nat) {
    p < |s.procs| &&
    var x, late := s.procs[p], s.clock + Slack(s.procs[p], delta);
    match x.phase
    case Sleeping => late > x.nextTick + 9_000
    case Attempting(k, stamp, _) => late + 4_000 * k > stamp + 13_000
    case Pausing(k, resumeAt) => late + 4_000 * k > resumeAt + 9_000
    case _ => false
  }

  lemma NoOverlapBeforeTail(r: Run, p: nat, q: nat, delta: nat, i: nat)
    requires PunctualRun(r, p, delta) && i < |r.states|
    requires Renewing(r.states[i].procs[p]) && !InTail(r.states[i], p, delta)
    ensures r.states[i].clock < 1000 * r.states[i].procs[p].granted
    ensures !Overtakes(r.states[i], p, q)
  {
    InvsHold(r, p, delta, i);
    if Overtakes(r.states[i], p, q) {
      LaterStartsAfterEarlierExpiry(r.states, r.events, i, p, q);
    }
  }

  lemma TailIsLate(r: Run, p: nat, delta: nat, i: nat)
    requires PunctualRun(r, p, delta) && delta <= 1_000 && i < |r.states|
    ensures InTail(r.states[i], p, delta) <==>
      var x := r.states[i].procs[p];
      x.phase.Attempting? && x.phase.k == LAST && r.states[i].clock + Slack(x, delta) > x.phase.stamp + 1_000
  {
    InvsHold(r, p, delta, i);
  }

  /** p sees at step i that attempt k has found the row taken, and leaves RunRenewal. */
  ghost predicate LeavesAtAttempt(r: Run, p: nat, k: nat, i: nat) {
    && i < |r.events| && |r.states| == |r.events| + 1 && p < |r.states[i].procs|
    && r.states[i].procs[p].phase.Attempting? && r.states[i].procs[p].phase.k == k
    && r.events[i].SeeReply? && r.events[i].p == p && r.events[i].delivered
    && p < |r.states[i + 1].procs| && r.states[i + 1].procs[p].phase == Left(LockLost)
  }

  function Min(a: int, b: int): int {
    if a < b then a else b
  }

  /** Whenever attempt k answers within `bound` that the row is taken, p is out before any thief's wait ends. */
  ghost predicate InTimeWithin(k: nat, bound: nat, delta: nat) {
    forall r: Run, p: nat, q: nat, i: nat ::
      PunctualRun(r, p, delta) && LeavesAtAttempt(r, p, k, i)
        && r.states[i].clock <= r.states[i].procs[p].phase.stamp + bound ==>
        !Overtakes(r.states[i], p, q)
  }

  // Retention: nobody forces, and every round succeeds.

  ghost predicate NobodyForces(r: Run) {
    forall e :: e in r.events && e.Begin? ==> !e.force
  }

  /** A third attempt reaches the row within `bound` or not at all, and no round fails three times. */
  predicate Prompt(s: State, p: nat, bound: nat) {
    p < |s.procs| ==>
      && s.procs[p].phase != Left(GaveUp)
      && (s.procs[p].phase.Attempting? && s.procs[p].phase.k == LAST && s.procs[p].phase.exec.Ran? ==>
            s.procs[p].phase.exec.at <= s.procs[p].phase.stamp + bound)
  }

  /** However the others behave, as long as they do not force, p never finds its lock lost. */
  ghost predicate NeverLosesLock(bound: nat, delta: nat) {
    forall r: Run, p: nat, i: nat ::
      PunctualRun(r, p, delta) && PromptRun(r, p, bound) && NobodyForces(r) && i < |r.states| ==>
        r.states[i].procs[p].phase != Left(LockLost)
  }

  ghost predicate PromptRun(r: Run, p: nat, bound: nat) {
    forall i :: 0 <= i < |r.states| ==> Prompt(r.states[i], p, bound)
  }

  lemma PromptMonotone(r: Run, p: nat, bound: nat, bound': nat)
    requires PromptRun(r, p, bound) && bound <= bound'
    ensures PromptRun(r, p, bound')
  {
    forall i | 0 <= i < |r.states|
      ensures Prompt(r.states[i], p, bound')
    {
      assert Prompt(r.states[i], p, bound);
    }
  }

  /** A third attempt that can no longer be prompt; the assumptions rule out that it runs or fails. */
  predicate Overdue(s: State, p: nat, bound: nat)
    requires p < |s.procs|
  {
    && s.procs[p].phase.Attempting? && s.procs[p].phase.k == LAST && s.procs[p].phase.exec.NotRun?
    && s.clock > s.procs[p].phase.stamp + bound
  }

  ghost predicate Keeps(s: State, p: nat, bound: nat)
    requires p < |s.procs|
  {
    var x := s.procs[p];
    && (s.tx.Some? ==> !s.tx.value.force)
    && (Active(x) && !x.phase.Left? ==> s.row == Some(LockValue(p, x.granted)) || Overdue(s, p, bound))
    && (x.phase.Attempting? && x.phase.exec.Ran? ==> x.phase.exec.hit)
    && (x.phase.Left? ==> x.phase.why == Cancelled)
  }

  lemma OwnStepKeeps(s: State, e: Event, delta: nat, bound: nat)
    requires Inv(s) && Enabled(s, e) && !e.Advance? && delta <= 1_000 && bound + delta <= 2_000
    requires Punctual(s, e.p, delta) && TimedInv(s.procs[e.p], delta) && Keeps(s, e.p, bound)
    requires Prompt(Apply(s, e), e.p, bound)
    requires e.Begin? ==> !e.force
    ensures Keeps(Apply(s, e), e.p, bound)
  {
    assert ProcInv(s, e.p);
    match e
    case Commit(_, _) =>
    case RunUpdate(_) =>
    case SeeReply(_, _, _) =>
    case _ =>
  }

  lemma OtherStepKeeps(s: State, e: Event, p: nat, delta: nat, bound: nat)
    requires Inv(s) && Enabled(s, e) && p < |s.procs| && delta <= 1_000 && bound + delta <= 2_000
    requires e.Advance? || e.p != p
    requires Punctual(s, p, delta) && TimedInv(s.procs[p], delta) && Keeps(s, p, bound)
    requires e.Begin? ==> !e.force
    ensures Keeps(Apply(s, e), p, bound)
  {
    assert ProcInv(s, p);
    OthersUnchanged(s, e, p);
    match e
    case Commit(_, _) =>
    case RunUpdate(_) =>
    case RunRelease(_) =>
    case _ => assert Apply(s, e).row == s.row;
  }

  lemma StepKeeps(s: State, e: Event, p: nat, delta: nat, bound: nat)
    requires Inv(s) && Enabled(s, e) && p < |s.procs| && delta <= 1_000 && bound + delta <= 2_000
    requires Punctual(s, p, delta) && TimedInv(s.procs[p], delta) && Keeps(s, p, bound)
    requires p < |Apply(s, e).procs| && Prompt(Apply(s, e), p, bound)
    requires e.Begin? ==> !e.force
    ensures Keeps(Apply(s, e), p, bound)
  {
    if e.Advance? || e.p != p {
      OtherStepKeeps(s, e, p, delta, bound);
    } else {
      OwnStepKeeps(s, e, delta, bound);
    }
  }

  lemma KeepsNext(r: Run, p: nat, delta: nat, bound: nat, i: nat)
    requires PunctualRun(r, p, delta) && PromptRun(r, p, bound) && NobodyForces(r)
    requires delta <= 1_000 && bound + delta <= 2_000 && i < |r.events| && Keeps(r.states[i], p, bound)
    ensures Keeps(r.states[i + 1], p, bound)
  {
    var s, e := r.states[i], r.events[i];
    RunKeepsInv(r.states, r.events, i);
    TimedInvHolds(r, p, delta, i);
    assert e in r.events && (e.Begin? ==> !e.force);
    assert Enabled(s, e) && r.states[i + 1] == Apply(s, e);
    assert Punctual(s, p, delta) && Prompt(r.states[i + 1], p, bound);
    StepKeeps(s, e, p, delta, bound);
  }

  lemma {:induction false} KeepsHolds(r: Run, p: nat, delta: nat, bound: nat, i: nat)
    requires PunctualRun(r, p, delta) && PromptRun(r, p, bound) && NobodyForces(r)
    requires delta <= 1_000 && bound + delta <= 2_000 && i < |r.states|
    ensures Keeps(r.states[i], p, bound)
  {
    if i > 0 {
      KeepsHolds(r, p, delta, bound, i - 1);
      KeepsNext(r, p, delta, bound, i - 1);
    }
  }

  /** Over any number of ticks the lock is never lost: no attempt finds the row taken or expired, and
      but for the tail of a third attempt the row is p's. */
  lemma Retention(r: Run, p: nat, delta: nat, bound: nat, i: nat)
    requires PunctualRun(r, p, delta) && PromptRun(r, p, bound) && NobodyForces(r)
    requires delta <= 1_000 && bound + delta <= 2_000 && i < |r.states|
    ensures var x := r.states[i].procs[p];
      && x.phase != Left(LockLost)
      && (x.phase.Attempting? && x.phase.exec.Ran? ==> x.phase.exec.hit)
      && (Active(x) && !x.phase.Left? && !InTail(r.states[i], p, delta) ==>
            r.states[i].row == Some(LockValue(p, x.granted)) && r.states[i].clock < 1000 * x.granted)
  {
    PromptMonotone(r, p, bound, 2_000 - delta);
    KeepsHolds(r, p, delta, 2_000 - delta, i);
    InvsHold(r, p, delta, i);
  }

  // A forced acquirer that has waited too long.

  /** The lease p has is over before p can ask for another. */
  ghost predicate Doomed(s: State, p: nat)
    requires p < |s.procs|
  {
    var x := s.procs[p];
    && !x.renewed && !x.phase.Idle? && !x.phase.InTransaction? && !x.phase.Waiting? && !x.phase.Ready?
    && (x.phase.Sleeping? ==> 1000 * x.granted <= x.nextTick)
    && (x.phase.Attempting? ==> 1000 * x.granted <= x.phase.stamp && (x.phase.exec.Ran? ==> !x.phase.exec.hit))
    && (x.phase.Pausing? ==> 1000 * x.granted <= s.clock)
  }

  lemma StepKeepsDoomed(s: State, e: Event, p: nat)
    requires Inv(s) && Enabled(s, e) && p < |s.procs| && Doomed(s, p)
    ensures Doomed(Apply(s, e), p)
  {
    assert ProcInv(s, p);
    if e.Advance? || e.p != p {
      OthersUnchanged(s, e, p);
    }
  }

  lemma LateStartIsDoomed(s: State, p: nat)
    requires Inv(s) && Enabled(s, StartRenewal(p)) && s.clock >= s.procs[p].acquiredAt + 10_000
    ensures Doomed(Apply(s, StartRenewal(p)), p)
  {
    assert ProcInv(s, p);
  }

  /** A process whose ticker starts 10 s after its Acquire or later never renews its lock, however
      punctual it is: the first tick comes when the lease is already over. */
  lemma {:induction false} LongWaitNeverRenews(r: Run, p: nat, i: nat, j: nat)
    requires IsRun(r.states, r.events) && i < j < |r.states|
    requires r.events[i] == StartRenewal(p)
    requires p < |r.states[i].procs| && r.states[i].clock >= r.states[i].procs[p].acquiredAt + 10_000
    ensures p < |r.states[j].procs| && Doomed(r.states[j], p) && !r.states[j].procs[p].renewed
    decreases j
  {
    var s, e := r.states[j - 1], r.events[j - 1];
    RunKeepsInv(r.states, r.events, j - 1);
    SameProcesses(s, e);
    if j > i + 1 {
      LongWaitNeverRenews(r, p, i, j - 1);
      StepKeepsDoomed(s, e, p);
    } else {
      LateStartIsDoomed(s, p);
    }
  }
}
