/** Concrete runs of the lock protocol that show where its guarantees end, built one event at a time. */
module LockRuns {
  import opened Wrappers
  import opened AppLock
  import opened LockProtocol
  import opened LockTiming

  /** A run that ends in s, in which process 0 is punctual with a startup delay of at most d and no third
      attempt of it reaches the row more than b after its timestamp. */
  ghost predicate Reaches(r: Run, s: State, d: nat, b: nat) {
    PunctualRun(r, 0, d) && PromptRun(r, 0, b) && r.states[|r.states| - 1] == s
  }

  lemma Extend(r: Run, s: State, e: Event, s': State, d: nat, b: nat) returns (r': Run)
    requires Reaches(r, s, d, b) && Enabled(s, e) && s' == Apply(s, e)
    requires |s'.procs| > 0 && Punctual(s', 0, d) && Prompt(s', 0, b)
    ensures Reaches(r', s', d, b) && r'.events == r.events + [e] && r'.states == r.states + [s']
  {
    r' := Run(r.states + [s'], r.events + [e]);
    forall i | 0 <= i < |r'.events|
      ensures Enabled(r'.states[i], r'.events[i]) && r'.states[i + 1] == Apply(r'.states[i], r'.events[i])
    {
      if i < |r.events| {
        assert Enabled(r.states[i], r.events[i]);
      }
    }
  }

  const IDLE_PROC := Proc(Idle, 0, 0, 0, 0, 0, 0, false)
  const LEASE := Some(LockValue(0, 30))

  /** What happens around process 0: the row, the number of acquisitions and the other process. */
  datatype Scene = Scene(row: Row, commits: nat, other: Proc)

  const ALONE := Scene(LEASE, 1, IDLE_PROC)

  /** Process 0 has acquired at 0.999 s, so its first lease ends at 30 s. */
  function Holder(clock: int, phase: Phase, nextTick: int, scene: Scene): State {
    State(clock, scene.row, None, scene.commits, [Proc(phase, 999, 999, 0, 30, 30, nextTick, false), scene.other])
  }

  /** The other process is inside Acquire since `clock`. */
  function Acquiring(clock: int, phase: Phase, nextTick: int, force: bool): State {
    Holder(clock, phase, nextTick, ALONE.(other := IDLE_PROC.(phase := InTransaction))).(tx := Some(Tx(1, clock, force)))
  }

  lemma Acquires(d: nat, b: nat) returns (r: Run)
    ensures Reaches(r, Holder(999, Waiting(None), 0, ALONE), d, b)
    ensures NobodyForces(r)
  {
    var s := State(999, None, None, 0, [IDLE_PROC, IDLE_PROC]);
    r := Run([s], []);
    var s1 := s.(tx := Some(Tx(0, 999, false)), procs := [IDLE_PROC.(phase := InTransaction), IDLE_PROC]);
    r := Extend(r, s, Begin(0, false), s1, d, b);
    r := Extend(r, s1, Commit(0, true), Holder(999, Waiting(None), 0, ALONE), d, b);
  }

  /** The ticker starts d after Acquire's timestamp. */
  lemma StartsRenewing(d: nat, b: nat) returns (r: Run)
    ensures Reaches(r, Holder(999 + d, Sleeping, 20_999 + d, ALONE), d, b)
    ensures NobodyForces(r)
  {
    r := Acquires(d, b);
    r := Extend(r, Holder(999, Waiting(None), 0, ALONE), FinishWait(0), Holder(999, Ready, 0, ALONE), d, b);
    if d > 0 {
      r := Extend(r, Holder(999, Ready, 0, ALONE), Advance(999 + d), Holder(999 + d, Ready, 0, ALONE), d, b);
    }
    r := Extend(r, Holder(999 + d, Ready, 0, ALONE), StartRenewal(0), Holder(999 + d, Sleeping, 20_999 + d, ALONE), d, b);
  }

  /** Attempt k of the first round has just been started. */
  function Begun(k: nat, d: nat, scene: Scene): State {
    var stamp := 16_999 + d + 4_000 * k;
    Holder(stamp, Attempting(k, stamp, NotRun), 40_999 + d, scene)
  }

  lemma FirstAttemptStarts(before: Run, d: nat, b: nat, scene: Scene) returns (r: Run)
    requires Reaches(before, Holder(999 + d, Sleeping, 20_999 + d, scene), d, b)
    ensures Reaches(r, Begun(1, d, scene), d, b)
    ensures NobodyForces(before) ==> NobodyForces(r)
  {
    var tick := 20_999 + d;
    r := Extend(before, Holder(999 + d, Sleeping, tick, scene), Advance(tick), Holder(tick, Sleeping, tick, scene), d, b);
    r := Extend(r, Holder(tick, Sleeping, tick, scene), TakeTick(0), Begun(1, d, scene), d, b);
  }

  /** An attempt is never applied and times out; the next one starts after the pause. */
  lemma LosesAttempt(before: Run, k: nat, d: nat, b: nat, scene: Scene) returns (r: Run)
    requires 1 <= k < LAST && Reaches(before, Begun(k, d, scene), d, b)
    ensures Reaches(r, Begun(k + 1, d, scene), d, b)
    ensures NobodyForces(before) ==> NobodyForces(r)
  {
    var stamp, next := 16_999 + d + 4_000 * k, 40_999 + d;
    var end, resume := stamp + 3_000, stamp + 4_000;
    var lost, pause := Attempting(k, stamp, NotRun), Pausing(k, resume);
    r := Extend(before, Begun(k, d, scene), Advance(end), Holder(end, lost, next, scene), d, b);
    r := Extend(r, Holder(end, lost, next, scene), SeeReply(0, false, false), Holder(end, pause, next, scene), d, b);
    r := Extend(r, Holder(end, pause, next, scene), Advance(resume), Holder(resume, pause, next, scene), d, b);
    r := Extend(r, Holder(resume, pause, next, scene), Retry(0), Begun(k + 1, d, scene), d, b);
  }

  lemma {:induction false} AttemptStarts(before: Run, k: nat, d: nat, b: nat, scene: Scene) returns (r: Run)
    requires 1 <= k <= LAST && Reaches(before, Holder(999 + d, Sleeping, 20_999 + d, scene), d, b)
    ensures Reaches(r, Begun(k, d, scene), d, b)
    ensures NobodyForces(before) ==> NobodyForces(r)
  {
    if k == 1 {
      r := FirstAttemptStarts(before, d, b, scene);
    } else {
      r := AttemptStarts(before, k - 1, d, b, scene);
      r := LosesAttempt(r, k - 1, d, b, scene);
    }
  }

  // An answer that comes too late.

  /** A process that has stolen the row as soon as the ticker runs, and waits for 30 s or is past its wait. */
  function Robbed(d: nat, thief: Phase): Scene {
    var expiry := ExpiryOf(999 + d);
    Scene(Some(LockValue(1, expiry)), 2, Proc(thief, 999 + d, 30_000, 1, expiry, expiry, 0, false))
  }

  const WAIT := Waiting(Some(30))

  lemma Steals(d: nat, b: nat) returns (r: Run)
    requires d <= 9_001
    ensures Reaches(r, Holder(999 + d, Sleeping, 20_999 + d, Robbed(d, WAIT)), d, b)
  {
    var now, tick := 999 + d, 20_999 + d;
    r := StartsRenewing(d, b);
    r := Extend(r, Holder(now, Sleeping, tick, ALONE), Begin(1, true), Acquiring(now, Sleeping, tick, true), d, b);
    r := Extend(r, Acquiring(now, Sleeping, tick, true), Commit(1, true), Holder(now, Sleeping, tick, Robbed(d, WAIT)), d, b);
  }

  lemma ReachesThirtySeconds(k: nat, d: nat, late: nat) returns (r: Run)
    requires 1 <= k <= LAST && late <= OP_TIMEOUT && d + 4_000 * k + late == 13_001
    ensures Reaches(r, Holder(30_000, Attempting(k, 30_000 - late, NotRun), 40_999 + d, Robbed(d, WAIT)), d, OP_TIMEOUT)
  {
    r := Steals(d, OP_TIMEOUT);
    r := AttemptStarts(r, k, d, OP_TIMEOUT, Robbed(d, WAIT));
    var s := Holder(30_000, Attempting(k, 30_000 - late, NotRun), 40_999 + d, Robbed(d, WAIT));
    if late > 0 {
      r := Extend(r, Begun(k, d, Robbed(d, WAIT)), Advance(30_000), s, d, OP_TIMEOUT);
    }
  }

  lemma ThiefStarts(k: nat, d: nat, late: nat) returns (r: Run)
    requires 1 <= k <= LAST && late <= OP_TIMEOUT && d + 4_000 * k + late == 13_001
    ensures Reaches(r, Holder(30_000, Attempting(k, 30_000 - late, Ran(30_000, false)), 40_999 + d, Robbed(d, Ready)), d, OP_TIMEOUT)
  {
    var stamp, next, b := 30_000 - late, 40_999 + d, OP_TIMEOUT;
    var unsent, missed := Attempting(k, stamp, NotRun), Attempting(k, stamp, Ran(30_000, false));
    r := ReachesThirtySeconds(k, d, late);
    var s := Holder(30_000, missed, next, Robbed(d, WAIT));
    r := Extend(r, Holder(30_000, unsent, next, Robbed(d, WAIT)), RunUpdate(0), s, d, b);
    r := Extend(r, s, FinishWait(1), Holder(30_000, missed, next, Robbed(d, Ready)), d, b);
  }

  /** Attempt k answers `late` after its timestamp that the row is taken, and the thief has already started:
      there is such a run whenever the startup delay, 4 s for each attempt and `late` make up 13.001 s. */
  lemma LateAnswer(k: nat, d: nat, late: nat) returns (r: Run)
    requires 1 <= k <= LAST && late <= OP_TIMEOUT && d + 4_000 * k + late == 13_001
    ensures PunctualRun(r, 0, d)
    ensures |r.events| > 0 && LeavesAtAttempt(r, 0, k, |r.events| - 1)
    ensures var s := r.states[|r.events| - 1]; s.clock == s.procs[0].phase.stamp + late && Overtakes(s, 0, 1)
  {
    var missed, next := Attempting(k, 30_000 - late, Ran(30_000, false)), 40_999 + d;
    r := ThiefStarts(k, d, late);
    r := Extend(r, Holder(30_000, missed, next, Robbed(d, Ready)), SeeReply(0, true, false),
                Holder(30_000, Left(LockLost), next, Robbed(d, Ready)), d, OP_TIMEOUT);
  }

  lemma PunctualMonotone(r: Run, p: nat, d: nat, delta: nat)
    requires PunctualRun(r, p, d) && d <= delta
    ensures PunctualRun(r, p, delta)
  {
    forall i | 0 <= i < |r.states|
      ensures Punctual(r.states[i], p, delta)
    {
      assert Punctual(r.states[i], p, d);
    }
  }

  /** An attempt's answer is in time, whatever the startup delay up to delta, exactly if delta, 4 s for each
      attempt and the time it may take make up at most 13 s. */
  lemma AnswerInTimeIff(k: nat, bound: nat, delta: nat)
    requires 1 <= k <= LAST
    ensures InTimeWithin(k, bound, delta) <==> Min(bound, OP_TIMEOUT) + delta + 4_000 * k <= 13_000
  {
    var most := Min(bound, OP_TIMEOUT);
    if most + delta + 4_000 * k <= 13_000 {
      forall r: Run, p: nat, q: nat, i: nat | PunctualRun(r, p, delta) && LeavesAtAttempt(r, p, k, i)
        && r.states[i].clock <= r.states[i].procs[p].phase.stamp + bound
        ensures !Overtakes(r.states[i], p, q)
      {
        NoOverlapBeforeTail(r, p, q, delta, i);
      }
    } else {
      var late := Min(most, 13_001 - 4_000 * k);
      var d := 13_001 - 4_000 * k - late;
      var r := LateAnswer(k, d, late);
      PunctualMonotone(r, 0, d, delta);
      var i := |r.events| - 1;
      assert LeavesAtAttempt(r, 0, k, i) && Overtakes(r.states[i], 0, 1);
    }
  }

  // A lock that is lost although nobody forces.

  /** After a plain takeover at 31 s. */
  const TAKEN_OVER := Scene(Some(LockValue(1, 61)), 2, Proc(Waiting(None), 31_000, 31_000, 1, 61, 61, 0, false))

  lemma ThirdAttemptStalls(d: nat) returns (r: Run)
    requires d <= 1_000
    ensures Reaches(r, Holder(31_000, Attempting(3, 28_999 + d, NotRun), 40_999 + d, ALONE), d, 2_001 - d)
    ensures NobodyForces(r)
  {
    var b := 2_001 - d;
    r := StartsRenewing(d, b);
    r := AttemptStarts(r, 3, d, b, ALONE);
    r := Extend(r, Begun(3, d, ALONE), Advance(31_000),
                Holder(31_000, Attempting(3, 28_999 + d, NotRun), 40_999 + d, ALONE), d, b);
  }

  lemma TakenOverBeforeThirdAttempt(d: nat) returns (r: Run)
    requires d <= 1_000
    ensures Reaches(r, Holder(31_000, Attempting(3, 28_999 + d, NotRun), 40_999 + d, TAKEN_OVER), d, 2_001 - d)
    ensures NobodyForces(r)
  {
    var unsent, next, b := Attempting(3, 28_999 + d, NotRun), 40_999 + d, 2_001 - d;
    r := ThirdAttemptStalls(d);
    r := Extend(r, Holder(31_000, unsent, next, ALONE), Begin(1, false), Acquiring(31_000, unsent, next, false), d, b);
    r := Extend(r, Acquiring(31_000, unsent, next, false), Commit(1, true), Holder(31_000, unsent, next, TAKEN_OVER), d, b);
  }

  /** With a startup delay of d, a third attempt that reaches the row d before 2.001 s can find it taken. */
  lemma LateThirdAttemptLosesLock(d: nat) returns (r: Run)
    requires d <= 1_000
    ensures PunctualRun(r, 0, d) && PromptRun(r, 0, 2_001 - d) && NobodyForces(r)
    ensures r.states[|r.states| - 1].procs[0].phase == Left(LockLost)
  {
    var unsent, missed := Attempting(3, 28_999 + d, NotRun), Attempting(3, 28_999 + d, Ran(31_000, false));
    var next, b := 40_999 + d, 2_001 - d;
    r := TakenOverBeforeThirdAttempt(d);
    r := Extend(r, Holder(31_000, unsent, next, TAKEN_OVER), RunUpdate(0), Holder(31_000, missed, next, TAKEN_OVER), d, b);
    r := Extend(r, Holder(31_000, missed, next, TAKEN_OVER), SeeReply(0, true, false),
                Holder(31_000, Left(LockLost), next, TAKEN_OVER), d, b);
  }

  /** With a startup delay of 1.001 s a third attempt finds its own lease expired, however prompt it is and
      with nobody else around. */
  lemma LateStartLosesLock() returns (r: Run)
    ensures PunctualRun(r, 0, 1_001) && PromptRun(r, 0, 0) && NobodyForces(r)
    ensures r.states[|r.states| - 1].procs[0].phase == Left(LockLost)
  {
    var missed := Attempting(3, 30_000, Ran(30_000, false));
    r := StartsRenewing(1_001, 0);
    r := AttemptStarts(r, 3, 1_001, 0, ALONE);
    r := Extend(r, Begun(3, 1_001, ALONE), RunUpdate(0), Holder(30_000, missed, 42_000, ALONE), 1_001, 0);
    r := Extend(r, Holder(30_000, missed, 42_000, ALONE), SeeReply(0, true, false),
                Holder(30_000, Left(LockLost), 42_000, ALONE), 1_001, 0);
  }

  /** Without force the lock is safe exactly if the startup delay is at most a second and third attempts
      reach the row within two seconds, less that delay. */
  lemma RetentionIff(bound: nat, delta: nat)
    ensures NeverLosesLock(bound, delta) <==> delta <= 1_000 && bound + delta <= 2_000
  {
    if delta > 1_000 {
      var r := LateStartLosesLock();
      PunctualMonotone(r, 0, 1_001, delta);
      PromptMonotone(r, 0, 0, bound);
      assert r.states[|r.states| - 1].procs[0].phase == Left(LockLost);
    } else if bound + delta > 2_000 {
      var r := LateThirdAttemptLosesLock(delta);
      PromptMonotone(r, 0, 2_001 - delta, bound);
      assert r.states[|r.states| - 1].procs[0].phase == Left(LockLost);
    } else {
      forall r: Run, p: nat, i: nat | PunctualRun(r, p, delta) && PromptRun(r, p, bound) && NobodyForces(r) && i < |r.states|
        ensures r.states[i].procs[p].phase != Left(LockLost)
      {
        Retention(r, p, delta, bound, i);
      }
    }
  }

  // Why Release is registered only after the wait.

  /** Process 0 holds the lock; process 1 has stolen the row and waits; process 2 is idle. */
  lemma ThiefWaits() returns (r: Run, s: State)
    ensures Reaches(r, s, 0, 0)
    ensures s.clock == 999 && s.tx.None? && s.row == Some(LockValue(1, 30)) && |s.procs| == 3
    ensures s.procs[0].phase.Ready? && s.procs[0].known == 30
    ensures s.procs[1].phase == Waiting(Some(30)) && s.procs[2].phase.Idle?
  {
    var holder := Proc(Ready, 999, 999, 0, 30, 30, 0, false);
    var s0 := State(999, None, None, 0, [IDLE_PROC, IDLE_PROC, IDLE_PROC]);
    r := Run([s0], []);
    var s1 := s0.(tx := Some(Tx(0, 999, false)), procs := [IDLE_PROC.(phase := InTransaction), IDLE_PROC, IDLE_PROC]);
    r := Extend(r, s0, Begin(0, false), s1, 0, 0);
    var s2 := State(999, LEASE, None, 1, [holder.(phase := Waiting(None)), IDLE_PROC, IDLE_PROC]);
    r := Extend(r, s1, Commit(0, true), s2, 0, 0);
    var s3 := s2.(procs := [holder, IDLE_PROC, IDLE_PROC]);
    r := Extend(r, s2, FinishWait(0), s3, 0, 0);
    var s4 := s3.(tx := Some(Tx(1, 999, true)), procs := [holder, IDLE_PROC.(phase := InTransaction), IDLE_PROC]);
    r := Extend(r, s3, Begin(1, true), s4, 0, 0);
    s := State(999, Some(LockValue(1, 30)), None, 2,
               [holder, Proc(Waiting(Some(30)), 999, 30_000, 1, 30, 30, 0, false), IDLE_PROC]);
    r := Extend(r, s4, Commit(1, true), s, 0, 0);
  }

  /** If a process that gives up its wait released the lock, a third one could acquire at once and
      hold it together with the process that was robbed. */
  lemma EarlyReleaseBreaksExclusion() returns (r: Run, s: State)
    ensures Reaches(r, s, 0, 0) && Enabled(s, AbandonWait(1))
    ensures var s1 := Apply(s, AbandonWait(1)).(row := AfterRelease(s.row, 1));
      && Enabled(s1, Begin(2, false))
      && var s2 := Apply(s1, Begin(2, false));
      && Enabled(s2, Commit(2, true))
      && var s3 := Apply(s2, Commit(2, true));
      && Enabled(s3, FinishWait(2))
      && var s4 := Apply(s3, FinishWait(2));
      && Holds(s4, 0) && Holds(s4, 2)
  {
    r, s := ThiefWaits();
  }
}
