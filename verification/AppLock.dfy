/** The application lock of one process: one `kv` row, moved by guarded statements.

    Times are milliseconds. What a process cannot decide itself (the clock, what other processes
    did to the row, whether an answer arrives) comes in as a parameter. */
module AppLock {
  import opened Wrappers

  const TTL := 30_000
  const RENEW_INTERVAL := 20_000
  const RENEW_RETRIES := 3
  const OP_TIMEOUT := 3_000
  const RETRY_PAUSE := 1_000

  type LockId = nat

  /** The stored JSON value; the process and host ids in it only label log lines. */
  datatype LockValue = LockValue(lockId: LockId, expiresAt: int)

  type Row = Option<LockValue>

  /** Whole seconds, rounded down. */
  function Unix(t: int): int {
    t / 1000
  }

  function ExpiryOf(now: int): int {
    Unix(now + TTL)
  }

  predicate AcquireGuard(row: Row, nowUnix: int, force: bool) {
    row.None? || row.value.expiresAt < nowUnix || force
  }

  predicate RenewGuard(row: Row, id: LockId, nowUnix: int) {
    row.Some? && row.value.lockId == id && row.value.expiresAt > nowUnix
  }

  function AfterAcquire(row: Row, id: LockId, now: int, force: bool): Row {
    if AcquireGuard(row, Unix(now), force) then Some(LockValue(id, ExpiryOf(now))) else row
  }

  function AfterRenew(row: Row, id: LockId, now: int): Row {
    if RenewGuard(row, id, Unix(now)) then Some(LockValue(id, ExpiryOf(now))) else row
  }

  function AfterRelease(row: Row, id: LockId): Row {
    if row.Some? && row.value.lockId == id then None else row
  }

  /** The second until which a successful Acquire must wait, if any. */
  function WaitFor(prev: Row, id: LockId, now: int, force: bool): Option<int> {
    if force && prev.Some? && prev.value.expiresAt > Unix(now) && prev.value.lockId != id
    then Some(prev.value.expiresAt)
    else None
  }

  /** For one row and one clock value a renewal and a takeover are never both possible, and there is
      exactly one second, the one stored, in which neither is. */
  lemma GuardsExclusive(row: Row, id: LockId, nowUnix: int)
    requires row.Some? && row.value.lockId == id
    ensures !(RenewGuard(row, id, nowUnix) && AcquireGuard(row, nowUnix, false))
    ensures !RenewGuard(row, id, nowUnix) && !AcquireGuard(row, nowUnix, false) <==> nowUnix == row.value.expiresAt
  {
  }

  /** What Acquire may and may not take, spelled out. */
  lemma AcquireGuardMeans(row: Row, nowUnix: int, force: bool)
    ensures row.None? || force ==> AcquireGuard(row, nowUnix, force)
    ensures row.Some? && !force ==> (AcquireGuard(row, nowUnix, force) <==> row.value.expiresAt < nowUnix)
  {
  }

  /** The `kv` table, reduced to the one row under the lock's key. */
  class KvTable {
    var row: Row

    constructor (row: Row)
      ensures this.row == row
    {
      this.row := row;
    }

    method Upsert(value: LockValue, nowUnix: int, force: bool) returns (rowsAffected: nat)
      modifies this
      ensures row == if AcquireGuard(old(row), nowUnix, force) then Some(value) else old(row)
      ensures rowsAffected == if AcquireGuard(old(row), nowUnix, force) then 1 else 0
    {
      rowsAffected := 0;
      if row.None? || row.value.expiresAt < nowUnix || force {
        row := Some(value);
        rowsAffected := 1;
      }
    }

    method Update(value: LockValue, id: LockId, nowUnix: int) returns (rowsAffected: nat)
      modifies this
      ensures row == if RenewGuard(old(row), id, nowUnix) then Some(value) else old(row)
      ensures rowsAffected == if RenewGuard(old(row), id, nowUnix) then 1 else 0
    {
      rowsAffected := 0;
      if row.Some? && row.value.lockId == id && row.value.expiresAt > nowUnix {
        row := Some(value);
        rowsAffected := 1;
      }
    }

    method Delete(id: LockId)
      modifies this
      ensures row == AfterRelease(old(row), id)
    {
      if row.Some? && row.value.lockId == id {
        row := None;
      }
    }
  }

  /** What becomes of one statement: answered, applied but reported as an error, or never applied. */
  datatype Link = Delivered | ReplyLost | NeverRan

  /** One renewal attempt as its surroundings decide it: the clock reading, the row the statement
      meets, the fate of the statement and whether the context is done afterwards. */
  datatype Attempt = Attempt(now: int, before: Row, link: Link, ctxDone: bool)

  datatype Verdict = Hit | Miss | Failed

  datatype RenewResult = Renewed | LockLost | Cancelled | GaveUp

  datatype RoundStep = Again | Return(result: RenewResult)

  datatype LockError = DatabaseError | LockUnavailable

  function VerdictOf(a: Attempt, id: LockId): Verdict {
    if a.link != Delivered then Failed
    else if RenewGuard(a.before, id, Unix(a.now)) then Hit
    else Miss
  }

  function RowAfterAttempt(a: Attempt, id: LockId): Row {
    if a.link.NeverRan? then a.before else AfterRenew(a.before, id, a.now)
  }

  /** How `renew` goes on after the verdict of attempt k (counted from 1). */
  function AfterVerdict(k: nat, verdict: Verdict, ctxDone: bool): RoundStep {
    match verdict
    case Hit => Return(Renewed)
    case Miss => Return(LockLost)
    case Failed =>
      if k >= RENEW_RETRIES then Return(GaveUp) else if ctxDone then Return(Cancelled) else Again
  }

  /** What `renew` does after the attempt at index i, which is attempt number i + 1. */
  function StepAfter(world: seq<Attempt>, id: LockId, i: nat): RoundStep
    requires i < |world|
  {
    AfterVerdict(i + 1, VerdictOf(world[i], id), world[i].ctxDone)
  }

  /** The attempt at index k decides the round: it is the first one after which `renew` does not go on. */
  ghost predicate Decides(world: seq<Attempt>, id: LockId, k: nat) {
    && k < |world|
    && (forall i :: 0 <= i < k ==> StepAfter(world, id, i) == Again)
    && StepAfter(world, id, k) != Again
  }

  ghost predicate Ends(world: seq<Attempt>, id: LockId, result: RenewResult) {
    exists k: nat :: Decides(world, id, k) && StepAfter(world, id, k) == Return(result)
  }

  ghost predicate Leaves(world: seq<Attempt>, id: LockId, row: Row) {
    exists k: nat :: Decides(world, id, k) && row == RowAfterAttempt(world[k], id)
  }

  /** The attempt that decides is the first one that is answered, or after which the context is done, or the
      third; what it decides is said by its answer, the row it meets and the context. */
  lemma DecidesMeans(world: seq<Attempt>, id: LockId, k: nat)
    requires |world| == RENEW_RETRIES
    ensures Decides(world, id, k) <==>
      && k < RENEW_RETRIES
      && (forall i :: 0 <= i < k ==> world[i].link != Delivered && !world[i].ctxDone)
      && (world[k].link.Delivered? || world[k].ctxDone || k + 1 == RENEW_RETRIES)
    ensures Decides(world, id, k) ==>
      var w, step := world[k], StepAfter(world, id, k);
      var ours := w.before.Some? && w.before.value.lockId == id && w.before.value.expiresAt > w.now / 1000;
      && (step == Return(Renewed) <==> w.link.Delivered? && ours)
      && (step == Return(LockLost) <==> w.link.Delivered? && !ours)
      && (step == Return(Cancelled) <==> w.link != Delivered && w.ctxDone && k + 1 < RENEW_RETRIES)
      && (step == Return(GaveUp) <==> w.link != Delivered && k + 1 == RENEW_RETRIES)
  {
    if k < RENEW_RETRIES {
      assert StepAfter(world, id, k) == Again <==> world[k].link != Delivered && !world[k].ctxDone && k + 1 < RENEW_RETRIES;
      forall i | 0 <= i < k
        ensures StepAfter(world, id, i) == Again <==> world[i].link != Delivered && !world[i].ctxDone
      {
      }
    }
  }

  class AppLockService {
    const db: KvTable
    const lockId: LockId

    constructor (db: KvTable, lockId: LockId)
      ensures this.db == db && this.lockId == lockId
    {
      this.db := db;
      this.lockId := lockId;
    }

    /** `fault` is what the database does to the transaction: Delivered means every call answers,
        NeverRan that the transaction is rolled back, ReplyLost that the commit takes effect but its
        answer is an error. */
    method Acquire(now: int, force: bool, fault: Link) returns (r: Result<Option<int>, LockError>)
      modifies db
      ensures db.row == if fault.NeverRan? then old(db.row) else AfterAcquire(old(db.row), lockId, now, force)
      ensures r == if fault != Delivered then Err(DatabaseError)
                   else if !AcquireGuard(old(db.row), Unix(now), force) then Err(LockUnavailable)
                   else Ok(WaitFor(old(db.row), lockId, now, force))
      ensures old(db.row).None? || force || old(db.row).value.expiresAt < now / 1000 ==>
        && (r.Ok? <==> fault.Delivered?)
        && (!fault.NeverRan? ==> db.row == Some(LockValue(lockId, (now + 30_000) / 1000)))
      ensures fault.NeverRan? ==> db.row == old(db.row)
      ensures old(db.row).Some? && !force && old(db.row).value.expiresAt >= now / 1000 ==> r.Err? && db.row == old(db.row)
      ensures r.Ok? ==>
        (r.value.Some? <==> force && old(db.row).Some? && old(db.row).value.lockId != lockId && old(db.row).value.expiresAt > now / 1000)
      ensures r.Ok? && r.value.Some? ==> r.value.value == old(db.row).value.expiresAt
    {
      var prevLock := db.row;
      if fault.NeverRan? {
        return Err(DatabaseError);
      }
      var rowsAffected := db.Upsert(LockValue(lockId, ExpiryOf(now)), Unix(now), force);
      if fault.ReplyLost? {
        return Err(DatabaseError);
      }
      if rowsAffected == 0 {
        return Err(LockUnavailable);
      }
      var waitUntil := None;
      if force && prevLock.Some? && prevLock.value.expiresAt > Unix(now) && prevLock.value.lockId != lockId {
        waitUntil := Some(prevLock.value.expiresAt);
      }
      return Ok(waitUntil);
    }

    /** One round of renewal. `world[i].before` is what other processes have left in the row when
        statement i runs, so the loop first puts it there. */
    method Renew(world: seq<Attempt>) returns (result: RenewResult, ghost k: nat)
      requires |world| == RENEW_RETRIES
      modifies db
      ensures Decides(world, lockId, k) && StepAfter(world, lockId, k) == Return(result)
      ensures db.row == RowAfterAttempt(world[k], lockId)
      ensures result.Renewed? ==> db.row == Some(LockValue(lockId, ExpiryOf(world[k].now)))
      ensures result.LockLost? ==> db.row == world[k].before && !RenewGuard(db.row, lockId, Unix(world[k].now))
      ensures k < RENEW_RETRIES && forall i :: 0 <= i < k ==> world[i].link != Delivered && !world[i].ctxDone
      ensures result.Cancelled? <==> world[k].link != Delivered && world[k].ctxDone && k + 1 < RENEW_RETRIES
      ensures result.GaveUp? <==> world[k].link != Delivered && k + 1 == RENEW_RETRIES
      ensures world[k].link.Delivered? ==>
        var row := world[k].before;
        result == if row.Some? && row.value.lockId == lockId && row.value.expiresAt > world[k].now / 1000 then Renewed else LockLost
      ensures var w := world[k];
        var ours := w.before.Some? && w.before.value.lockId == lockId && w.before.value.expiresAt > w.now / 1000;
        db.row == if ours && !w.link.NeverRan? then Some(LockValue(lockId, (w.now + 30_000) / 1000)) else w.before
    {
      k := 0;
      var attempt := 1;
      while attempt <= RENEW_RETRIES
        invariant 1 <= attempt <= RENEW_RETRIES && k == attempt - 1
        invariant forall i :: 0 <= i < k ==> StepAfter(world, lockId, i) == Again
        invariant forall i :: 0 <= i < k ==> world[i].link != Delivered && !world[i].ctxDone
      {
        var w := world[attempt - 1];
        db.row := w.before;
        var rowsAffected := 0;
        if !w.link.NeverRan? {
          rowsAffected := db.Update(LockValue(lockId, ExpiryOf(w.now)), lockId, Unix(w.now));
        }
        if w.link.Delivered? {
          return if rowsAffected == 0 then LockLost else Renewed, k;
        }
        if attempt == RENEW_RETRIES {
          return GaveUp, k;
        }
        if w.ctxDone {
          return Cancelled, k;
        }
        attempt, k := attempt + 1, k + 1;
      }
    }

    /** `rounds` are the rounds for which a tick is received before the context is done. The first one
        that does not renew ends the loop with its error. */
    method RunRenewal(rounds: seq<seq<Attempt>>) returns (error: Option<RenewResult>, ghost n: nat)
      requires forall i :: 0 <= i < |rounds| ==> |rounds[i]| == RENEW_RETRIES
      modifies db
      ensures n <= |rounds| && forall i :: 0 <= i < n ==> Ends(rounds[i], lockId, Renewed)
      ensures if error.None? then n == |rounds| else n < |rounds| && error.value != Renewed && Ends(rounds[n], lockId, error.value)
      ensures rounds == [] ==> db.row == old(db.row)
      ensures rounds != [] ==> Leaves(rounds[if error.None? then n - 1 else n], lockId, db.row)
    {
      for i := 0 to |rounds|
        invariant forall m :: 0 <= m < i ==> Ends(rounds[m], lockId, Renewed)
        invariant if i == 0 then db.row == old(db.row) else Leaves(rounds[i - 1], lockId, db.row)
      {
        var result, k := Renew(rounds[i]);
        assert Decides(rounds[i], lockId, k);
        if result != Renewed {
          return Some(result), i;
        }
      }
      return None, |rounds|;
    }

    /** An error is reported exactly when no answer arrives; a row of another process stays. */
    method Release(fault: Link) returns (r: Result<(), LockError>)
      modifies db
      ensures db.row == if fault.NeverRan? then old(db.row) else AfterRelease(old(db.row), lockId)
      ensures r.Ok? <==> fault.Delivered?
      ensures old(db.row).Some? && old(db.row).value.lockId != lockId ==> db.row == old(db.row)
      ensures old(db.row).Some? && old(db.row).value.lockId == lockId && !fault.NeverRan? ==> db.row == None
    {
      if !fault.NeverRan? {
        db.Delete(lockId);
      }
      return if fault.Delivered? then Ok(()) else Err(DatabaseError);
    }
  }

  /** One life of the process as its surroundings decide it: `wakesAfter` is how late the timer fires after
      the end of the wait, or None if the context is done first, and `rowAtExit` what the row has become
      when the services stop. */
  datatype Life = Life(now: int, acquireFault: Link, wakesAfter: Option<nat>, startupFails: bool,
                       rowAtExit: Row, releaseFault: Link)

  datatype Exit = AcquireFailed(error: LockError) | WaitCancelled | StartupFailed | Served

  datatype ShutdownFn = ReleaseLock

  /** How a life ends that begins with this row. */
  function ExitOf(life: Life, id: LockId, row: Row, force: bool): Exit {
    if life.acquireFault != Delivered then AcquireFailed(DatabaseError)
    else if !AcquireGuard(row, Unix(life.now), force) then AcquireFailed(LockUnavailable)
    else if life.wakesAfter.None? then WaitCancelled
    else if life.startupFails then StartupFailed else Served
  }

  /** When a process that waits until the second `wait`, if any, may go on. */
  function WaitEnds(now: int, wait: Option<int>): int {
    if wait.Some? && now < 1000 * wait.value then 1000 * wait.value else now
  }

  function RowAfterLife(life: Life, id: LockId, row: Row, force: bool): Row {
    match ExitOf(life, id, row, force)
    case AcquireFailed(_) => if life.acquireFault.NeverRan? then row else AfterAcquire(row, id, life.now, force)
    case WaitCancelled => Some(LockValue(id, ExpiryOf(life.now)))
    case _ => if life.releaseFault.NeverRan? then life.rowAtExit else AfterRelease(life.rowAtExit, id)
  }

  /** `Bootstrap` around the lock. Up to the end of the wait nothing is registered for shutdown, so a
      process that gives up its wait leaves its row to expire; afterwards the row is released last.
      `startedAt` is when the wait of a process that gets past it has ended. */
  method Bootstrap(svc: AppLockService, life: Life, force: bool) returns (exit: Exit, startedAt: Option<int>)
    modifies svc.db
    ensures exit == ExitOf(life, svc.lockId, old(svc.db.row), force)
    ensures svc.db.row == RowAfterLife(life, svc.lockId, old(svc.db.row), force)
    ensures exit.AcquireFailed? <==>
      life.acquireFault != Delivered || !AcquireGuard(old(svc.db.row), Unix(life.now), force)
    ensures exit.WaitCancelled? ==> svc.db.row == Some(LockValue(svc.lockId, ExpiryOf(life.now))) && life.wakesAfter.None?
    ensures exit.WaitCancelled? || startedAt.Some? <==> !exit.AcquireFailed?
    ensures startedAt.Some? ==> (exit.StartupFailed? <==> life.startupFails)
    ensures startedAt.Some? <==> exit.StartupFailed? || exit.Served?
    ensures startedAt.Some? ==>
      var wait := WaitFor(old(svc.db.row), svc.lockId, life.now, force);
      && life.wakesAfter.Some? && startedAt.value == WaitEnds(life.now, wait) + life.wakesAfter.value
      && (wait.Some? ==> 1000 * wait.value <= startedAt.value)
    ensures startedAt.Some? ==>
      var row := old(svc.db.row);
      var robbed := force && row.Some? && row.value.lockId != svc.lockId && row.value.expiresAt > life.now / 1000;
      && life.wakesAfter.Some?
      && startedAt.value == life.wakesAfter.value + if robbed then 1000 * row.value.expiresAt else life.now
    ensures startedAt.Some? ==>
      var ours := life.rowAtExit.Some? && life.rowAtExit.value.lockId == svc.lockId;
      svc.db.row == if ours && !life.releaseFault.NeverRan? then None else life.rowAtExit
  {
    var shutdownFns: seq<ShutdownFn> := [];
    startedAt := None;
    var acquired := svc.Acquire(life.now, force, life.acquireFault);
    if acquired.Err? {
      exit := AcquireFailed(acquired.error);
    } else if life.wakesAfter.None? {
      exit := WaitCancelled;
    } else {
      startedAt := Some(WaitEnds(life.now, acquired.value) + life.wakesAfter.value);
      shutdownFns := shutdownFns + [ReleaseLock];
      svc.db.row := life.rowAtExit;
      exit := if life.startupFails then StartupFailed else Served;
    }
    if shutdownFns != [] {
      var _ := svc.Release(life.releaseFault);
    }
  }
}
