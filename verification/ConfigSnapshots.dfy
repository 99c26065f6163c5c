/** Updaters of several processes over one configuration table, their steps interleaved in any order.
    A transaction excludes all others from its start to its end; the cached pointer is stored after the
    commit, when the lock is gone, or not at all if the commit takes effect but answers with an error. */
module ConfigSnapshots {
  import opened Wrappers
  import opened AppConfigModel
  import opened AppConfigService

  type Values = seq<string>

  /** Thread t runs in process `owner[t]`. */
  datatype Setup = Setup(schema: Schema, defaults: Values, owner: seq<nat>, processes: nat)

  datatype Thread = Idle | Locked | Reloaded(values: Values) | Holding(values: Values, at: nat)

  datatype Cached = Cached(values: Values, at: nat)

  /** `history[k]` is the table after k commits and `writes[k]` what commit k + 1 wrote. `latest[p]` is the
      newest state that process p has committed or read; only statements mention it and the `at` of a
      configuration, no step depends on them. */
  datatype State = State(
    threads: seq<Thread>, lock: Option<nat>,
    history: seq<Table>, writes: seq<seq<Variable>>,
    caches: seq<Option<Cached>>, latest: seq<Option<nat>>)

  datatype Event =
    | Begin(t: nat) | Load(t: nat) | Abort(t: nat) | Commit(t: nat, rows: seq<Variable>)
    | Read(t: nat) | Store(t: nat) | Drop(t: nat)

  ghost predicate WellFormed(c: Setup) {
    |c.schema| == |c.defaults| && forall t :: 0 <= t < |c.owner| ==> c.owner[t] < c.processes
  }

  function Current(s: State): Table
    requires |s.history| > 0
  {
    s.history[|s.history| - 1]
  }

  predicate Enabled(c: Setup, s: State, e: Event) {
    && e.t < |s.threads|
    && match e
       case Begin(t) => s.threads[t].Idle? && s.lock.None?
       case Load(t) => s.threads[t].Locked?
       case Abort(t) => s.threads[t].Locked? || s.threads[t].Reloaded?
       case Commit(t, _) => s.threads[t].Reloaded?
       case Read(t) => s.threads[t].Idle?
       case Store(t) => s.threads[t].Holding?
       case Drop(t) => s.threads[t].Holding?
  }

  function Apply(c: Setup, s: State, e: Event): State
    requires WellFormed(c) && Shape(c, s) && Enabled(c, s, e)
  {
    var t, now := e.t, |s.history|;
    match e
    case Begin(_) => s.(threads := s.threads[t := Locked], lock := Some(t))
    case Load(_) => s.(threads := s.threads[t := Reloaded(Loaded(c.schema, c.defaults, Current(s)))])
    case Abort(_) => s.(threads := s.threads[t := Idle], lock := None)
    case Commit(_, rows) =>
      s.(threads := s.threads[t := Holding(Written(c.schema, c.defaults, s.threads[t].values, rows), now)], lock := None,
         history := s.history + [Upserted(Current(s), rows)], writes := s.writes + [rows],
         latest := s.latest[c.owner[t] := Some(now)])
    case Read(_) =>
      s.(threads := s.threads[t := Holding(Loaded(c.schema, c.defaults, Current(s)), now - 1)],
         latest := s.latest[c.owner[t] := Some(now - 1)])
    case Store(_) =>
      s.(threads := s.threads[t := Idle],
         caches := s.caches[c.owner[t] := Some(Cached(s.threads[t].values, s.threads[t].at))])
    case Drop(_) => s.(threads := s.threads[t := Idle])
  }

  ghost predicate Initial(c: Setup, s: State) {
    && Shape(c, s)
    && (forall t :: 0 <= t < |s.threads| ==> s.threads[t].Idle?)
    && s.lock.None? && |s.history| == 1
    && (forall p :: 0 <= p < c.processes ==> s.caches[p].None? && s.latest[p].None?)
  }

  // What always holds.

  ghost predicate Shape(c: Setup, s: State) {
    && |s.threads| == |c.owner|
    && |s.caches| == c.processes == |s.latest|
    && |s.history| == |s.writes| + 1
    && forall t :: 0 <= t < |s.threads| && s.threads[t].Reloaded? ==> |s.threads[t].values| == |c.schema|
  }

  /** Each commit applied its own rows to the state just before it. */
  ghost predicate Chain(s: State)
    requires |s.history| == |s.writes| + 1
  {
    forall k :: 0 <= k < |s.writes| ==> s.history[k + 1] == Upserted(s.history[k], s.writes[k])
  }

  /** Only the holder of the lock is in a transaction, and what it has loaded is still the latest state. */
  ghost predicate Exclusive(c: Setup, s: State)
    requires WellFormed(c) && Shape(c, s)
  {
    forall t :: 0 <= t < |s.threads| ==>
      && (s.lock == Some(t) <==> s.threads[t].Locked? || s.threads[t].Reloaded?)
      && (s.threads[t].Reloaded? ==> s.threads[t].values == Loaded(c.schema, c.defaults, Current(s)))
  }

  /** A view of committed state k: a load of it, or what the update that committed it left in memory. */
  predicate Snapshot(c: Setup, s: State, values: Values, k: nat)
    requires |c.schema| == |c.defaults| && Shape(c, s)
  {
    && k < |s.history|
    && (|| values == Loaded(c.schema, c.defaults, s.history[k])
        || (k > 0 && values == Written(c.schema, c.defaults, Loaded(c.schema, c.defaults, s.history[k - 1]), s.writes[k - 1])))
  }

  ghost predicate Whole(c: Setup, s: State)
    requires WellFormed(c) && Shape(c, s)
  {
    && (forall t :: 0 <= t < |s.threads| && s.threads[t].Holding? ==> Snapshot(c, s, s.threads[t].values, s.threads[t].at))
    && (forall p :: 0 <= p < c.processes && s.caches[p].Some? ==> Snapshot(c, s, s.caches[p].value.values, s.caches[p].value.at))
  }

  ghost predicate Inv(c: Setup, s: State) {
    WellFormed(c) && Shape(c, s) && Chain(s) && Exclusive(c, s) && Whole(c, s)
  }

  lemma SnapshotsLast(c: Setup, s: State, e: Event, values: Values, k: nat)
    requires WellFormed(c) && Shape(c, s) && Enabled(c, s, e) && Shape(c, Apply(c, s, e))
    requires Snapshot(c, s, values, k)
    ensures Snapshot(c, Apply(c, s, e), values, k)
  {
  }

  lemma StepKeepsShape(c: Setup, s: State, e: Event)
    requires Inv(c, s) && Enabled(c, s, e)
    ensures Shape(c, Apply(c, s, e)) && Chain(Apply(c, s, e)) && Exclusive(c, Apply(c, s, e))
  {
  }

  lemma StepKeepsWhole(c: Setup, s: State, e: Event)
    requires Inv(c, s) && Enabled(c, s, e) && Shape(c, Apply(c, s, e))
    ensures Whole(c, Apply(c, s, e))
  {
    var s' := Apply(c, s, e);
    forall t | 0 <= t < |s'.threads| && s'.threads[t].Holding?
      ensures Snapshot(c, s', s'.threads[t].values, s'.threads[t].at)
    {
      if s'.threads[t] == s.threads[t] {
        SnapshotsLast(c, s, e, s.threads[t].values, s.threads[t].at);
      }
    }
    forall p | 0 <= p < c.processes && s'.caches[p].Some?
      ensures Snapshot(c, s', s'.caches[p].value.values, s'.caches[p].value.at)
    {
      if s'.caches[p] == s.caches[p] {
        SnapshotsLast(c, s, e, s.caches[p].value.values, s.caches[p].value.at);
      } else {
        SnapshotsLast(c, s, e, s.threads[e.t].values, s.threads[e.t].at);
      }
    }
  }

  /** The states of a run, the first of them initial. */
  ghost predicate IsRun(c: Setup, states: seq<State>, events: seq<Event>) {
    && WellFormed(c) && |states| == |events| + 1 && Initial(c, states[0])
    && forall n :: 0 <= n < |events| ==>
         Shape(c, states[n]) && Enabled(c, states[n], events[n]) && states[n + 1] == Apply(c, states[n], events[n])
  }

  lemma {:induction false} RunKeepsInv(c: Setup, states: seq<State>, events: seq<Event>, n: nat)
    requires IsRun(c, states, events) && n < |states|
    ensures Inv(c, states[n])
  {
    if n > 0 {
      RunKeepsInv(c, states, events, n - 1);
      StepKeepsShape(c, states[n - 1], events[n - 1]);
      StepKeepsWhole(c, states[n - 1], events[n - 1]);
    }
  }

  // Never torn.

  /** Field by field a snapshot is what a reload of that state gives, or the default for an empty value. */
  lemma SnapshotValue(c: Setup, s: State, values: Values, k: nat, i: nat)
    requires Inv(c, s) && Snapshot(c, s, values, k) && i < |c.schema| == |values|
    ensures var reloaded := LoadedValue(c.schema, c.defaults, s.history[k], i);
      values[i] == reloaded || (reloaded == "" && values[i] == c.defaults[i])
  {
    if values != Loaded(c.schema, c.defaults, s.history[k]) {
      var before := s.history[k - 1];
      UpsertLastWins(before, s.writes[k - 1], c.schema[i].key);
      WrittenLastWins(c.schema, c.defaults, Loaded(c.schema, c.defaults, before), s.writes[k - 1], i);
    }
  }

  /** Whatever a process sees comes, in all its fields, from one and the same committed state. */
  lemma NeverTorn(c: Setup, states: seq<State>, events: seq<Event>, n: nat, p: nat)
    requires IsRun(c, states, events) && n < |states| && p < c.processes
    requires |states[n].caches| == c.processes && states[n].caches[p].Some?
    ensures var s, cached := states[n], states[n].caches[p].value;
      && cached.at < |s.history| && |cached.values| == |c.schema|
      && forall i :: 0 <= i < |c.schema| ==>
           var reloaded := LoadedValue(c.schema, c.defaults, s.history[cached.at], i);
           cached.values[i] == reloaded || (reloaded == "" && cached.values[i] == c.defaults[i])
  {
    RunKeepsInv(c, states, events, n);
    var s, cached := states[n], states[n].caches[p].value;
    forall i | 0 <= i < |c.schema|
      ensures var reloaded := LoadedValue(c.schema, c.defaults, s.history[cached.at], i);
        cached.values[i] == reloaded || (reloaded == "" && cached.values[i] == c.defaults[i])
    {
      SnapshotValue(c, s, cached.values, cached.at, i);
    }
  }

  // No update is lost.

  function Joined(writes: seq<seq<Variable>>): seq<Variable> {
    if writes == [] then [] else Joined(writes[..|writes| - 1]) + writes[|writes| - 1]
  }

  lemma {:induction false} UpsertJoins(table: Table, a: seq<Variable>, b: seq<Variable>)
    ensures Upserted(Upserted(table, a), b) == Upserted(table, a + b)
  {
    if b == [] {
      assert a + b == a;
    } else {
      UpsertJoins(table, a, b[..|b| - 1]);
      assert (a + b)[..|a + b| - 1] == a + b[..|b| - 1];
    }
  }

  lemma {:induction false} ChainJoins(s: State, k: nat)
    requires |s.history| == |s.writes| + 1 && Chain(s) && k <= |s.writes|
    ensures s.history[k] == Upserted(s.history[0], Joined(s.writes[..k]))
  {
    if k > 0 {
      ChainJoins(s, k - 1);
      assert s.writes[..k][..k - 1] == s.writes[..k - 1];
      UpsertJoins(s.history[0], Joined(s.writes[..k - 1]), s.writes[k - 1]);
    }
  }

  /** The table holds, key by key, the last value that any committed update wrote. */
  lemma NoLostUpdate(c: Setup, states: seq<State>, events: seq<Event>, n: nat, key: string)
    requires IsRun(c, states, events) && n < |states|
    ensures var s := states[n];
      && |s.history| == |s.writes| + 1
      && var first, last := s.history[0], LastValue(Joined(s.writes), key);
         && (key in Current(s) <==> key in first || last.Some?)
         && (key in Current(s) ==> Current(s)[key] == if last.Some? then last.value else first[key])
  {
    RunKeepsInv(c, states, events, n);
    var s := states[n];
    ChainJoins(s, |s.writes|);
    assert s.writes[..|s.writes|] == s.writes;
    UpsertLastWins(s.history[0], Joined(s.writes), key);
  }

  // The latest state.

  /** Thread t of process p has yet to store. */
  predicate Pending(c: Setup, s: State, p: nat, t: nat)
    requires |s.threads| == |c.owner|
  {
    t < |c.owner| && c.owner[t] == p && s.threads[t].Holding?
  }

  predicate UpToDate(c: Setup, s: State, p: nat)
    requires Shape(c, s) && p < c.processes
  {
    if s.caches[p].Some? then s.latest[p] == Some(s.caches[p].value.at) else s.latest[p].None?
  }

  /** Every thread of p that has yet to store holds the latest state; if there is none, the cache does. */
  ghost predicate Settled(c: Setup, s: State, p: nat)
    requires Shape(c, s) && p < c.processes
  {
    && (forall t: nat :: Pending(c, s, p, t) ==> s.latest[p] == Some(s.threads[t].at))
    && ((forall t: nat :: !Pending(c, s, p, t)) ==> UpToDate(c, s, p))
  }

  /** The events are the stores of all threads of p that have yet to store, in some order. */
  ghost predicate Completes(c: Setup, s: State, p: nat, events: seq<Event>)
    requires WellFormed(c) && Shape(c, s) && p < c.processes
    decreases |events|
  {
    if events == [] then forall t: nat :: !Pending(c, s, p, t)
    else
      && events[0].Store? && Pending(c, s, p, events[0].t)
      && Shape(c, Apply(c, s, events[0])) && Completes(c, Apply(c, s, events[0]), p, events[1..])
  }

  ghost function Completed(c: Setup, s: State, p: nat, events: seq<Event>): (r: State)
    requires WellFormed(c) && Shape(c, s) && p < c.processes && Completes(c, s, p, events)
    ensures Shape(c, r)
    decreases |events|
  {
    if events == [] then s else Completed(c, Apply(c, s, events[0]), p, events[1..])
  }

  /** Whatever the order of the pending stores, they leave the cache of p with its latest state. */
  ghost predicate EveryCompletionIsLatest(c: Setup, s: State, p: nat)
    requires WellFormed(c) && Shape(c, s) && p < c.processes
  {
    forall events :: Completes(c, s, p, events) ==> UpToDate(c, Completed(c, s, p, events), p)
  }

  lemma StoreStep(c: Setup, s: State, p: nat, t: nat)
    requires WellFormed(c) && Shape(c, s) && p < c.processes && Pending(c, s, p, t)
    ensures var s' := Apply(c, s, Store(t));
      && Shape(c, s')
      && (forall u: nat :: Pending(c, s', p, u) <==> Pending(c, s, p, u) && u != t)
      && (forall u: nat :: Pending(c, s', p, u) ==> s'.threads[u] == s.threads[u])
      && s'.latest == s.latest && s'.history == s.history
      && s'.caches[p] == Some(Cached(s.threads[t].values, s.threads[t].at))
  {
  }

  lemma {:induction false} SettledCompletes(c: Setup, s: State, p: nat, events: seq<Event>)
    requires WellFormed(c) && Shape(c, s) && p < c.processes && Settled(c, s, p) && Completes(c, s, p, events)
    ensures UpToDate(c, Completed(c, s, p, events), p)
    decreases |events|
  {
    if events != [] {
      var s' := Apply(c, s, events[0]);
      StoreStep(c, s, p, events[0].t);
      SettledCompletes(c, s', p, events[1..]);
    }
  }

  ghost function PendingThreads(c: Setup, s: State, p: nat): set<nat>
    requires |s.threads| == |c.owner|
  {
    set t: nat | t < |c.owner| && Pending(c, s, p, t)
  }

  /** Thread t can be the last to store. */
  lemma {:induction false} StoresLast(c: Setup, s: State, p: nat, t: nat) returns (events: seq<Event>)
    requires WellFormed(c) && Shape(c, s) && p < c.processes && Pending(c, s, p, t)
    ensures Completes(c, s, p, events)
    ensures var s' := Completed(c, s, p, events);
      s'.caches[p] == Some(Cached(s.threads[t].values, s.threads[t].at)) && s'.latest[p] == s.latest[p]
    decreases |PendingThreads(c, s, p)|
  {
    var u: nat := t;
    if other: nat :| Pending(c, s, p, other) && other != t {
      u := other;
    }
    var s' := Apply(c, s, Store(u));
    StoreStep(c, s, p, u);
    assert PendingThreads(c, s', p) == PendingThreads(c, s, p) - {u};
    var rest: seq<Event> := [];
    if u != t {
      rest := StoresLast(c, s', p, t);
    }
    events := [Store(u)] + rest;
    assert events[1..] == rest;
  }

  /** The exact condition: every order of the pending stores ends with the latest state if and only if no
      thread of the process that has yet to store holds another one (and if none has, the cache does not). */
  lemma EveryCompletionIsLatestIff(c: Setup, s: State, p: nat)
    requires WellFormed(c) && Shape(c, s) && p < c.processes
    ensures EveryCompletionIsLatest(c, s, p) <==> Settled(c, s, p)
  {
    if Settled(c, s, p) {
      forall events | Completes(c, s, p, events)
        ensures UpToDate(c, Completed(c, s, p, events), p)
      {
        SettledCompletes(c, s, p, events);
      }
    } else if t: nat :| Pending(c, s, p, t) && s.latest[p] != Some(s.threads[t].at) {
      var events := StoresLast(c, s, p, t);
      assert !UpToDate(c, Completed(c, s, p, events), p);
    } else {
      assert Completes(c, s, p, []) && Completed(c, s, p, []) == s;
    }
  }

  /** What a step must not do: commit while another thread of the process has yet to store, read a newer
      state than such a thread holds, or give up the last store while the cache is behind. */
  ghost predicate Undisturbed(c: Setup, s: State, e: Event, p: nat)
    requires Shape(c, s) && p < c.processes && e.t < |c.owner|
  {
    c.owner[e.t] == p ==>
      match e
      case Commit(t, _) => forall u: nat :: !Pending(c, s, p, u)
      case Read(t) => forall u: nat :: Pending(c, s, p, u) ==> s.threads[u].at == |s.history| - 1
      case Drop(t) => (exists u: nat :: u != t && Pending(c, s, p, u)) || UpToDate(c, s, p)
      case _ => true
  }

  lemma OtherStep(c: Setup, s: State, e: Event, p: nat)
    requires Inv(c, s) && Enabled(c, s, e) && Shape(c, Apply(c, s, e)) && p < c.processes
    requires c.owner[e.t] != p || e.Begin? || e.Load? || e.Abort?
    ensures Settled(c, Apply(c, s, e), p) <==> Settled(c, s, p)
  {
    var s' := Apply(c, s, e);
    forall t: nat
      ensures Pending(c, s', p, t) <==> Pending(c, s, p, t)
      ensures Pending(c, s, p, t) ==> s'.threads[t] == s.threads[t]
    {
    }
    assert s'.latest[p] == s.latest[p] && s'.caches[p] == s.caches[p];
  }

  /** A commit or a read makes `at` the latest state, which thread t then holds. */
  lemma RefreshStep(c: Setup, s: State, e: Event)
    requires Inv(c, s) && Enabled(c, s, e) && Shape(c, Apply(c, s, e)) && (e.Commit? || e.Read?)
    ensures var p, s', at := c.owner[e.t], Apply(c, s, e), if e.Commit? then |s.history| else |s.history| - 1;
      && s'.latest[p] == Some(at) && Pending(c, s', p, e.t) && s'.threads[e.t].at == at
      && (forall u: nat :: u != e.t ==> (Pending(c, s', p, u) <==> Pending(c, s, p, u)))
      && (forall u: nat :: u != e.t && Pending(c, s, p, u) ==> s'.threads[u] == s.threads[u] && s.threads[u].at < |s.history|)
  {
  }

  lemma DropStep(c: Setup, s: State, t: nat)
    requires Inv(c, s) && Enabled(c, s, Drop(t)) && Shape(c, Apply(c, s, Drop(t)))
    ensures var p, s' := c.owner[t], Apply(c, s, Drop(t));
      && (forall u: nat :: Pending(c, s', p, u) <==> Pending(c, s, p, u) && u != t)
      && (forall u: nat :: Pending(c, s', p, u) ==> s'.threads[u] == s.threads[u])
      && s'.latest == s.latest && s'.caches == s.caches
  {
  }

  lemma RefreshSettles(c: Setup, s: State, e: Event)
    requires Inv(c, s) && Enabled(c, s, e) && Shape(c, Apply(c, s, e)) && (e.Commit? || e.Read?)
    ensures var p := c.owner[e.t]; Settled(c, Apply(c, s, e), p) <==> Undisturbed(c, s, e, p)
  {
    RefreshStep(c, s, e);
    assert !Pending(c, s, c.owner[e.t], e.t);
  }

  lemma SettledStep(c: Setup, s: State, e: Event, p: nat)
    requires Inv(c, s) && Enabled(c, s, e) && Shape(c, Apply(c, s, e)) && p < c.processes && Settled(c, s, p)
    ensures Settled(c, Apply(c, s, e), p) <==> Undisturbed(c, s, e, p)
  {
    if c.owner[e.t] != p || e.Begin? || e.Load? || e.Abort? {
      OtherStep(c, s, e, p);
    } else if e.Store? {
      StoreStep(c, s, p, e.t);
    } else if e.Drop? {
      DropStep(c, s, e.t);
    } else {
      RefreshSettles(c, s, e);
    }
  }

  ghost predicate UndisturbedUpTo(c: Setup, states: seq<State>, events: seq<Event>, n: nat, p: nat)
    requires IsRun(c, states, events) && n <= |events| && p < c.processes
  {
    forall k :: 0 <= k < n ==> Undisturbed(c, states[k], events[k], p)
  }

  lemma SettledNext(c: Setup, states: seq<State>, events: seq<Event>, n: nat, p: nat)
    requires IsRun(c, states, events) && n < |events| && p < c.processes && Settled(c, states[n], p)
    ensures Shape(c, states[n + 1])
    ensures Settled(c, states[n + 1], p) <==> Undisturbed(c, states[n], events[n], p)
  {
    RunKeepsInv(c, states, events, n);
    RunKeepsInv(c, states, events, n + 1);
    SettledStep(c, states[n], events[n], p);
  }

  lemma InitiallySettled(c: Setup, s: State, p: nat)
    requires WellFormed(c) && Initial(c, s) && p < c.processes
    ensures Settled(c, s, p)
  {
  }

  lemma {:induction false} SettledUpTo(c: Setup, states: seq<State>, events: seq<Event>, n: nat, p: nat)
    requires IsRun(c, states, events) && n <= |events| && p < c.processes && UndisturbedUpTo(c, states, events, n, p)
    ensures Shape(c, states[n]) && Settled(c, states[n], p)
  {
    if n == 0 {
      InitiallySettled(c, states[0], p);
    } else {
      SettledUpTo(c, states, events, n - 1, p);
      SettledNext(c, states, events, n - 1, p);
    }
  }

  lemma {:induction false} SettledMeansUndisturbed(c: Setup, states: seq<State>, events: seq<Event>, n: nat, p: nat)
    requires IsRun(c, states, events) && n <= |events| && p < c.processes
    requires forall k :: 0 <= k <= n ==> Shape(c, states[k]) && Settled(c, states[k], p)
    ensures UndisturbedUpTo(c, states, events, n, p)
  {
    if n > 0 {
      SettledMeansUndisturbed(c, states, events, n - 1, p);
      SettledNext(c, states, events, n - 1, p);
    }
  }

  lemma RunHasShape(c: Setup, states: seq<State>, events: seq<Event>)
    requires IsRun(c, states, events)
    ensures forall k :: 0 <= k < |states| ==> Shape(c, states[k])
  {
    forall k | 0 <= k < |states|
      ensures Shape(c, states[k])
    {
      RunKeepsInv(c, states, events, k);
    }
  }

  /** Up to state n every order of the pending stores of p ends with its latest state, at every moment,
      exactly if no step up to there disturbs p. */
  lemma NeverStaleIff(c: Setup, states: seq<State>, events: seq<Event>, n: nat, p: nat)
    requires IsRun(c, states, events) && n <= |events| && p < c.processes
    ensures forall k :: 0 <= k <= n ==> Shape(c, states[k])
    ensures (forall k :: 0 <= k <= n ==> EveryCompletionIsLatest(c, states[k], p)) <==> UndisturbedUpTo(c, states, events, n, p)
  {
    RunHasShape(c, states, events);
    forall k | 0 <= k <= n
      ensures EveryCompletionIsLatest(c, states[k], p) <==> Settled(c, states[k], p)
    {
      EveryCompletionIsLatestIff(c, states[k], p);
    }
    if UndisturbedUpTo(c, states, events, n, p) {
      forall k | 0 <= k <= n
        ensures Settled(c, states[k], p)
      {
        SettledUpTo(c, states, events, k, p);
      }
    } else if forall k :: 0 <= k <= n ==> EveryCompletionIsLatest(c, states[k], p) {
      SettledMeansUndisturbed(c, states, events, n, p);
      assert false;
    }
  }

  /** If nothing has disturbed a process and none of its threads has yet to store, its cache is its latest state. */
  lemma CacheIsLatest(c: Setup, states: seq<State>, events: seq<Event>, n: nat, p: nat)
    requires IsRun(c, states, events) && n <= |events| && p < c.processes && UndisturbedUpTo(c, states, events, n, p)
    requires |states[n].threads| == |c.owner| && forall t: nat :: !Pending(c, states[n], p, t)
    ensures Shape(c, states[n]) && UpToDate(c, states[n], p)
  {
    NeverStaleIff(c, states, events, n, p);
    assert Completes(c, states[n], p, []) && Completed(c, states[n], p, []) == states[n];
  }

  lemma OneField(table: Table, value: string)
    requires value != ""
    ensures var schema, rows := [Field("appName", Public)], [Variable("appName", value)];
      && Upserted(table, rows) == table["appName" := value]
      && Written(schema, ["vocy"], Loaded(schema, ["vocy"], table), rows) == [value]
      && Loaded(schema, ["vocy"], table["appName" := value]) == [value]
  {
    var schema, rows := [Field("appName", Public)], [Variable("appName", value)];
    IndexOfIsFirst(schema, "appName", 0);
    assert rows[..0] == [];
  }

  lemma Extend(c: Setup, states: seq<State>, events: seq<Event>, e: Event) returns (states': seq<State>, events': seq<Event>)
    requires IsRun(c, states, events) && Enabled(c, states[|states| - 1], e)
    ensures IsRun(c, states', events') && |states'| == |states| + 1
    ensures Shape(c, states[|states| - 1]) && states'[|states|] == Apply(c, states[|states| - 1], e)
  {
    RunKeepsInv(c, states, events, |states| - 1);
    states', events' := states + [Apply(c, states[|states| - 1], e)], events + [e];
  }

  /** One undisturbed update, up to its commit. */
  lemma UpdateRun(c: Setup, states: seq<State>, events: seq<Event>, t: nat, rows: seq<Variable>)
    returns (states': seq<State>, events': seq<Event>)
    requires IsRun(c, states, events) && t < |c.owner|
    requires var s := states[|states| - 1]; t < |s.threads| && s.threads[t].Idle? && s.lock.None?
    ensures IsRun(c, states', events') && |states'| == |states| + 3
    ensures var s := states[|states| - 1];
      && Shape(c, s)
      && states'[|states| + 2] == s.(
           threads := s.threads[t := Holding(Written(c.schema, c.defaults, Loaded(c.schema, c.defaults, Current(s)), rows), |s.history|)],
           history := s.history + [Upserted(Current(s), rows)], writes := s.writes + [rows],
           latest := s.latest[c.owner[t] := Some(|s.history|)])
  {
    states', events' := Extend(c, states, events, Begin(t));
    states', events' := Extend(c, states', events', Load(t));
    states', events' := Extend(c, states', events', Commit(t, rows));
    ghost var s := states[|states| - 1];
    assert states'[|states| + 2].threads
        == s.threads[t := Holding(Written(c.schema, c.defaults, Loaded(c.schema, c.defaults, Current(s)), rows), |s.history|)];
  }

  /** The steps of an undisturbed update are those of `AppConfigService.UpdateAppConfigValues` with the UI
      enabled: the same table, and in the thread that is about to store the same configuration. */
  lemma UpdateMatchesService(c: Setup, states: seq<State>, events: seq<Event>, t: nat, env: Env, keysAndValues: seq<string>)
    returns (states': seq<State>, events': seq<Event>)
    requires IsRun(c, states, events) && t < |c.owner| && !env.uiDisabled
    requires var s := states[|states| - 1]; t < |s.threads| && s.threads[t].Idle? && s.lock.None? && |s.history| > 0
    requires ValuesOutcome(c.schema, c.defaults, env, Current(states[|states| - 1]), keysAndValues, NoFault).stored.Ok?
    ensures IsRun(c, states', events') && |states'| == |states| + 3
    ensures var s', outcome := states'[|states| + 2],
                               ValuesOutcome(c.schema, c.defaults, env, Current(states[|states| - 1]), keysAndValues, NoFault);
      && |s'.history| == |states[|states| - 1].history| + 1 && Current(s') == outcome.table
      && t < |s'.threads| && s'.threads[t] == Holding(outcome.stored.value, |s'.history| - 1) && s'.lock.None?
  {
    states', events' := UpdateRun(c, states, events, t, Pairs(keysAndValues));
  }

  lemma TwoCommits(first: string, second: string) returns (c: Setup, states: seq<State>, events: seq<Event>)
    requires first != "" && second != ""
    ensures IsRun(c, states, events) && |states| == 7
    ensures c == Setup([Field("appName", Public)], ["vocy"], [0, 0], 1)
    ensures var s := states[6];
      && s.threads == [Holding([first], 1), Holding([second], 2)]
      && s.history == [map[], map["appName" := first], map["appName" := first]["appName" := second]]
  {
    c := Setup([Field("appName", Public)], ["vocy"], [0, 0], 1);
    states, events := [State([Idle, Idle], None, [map[]], [], [None], [None])], [];
    OneField(map[], first);
    OneField(map["appName" := first], second);
    states, events := UpdateRun(c, states, events, 0, [Variable("appName", first)]);
    states, events := UpdateRun(c, states, events, 1, [Variable("appName", second)]);
  }

  /** It happens: two updates of one process commit in one order and store in the other. */
  lemma StaleRun(first: string, second: string) returns (c: Setup, states: seq<State>, events: seq<Event>)
    requires first != "" && second != "" && first != second
    ensures IsRun(c, states, events) && c.processes == 1 && |c.schema| == 1 && |states| == 9
    ensures |states[8].history| == 3 && |states[8].caches| == 1
    ensures Loaded(c.schema, c.defaults, Current(states[8])) == [second]
    ensures states[8].caches[0] == Some(Cached([first], 1))
    ensures forall t :: 0 <= t < |states[8].threads| ==> states[8].threads[t].Idle?
  {
    c, states, events := TwoCommits(first, second);
    OneField(map["appName" := first], second);
    states, events := Extend(c, states, events, Store(1));
    states, events := Extend(c, states, events, Store(0));
  }
}
