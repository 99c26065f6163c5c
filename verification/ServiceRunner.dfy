/** Services run side by side, one goroutine each, answering over one unbuffered channel. */
module ServiceRunner {
  import opened Wrappers

  /** What a service returns; Canceled is any error that wraps `context.Canceled`. */
  datatype Outcome = Success | Canceled | Failed(error: string)

  /** A goroutine: in its service, past it, past its call of cancel, offering a message on the channel, or over. */
  datatype Phase = Running | Returned | HasCancelled | Sending(message: Option<string>) | Over

  /** The goroutines, the context's flag, and what `Run` has received so far. */
  datatype System = System(phases: seq<Phase>, cancelled: bool, received: nat, errs: seq<string>)

  /** The steps of the goroutines and of `Run`; the parent context can be cancelled at any time. */
  datatype Action = Return(i: nat) | Cancel(i: nat) | Offer(i: nat) | Receive(i: nat) | CancelParent

  predicate Enabled(outcomes: seq<Outcome>, s: System, a: Action)
    requires |outcomes| == |s.phases|
  {
    if a.CancelParent? then !s.cancelled
    else
      a.i < |s.phases| &&
      match a
      case Return(i) => s.phases[i].Running?
      case Cancel(i) => s.phases[i].Returned? && outcomes[i].Failed?
      case Offer(i) => if outcomes[i].Failed? then s.phases[i].HasCancelled? else s.phases[i].Returned?
      case Receive(i) => s.phases[i].Sending? && s.received < |s.phases|
  }

  function Apply(outcomes: seq<Outcome>, s: System, a: Action): System
    requires |outcomes| == |s.phases| && Enabled(outcomes, s, a)
  {
    match a
    case Return(i) => s.(phases := s.phases[i := Returned])
    case Cancel(i) => s.(phases := s.phases[i := HasCancelled], cancelled := true)
    case Offer(i) =>
      s.(phases := s.phases[i := Sending(if outcomes[i].Failed? then Some(outcomes[i].error) else None)])
    case Receive(i) =>
      var message := s.phases[i].message;
      s.(phases := s.phases[i := Over], received := s.received + 1,
         errs := if message.Some? then s.errs + [message.value] else s.errs)
    case CancelParent => s.(cancelled := true)
  }

  function Start(n: nat): System {
    System(seq(n, _ => Running), false, 0, [])
  }

  ghost predicate IsRun(outcomes: seq<Outcome>, states: seq<System>, actions: seq<Action>) {
    && |states| == |actions| + 1
    && states[0] == Start(|outcomes|)
    && forall k :: 0 <= k < |actions| ==>
         && |states[k].phases| == |outcomes| && Enabled(outcomes, states[k], actions[k])
         && states[k + 1] == Apply(outcomes, states[k], actions[k])
  }

  /** The errors of all services that fail, in the order of the services. */
  function Failures(outcomes: seq<Outcome>): seq<string> {
    if outcomes == [] then []
    else (if outcomes[0].Failed? then [outcomes[0].error] else []) + Failures(outcomes[1..])
  }

  /** Each error as often as services fail with it, and nothing else. */
  lemma {:induction false} FailuresAre(outcomes: seq<Outcome>, error: string)
    ensures multiset(Failures(outcomes))[error] == multiset(outcomes)[Failed(error)]
  {
    if outcomes != [] {
      FailuresAre(outcomes[1..], error);
      var first: seq<string> := if outcomes[0].Failed? then [outcomes[0].error] else [];
      assert outcomes == [outcomes[0]] + outcomes[1..];
      assert multiset(Failures(outcomes)) == multiset(first) + multiset(Failures(outcomes[1..]));
    }
  }

  lemma {:induction false} NoFailures(outcomes: seq<Outcome>)
    ensures Failures(outcomes) == [] <==> forall i :: 0 <= i < |outcomes| ==> !outcomes[i].Failed?
  {
    if outcomes != [] {
      NoFailures(outcomes[1..]);
      assert forall i :: 0 < i < |outcomes| ==> outcomes[i] == outcomes[1..][i - 1];
    }
  }

  /** The errors of the failed services whose goroutines are over. */
  ghost function DeliveredErrors(outcomes: seq<Outcome>, phases: seq<Phase>): multiset<string>
    requires |outcomes| == |phases|
  {
    if phases == [] then multiset{}
    else (if phases[0].Over? then ErrorOf(outcomes[0]) else multiset{}) + DeliveredErrors(outcomes[1..], phases[1..])
  }

  ghost function ErrorOf(outcome: Outcome): multiset<string> {
    if outcome.Failed? then multiset{outcome.error} else multiset{}
  }

  function CountOver(phases: seq<Phase>): nat {
    if phases == [] then 0 else (if phases[0].Over? then 1 else 0) + CountOver(phases[1..])
  }

  function StepsOf(outcome: Outcome, x: Phase): nat {
    match x
    case Running => if outcome.Failed? then 4 else 3
    case Returned => if outcome.Failed? then 3 else 2
    case HasCancelled => 2
    case Sending(_) => 1
    case Over => 0
  }

  /** The steps that the goroutines and `Run` have yet to take. */
  ghost function StepsLeft(outcomes: seq<Outcome>, phases: seq<Phase>): nat
    requires |outcomes| == |phases|
  {
    if phases == [] then 0 else StepsOf(outcomes[0], phases[0]) + StepsLeft(outcomes[1..], phases[1..])
  }

  /** A goroutine offers what its service has returned; past its call of cancel the context is cancelled. */
  ghost predicate OfferInv(outcomes: seq<Outcome>, s: System)
    requires |s.phases| == |outcomes|
  {
    forall i :: 0 <= i < |s.phases| ==>
      && (s.phases[i].HasCancelled? ==> outcomes[i].Failed? && s.cancelled)
      && (s.phases[i].Sending? ==>
            && s.phases[i].message == (if outcomes[i].Failed? then Some(outcomes[i].error) else None)
            && (outcomes[i].Failed? ==> s.cancelled))
  }

  ghost predicate Inv(outcomes: seq<Outcome>, s: System) {
    && |s.phases| == |outcomes|
    && s.received == CountOver(s.phases)
    && multiset(s.errs) == DeliveredErrors(outcomes, s.phases)
    && OfferInv(outcomes, s)
    && (s.errs != [] ==> s.cancelled)
  }

  lemma {:induction false} CountAfterUpdate(phases: seq<Phase>, i: nat, x: Phase)
    requires i < |phases| && !phases[i].Over?
    ensures CountOver(phases[i := x]) == CountOver(phases) + if x.Over? then 1 else 0
  {
    if i == 0 {
      assert phases[i := x][1..] == phases[1..];
    } else {
      assert phases[i := x][1..] == phases[1..][i - 1 := x];
      CountAfterUpdate(phases[1..], i - 1, x);
    }
  }

  lemma {:induction false} StepsAfterUpdate(outcomes: seq<Outcome>, phases: seq<Phase>, i: nat, x: Phase)
    requires |outcomes| == |phases| && i < |phases|
    ensures StepsLeft(outcomes, phases[i := x]) + StepsOf(outcomes[i], phases[i])
         == StepsLeft(outcomes, phases) + StepsOf(outcomes[i], x)
  {
    if i == 0 {
      assert phases[i := x][1..] == phases[1..];
    } else {
      assert phases[i := x][1..] == phases[1..][i - 1 := x];
      StepsAfterUpdate(outcomes[1..], phases[1..], i - 1, x);
    }
  }

  lemma {:induction false} ErrorsAfterUpdate(outcomes: seq<Outcome>, phases: seq<Phase>, i: nat, x: Phase)
    requires |outcomes| == |phases| && i < |phases| && !phases[i].Over?
    ensures DeliveredErrors(outcomes, phases[i := x])
         == DeliveredErrors(outcomes, phases) + if x.Over? then ErrorOf(outcomes[i]) else multiset{}
  {
    if i == 0 {
      assert phases[i := x][1..] == phases[1..];
    } else {
      assert phases[i := x][1..] == phases[1..][i - 1 := x];
      ErrorsAfterUpdate(outcomes[1..], phases[1..], i - 1, x);
    }
  }

  lemma StepKeepsOffers(outcomes: seq<Outcome>, s: System, a: Action)
    requires |s.phases| == |outcomes| && OfferInv(outcomes, s) && Enabled(outcomes, s, a)
    ensures OfferInv(outcomes, Apply(outcomes, s, a))
  {
  }

  lemma StepKeepsCounts(outcomes: seq<Outcome>, s: System, a: Action)
    requires |s.phases| == |outcomes| && s.received == CountOver(s.phases) && Enabled(outcomes, s, a)
    ensures Apply(outcomes, s, a).received == CountOver(Apply(outcomes, s, a).phases)
  {
    if !a.CancelParent? {
      CountAfterUpdate(s.phases, a.i, Apply(outcomes, s, a).phases[a.i]);
    }
  }

  lemma StepCounts(outcomes: seq<Outcome>, s: System, a: Action)
    requires |s.phases| == |outcomes| && Enabled(outcomes, s, a)
    ensures StepsLeft(outcomes, Apply(outcomes, s, a).phases) + (if a.CancelParent? then 0 else 1) == StepsLeft(outcomes, s.phases)
  {
    if !a.CancelParent? {
      StepsAfterUpdate(outcomes, s.phases, a.i, Apply(outcomes, s, a).phases[a.i]);
    }
  }

  lemma StepKeepsErrors(outcomes: seq<Outcome>, s: System, a: Action)
    requires |s.phases| == |outcomes| && OfferInv(outcomes, s) && Enabled(outcomes, s, a)
    requires multiset(s.errs) == DeliveredErrors(outcomes, s.phases) && (s.errs != [] ==> s.cancelled)
    ensures var s' := Apply(outcomes, s, a);
      multiset(s'.errs) == DeliveredErrors(outcomes, s'.phases) && (s'.errs != [] ==> s'.cancelled)
  {
    if !a.CancelParent? {
      ErrorsAfterUpdate(outcomes, s.phases, a.i, Apply(outcomes, s, a).phases[a.i]);
    }
  }

  lemma StepKeepsInv(outcomes: seq<Outcome>, s: System, a: Action)
    requires Inv(outcomes, s) && Enabled(outcomes, s, a)
    ensures Inv(outcomes, Apply(outcomes, s, a))
  {
    StepKeepsOffers(outcomes, s, a);
    StepKeepsCounts(outcomes, s, a);
    StepKeepsErrors(outcomes, s, a);
  }

  lemma {:induction false} StartSatisfiesInv(outcomes: seq<Outcome>)
    ensures Inv(outcomes, Start(|outcomes|))
    ensures 3 * |outcomes| <= StepsLeft(outcomes, Start(|outcomes|).phases) <= 4 * |outcomes|
    ensures StepsLeft(outcomes, Start(|outcomes|).phases) == 3 * |outcomes| + |Failures(outcomes)|
  {
    if outcomes != [] {
      StartSatisfiesInv(outcomes[1..]);
      assert Start(|outcomes|).phases[1..] == Start(|outcomes| - 1).phases;
    }
  }

  lemma {:induction false} CountBounds(outcomes: seq<Outcome>, phases: seq<Phase>)
    requires |outcomes| == |phases|
    ensures CountOver(phases) <= |phases|
    ensures StepsLeft(outcomes, phases) == 0 <==> CountOver(phases) == |phases|
    ensures CountOver(phases) == |phases| <==> forall i :: 0 <= i < |phases| ==> phases[i].Over?
  {
    if phases != [] {
      CountBounds(outcomes[1..], phases[1..]);
      assert forall i :: 0 < i < |phases| ==> phases[i] == phases[1..][i - 1];
    }
  }

  /** As long as `Run` still receives, a goroutine or the channel can move, and once every service has
      returned this is no service. */
  lemma NoDeadlock(outcomes: seq<Outcome>, s: System)
    requires Inv(outcomes, s) && s.received < |s.phases|
    ensures exists a :: Enabled(outcomes, s, a) && !a.CancelParent?
    ensures (forall i :: 0 <= i < |s.phases| ==> !s.phases[i].Running?) ==>
      exists a :: Enabled(outcomes, s, a) && !a.CancelParent? && !a.Return?
  {
    CountBounds(outcomes, s.phases);
    var i: nat :| i < |s.phases| && !s.phases[i].Over?;
    var a := match s.phases[i]
      case Running => Return(i)
      case Returned => if outcomes[i].Failed? then Cancel(i) else Offer(i)
      case HasCancelled => Offer(i)
      case _ => Receive(i);
    assert Enabled(outcomes, s, a);
  }

  lemma {:induction false} RunKeepsInv(outcomes: seq<Outcome>, states: seq<System>, actions: seq<Action>, k: nat)
    requires IsRun(outcomes, states, actions) && k < |states|
    ensures Inv(outcomes, states[k])
  {
    if k == 0 {
      StartSatisfiesInv(outcomes);
    } else {
      RunKeepsInv(outcomes, states, actions, k - 1);
      StepKeepsInv(outcomes, states[k - 1], actions[k - 1]);
    }
  }

  /** How often the parent context has been cancelled. */
  function ParentCancels(actions: seq<Action>, k: nat): nat
    requires k <= |actions|
  {
    if k == 0 then 0 else ParentCancels(actions, k - 1) + if actions[k - 1].CancelParent? then 1 else 0
  }

  lemma {:induction false} StepsTaken(outcomes: seq<Outcome>, states: seq<System>, actions: seq<Action>, k: nat)
    requires IsRun(outcomes, states, actions) && k < |states|
    ensures |states[k].phases| == |outcomes|
    ensures StepsLeft(outcomes, states[k].phases) + k == 3 * |outcomes| + |Failures(outcomes)| + ParentCancels(actions, k)
    ensures ParentCancels(actions, k) <= if states[k].cancelled then 1 else 0
  {
    if k == 0 {
      StartSatisfiesInv(outcomes);
    } else {
      StepsTaken(outcomes, states, actions, k - 1);
      StepCounts(outcomes, states[k - 1], actions[k - 1]);
    }
  }

  lemma {:induction false} AllDelivered(outcomes: seq<Outcome>, phases: seq<Phase>)
    requires |outcomes| == |phases| && forall i :: 0 <= i < |phases| ==> phases[i].Over?
    ensures DeliveredErrors(outcomes, phases) == multiset(Failures(outcomes))
  {
    if outcomes != [] {
      AllDelivered(outcomes[1..], phases[1..]);
    }
  }

  /** Nobody but the parent can take a step. */
  ghost predicate Stopped(outcomes: seq<Outcome>, s: System)
    requires |outcomes| == |s.phases|
  {
    forall a :: Enabled(outcomes, s, a) ==> a.CancelParent?
  }

  lemma StoppedIsComplete(outcomes: seq<Outcome>, s: System)
    requires Inv(outcomes, s) && Stopped(outcomes, s)
    ensures s.received == |outcomes| && (forall i :: 0 <= i < |s.phases| ==> s.phases[i] == Over)
    ensures multiset(s.errs) == multiset(Failures(outcomes))
  {
    CountBounds(outcomes, s.phases);
    if s.received < |s.phases| {
      NoDeadlock(outcomes, s);
    }
    AllDelivered(outcomes, s.phases);
  }

  /** Three steps for each service, a fourth for each that fails, and at most one of the parent are all that
      a schedule can have. When only the parent can go on, every goroutine is over after exactly n
      receives, and the errors are those of the failed services, each once. */
  lemma SchedulesComplete(outcomes: seq<Outcome>, states: seq<System>, actions: seq<Action>)
    requires IsRun(outcomes, states, actions)
    ensures |actions| <= 3 * |outcomes| + |Failures(outcomes)| + 1
    ensures |states[|actions|].phases| == |outcomes|
    ensures var s := states[|actions|];
      Stopped(outcomes, s) ==>
        && |actions| == 3 * |outcomes| + |Failures(outcomes)| + ParentCancels(actions, |actions|)
        && s.received == |outcomes| && (forall i :: 0 <= i < |s.phases| ==> s.phases[i] == Over)
        && multiset(s.errs) == multiset(Failures(outcomes))
  {
    var s := states[|actions|];
    RunKeepsInv(outcomes, states, actions, |actions|);
    StepsTaken(outcomes, states, actions, |actions|);
    if Stopped(outcomes, s) {
      StoppedIsComplete(outcomes, s);
      CountBounds(outcomes, s.phases);
    }
  }

  /** Goroutine i has called cancel before step k, and the context has been cancelled ever since. */
  ghost predicate CancelledBefore(states: seq<System>, actions: seq<Action>, i: nat, k: nat)
    requires k <= |actions| < |states|
  {
    exists j :: 0 <= j < k && actions[j] == Cancel(i) && forall m :: j < m <= k ==> states[m].cancelled
  }

  predicate PastCancel(outcomes: seq<Outcome>, s: System, i: nat)
    requires i < |outcomes| == |s.phases|
  {
    s.phases[i].HasCancelled? || (s.phases[i].Sending? && outcomes[i].Failed?)
  }

  lemma PastCancelStep(outcomes: seq<Outcome>, s: System, a: Action, i: nat)
    requires i < |outcomes| == |s.phases| && Enabled(outcomes, s, a) && PastCancel(outcomes, Apply(outcomes, s, a), i)
    ensures if a == Cancel(i) then Apply(outcomes, s, a).cancelled else PastCancel(outcomes, s, i)
  {
  }

  lemma CancelledStays(outcomes: seq<Outcome>, states: seq<System>, actions: seq<Action>, i: nat, k: nat)
    requires IsRun(outcomes, states, actions) && k < |actions| && CancelledBefore(states, actions, i, k)
    ensures CancelledBefore(states, actions, i, k + 1)
  {
    var j :| 0 <= j < k && actions[j] == Cancel(i) && forall m :: j < m <= k ==> states[m].cancelled;
    assert states[k + 1] == Apply(outcomes, states[k], actions[k]);
  }

  lemma {:induction false} OfferedAfterCancel(outcomes: seq<Outcome>, states: seq<System>, actions: seq<Action>, k: nat, i: nat)
    requires IsRun(outcomes, states, actions) && k <= |actions| && i < |outcomes| == |states[k].phases|
    requires PastCancel(outcomes, states[k], i)
    ensures CancelledBefore(states, actions, i, k)
  {
    if k > 0 {
      PastCancelStep(outcomes, states[k - 1], actions[k - 1], i);
      if actions[k - 1] == Cancel(i) {
        assert forall m :: k - 1 < m <= k ==> states[m].cancelled;
      } else {
        OfferedAfterCancel(outcomes, states, actions, k - 1, i);
        CancelledStays(outcomes, states, actions, i, k - 1);
      }
    }
  }

  /** An error is received only after the goroutine that sends it has cancelled the context, whatever the
      others do between its cancelling, its offer and the receive. */
  lemma CancelledBeforeError(outcomes: seq<Outcome>, states: seq<System>, actions: seq<Action>, k: nat)
    requires IsRun(outcomes, states, actions) && k < |actions|
    requires states[k + 1].errs != states[k].errs
    ensures actions[k].Receive? && actions[k].i < |outcomes| && outcomes[actions[k].i].Failed?
    ensures CancelledBefore(states, actions, actions[k].i, k)
    ensures states[k + 1].errs == states[k].errs + [outcomes[actions[k].i].error]
  {
    RunKeepsInv(outcomes, states, actions, k);
    OfferedAfterCancel(outcomes, states, actions, k, actions[k].i);
  }

  predicate Busy(x: Phase) {
    x.Running? || x.Returned? || x.HasCancelled?
  }

  lemma SomeoneIsBusyOrSends(outcomes: seq<Outcome>, s: System)
    requires Inv(outcomes, s) && s.received < |s.phases|
    ensures exists i: nat :: i < |s.phases| && (Busy(s.phases[i]) || s.phases[i].Sending?)
  {
    CountBounds(outcomes, s.phases);
    var i: nat :| i < |s.phases| && !s.phases[i].Over?;
    assert Busy(s.phases[i]) || s.phases[i].Sending?;
  }

  lemma AllReceived(outcomes: seq<Outcome>, s: System)
    requires Inv(outcomes, s) && s.received >= |outcomes|
    ensures multiset(s.errs) == multiset(Failures(outcomes)) && (s.errs == [] <==> Failures(outcomes) == [])
    ensures s.errs != [] ==> s.cancelled
  {
    CountBounds(outcomes, s.phases);
    AllDelivered(outcomes, s.phases);
    assert |s.errs| == |multiset(s.errs)| && |Failures(outcomes)| == |multiset(Failures(outcomes))|;
  }

  lemma Progress(outcomes: seq<Outcome>, s: System, a: Action)
    requires Inv(outcomes, s) && Enabled(outcomes, s, a)
    ensures var s' := Apply(outcomes, s, a);
      && Inv(outcomes, s')
      && StepsLeft(outcomes, s'.phases) <= StepsLeft(outcomes, s.phases)
      && (a.CancelParent? ==> !s.cancelled && s'.cancelled)
      && (!a.CancelParent? ==> StepsLeft(outcomes, s'.phases) < StepsLeft(outcomes, s.phases))
  {
    StepKeepsInv(outcomes, s, a);
    StepCounts(outcomes, s, a);
  }

  /** A step of goroutine i. */
  method Go(outcomes: seq<Outcome>, s: System, i: nat) returns (s': System, ghost action: Action)
    requires |s.phases| == |outcomes| && i < |s.phases| && Busy(s.phases[i])
    requires s.phases[i].HasCancelled? ==> outcomes[i].Failed?
    ensures Enabled(outcomes, s, action) && s' == Apply(outcomes, s, action) && !action.Receive? && !action.CancelParent?
  {
    match s.phases[i]
    case Running =>
      action, s' := Return(i), s.(phases := s.phases[i := Returned]);
    case Returned =>
      if outcomes[i].Failed? {
        action, s' := Cancel(i), s.(phases := s.phases[i := HasCancelled], cancelled := true);
      } else {
        action, s' := Offer(i), s.(phases := s.phases[i := Sending(None)]);
      }
    case HasCancelled =>
      action, s' := Offer(i), s.(phases := s.phases[i := Sending(Some(outcomes[i].error))]);
  }

  /** `Run` under a scheduler that picks any enabled step; `errors.Join` of no errors is nil. `cancelled` is
      the context as the last message finds it. */
  method Run(outcomes: seq<Outcome>) returns (joined: Option<seq<string>>, cancelled: bool)
    ensures joined.None? <==> Failures(outcomes) == []
    ensures joined.Some? ==> multiset(joined.value) == multiset(Failures(outcomes)) && cancelled
    ensures joined.None? <==> forall i :: 0 <= i < |outcomes| ==> !outcomes[i].Failed?
    ensures joined.Some? ==> forall error :: multiset(joined.value)[error] == multiset(outcomes)[Failed(error)]
  {
    forall error
      ensures multiset(Failures(outcomes))[error] == multiset(outcomes)[Failed(error)]
    {
      FailuresAre(outcomes, error);
    }
    NoFailures(outcomes);
    var s := Start(|outcomes|);
    StartSatisfiesInv(outcomes);
    while s.received < |outcomes|
      invariant Inv(outcomes, s)
      decreases StepsLeft(outcomes, s.phases), !s.cancelled
    {
      ghost var before, action := s, CancelParent;
      SomeoneIsBusyOrSends(outcomes, s);
      if {
        case !s.cancelled =>
          s := s.(cancelled := true);
        case i: nat :| i < |s.phases| && Busy(s.phases[i]) =>
          s, action := Go(outcomes, s, i);
        case i: nat :| i < |s.phases| && s.phases[i].Sending? =>
          action := Receive(i);
          var err := s.phases[i].message;
          s := s.(phases := s.phases[i := Over], received := s.received + 1,
                  errs := if err.Some? then s.errs + [err.value] else s.errs);
      }
      Progress(outcomes, before, action);
    }
    AllReceived(outcomes, s);
    joined, cancelled := if s.errs == [] then None else Some(s.errs), s.cancelled;
  }
}
