/** What a reset to idle takes back of the warnings and consents before it, and what needs one. A
    reset is any step that goes back to idle: a tick, an answer that comes before its prompt is
    recorded, a warning that failed, or a call of `Reset`. */
module DrainResets {
  import opened Basics
  import opened Safety
  import opened AutoDrain
  import opened DrainProtocol
  import opened DrainSafety
  import opened DrainSchedules
  import Settings

  /** The last thing that happened is a reset to idle. */
  predicate JustReset(s: System) {
    s.log != [] && IsReset(s.log[|s.log| - 1].event)
  }

  predicate NoneDelivered(s: System) {
    forall t :: 0 <= t < |s.threads| ==> !s.threads[t].Delivered?
  }

  /** No consent in progress would pass the gate. */
  predicate NonePending(s: System) {
    forall t :: 0 <= t < |s.threads| && s.threads[t].Consenting? ==>
      !MayExecute(s.threads[t].cfg, s.threads[t].sample)
  }

  lemma NextResetIsIdle(s: System, a: Action)
    requires DrainInv(s.drain) && (JustReset(s) ==> s.drain.state == Idle)
    ensures JustReset(Next(s, a)) ==> Next(s, a).drain.state == Idle
  {
  }

  lemma {:induction false} ResetIsIdle(notifier: bool, actions: seq<Action>)
    ensures JustReset(Run(notifier, actions)) ==> Run(notifier, actions).drain.state == Idle
  {
    if actions != [] {
      var init := actions[..|actions| - 1];
      ResetIsIdle(notifier, init);
      RunKeepsInv(notifier, init);
      NextResetIsIdle(Run(notifier, init), actions[|actions| - 1]);
    }
  }

  // ----- a delivery lies between a reset and a start

  predicate IsDelivery(e: Event) {
    e.Returned? && e.ok
  }

  /** Every start from `from` on has a delivery between `from` and it. */
  ghost predicate StartsAreNew(log: seq<Entry>, from: nat) {
    forall i :: from <= i < |log| && log[i].event.Started? ==> exists d :: from <= d < i && IsDelivery(log[d].event)
  }

  /** However the run goes on from `r`, a warning is delivered before anything starts. */
  ghost predicate NeedsDelivery(r: System) {
    forall more :: StartsAreNew(RunFrom(r, more).log, |r.log|)
  }

  /** Without a delivery since `from`, no prompt is recorded nor can one be. */
  ghost predicate SilentInv(s: System, from: nat) {
    && from <= |s.log| && StartsAreNew(s.log, from)
    && ((forall d :: from <= d < |s.log| ==> !IsDelivery(s.log[d].event)) ==> !s.drain.notified && NoneDelivered(s))
  }

  lemma SilentStep(s: System, a: Action)
    requires !s.drain.notified && NoneDelivered(s) && Next(s, a) != s
    ensures var r := Next(s, a); |r.log| == |s.log| + 1 && var e := r.log[|s.log|].event;
      !e.Started? && (IsDelivery(e) || (!r.drain.notified && NoneDelivered(r)))
  {
  }

  lemma NextKeepsSilentInv(s: System, a: Action, from: nat)
    requires SilentInv(s, from)
    ensures SilentInv(Next(s, a), from)
  {
    var r := Next(s, a);
    if r != s {
      assert s.log <= r.log && |r.log| == |s.log| + 1;
      assert forall d :: 0 <= d < |s.log| ==> r.log[d] == s.log[d];
      if forall d :: from <= d < |s.log| ==> !IsDelivery(s.log[d].event) {
        SilentStep(s, a);
      }
    }
  }

  lemma {:induction false} RunFromKeepsSilentInv(s: System, actions: seq<Action>, from: nat)
    requires SilentInv(s, from)
    ensures SilentInv(RunFrom(s, actions), from)
  {
    if actions != [] {
      RunFromKeepsSilentInv(s, actions[..|actions| - 1], from);
      NextKeepsSilentInv(RunFrom(s, actions[..|actions| - 1]), actions[|actions| - 1], from);
    }
  }

  /** A run from `r` that records the warning thread `t` has delivered, and starts a sequence once
      the prompt runs out. */
  lemma DeliveredStarts(r: System, t: nat) returns (more: seq<Action>)
    requires t < |r.threads| && r.threads[t].Delivered?
    ensures var log, n := RunFrom(r, more).log, |r.log|;
      && |log| == n + 3 && log[n].event.Prompted? && log[n + 1].event.Ticked? && !IsReset(log[n + 1].event)
      && log[n + 2].event.Started?
  {
    FromIsRun(r);
    var recorded := Records(From(r), [], t);
    more := TimeoutStarts(From(r), recorded, r.threads[t].cfg);
  }

  /** Nothing starts without a delivery since the reset exactly when no call has a delivery that
      it has not recorded yet: that call records it all the same. */
  lemma NeedsDeliveryUnlessDelivered(r: System)
    requires !r.drain.notified
    ensures NeedsDelivery(r) <==> NoneDelivered(r)
  {
    if NoneDelivered(r) {
      forall more ensures StartsAreNew(RunFrom(r, more).log, |r.log|) {
        RunFromKeepsSilentInv(r, more, |r.log|);
      }
    } else {
      DeliveredNeedsNone(r);
    }
  }

  lemma StartIsOld(log: seq<Entry>, from: nat)
    requires |log| == from + 3 && log[from].event.Prompted? && log[from + 1].event.Ticked? && log[from + 2].event.Started?
    ensures !StartsAreNew(log, from)
  {
  }

  lemma DeliveredNeedsNone(r: System)
    requires !NoneDelivered(r)
    ensures !NeedsDelivery(r)
  {
    var t :| 0 <= t < |r.threads| && r.threads[t].Delivered?;
    var more := DeliveredStarts(r, t);
    StartIsOld(RunFrom(r, more).log, |r.log|);
  }

  /** After a call of `Reset`, from whatever state. */
  lemma ResetRecallsUnlessDelivered(s: System)
    ensures NeedsDelivery(Next(s, Reset)) <==> NoneDelivered(s)
  {
    NeedsDeliveryUnlessDelivered(Next(s, Reset));
  }

  /** After any reset to idle, of any run. */
  lemma EveryResetRecallsUnlessDelivered(notifier: bool, actions: seq<Action>)
    requires JustReset(Run(notifier, actions))
    ensures NeedsDelivery(Run(notifier, actions)) <==> NoneDelivered(Run(notifier, actions))
  {
    RunKeepsInv(notifier, actions);
    ResetIsIdle(notifier, actions);
    NeedsDeliveryUnlessDelivered(Run(notifier, actions));
  }

  // ----- calls from before a reset do not start

  /** However the run goes on from `r`, no call that is in progress there starts a sequence. */
  ghost predicate OldCallsStop(r: System) {
    forall more :: OnlyNewStart(RunFrom(r, more).log, |r.log|, |r.threads|)
  }

  predicate OnlyNewStart(log: seq<Entry>, from: nat, calls: nat) {
    forall i :: from <= i < |log| && log[i].event.Started? ==> log[i].event.t >= calls
  }

  /** None of the first `calls` calls has a consent that passes the gate. */
  predicate BarredInv(s: System, from: nat, calls: nat) {
    && from <= |s.log| && calls <= |s.threads| && OnlyNewStart(s.log, from, calls)
    && forall t :: 0 <= t < calls && s.threads[t].Consenting? ==> !MayExecute(s.threads[t].cfg, s.threads[t].sample)
  }

  lemma NextKeepsBarredInv(s: System, a: Action, from: nat, calls: nat)
    requires BarredInv(s, from, calls)
    ensures BarredInv(Next(s, a), from, calls)
  {
    var r := Next(s, a);
    if r != s {
      assert s.log <= r.log && |r.log| == |s.log| + 1;
      assert forall i :: 0 <= i < |s.log| ==> r.log[i] == s.log[i];
    }
  }

  lemma {:induction false} RunFromKeepsBarredInv(s: System, actions: seq<Action>, from: nat, calls: nat)
    requires BarredInv(s, from, calls)
    ensures BarredInv(RunFrom(s, actions), from, calls)
  {
    if actions != [] {
      RunFromKeepsBarredInv(s, actions[..|actions| - 1], from, calls);
      NextKeepsBarredInv(RunFrom(s, actions[..|actions| - 1]), actions[|actions| - 1], from, calls);
    }
  }

  /** A run from an idle `r` that delivers and records a new warning, and lets the old consent of
      thread `t` pass the gate on it. */
  lemma PendingStarts(r: System, t: nat) returns (more: seq<Action>)
    requires r.notifier && r.drain.state == Idle && t < |r.threads| && r.threads[t].Consenting?
    requires MayExecute(r.threads[t].cfg, r.threads[t].sample)
    ensures var log, n := RunFrom(r, more).log, |r.log|;
      |log| == n + 4 && log[n].event.Ticked? && log[n + 3].event.Started? && log[n + 3].event.t == t
  {
    var cfg := r.threads[t].cfg;
    FromIsRun(r);
    WillingMayStart(cfg, 0);
    var warned := WarnsAndRecords(From(r), [], Willing(cfg), Low(0), 0);
    more := PassesGate(From(r), warned, t, cfg);
  }

  /** Without a notifier nothing ever leaves idle. */
  lemma {:induction false} MuteStaysIdle(actions: seq<Action>)
    ensures var s := Run(false, actions);
      !s.notifier && s.drain.state == Idle && forall t :: 0 <= t < |s.threads| ==> s.threads[t].Done?
  {
    if actions != [] {
      MuteStaysIdle(actions[..|actions| - 1]);
    }
  }

  lemma {:induction false} NotifierStays(notifier: bool, actions: seq<Action>)
    ensures Run(notifier, actions).notifier == notifier
  {
    if actions != [] {
      NotifierStays(notifier, actions[..|actions| - 1]);
    }
  }

  /** After a reset to idle no older call starts a sequence exactly when none of them has a consent
      that passes the gate: such a call meets the notification of a newer prompt there. */
  lemma OldCallsStopUnlessPending(notifier: bool, actions: seq<Action>)
    requires JustReset(Run(notifier, actions))
    ensures OldCallsStop(Run(notifier, actions)) <==> NonePending(Run(notifier, actions))
  {
    var r := Run(notifier, actions);
    if NonePending(r) {
      forall more ensures OnlyNewStart(RunFrom(r, more).log, |r.log|, |r.threads|) {
        RunFromKeepsBarredInv(r, more, |r.log|, |r.threads|);
      }
    } else {
      var t := PendingCall(notifier, actions);
      var more := PendingStarts(r, t);
      assert !OnlyNewStart(RunFrom(r, more).log, |r.log|, |r.threads|);
    }
  }

  lemma PendingCall(notifier: bool, actions: seq<Action>) returns (t: nat)
    requires var r := Run(notifier, actions); JustReset(r) && !NonePending(r)
    ensures var r := Run(notifier, actions);
      && r.notifier && r.drain.state == Idle && t < |r.threads| && r.threads[t].Consenting?
      && MayExecute(r.threads[t].cfg, r.threads[t].sample)
  {
    var r := Run(notifier, actions);
    t :| 0 <= t < |r.threads| && r.threads[t].Consenting? && MayExecute(r.threads[t].cfg, r.threads[t].sample);
    NotifierStays(notifier, actions);
    ResetIsIdle(notifier, actions);
    if !notifier {
      MuteStaysIdle(actions);
    }
  }

  // ----- what starts rests on what came after the reset

  /** The start at `i` rests on a delivery, a prompt and a consent from `from` on. */
  ghost predicate RestsOnNew(log: seq<Entry>, from: nat, i: nat)
    requires i < |log|
  {
    exists d: nat, p: nat, c: nat :: from <= d && c < i && Stands(log, d, p, c) && ConsentsTo(log, p, c, log[i].event)
  }

  ghost predicate AllRestOnNew(log: seq<Entry>, from: nat) {
    forall i :: from <= i < |log| && log[i].event.Started? ==> RestsOnNew(log, from, i)
  }

  /** However the run goes on from `r`, what starts rests on a delivery from there on. */
  ghost predicate StartsAreFresh(r: System) {
    forall more :: AllRestOnNew(RunFrom(r, more).log, |r.log|)
  }

  predicate DeliveredBetween(log: seq<Entry>, t: nat, from: nat, to: nat) {
    exists d :: from <= d < to <= |log| && log[d].event == Returned(t, true)
  }

  /** Every prompt recorded since `from`, and every one still to be, was delivered since. */
  predicate DeliveryInv(s: System, from: nat) {
    && from <= |s.log|
    && (forall p :: from <= p < |s.log| && s.log[p].event.Prompted? ==> DeliveredBetween(s.log, s.log[p].event.t, from, p))
    && (forall t :: 0 <= t < |s.threads| && s.threads[t].Delivered? ==> DeliveredBetween(s.log, t, from, |s.log|))
  }

  lemma StaysDelivered(log: seq<Entry>, longer: seq<Entry>, t: nat, from: nat, to: nat)
    requires log <= longer && DeliveredBetween(log, t, from, to)
    ensures forall later :: to <= later <= |longer| ==> DeliveredBetween(longer, t, from, later)
  {
    var d :| from <= d < to && log[d].event == Returned(t, true);
    assert longer[d] == log[d];
  }

  /** Only a delivery takes a call to where it can record a prompt. */
  lemma DeliveryStep(s: System, a: Action, t: nat)
    requires Next(s, a) != s && t < |Next(s, a).threads|
    ensures var r := Next(s, a); |r.log| == |s.log| + 1 && r.log[..|s.log|] == s.log && var e := r.log[|s.log|].event;
      && (r.threads[t].Delivered? && !(t < |s.threads| && s.threads[t].Delivered?) ==> e == Returned(t, true))
      && (e.Prompted? ==> e.t < |s.threads| && s.threads[e.t].Delivered?)
  {
  }

  lemma NextKeepsDeliveryInv(s: System, a: Action, from: nat)
    requires DeliveryInv(s, from)
    ensures DeliveryInv(Next(s, a), from)
  {
    var r := Next(s, a);
    if r != s {
      var n := |s.log|;
      assert |r.log| == n + 1 && r.log[..n] == s.log;
      forall p | from <= p < |r.log| && r.log[p].event.Prompted?
        ensures DeliveredBetween(r.log, r.log[p].event.t, from, p)
      {
        var t := r.log[p].event.t;
        if p == n {
          DeliveryStep(s, a, 0);
          StaysDelivered(s.log, r.log, t, from, n);
        } else {
          assert s.log[p] == r.log[p];
          StaysDelivered(s.log, r.log, t, from, p);
        }
      }
      forall t: nat | t < |r.threads| && r.threads[t].Delivered? ensures DeliveredBetween(r.log, t, from, |r.log|) {
        DeliveryStep(s, a, t);
        if t < |s.threads| && s.threads[t].Delivered? {
          StaysDelivered(s.log, r.log, t, from, n);
        }
      }
    }
  }

  lemma {:induction false} RunFromKeepsDeliveryInv(s: System, actions: seq<Action>, from: nat)
    requires DeliveryInv(s, from)
    ensures DeliveryInv(RunFrom(s, actions), from)
  {
    if actions != [] {
      RunFromKeepsDeliveryInv(s, actions[..|actions| - 1], from);
      NextKeepsDeliveryInv(RunFrom(s, actions[..|actions| - 1]), actions[|actions| - 1], from);
    }
  }

  lemma NextExtends(s: System, a: Action)
    ensures s.log <= Next(s, a).log
  {
    if Next(s, a) != s && !a.Reset? {
      NextIsStep(s, a);
    }
  }

  lemma {:induction false} RunFromExtends(s: System, actions: seq<Action>)
    ensures s.log <= RunFrom(s, actions).log
  {
    if actions != [] {
      var init := actions[..|actions| - 1];
      RunFromExtends(s, init);
      NextExtends(RunFrom(s, init), actions[|actions| - 1]);
    }
  }

  /** A call that was not in progress yet has no events before. */
  lemma NewCallIsLater(r: System, log: seq<Entry>, c: nat, t: nat)
    requires ThreadInv(r) && r.log <= log && c < |log| && Of(log[c].event, t) && t >= |r.threads|
    ensures c >= |r.log|
  {
    if c < |r.log| {
      InStory(r.log, t, c);
    }
  }

  lemma StandsAfterReset(log: seq<Entry>, d: nat, p: nat, c: nat, from: nat)
    requires Stands(log, d, p, c) && 0 < from <= c && IsReset(log[from - 1].event)
    ensures p >= from
  {
  }

  lemma NewCallRestsOnNew(r: System, s: System, i: nat)
    requires Inv(r) && JustReset(r) && Inv(s) && r.log <= s.log && DeliveryInv(s, |r.log|)
    requires |r.log| <= i < |s.log| && s.log[i].event.Started? && s.log[i].event.t >= |r.threads|
    ensures RestsOnNew(s.log, |r.log|, i)
  {
    assert IsReset(s.log[|r.log| - 1].event) by {
      assert s.log[|r.log| - 1] == r.log[|r.log| - 1];
    }
    var from := |r.log|;
    var d, p, c := StartHasConsent(s, i);
    NewCallIsLater(r, s.log, c, s.log[i].event.t);
    StandsAfterReset(s.log, d, p, c, from);
    assert DeliveredBetween(s.log, s.log[p].event.t, from, p);
    var later :| from <= later < p && s.log[later].event == Returned(s.log[p].event.t, true);
    assert Stands(s.log, later, p, c);
  }

  /** After a reset to idle everything that starts rests on a warning delivered since, recorded
      since and consented to since, exactly when at the reset no call has a delivery that it has
      not recorded yet, nor a consent that passes the gate. */
  lemma StartsAreFreshUnlessCarried(notifier: bool, actions: seq<Action>)
    requires JustReset(Run(notifier, actions))
    ensures var r := Run(notifier, actions); StartsAreFresh(r) <==> NoneDelivered(r) && NonePending(r)
  {
    var r := Run(notifier, actions);
    RunKeepsInv(notifier, actions);
    if !NoneDelivered(r) {
      DeliveredIsNotFresh(r);
    } else if !NonePending(r) {
      var t := PendingCall(notifier, actions);
      PendingIsNotFresh(r, t);
    } else {
      forall more ensures AllRestOnNew(RunFrom(r, more).log, |r.log|) {
        FreshRun(r, more);
      }
    }
  }

  /** There is no room for a delivery, a prompt and a consent between `from` and `i`. */
  lemma RestsOnOld(log: seq<Entry>, from: nat, i: nat)
    requires i < |log| && from <= i <= from + 3 && !log[from].event.Returned? && log[i].event.Started?
    ensures !AllRestOnNew(log, from)
  {
    assert !RestsOnNew(log, from, i);
  }

  lemma DeliveredIsNotFresh(r: System)
    requires !NoneDelivered(r)
    ensures !StartsAreFresh(r)
  {
    var t :| 0 <= t < |r.threads| && r.threads[t].Delivered?;
    var more := DeliveredStarts(r, t);
    RestsOnOld(RunFrom(r, more).log, |r.log|, |r.log| + 2);
  }

  lemma PendingIsNotFresh(r: System, t: nat)
    requires r.notifier && r.drain.state == Idle && t < |r.threads| && r.threads[t].Consenting?
    requires MayExecute(r.threads[t].cfg, r.threads[t].sample)
    ensures !StartsAreFresh(r)
  {
    var more := PendingStarts(r, t);
    RestsOnOld(RunFrom(r, more).log, |r.log|, |r.log| + 3);
  }

  lemma FreshRun(r: System, more: seq<Action>)
    requires Inv(r) && JustReset(r) && NoneDelivered(r) && NonePending(r)
    ensures AllRestOnNew(RunFrom(r, more).log, |r.log|)
  {
    var s := RunFrom(r, more);
    RunFromKeepsInv(r, more);
    RunFromExtends(r, more);
    RunFromKeepsDeliveryInv(r, more, |r.log|);
    RunFromKeepsBarredInv(r, more, |r.log|, |r.threads|);
    forall i | |r.log| <= i < |s.log| && s.log[i].event.Started? ensures RestsOnNew(s.log, |r.log|, i) {
      NewCallRestsOnNew(r, s, i);
    }
  }

  // ----- runs in which a reset does not recall

  lemma Resets(run: seq<Action> -> System, before: seq<Action>, early: Option<Action>) returns (after: seq<Action>)
    requires IsRun(run)
    requires var s := run(before); s.drain.state == WarningSent && !s.drain.notified
    requires early.Some? ==> early.value.Respond?
    ensures var s, r := run(before), run(after);
      && s.threads <= r.threads && r.drain.sample == s.drain.sample
      && Grew(s.log, r.log, 1)
      && r.log[|s.log|].event == (if early.None? then ResetCalled else Unprompted(|s.threads|, true))
  {
    var reset := if early.Some? then early.value else Reset;
    after := before + [reset];
  }

  /** A warning delivered before the reset at 2, recorded after it, and started on by a YES, with
      no delivery since the reset. */
  predicate StartsOnOlderDelivery(log: seq<Entry>, reset: Event) {
    && |log| == 6 && log[1].event == Returned(0, true) && log[2].event == reset && IsReset(reset)
    && log[3].event.Prompted? && log[4].event.AgreedByUser? && log[5].event.Started?
  }

  lemma WarningOutlivesReset(
    run: seq<Action> -> System, cfg: Settings.Config, sample: Sample, clock: int, live: Settings.Config,
    early: Option<Action>)
    returns (actions: seq<Action>)
    requires IsRun(run) && run([]) == Start(true) && MayStart(true, cfg, sample)
    requires early.Some? ==> early.value.Respond?
    ensures StartsOnOlderDelivery(run(actions).log, if early.None? then ResetCalled else Unprompted(1, true))
  {
    var delivered := Warns(run, [], cfg, sample, clock);
    var reset := Resets(run, delivered, early);
    var recorded := Records(run, reset, 0);
    actions := YesStarts(run, recorded, cfg, clock, live);
  }

  /** With a call of `Reset`. */
  lemma ResetDoesNotRecallAWarning(cfg: Settings.Config, sample: Sample, clock: int, live: Settings.Config)
    returns (actions: seq<Action>)
    requires MayStart(true, cfg, sample)
    ensures StartsOnOlderDelivery(Run(true, actions).log, ResetCalled)
  {
    FromIsRun(Start(true));
    actions := WarningOutlivesReset(From(Start(true)), cfg, sample, clock, live, None);
  }

  /** With an answer that came before the prompt was recorded: one tick, and no call of `Reset`. */
  lemma EarlyAnswerDoesNotRecallAWarning(cfg: Settings.Config, sample: Sample, clock: int, live: Settings.Config)
    returns (actions: seq<Action>)
    requires MayStart(true, cfg, sample)
    ensures StartsOnOlderDelivery(Run(true, actions).log, Unprompted(1, true))
  {
    FromIsRun(Start(true));
    actions := WarningOutlivesReset(From(Start(true)), cfg, sample, clock, live, Some(Respond(cfg, true, clock)));
  }

  lemma StartsOnOlderYes(
    run: seq<Action> -> System, cfg: Settings.Config, sample: Sample, clock: int, live: Settings.Config)
    returns (actions: seq<Action>)
    requires IsRun(run) && run([]) == Start(true) && MayStart(true, cfg, sample)
    ensures var log := run(actions).log;
      && |log| == 9 && log[3].event.AgreedByUser? && log[3].event.t == 1 && log[4].event == ResetCalled
      && log[8].event == Started(1, cfg, sample.Stamped(clock), Yes, live)
  {
    var warned := WarnsAndRecords(run, [], cfg, sample, clock);
    var reset := YesThenReset(run, warned, cfg, clock);
    var again := WarnsAndRecords(run, reset, cfg, sample, clock);
    actions := PassesGate(run, again, 1, live);
  }

  /** A YES given before a `Reset` that starts its sequence after it, on the notification of a newer
      prompt and with its own old configuration and sample. */
  lemma ResetDoesNotStopAnOlderYes(cfg: Settings.Config, sample: Sample, clock: int, live: Settings.Config)
    returns (actions: seq<Action>)
    requires MayStart(true, cfg, sample)
    ensures var log := Run(true, actions).log;
      && |log| == 9 && log[3].event.AgreedByUser? && log[3].event.t == 1 && log[4].event == ResetCalled
      && log[8].event == Started(1, cfg, sample.Stamped(clock), Yes, live)
  {
    FromIsRun(Start(true));
    actions := StartsOnOlderYes(From(Start(true)), cfg, sample, clock, live);
  }
}
