/** Host sequences of auto-drain that run at once, and what keeps them apart. */
module DrainOverlap {
  import opened Basics
  import opened Safety
  import opened AutoDrain
  import opened DrainProtocol
  import opened DrainSchedules
  import opened DrainResets
  import Settings

  /** A call in its host sequence. */
  predicate Busy(t: Thread) {
    t.Running? || t.Finishing?
  }

  predicate AtMostOneBusy(s: System) {
    forall t, u :: 0 <= t < u < |s.threads| ==> !(Busy(s.threads[t]) && Busy(s.threads[u]))
  }

  predicate ResetSince(log: seq<Entry>, from: nat, to: nat)
    requires to <= |log|
  {
    exists k :: from <= k < to && IsReset(log[k].event)
  }

  ghost predicate StartsAfterReset(log: seq<Entry>, from: nat) {
    forall i :: from <= i < |log| && log[i].event.Started? ==> ResetSince(log, from, i)
  }

  /** However the run goes on from `r`, nothing starts before a reset to idle. */
  ghost predicate NeedsReset(r: System) {
    forall more :: StartsAfterReset(RunFrom(r, more).log, |r.log|)
  }

  /** No warning is with the notifier, or delivered and not recorded. */
  predicate NoneOnItsWay(s: System) {
    forall t :: 0 <= t < |s.threads| ==> !s.threads[t].Notifying? && !s.threads[t].Delivered?
  }

  /** A delivered prompt has been answered or has run out, and nothing can start a sequence on it. */
  predicate Settled(s: System) {
    s.drain.notified && s.drain.state in {Executing, Aborted, TimedOut} && NonePending(s) && NoneOnItsWay(s)
  }

  lemma SettledStep(s: System, a: Action)
    requires Settled(s) && Next(s, a) != s
    ensures var r := Next(s, a); |r.log| == |s.log| + 1 && var e := r.log[|s.log|].event;
      !e.Started? && (IsReset(e) || Settled(r))
  {
  }

  ghost predicate SettledInv(s: System, from: nat) {
    && from <= |s.log| && StartsAfterReset(s.log, from) && (ResetSince(s.log, from, |s.log|) || Settled(s))
  }

  lemma NextKeepsSettledInv(s: System, a: Action, from: nat)
    requires SettledInv(s, from)
    ensures SettledInv(Next(s, a), from)
  {
    var r := Next(s, a);
    if r != s {
      assert |r.log| == |s.log| + 1 && forall k :: 0 <= k < |s.log| ==> r.log[k] == s.log[k];
      if !ResetSince(s.log, from, |s.log|) {
        SettledStep(s, a);
      } else {
        assert ResetSince(r.log, from, |s.log|);
      }
      forall i | from <= i < |r.log| && r.log[i].event.Started? ensures ResetSince(r.log, from, i) {
        assert i < |s.log| ==> ResetSince(s.log, from, i);
      }
    }
  }

  lemma {:induction false} RunFromKeepsSettledInv(s: System, actions: seq<Action>, from: nat)
    requires SettledInv(s, from)
    ensures SettledInv(RunFrom(s, actions), from)
  {
    if actions != [] {
      RunFromKeepsSettledInv(s, actions[..|actions| - 1], from);
      NextKeepsSettledInv(RunFrom(s, actions[..|actions| - 1]), actions[|actions| - 1], from);
    }
  }

  lemma PendingStartsAtOnce(r: System, t: nat)
    requires r.drain.notified && t < |r.threads| && r.threads[t].Consenting?
    requires MayExecute(r.threads[t].cfg, r.threads[t].sample)
    ensures !NeedsReset(r)
  {
    var gate := [] + [Gate(t, r.threads[t].cfg)];
    RunFromAppends(r, [], Gate(t, r.threads[t].cfg));
    assert RunFrom(r, gate).log[|r.log|].event.Started?;
    assert !StartsAfterReset(RunFrom(r, gate).log, |r.log|);
  }

  /** A delivered warning is recorded, and its prompt runs out. */
  lemma DeliveredStartsUnreset(run: seq<Action> -> System, before: seq<Action>, t: nat) returns (more: seq<Action>)
    requires IsRun(run)
    requires var s := run(before); t < |s.threads| && s.threads[t].Delivered?
    ensures var log, from := run(more).log, |run(before).log|;
      run(before).log <= log && !StartsAfterReset(log, from) && |log| == from + 3
      && forall k :: from <= k < |log| ==> !IsReset(log[k].event)
  {
    var recorded := Records(run, before, t);
    more := TimeoutStarts(run, recorded, run(before).threads[t].cfg);
    var log, from := run(more).log, |run(before).log|;
    assert log[from + 2].event.Started?;
  }

  lemma NotifyingStartsUnreset(run: seq<Action> -> System, before: seq<Action>, t: nat) returns (more: seq<Action>)
    requires IsRun(run)
    requires var s := run(before); t < |s.threads| && s.threads[t].Notifying?
    ensures !StartsAfterReset(run(more).log, |run(before).log|)
  {
    var delivered := Delivers(run, before, t);
    more := DeliveredStartsUnreset(run, delivered, t);
    var log, from := run(more).log, |run(before).log|;
    var i :| from + 1 <= i < |log| && log[i].event.Started? && !ResetSince(log, from + 1, i);
    assert log[from] == run(delivered).log[from];
  }

  /** A warning on its way leads to a start without a reset. */
  lemma WarningStarts(r: System, t: nat)
    requires t < |r.threads| && (r.threads[t].Notifying? || r.threads[t].Delivered?)
    ensures !NeedsReset(r)
  {
    FromIsRun(r);
    if r.threads[t].Delivered? {
      var more := DeliveredStartsUnreset(From(r), [], t);
      assert !StartsAfterReset(RunFrom(r, more).log, |r.log|);
    } else {
      var more := NotifyingStartsUnreset(From(r), [], t);
      assert !StartsAfterReset(RunFrom(r, more).log, |r.log|);
    }
  }

  /** Once a sequence has started, no other starts before a reset to idle, exactly when no other
      consent that passes the gate is pending and no warning is on its way. */
  lemma NextStartNeedsReset(r: System)
    requires r.drain.notified && r.drain.state in {Executing, Aborted, TimedOut}
    ensures NeedsReset(r) <==> NonePending(r) && NoneOnItsWay(r)
  {
    if !NonePending(r) {
      var t :| 0 <= t < |r.threads| && r.threads[t].Consenting? && MayExecute(r.threads[t].cfg, r.threads[t].sample);
      PendingStartsAtOnce(r, t);
    } else if !NoneOnItsWay(r) {
      var t :| 0 <= t < |r.threads| && (r.threads[t].Notifying? || r.threads[t].Delivered?);
      WarningStarts(r, t);
    } else {
      forall more ensures StartsAfterReset(RunFrom(r, more).log, |r.log|) {
        RunFromKeepsSettledInv(r, more, |r.log|);
      }
    }
  }

  // ----- at most one sequence

  /** Only a start adds a sequence. */
  lemma NextKeepsOneBusy(s: System, a: Action)
    requires AtMostOneBusy(s)
    ensures var r := Next(s, a); AtMostOneBusy(r) || (|r.log| == |s.log| + 1 && r.log[|s.log|].event.Started?)
  {
  }

  /** After a start with no other sequence in progress, nothing pending and no warning on its way,
      there is at most one sequence in progress as long as nothing resets to idle. */
  lemma {:induction false} OneSequenceUntilReset(r: System, more: seq<Action>)
    requires AtMostOneBusy(r) && Settled(r)
    requires var log := RunFrom(r, more).log; !ResetSince(log, |r.log|, |log|)
    ensures AtMostOneBusy(RunFrom(r, more))
  {
    RunFromKeepsSettledInv(r, more, |r.log|);
    if more != [] {
      var init, a := more[..|more| - 1], more[|more| - 1];
      var s := RunFrom(r, init);
      RunFromExtends(r, init);
      NextExtends(s, a);
      OneSequenceUntilReset(r, init);
      NextKeepsOneBusy(s, a);
    }
  }

  lemma OverlapsAfterReset(
    run: seq<Action> -> System, cfg: Settings.Config, sample: Sample, clock: int, live: Settings.Config)
    returns (actions: seq<Action>)
    requires IsRun(run) && run([]) == Start(true) && MayStart(true, cfg, sample)
    ensures var s := run(actions); |s.threads| == 4 && s.threads[1].Running? && s.threads[3].Running?
  {
    var warned := WarnsAndRecords(run, [], cfg, sample, clock);
    var started := YesStarts(run, warned, cfg, clock, live);
    assert run(started + [Reset]).drain.state == Idle;
    var again := WarnsAndRecords(run, started + [Reset], cfg, sample, clock);
    actions := YesStarts(run, again, cfg, clock, live);
  }

  /** After a reset two sequences can be in progress at once: the one that was, and one that a new
      warning leads to. */
  lemma SequencesOverlapAfterReset(cfg: Settings.Config, sample: Sample, clock: int, live: Settings.Config)
    returns (actions: seq<Action>)
    requires MayStart(true, cfg, sample)
    ensures var s := Run(true, actions); |s.threads| == 4 && s.threads[1].Running? && s.threads[3].Running?
  {
    FromIsRun(Start(true));
    actions := OverlapsAfterReset(From(Start(true)), cfg, sample, clock, live);
  }
}
