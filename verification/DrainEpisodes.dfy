/** What holds of auto-drain over whole episodes, with the one poll loop the daemon runs: a NO
    lasts, and an episode is announced once. */
module DrainEpisodes {
  import opened Basics
  import opened Safety
  import opened AutoDrain
  import opened DrainProtocol
  import opened DrainResets
  import Settings

  /** A call of `Tick` in progress. */
  predicate Ticker(t: Thread) {
    t.Notifying? || t.Delivered? || t.Undelivered?
    || ((t.Consenting? || t.Running? || t.Finishing?) && t.trigger.Timeout?)
  }

  /** A call of `Tick` with a warning on its way. */
  predicate Announcing(t: Thread) {
    t.Notifying? || t.Delivered? || t.Undelivered?
  }

  predicate TickInProgress(s: System) {
    exists t :: 0 <= t < |s.threads| && Ticker(s.threads[t])
  }

  /** The poll loop does not tick again before its last tick returned. */
  function SoloNext(s: System, a: Action): System {
    if a.Enter? && TickInProgress(s) then s else Next(s, a)
  }

  function SoloRunFrom(s: System, actions: seq<Action>): System {
    if actions == [] then s
    else SoloNext(SoloRunFrom(s, actions[..|actions| - 1]), actions[|actions| - 1])
  }

  function SoloRun(notifier: bool, actions: seq<Action>): System {
    SoloRunFrom(Start(notifier), actions)
  }

  /** A tick that sees the battery recovered or auto-drain off, or a reset. */
  predicate Renews(e: Event) {
    e.ResetCalled? || (e.Ticked? && (!e.cfg.drain.enabled || Recovered(e.cfg, e.sample)))
  }

  /** A tick that sets out to warn, or a warning's return. */
  predicate Announces(e: Event) {
    e.Returned? || (e.Ticked? && e.move.Warn?)
  }

  /** A prompt was recorded, and nothing has renewed the episode since. */
  predicate InEpisode(log: seq<Entry>) {
    if log == [] then false
    else
      var e := log[|log| - 1].event;
      e.Prompted? || (!Renews(e) && InEpisode(log[..|log| - 1]))
  }

  // ----- invariant of solo runs

  predicate OneTicker(s: System) {
    forall t, u :: 0 <= t < u < |s.threads| ==> !(Ticker(s.threads[t]) && Ticker(s.threads[u]))
  }

  predicate QuietWhenNotified(s: System) {
    s.drain.notified ==> forall t :: 0 <= t < |s.threads| ==> !Announcing(s.threads[t])
  }

  predicate EpisodeLog(s: System) {
    && (InEpisode(s.log) ==> s.drain.notified)
    && (forall i :: 0 <= i < |s.log| && Announces(s.log[i].event) ==> !InEpisode(s.log[..i]))
  }

  /** While a timeout is on its way to the gate there is no prompt to answer. */
  predicate ExpiredIsOver(s: System) {
    forall t :: 0 <= t < |s.threads| && s.threads[t].Consenting? && s.threads[t].trigger.Timeout? ==>
      s.drain.state !in {WarningSent, Awaiting}
  }

  ghost predicate SoloInv(s: System) {
    Inv(s) && OneTicker(s) && QuietWhenNotified(s) && ExpiredIsOver(s) && EpisodeLog(s)
  }

  lemma OnlyEnterTicks(s: System, a: Action, t: nat)
    requires t < |Next(s, a).threads| && Ticker(Next(s, a).threads[t])
    ensures if t < |s.threads| then Ticker(s.threads[t]) else a.Enter? && t == |s.threads|
  {
  }

  lemma NextKeepsOneTicker(s: System, a: Action)
    requires OneTicker(s) && !(a.Enter? && TickInProgress(s))
    ensures OneTicker(Next(s, a))
  {
    var r := Next(s, a);
    forall t, u | 0 <= t < u < |r.threads| && Ticker(r.threads[t]) && Ticker(r.threads[u]) ensures false {
      OnlyEnterTicks(s, a, t);
      OnlyEnterTicks(s, a, u);
    }
  }

  lemma NextKeepsQuiet(s: System, a: Action)
    requires DrainInv(s.drain) && OneTicker(s) && QuietWhenNotified(s) && !(a.Enter? && TickInProgress(s))
    ensures QuietWhenNotified(Next(s, a))
  {
    var r := Next(s, a);
    if r != s && !a.Reset? {
      NextIsStep(s, a);
    }
  }

  lemma NextKeepsExpiredIsOver(s: System, a: Action)
    requires OneTicker(s) && ExpiredIsOver(s) && !(a.Enter? && TickInProgress(s))
    ensures ExpiredIsOver(Next(s, a))
  {
    var r := Next(s, a);
    if r != s && !a.Reset? {
      NextIsStep(s, a);
    }
  }

  lemma NextStaysInEpisode(s: System, a: Action)
    requires DrainInv(s.drain) && QuietWhenNotified(s) && Next(s, a) != s
    ensures var r := Next(s, a); |r.log| == |s.log| + 1 && var e := r.log[|s.log|].event;
      && (e.Prompted? || (!Renews(e) && s.drain.notified) ==> r.drain.notified)
      && (Announces(e) ==> !s.drain.notified)
  {
  }

  lemma NextKeepsEpisodeLog(s: System, a: Action)
    requires DrainInv(s.drain) && QuietWhenNotified(s) && EpisodeLog(s)
    ensures EpisodeLog(Next(s, a))
  {
    var r := Next(s, a);
    if r != s {
      NextStaysInEpisode(s, a);
      assert r.log[..|s.log|] == s.log;
      forall i | 0 <= i < |r.log| && Announces(r.log[i].event) ensures !InEpisode(r.log[..i]) {
        if i < |s.log| {
          assert r.log[..i] == s.log[..i];
        }
      }
    }
  }

  lemma SoloNextKeepsInv(s: System, a: Action)
    requires SoloInv(s)
    ensures SoloInv(SoloNext(s, a))
  {
    if SoloNext(s, a) != s {
      NextKeepsInv(s, a);
      NextKeepsOneTicker(s, a);
      NextKeepsQuiet(s, a);
      NextKeepsExpiredIsOver(s, a);
      NextKeepsEpisodeLog(s, a);
    }
  }

  lemma {:induction false} SoloRunFromKeepsInv(s: System, actions: seq<Action>)
    requires SoloInv(s)
    ensures SoloInv(SoloRunFrom(s, actions))
  {
    if actions != [] {
      SoloRunFromKeepsInv(s, actions[..|actions| - 1]);
      SoloNextKeepsInv(SoloRunFrom(s, actions[..|actions| - 1]), actions[|actions| - 1]);
    }
  }

  // ----- one warning per episode

  lemma {:induction false} EpisodeLasts(log: seq<Entry>, i: nat, j: nat)
    requires i < j <= |log| && log[i].event.Prompted?
    requires forall k :: i < k < j ==> !Renews(log[k].event)
    ensures InEpisode(log[..j])
  {
    if j > i + 1 {
      EpisodeLasts(log, i, j - 1);
      assert log[..j][..j - 1] == log[..j - 1];
    }
  }

  /** After a prompt was recorded, no further warning is attempted or delivered before a tick
      sees the battery recovered or auto-drain off, or `Reset` is called. */
  lemma OneWarningPerEpisode(notifier: bool, actions: seq<Action>, i: nat, j: nat)
    requires var log := SoloRun(notifier, actions).log;
      i < j < |log| && log[i].event.Prompted? && Announces(log[j].event)
    ensures var log := SoloRun(notifier, actions).log; exists k :: i < k < j && Renews(log[k].event)
  {
    var log := SoloRun(notifier, actions).log;
    SoloRunFromKeepsInv(Start(notifier), actions);
    if forall k :: i < k < j ==> !Renews(log[k].event) {
      EpisodeLasts(log, i, j);
    }
  }

  // ----- a NO lasts

  /** How far a refused prompt has been left behind since position `from` of the log. */
  datatype Stage = StillRefused | Rearmed | Redelivered | Reprompted

  function Later(stage: Stage, e: Event): Stage {
    match stage
    case StillRefused => if IsReset(e) then Rearmed else StillRefused
    case Rearmed => if e.Returned? && e.ok then Redelivered else Rearmed
    case Redelivered => if e.Prompted? then Reprompted else Redelivered
    case Reprompted => Reprompted
  }

  function StageOf(log: seq<Entry>, from: nat): Stage
    requires from <= |log|
  {
    if |log| == from then StillRefused else Later(StageOf(log[..|log| - 1], from), log[|log| - 1].event)
  }

  /** A reset to idle, then a delivery, then its recording, all from `from` on and before `e`. */
  ghost predicate Renewed(log: seq<Entry>, from: nat, e: nat) {
    exists r, d, p ::
      from <= r < d < p < e <= |log|
      && IsReset(log[r].event) && log[d].event.Returned? && log[d].event.ok && log[p].event.Prompted?
  }

  lemma {:induction false} StageWitness(log: seq<Entry>, from: nat, e: nat) returns (r: nat, d: nat, p: nat)
    requires from <= e <= |log|
    ensures var stage := StageOf(log[..e], from);
      && (!stage.StillRefused? ==> from <= r < e && IsReset(log[r].event))
      && (stage.Redelivered? || stage.Reprompted? ==> r < d < e && log[d].event.Returned? && log[d].event.ok)
      && (stage.Reprompted? ==> d < p < e && log[p].event.Prompted?)
  {
    r, d, p := 0, 0, 0;
    if e > from {
      r, d, p := StageWitness(log, from, e - 1);
      assert log[..e][..e - 1] == log[..e - 1];
      match StageOf(log[..e - 1], from)
      case StillRefused => r := e - 1;
      case Rearmed => d := e - 1;
      case Redelivered => p := e - 1;
      case Reprompted =>
    }
  }

  predicate Delivering(s: System) {
    exists t :: 0 <= t < |s.threads| && s.threads[t].Delivered?
  }

  predicate StageInv(s: System, stage: Stage) {
    && (stage != Reprompted ==> NonePending(s))
    && (stage == StillRefused ==> s.drain.state in {Aborted, Executing, TimedOut})
    && (stage == Rearmed || stage == Redelivered ==> !s.drain.notified)
    && (stage == Rearmed ==> !Delivering(s))
  }

  predicate RefusalInv(s: System, from: nat) {
    from <= |s.log| && StageInv(s, StageOf(s.log, from))
  }

  ghost predicate StartsOnlyRenewed(s: System, from: nat) {
    forall i :: from <= i < |s.log| && s.log[i].event.Started? ==> Renewed(s.log, from, i)
  }

  /** The step from `s` to `r` keeps what its stage says, and starts nothing before the last stage. */
  predicate KeepsStage(s: System, r: System, stage: Stage) {
    |r.log| == |s.log| + 1 && var e := r.log[|s.log|].event;
    StageInv(r, Later(stage, e)) && (e.Started? ==> stage == Reprompted)
  }

  lemma TickKeepsStage(s: System, cfg: Settings.Config, sample: Sample, clock: int, stage: Stage)
    requires DrainInv(s.drain) && QuietWhenNotified(s) && StageInv(s, stage)
    ensures KeepsStage(s, Next(s, Enter(cfg, sample, clock)), stage)
  {
  }

  lemma AnswerKeepsStage(s: System, cfg: Settings.Config, yes: bool, clock: int, stage: Stage)
    requires DrainInv(s.drain) && StageInv(s, stage)
    ensures KeepsStage(s, Next(s, Respond(cfg, yes, clock)), stage)
  {
  }

  lemma DeliveryKeepsStage(s: System, a: Action, stage: Stage)
    requires DrainInv(s.drain) && QuietWhenNotified(s) && StageInv(s, stage)
    requires Next(s, a) != s && (a.Return? || a.Relock? || a.Reset?)
    ensures KeepsStage(s, Next(s, a), stage)
  {
  }

  lemma SequenceKeepsStage(s: System, a: Action, stage: Stage)
    requires DrainInv(s.drain) && StageInv(s, stage) && Next(s, a) != s && (a.Gate? || a.Call? || a.Close?)
    ensures KeepsStage(s, Next(s, a), stage)
  {
  }

  lemma NextKeepsRefusal(s: System, a: Action, from: nat)
    requires DrainInv(s.drain) && QuietWhenNotified(s) && RefusalInv(s, from) && Next(s, a) != s
    ensures var r := Next(s, a);
      && RefusalInv(r, from)
      && (r.log[|s.log|].event.Started? ==> StageOf(s.log, from) == Reprompted)
  {
    var r, stage := Next(s, a), StageOf(s.log, from);
    match a {
      case Enter(cfg, sample, clock) => TickKeepsStage(s, cfg, sample, clock, stage);
      case Respond(cfg, yes, clock) => AnswerKeepsStage(s, cfg, yes, clock, stage);
      case Gate(_, _) => SequenceKeepsStage(s, a, stage);
      case Call(_, _) => SequenceKeepsStage(s, a, stage);
      case Close(_) => SequenceKeepsStage(s, a, stage);
      case _ => DeliveryKeepsStage(s, a, stage);
    }
    assert r.log[..|s.log|] == s.log;
  }

  lemma RenewedByStage(log: seq<Entry>, from: nat)
    requires from <= |log| && StageOf(log, from) == Reprompted
    ensures Renewed(log, from, |log|)
  {
    assert log[..|log|] == log;
    var r, d, p := StageWitness(log, from, |log|);
  }

  lemma RenewedInLongerLog(log: seq<Entry>, longer: seq<Entry>, from: nat, e: nat)
    requires log <= longer && Renewed(log, from, e)
    ensures Renewed(longer, from, e)
  {
    var r, d, p :| from <= r < d < p < e <= |log|
                   && IsReset(log[r].event) && log[d].event.Returned? && log[d].event.ok && log[p].event.Prompted?;
    assert longer[r] == log[r] && longer[d] == log[d] && longer[p] == log[p];
  }

  lemma EntryKeepsStartsRenewed(s: System, r: System, from: nat, e: Entry)
    requires from <= |s.log| && StartsOnlyRenewed(s, from) && r.log == s.log + [e]
    requires e.event.Started? ==> StageOf(s.log, from) == Reprompted
    ensures StartsOnlyRenewed(r, from)
  {
    forall i | from <= i < |r.log| && r.log[i].event.Started? ensures Renewed(r.log, from, i) {
      if i == |s.log| {
        RenewedByStage(s.log, from);
      }
      RenewedInLongerLog(s.log, r.log, from, i);
    }
  }

  lemma SoloNextKeepsRefusal(s: System, a: Action, from: nat)
    requires SoloInv(s) && RefusalInv(s, from) && StartsOnlyRenewed(s, from)
    ensures RefusalInv(SoloNext(s, a), from) && StartsOnlyRenewed(SoloNext(s, a), from)
  {
    var r := SoloNext(s, a);
    if r != s {
      NextKeepsRefusal(s, a, from);
      EntryKeepsStartsRenewed(s, r, from, r.log[|s.log|]);
    }
  }

  lemma {:induction false} SoloRunFromKeepsRefusal(s: System, actions: seq<Action>, from: nat)
    requires SoloInv(s) && RefusalInv(s, from) && StartsOnlyRenewed(s, from)
    ensures StartsOnlyRenewed(SoloRunFrom(s, actions), from) && RefusalInv(SoloRunFrom(s, actions), from)
  {
    if actions != [] {
      var init := actions[..|actions| - 1];
      SoloRunFromKeepsRefusal(s, init, from);
      SoloRunFromKeepsInv(s, init);
      SoloNextKeepsRefusal(SoloRunFrom(s, init), actions[|actions| - 1], from);
    }
  }

  /** However the run goes on, no sequence starts until a reset to idle and then a new delivery. */
  ghost predicate RefusalLasts(s: System) {
    forall actions :: StartsOnlyRenewed(SoloRunFrom(s, actions), |s.log|)
  }

  /** An older consent overrides a later NO: `NO` leaves the state notified, and the gate asks
      for no more. */
  lemma OlderConsentStarts(refused: System, t: nat, live: Settings.Config)
    requires refused.drain.notified && t < |refused.threads| && refused.threads[t].Consenting?
    requires MayExecute(refused.threads[t].cfg, refused.threads[t].sample)
    ensures !RefusalLasts(refused)
  {
    var gate := [Gate(t, live)];
    assert gate[..0] == [];
    var after := SoloRunFrom(refused, gate);
    assert SoloRunFrom(refused, gate[..0]) == refused;
    assert after.log[|refused.log|].event.Started?;
    assert !StartsOnlyRenewed(after, |refused.log|);
  }

  /** The user's NO lasts exactly when no earlier consent is still on its way to the gate with a
      configuration and sample that pass it. */
  lemma RefusalLastsUnlessPending(notifier: bool, actions: seq<Action>, cfg: Settings.Config, clock: int)
    requires RespondRegion(SoloRun(notifier, actions).drain, false, clock).1.Declined?
    ensures var s := SoloRun(notifier, actions);
      RefusalLasts(Next(s, Respond(cfg, false, clock))) <==> NonePending(s)
  {
    var s := SoloRun(notifier, actions);
    SoloRunFromKeepsInv(Start(notifier), actions);
    if NonePending(s) {
      RefusalLastsWhenNonePending(s, cfg, clock);
    } else {
      RefusalFailsWhenPending(s, cfg, clock);
    }
  }

  lemma RefusalLastsWhenNonePending(s: System, cfg: Settings.Config, clock: int)
    requires SoloInv(s) && NonePending(s) && RespondRegion(s.drain, false, clock).1.Declined?
    ensures RefusalLasts(Next(s, Respond(cfg, false, clock)))
  {
    var refused := Next(s, Respond(cfg, false, clock));
    SoloNextKeepsInv(s, Respond(cfg, false, clock));
    forall more ensures StartsOnlyRenewed(SoloRunFrom(refused, more), |refused.log|) {
      SoloRunFromKeepsRefusal(refused, more, |refused.log|);
    }
  }

  lemma RefusalFailsWhenPending(s: System, cfg: Settings.Config, clock: int)
    requires !NonePending(s) && RespondRegion(s.drain, false, clock).1.Declined?
    ensures !RefusalLasts(Next(s, Respond(cfg, false, clock)))
  {
    var t :| 0 <= t < |s.threads| && s.threads[t].Consenting? && MayExecute(s.threads[t].cfg, s.threads[t].sample);
    OlderConsentStarts(Next(s, Respond(cfg, false, clock)), t, cfg);
  }

  /** What can still be pending at a NO is an older YES only: a timeout on its way to the gate is
      the poll loop's one tick, and there is no prompt to answer before it ends. */
  lemma OnlyAnAgreementCanBePending(notifier: bool, actions: seq<Action>, clock: int)
    requires RespondRegion(SoloRun(notifier, actions).drain, false, clock).1.Declined?
    ensures var s := SoloRun(notifier, actions);
      forall t :: 0 <= t < |s.threads| && s.threads[t].Consenting? ==> s.threads[t].trigger.Yes?
  {
    SoloRunFromKeepsInv(Start(notifier), actions);
  }

  // ----- a run in which a NO does not last

  lemma SoloRunAppends(notifier: bool, actions: seq<Action>, a: Action)
    ensures SoloRun(notifier, actions + [a]) == SoloNext(SoloRun(notifier, actions), a)
  {
    assert (actions + [a])[..|actions|] == actions;
  }

  /** From an idle state with no tick in progress, the next tick warns and records its prompt. */
  lemma WarnsAndRecords(before: seq<Action>, cfg: Settings.Config, sample: Sample, clock: int)
    requires MayStart(true, cfg, sample)
    requires var s := SoloRun(true, before); s.notifier && s.drain.state == Idle && !TickInProgress(s)
    ensures var s, t := SoloRun(true, before), |SoloRun(true, before).threads|;
      var r := SoloRun(true, before + [Enter(cfg, sample, clock)] + [Return(t, true)] + [Relock(t)]);
      && r.notifier && r.threads == s.threads + [Done]
      && r.drain.state == Awaiting && r.drain.notified && r.drain.sample == sample.Stamped(clock)
  {
    var t := |SoloRun(true, before).threads|;
    SoloRunAppends(true, before, Enter(cfg, sample, clock));
    SoloRunAppends(true, before + [Enter(cfg, sample, clock)], Return(t, true));
    SoloRunAppends(true, before + [Enter(cfg, sample, clock)] + [Return(t, true)], Relock(t));
  }

  lemma YesThenReset(before: seq<Action>, cfg: Settings.Config, clock: int)
    requires var s := SoloRun(true, before);
      s.notifier && s.drain.state == Awaiting && s.drain.notified && s.drain.sample.now.Some?
    ensures var s, r := SoloRun(true, before), SoloRun(true, before + [Respond(cfg, true, clock)] + [Reset]);
      r.notifier && r.drain.state == Idle && r.threads == s.threads + [Consenting(cfg, s.drain.sample, Yes)]
  {
    SoloRunAppends(true, before, Respond(cfg, true, clock));
    SoloRunAppends(true, before + [Respond(cfg, true, clock)], Reset);
  }

  /** One YES, overtaken by a reset and a second warning. */
  function Overtaken(cfg: Settings.Config, sample: Sample, clock: int): seq<Action> {
    [] + [Enter(cfg, sample, clock)] + [Return(0, true)] + [Relock(0)]
    + [Respond(cfg, true, clock)] + [Reset]
    + [Enter(cfg, sample, clock)] + [Return(2, true)] + [Relock(2)]
  }

  /** A NO to the second warning is taken, and does not last: the YES to the first one passes the
      gate on the second one's notification. */
  lemma OlderYesOverridesNo(cfg: Settings.Config, sample: Sample, clock: int)
    requires MayStart(true, cfg, sample)
    ensures var s := SoloRun(true, Overtaken(cfg, sample, clock));
      && RespondRegion(s.drain, false, clock).1.Declined?
      && !RefusalLasts(Next(s, Respond(cfg, false, clock)))
  {
    var warned := [] + [Enter(cfg, sample, clock)] + [Return(0, true)] + [Relock(0)];
    WarnsAndRecords([], cfg, sample, clock);
    YesThenReset(warned, cfg, clock);
    WarnsAndRecords(warned + [Respond(cfg, true, clock)] + [Reset], cfg, sample, clock);
    var s := SoloRun(true, Overtaken(cfg, sample, clock));
    assert s.threads[1] == Consenting(cfg, sample.Stamped(clock), Yes);
    RefusalFailsWhenPending(s, cfg, clock);
  }
}
