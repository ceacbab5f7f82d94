/** Pieces of schedules, for the runs that show what auto-drain does not promise. */
module DrainSchedules {
  import opened Basics
  import opened Safety
  import opened AutoDrain
  import opened DrainProtocol
  import Power
  import Settings
  import Text

  /** The configuration with auto-drain asking for a warning and a drain. */
  function Willing(cfg: Settings.Config): Settings.Config {
    cfg.(notifications := Settings.Notifications("ntfy", true, false, Settings.Url("u", true), ""),
         drain := cfg.drain.(enabled := true, threshold := Settings.DEFAULT_DRAIN_THRESHOLD, services := ["ntfy"]),
         docker := cfg.docker.(stopEnabled := true))
  }

  /** A draining battery at the threshold of a willing configuration. */
  function Low(now: int): StampedSample {
    Sample(Some(now), true, Some(Settings.DEFAULT_DRAIN_THRESHOLD), true, Some(Power.Battery), false)
  }

  lemma WillingMayStart(cfg: Settings.Config, now: int)
    ensures MayStart(true, Willing(cfg), Low(now))
  {
    Settings.KeptNamesFold();
    assert Settings.KeptName("ntfy");
    Text.TrimOfSpaceless("u");
  }

  /** A prompt waits for its answer, and a YES on `cfg` would start a sequence. */
  predicate Answerable(s: System, cfg: Settings.Config) {
    s.drain.state == Awaiting && s.drain.notified && s.drain.sample.now.Some? && MayExecute(cfg, s.drain.sample)
  }

  /** The function takes lists of actions to the systems they lead to from some system. A proof that
      puts a schedule together needs no more of `RunFrom`, and is much shorter without its body. */
  ghost predicate IsRun(run: seq<Action> -> System) {
    forall before, a :: run(before + [a]) == Next(run(before), a)
  }

  function From(s: System): (run: seq<Action> -> System)
    ensures run([]) == s
  {
    actions => RunFrom(s, actions)
  }

  lemma FromIsRun(s: System)
    ensures IsRun(From(s))
  {
    forall before, a ensures From(s)(before + [a]) == Next(From(s)(before), a) {
      RunFromAppends(s, before, a);
    }
  }

  /** The log grew by `n` entries. */
  predicate Grew(before: seq<Entry>, after: seq<Entry>, n: nat) {
    |after| == |before| + n && before <= after
  }

  /** From an idle state the next tick warns, and its warning is delivered. */
  lemma Warns(run: seq<Action> -> System, before: seq<Action>, cfg: Settings.Config, sample: Sample, clock: int)
    returns (after: seq<Action>)
    requires IsRun(run)
    requires var s := run(before); s.notifier && s.drain.state == Idle && MayStart(true, cfg, sample)
    ensures var s, r, t := run(before), run(after), |run(before).threads|;
      && r.notifier && r.threads == s.threads + [Delivered(cfg, sample.Stamped(clock))]
      && r.drain.state == WarningSent && r.drain.notified == s.drain.notified && r.drain.sample == sample.Stamped(clock)
      && Grew(s.log, r.log, 2) && r.log[|s.log|].event.Ticked? && r.log[|s.log| + 1].event == Returned(t, true)
  {
    var t := |run(before).threads|;
    after := before + [Enter(cfg, sample, clock)] + [Return(t, true)];
  }

  /** The notifier comes back with a warning delivered. */
  lemma Delivers(run: seq<Action> -> System, before: seq<Action>, t: nat) returns (after: seq<Action>)
    requires IsRun(run)
    requires var s := run(before); t < |s.threads| && s.threads[t].Notifying?
    ensures var s, r := run(before), run(after);
      && t < |r.threads| && r.threads[t].Delivered? && Grew(s.log, r.log, 1) && r.log[|s.log|].event == Returned(t, true)
  {
    after := before + [Return(t, true)];
  }

  /** A delivered warning is recorded. */
  lemma Records(run: seq<Action> -> System, before: seq<Action>, t: nat) returns (after: seq<Action>)
    requires IsRun(run)
    requires var s := run(before); t < |s.threads| && s.threads[t].Delivered?
    ensures var s, r := run(before), run(after);
      && r.notifier == s.notifier && r.threads == s.threads[t := Done]
      && r.drain.state == Awaiting && r.drain.notified && r.drain.deadline.Some? && r.drain.sample == s.drain.sample
      && Grew(s.log, r.log, 1) && r.log[|s.log|].event.Prompted?
  {
    after := before + [Relock(t)];
  }

  lemma WarnsAndRecords(run: seq<Action> -> System, before: seq<Action>, cfg: Settings.Config, sample: Sample, clock: int)
    returns (after: seq<Action>)
    requires IsRun(run)
    requires var s := run(before); s.notifier && s.drain.state == Idle && MayStart(true, cfg, sample)
    ensures var s, r, t := run(before), run(after), |run(before).threads|;
      && r.notifier && r.threads == s.threads + [Done] && Answerable(r, cfg) && r.drain.sample == sample.Stamped(clock)
      && Grew(s.log, r.log, 3) && r.log[|s.log|].event.Ticked? && r.log[|s.log| + 1].event == Returned(t, true)
      && r.log[|s.log| + 2].event.Prompted?
  {
    var t := |run(before).threads|;
    var warned := Warns(run, before, cfg, sample, clock);
    after := Records(run, warned, t);
  }

  /** A YES to a waiting prompt starts a sequence. */
  lemma YesStarts(run: seq<Action> -> System, before: seq<Action>, cfg: Settings.Config, clock: int, live: Settings.Config)
    returns (after: seq<Action>)
    requires IsRun(run) && Answerable(run(before), cfg)
    ensures var s, r := run(before), run(after);
      && r.notifier == s.notifier && r.threads == s.threads + [Running(cfg, Yes, Pick(cfg, live), 0)]
      && Grew(s.log, r.log, 2) && r.log[|s.log|].event.AgreedByUser? && r.log[|s.log| + 1].event.Started?
  {
    var t := |run(before).threads|;
    after := before + [Respond(cfg, true, clock)] + [Gate(t, live)];
  }

  /** So does a prompt that runs out unanswered. */
  lemma TimeoutStarts(run: seq<Action> -> System, before: seq<Action>, cfg: Settings.Config) returns (after: seq<Action>)
    requires IsRun(run)
    requires var s := run(before); s.drain.state == Awaiting && s.drain.notified && s.drain.deadline.Some?
    ensures var s, r := run(before), run(after);
      && Grew(s.log, r.log, 2) && r.log[|s.log|].event.Ticked? && !IsReset(r.log[|s.log|].event)
      && r.log[|s.log| + 1].event.Started?
  {
    var s := run(before);
    var late := Enter(Willing(cfg), Low(s.drain.deadline.value), 0);
    after := before + [late] + [Gate(|s.threads|, cfg)];
  }

  /** A consent that passes the gate, on whatever prompt notified. */
  lemma PassesGate(run: seq<Action> -> System, before: seq<Action>, t: nat, live: Settings.Config)
    returns (after: seq<Action>)
    requires IsRun(run)
    requires var s := run(before);
      && s.drain.notified && t < |s.threads| && s.threads[t].Consenting?
      && MayExecute(s.threads[t].cfg, s.threads[t].sample)
    ensures var s, r := run(before), run(after); var c := s.threads[t];
      Grew(s.log, r.log, 1) && r.log[|s.log|].event == Started(t, c.cfg, c.sample, c.trigger, live)
  {
    after := before + [Gate(t, live)];
  }

  /** A YES whose call has not reached the gate when `Reset` is called. */
  lemma YesThenReset(run: seq<Action> -> System, before: seq<Action>, cfg: Settings.Config, clock: int) returns (after: seq<Action>)
    requires IsRun(run) && Answerable(run(before), cfg)
    ensures var s, r := run(before), run(after);
      && r.notifier == s.notifier && r.drain.state == Idle
      && r.threads == s.threads + [Consenting(cfg, s.drain.sample, Yes)]
      && Grew(s.log, r.log, 2) && r.log[|s.log|].event.AgreedByUser? && r.log[|s.log|].event.t == |s.threads|
      && r.log[|s.log| + 1].event == ResetCalled
  {
    after := before + [Respond(cfg, true, clock)] + [Reset];
  }

  /** One more host call of a sequence in progress. */
  lemma CallFollows(run: seq<Action> -> System, before: seq<Action>, t: nat, ok: bool) returns (after: seq<Action>)
    requires IsRun(run)
    requires var s := run(before);
      t < |s.threads| && s.threads[t].Running? && s.threads[t].made < |DRAIN_PLAN| && (ok || s.threads[t].executor.Real?)
    ensures var s, r := run(before), run(after); var c := s.threads[t];
      && |r.threads| == |s.threads|
      && r.threads[t] == (if !ok || c.made + 1 == |DRAIN_PLAN| then Finishing(c.cfg, c.trigger, ok)
                          else c.(made := c.made + 1))
      && Grew(s.log, r.log, 1) && r.log[|s.log|].event == Called(t, c.executor, DRAIN_PLAN[c.made], ok)
  {
    after := before + [Call(t, ok)];
  }

  lemma Closes(run: seq<Action> -> System, before: seq<Action>, t: nat) returns (after: seq<Action>)
    requires IsRun(run)
    requires var s := run(before); t < |s.threads| && s.threads[t].Finishing?
    ensures var s, r := run(before), run(after); var c := s.threads[t];
      Grew(s.log, r.log, 1) && r.log[|s.log|].event == Closed(t, c.ok, c.ok && c.cfg.ManualActionsReady())
  {
    after := before + [Close(t)];
  }
}
