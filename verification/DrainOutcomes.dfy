/** What each step of auto-drain must do, in terms of the settings and readings alone: which ticks
    warn, expire, rest or reset, which answers consent, and which consents pass the gate. The lemmas
    are about every state in which `notified` says what it should, as it does in every run. */
module DrainOutcomes {
  import opened Basics
  import opened Safety
  import opened AutoDrain
  import opened DrainProtocol
  import Power
  import Settings
  import Text

  /** Idle, with nothing kept but the last sample. */
  predicate Cleared(d: Drain, last: Sample) {
    d == Drain(Idle, last, false, None, None, Unanswered, false, None)
  }

  /** The time given to answer the prompt that `e` recorded, in nanoseconds from the prompting
      sample: its response minutes, or ten when they are not positive. */
  function AnswerTime(e: Event): int
    requires e.Prompted?
  {
    (if e.cfg.drain.responseMinutes > 0 then e.cfg.drain.responseMinutes else 10) * 60_000_000_000
  }

  function LastThread(s: System): Thread
    requires s.threads != []
  {
    s.threads[|s.threads| - 1]
  }

  // ----- ticks

  /** A tick that found a prompt waiting: with auto-drain off, or a sample that is not discharging
      or is on AC, it resets to idle; otherwise it lets the prompt run out exactly when its time is
      at or past the prompting sample's time plus the time to answer, and rests before. */
  predicate IsTimely(past: seq<Entry>, e: Entry) {
    e.open && e.event.Ticked? ==>
      && Standing(past).Some?
      && var prompt := past[Standing(past).value].event;
      && var cfg, s, move := e.event.cfg, e.event.sample, e.event.move;
      if !cfg.drain.enabled || !s.discharging || s.source == Some(Power.AC) then e.event.reset && move.Rest?
      else
        && !e.event.reset && !move.Warn?
        && (move.Expire? <==> s.now.value >= prompt.sample.now.value + AnswerTime(prompt))
  }

  lemma OpenTickIsTimely(s: System, cfg: Settings.Config, sample: Sample, clock: int)
    requires PromptInv(s)
    ensures var r := Next(s, Enter(cfg, sample, clock)); |r.log| == |s.log| + 1 && IsTimely(s.log, r.log[|s.log|])
  {
  }

  lemma NextIsTimely(s: System, a: Action, i: nat)
    requires PromptInv(s) && i < |Next(s, a).log|
    requires forall k :: 0 <= k < |s.log| ==> IsTimely(s.log[..k], s.log[k])
    ensures IsTimely(Next(s, a).log[..i], Next(s, a).log[i])
  {
    var r := Next(s, a);
    if a.Enter? {
      OpenTickIsTimely(s, a.cfg, a.sample, a.clock);
    }
    if r != s && !a.Reset? {
      NextIsStep(s, a);
    }
    assert r.log[..i] == s.log[..i];
  }

  /** Every prompt runs out on time, in every run. */
  lemma {:induction false} PromptsRunOutOnTime(notifier: bool, actions: seq<Action>, i: nat)
    requires i < |Run(notifier, actions).log|
    ensures IsTimely(Run(notifier, actions).log[..i], Run(notifier, actions).log[i])
  {
    if actions != [] {
      var init := actions[..|actions| - 1];
      RunKeepsInv(notifier, init);
      forall k | 0 <= k < |Run(notifier, init).log|
        ensures IsTimely(Run(notifier, init).log[..k], Run(notifier, init).log[k])
      {
        PromptsRunOutOnTime(notifier, init, k);
      }
      NextIsTimely(Run(notifier, init), actions[|actions| - 1], i);
    }
  }

  /** What the tick that lets a prompt run out leaves, and what any other tick on a waiting prompt does. */
  lemma WaitingTick(s: System, cfg: Settings.Config, sample: StampedSample)
    requires PromptInv(s) && s.drain.state == Awaiting
    ensures var r := Next(s, Enter(cfg, sample, 0));
      && s.drain.deadline.Some? && r.threads != []
      && if !cfg.drain.enabled || !sample.discharging || sample.source == Some(Power.AC)
         then Cleared(r.drain, sample) && LastThread(r) == Done
         else if sample.now.value < s.drain.deadline.value
         then r.drain == s.drain.(sample := sample) && LastThread(r) == Done
         else && r.drain == s.drain.(sample := sample, state := TimedOut, response := RanOut)
              && LastThread(r) == Consenting(cfg, sample, Timeout)
  {
  }

  /** The notifier's provider is set up and among the services auto-drain may use. */
  predicate ProviderIsReady(cfg: Settings.Config) {
    var provider := Text.Fold(cfg.notifications.provider);
    && cfg.notifications.enabled && cfg.notifications.webhook.valid && Text.Trim(cfg.notifications.webhook.text) != ""
    && (provider == "ntfy" || provider == "discord" || provider == "webhook"
        || (provider == "telegram" && Text.Trim(cfg.notifications.chatId) != ""))
    && provider in cfg.drain.services
  }

  /** An idle tick warns exactly when everything is on and the battery drains at or below the
      threshold; otherwise nothing but the last sample changes. */
  lemma IdleTick(s: System, cfg: Settings.Config, sample: Sample, clock: int)
    requires DrainInv(s.drain) && s.drain.state == Idle
    ensures var r := Next(s, Enter(cfg, sample, clock));
      var seen := if sample.now.Some? then sample else sample.(now := Some(clock));
      var warns := && cfg.drain.enabled && s.notifier && cfg.docker.stopEnabled && ProviderIsReady(cfg)
                   && sample.present && sample.percent.Some? && sample.percent.value <= cfg.drain.threshold
                   && sample.discharging && sample.source != Some(Power.AC);
      && r.threads != []
      && (warns <==> r.drain.state == WarningSent) && (warns <==> LastThread(r) == Notifying(cfg, seen))
      && (!warns ==> r.drain.state == Idle && LastThread(r) == Done)
      && !r.drain.notified && r.drain.sample == seen
  {
  }

  /** Once a prompt is answered or has run out, a tick resets exactly when auto-drain is off or the
      battery has recovered: not discharging, on AC, or more than two points above the threshold.
      No other tick changes more than the last sample. */
  lemma SettledTick(s: System, cfg: Settings.Config, sample: StampedSample)
    requires DrainInv(s.drain) && s.drain.state in {Executing, Aborted, TimedOut}
    ensures var r := Next(s, Enter(cfg, sample, 0));
      && r.threads != [] && LastThread(r) == Done
      && if !cfg.drain.enabled || !sample.discharging || sample.source == Some(Power.AC)
            || (sample.percent.Some? && sample.percent.value > cfg.drain.threshold + 2)
         then Cleared(r.drain, sample)
         else r.drain == s.drain.(sample := sample)
  {
  }

  /** A tick that finds a warning still on its way resets. */
  lemma EarlyTick(s: System, cfg: Settings.Config, sample: StampedSample)
    requires DrainInv(s.drain) && s.drain.state == WarningSent
    ensures var r := Next(s, Enter(cfg, sample, 0));
      r.threads != [] && LastThread(r) == Done && Cleared(r.drain, sample)
  {
  }

  // ----- the other steps

  /** What a warning's return leaves, once its call has the mutex again: a prompt waiting from the
      prompting sample's time for the time to answer, or idle when it was not delivered. */
  lemma RelockOutcome(s: System, t: nat)
    requires t < |s.threads| && (s.threads[t].Delivered? || s.threads[t].Undelivered?)
    ensures var r := Next(s, Relock(t)); var c := s.threads[t];
      && r.threads == s.threads[t := Done]
      && (c.Delivered? ==>
            && r.log == s.log + [Entry(s.drain.state == Awaiting, Prompted(t, c.cfg, c.sample))]
            && r.drain == s.drain.(
                 state := Awaiting, notified := true, notifiedAt := c.sample.now,
                 deadline := Some(c.sample.now.value + AnswerTime(Prompted(t, c.cfg, c.sample)))))
      && (c.Undelivered? ==> Cleared(r.drain, s.drain.sample))
  {
  }

  /** An answer counts while a prompt waits, and never else: a YES goes to the gate with the last
      sample, a NO ends the episode. Before the prompt is recorded either one resets to idle. */
  lemma AnswerOutcome(s: System, cfg: Settings.Config, yes: bool, clock: int)
    requires DrainInv(s.drain)
    ensures var r := Next(s, Respond(cfg, yes, clock));
      var last := if s.drain.sample.now.Some? then s.drain.sample else s.drain.sample.(now := Some(clock));
      && |r.threads| == |s.threads| + 1
      && if s.drain.state == Awaiting then
           if yes
           then && LastThread(r) == Consenting(cfg, last, Yes)
                && r.drain == s.drain.(state := Executing, response := SaidYes)
           else LastThread(r) == Done && r.drain == s.drain.(state := Aborted, response := SaidNo)
         else
           && LastThread(r) == Done
           && if s.drain.state == WarningSent then Cleared(r.drain, s.drain.sample) else r.drain == s.drain
  {
  }

  /** A consent starts a sequence exactly when a prompt stands, and the configuration and sample it
      captured ask for a drain; the executor is the real one exactly when real actions are on in the
      captured and in the live configuration. */
  lemma GateOutcome(s: System, t: nat, live: Settings.Config)
    requires t < |s.threads| && s.threads[t].Consenting?
    ensures var r := Next(s, Gate(t, live)); var c := s.threads[t];
      var asks := && c.cfg.drain.enabled && c.cfg.docker.stopEnabled
                  && c.sample.discharging && c.sample.source != Some(Power.AC)
                  && c.sample.percent.Some? && c.sample.percent.value <= c.cfg.drain.threshold;
      var runs := && c.cfg.actions.realEnabled && !c.cfg.safety.dryRun
                  && live.actions.realEnabled && !live.safety.dryRun;
      if !s.drain.notified then r.threads[t] == Done && r.drain == s.drain.(commandsExecuted := false)
      else
        var marked := s.drain.(trigger := Some(c.trigger), state := if c.trigger == Yes then Executing else TimedOut);
        if asks then r.threads[t] == Running(c.cfg, c.trigger, if runs then Real else Recording, 0) && r.drain == marked
        else r.threads[t] == Done && r.drain == marked.(commandsExecuted := false)
  {
  }

  /** The end of a sequence claims commands exactly when it ended well and real actions were on in
      the captured configuration, and changes nothing else. */
  lemma CloseOutcome(s: System, t: nat)
    requires t < |s.threads| && s.threads[t].Finishing?
    ensures var r := Next(s, Close(t)); var c := s.threads[t];
      && r.threads == s.threads[t := Done]
      && r.drain == s.drain.(commandsExecuted := c.ok && c.cfg.actions.realEnabled && !c.cfg.safety.dryRun)
  {
  }

  lemma ResetOutcome(s: System)
    ensures var r := Next(s, Reset);
      Cleared(r.drain, s.drain.sample) && r.threads == s.threads
  {
  }
}
