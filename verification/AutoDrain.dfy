/** Smart auto-drain: the state one mutex guards, and each region of code that runs with the
    mutex held. The functions say what a region does to that state as a value; the methods of
    the class do it to the fields, step by step. Interleavings are in DrainProtocol. */
module AutoDrain {
  import opened Basics
  import opened Power
  import opened Safety
  import Settings

  datatype State = Idle | WarningSent | Awaiting | Executing | Aborted | TimedOut

  datatype Response = Unanswered | SaidYes | SaidNo | RanOut

  datatype Trigger = Yes | Timeout

  datatype Drain = Drain(
    state: State, sample: Sample, notified: bool, notifiedAt: Option<int>, deadline: Option<int>,
    response: Response, commandsExecuted: bool, trigger: Option<Trigger>)

  const FRESH: Drain := Drain(Idle, NO_SAMPLE, false, None, None, Unanswered, false, None)

  // ----- decisions that only read

  predicate MayStart(notifier: bool, cfg: Settings.Config, s: Sample) {
    && cfg.drain.enabled
    && notifier
    && cfg.docker.stopEnabled
    && s.present && s.percent.Some?
    && s.Draining()
    && s.percent.value <= cfg.drain.threshold
    && cfg.NotificationReady()
  }

  /** What `execute` asks of the configuration and sample it was handed. */
  predicate MayExecute(cfg: Settings.Config, s: Sample) {
    && cfg.drain.enabled
    && cfg.docker.stopEnabled
    && s.Draining()
    && s.percent.Some? && s.percent.value <= cfg.drain.threshold
  }

  predicate Recovered(cfg: Settings.Config, s: Sample) {
    !s.Draining() || (s.percent.Some? && s.percent.value > cfg.drain.threshold + RECOVERY_MARGIN)
  }

  /** The response timeout a tick reads from its configuration. */
  function Wait(cfg: Settings.Config): (d: int)
    ensures d >= MINUTE
    ensures cfg.drain.responseMinutes > 0 ==> d == cfg.drain.responseMinutes * MINUTE
  {
    if cfg.drain.responseMinutes <= 0 then Settings.DEFAULT_RESPONSE_MINUTES * MINUTE
    else cfg.drain.responseMinutes * MINUTE
  }

  /** `pickExecutor`: the object's own recording executor unless the captured configuration
      allows real actions, and then whatever the server picks from the configuration it has
      published by that time. */
  function Pick(cfg: Settings.Config, live: Settings.Config): Executor {
    if !cfg.ManualActionsReady() then Recording
    else if live.ManualActionsReady() then Real
    else Recording
  }

  // ----- the locked regions, on values

  function ToIdle(d: Drain): Drain {
    FRESH.(sample := d.sample)
  }

  datatype TickMove = Rest | Warn | Expire

  /** `Tick` from its first lock to its first unlock: what it leaves, what it goes on to do,
      and whether it passed through a reset. */
  function TickRegion(d: Drain, notifier: bool, cfg: Settings.Config, s: StampedSample): (Drain, TickMove, bool) {
    var seen := d.(sample := s);
    if !cfg.drain.enabled then (ToIdle(seen), Rest, true)
    else
      var rearm := Recovered(cfg, s) && seen.state in {Aborted, TimedOut, Executing};
      var ready := if rearm then ToIdle(seen) else seen;
      match ready.state
      case Idle =>
        if MayStart(notifier, cfg, s) then (ready.(state := WarningSent), Warn, rearm) else (ready, Rest, rearm)
      case WarningSent | Awaiting =>
        if !s.Draining() || !ready.notified then (ToIdle(seen), Rest, true)
        else if ready.deadline.Some? && s.now.value < ready.deadline.value
        then (ready.(state := Awaiting), Rest, rearm)
        else (ready.(state := TimedOut, response := RanOut), Expire, rearm)
      case Executing | Aborted | TimedOut => (ready, Rest, rearm)
  }

  /** `Tick` after a warning that was delivered. */
  function PromptRegion(d: Drain, cfg: Settings.Config, s: StampedSample): Drain {
    d.(state := Awaiting, notified := true, notifiedAt := s.now, deadline := Some(s.now.value + Wait(cfg)))
  }

  datatype Reply = NoPrompt(reset: bool) | Declined | Confirmed(sample: StampedSample)

  /** `Respond` under its lock. */
  function RespondRegion(d: Drain, yes: bool, clock: int): (Drain, Reply) {
    if d.state !in {WarningSent, Awaiting} then (d, NoPrompt(false))
    else if !d.notified then (ToIdle(d), NoPrompt(true))
    else if !yes then (d.(state := Aborted, response := SaidNo), Declined)
    else (d.(state := Executing, response := SaidYes), Confirmed(d.sample.Stamped(clock)))
  }

  /** `execute` up to where it unlocks for the host sequence. */
  function GateRegion(d: Drain, cfg: Settings.Config, s: Sample, trigger: Trigger): (Drain, bool) {
    if !d.notified then (d.(commandsExecuted := false), false)
    else
      var marked := d.(trigger := Some(trigger), state := if trigger.Timeout? then TimedOut else Executing);
      if MayExecute(cfg, s) then (marked, true) else (marked.(commandsExecuted := false), false)
  }

  /** The end of `execute`. It reports commands as executed by the captured configuration. */
  function CloseRegion(d: Drain, cfg: Settings.Config, finished: bool): Drain {
    d.(commandsExecuted := finished && cfg.ManualActionsReady())
  }

  // ----- the object

  class AutoDrain {
    const notifier: bool
    var state: State
    var lastSample: Sample
    var notified: bool
    var notifiedAt: Option<int>
    var deadline: Option<int>
    var lastResponse: Response
    var commandsExecuted: bool
    var executeTrigger: Option<Trigger>

    function View(): Drain
      reads this
    {
      Drain(state, lastSample, notified, notifiedAt, deadline, lastResponse, commandsExecuted, executeTrigger)
    }

    constructor (notifier: bool)
      ensures this.notifier == notifier && View() == FRESH
    {
      this.notifier := notifier;
      state, lastSample, notified, notifiedAt, deadline := Idle, NO_SAMPLE, false, None, None;
      lastResponse, commandsExecuted, executeTrigger := Unanswered, false, None;
    }

    method ResetToIdle()
      modifies this
      ensures View() == ToIdle(old(View()))
    {
      state := Idle;
      notified := false;
      notifiedAt := None;
      deadline := None;
      lastResponse := Unanswered;
      commandsExecuted := false;
      executeTrigger := None;
    }

    method TickLocked(cfg: Settings.Config, sample: Sample, clock: int) returns (move: TickMove, ghost reset: bool)
      modifies this
      ensures (View(), move, reset) == TickRegion(old(View()), notifier, cfg, sample.Stamped(clock))
    {
      var s := sample.Stamped(clock);
      lastSample := s;
      reset := false;
      if !cfg.drain.enabled {
        ResetToIdle();
        return Rest, true;
      }
      if Recovered(cfg, s) {
        if state == Aborted || state == TimedOut || state == Executing {
          ResetToIdle();
          reset := true;
        }
      }
      if state == Idle {
        if !MayStart(notifier, cfg, s) {
          return Rest, reset;
        }
        state := WarningSent;
        return Warn, reset;
      }
      if state == WarningSent || state == Awaiting {
        state := Awaiting;
        if !s.Draining() {
          ResetToIdle();
          return Rest, true;
        }
        if !notified {
          ResetToIdle();
          return Rest, true;
        }
        if deadline.Some? && s.now.value < deadline.value {
          return Rest, reset;
        }
        lastResponse := RanOut;
        state := TimedOut;
        return Expire, reset;
      }
      return Rest, reset;
    }

    method PromptLocked(cfg: Settings.Config, s: StampedSample)
      modifies this
      ensures View() == PromptRegion(old(View()), cfg, s)
    {
      var timeout := cfg.drain.responseMinutes * MINUTE;
      if timeout <= 0 {
        timeout := Settings.DEFAULT_RESPONSE_MINUTES * MINUTE;
      }
      notified := true;
      notifiedAt := s.now;
      deadline := Some(s.now.value + timeout);
      state := Awaiting;
    }

    method RespondLocked(yes: bool, clock: int) returns (reply: Reply)
      modifies this
      ensures (View(), reply) == RespondRegion(old(View()), yes, clock)
    {
      if state != WarningSent && state != Awaiting {
        return NoPrompt(false);
      }
      if !notified {
        ResetToIdle();
        return NoPrompt(true);
      }
      if !yes {
        lastResponse := SaidNo;
        state := Aborted;
        return Declined;
      }
      lastResponse := SaidYes;
      state := Executing;
      return Confirmed(lastSample.Stamped(clock));
    }

    method GateLocked(cfg: Settings.Config, s: Sample, trigger: Trigger) returns (go: bool)
      modifies this
      ensures (View(), go) == GateRegion(old(View()), cfg, s, trigger)
    {
      if !notified {
        commandsExecuted := false;
        return false;
      }
      executeTrigger := Some(trigger);
      if trigger == Timeout {
        state := TimedOut;
      } else {
        state := Executing;
      }
      if !MayExecute(cfg, s) {
        commandsExecuted := false;
        return false;
      }
      return true;
    }

    method CloseLocked(cfg: Settings.Config, finished: bool)
      modifies this
      ensures View() == CloseRegion(old(View()), cfg, finished)
    {
      if !finished {
        commandsExecuted := false;
        return;
      }
      commandsExecuted := cfg.ManualActionsReady() && !cfg.safety.dryRun;
    }
  }
}
