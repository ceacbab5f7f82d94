/** The battery safety controller: three latches with hysteresis, and a plan with a cooldown. */
module Controller {
  import opened Basics
  import opened Power
  import opened Safety
  import Settings

  datatype State = Normal | Warning | Critical | ShutdownPending | OnMains | Undetermined

  datatype Kind = BatteryWarning | BatteryCritical

  datatype Event = Event(kind: Kind, at: int, percent: int, state: State)

  datatype Control = Control(
    state: State, warningLatched: bool, criticalLatched: bool, shutdownLatched: bool,
    lastEvent: Option<Event>, lastPlan: seq<HostAction>, lastActionAt: Option<int>, lastSample: Sample)

  const FRESH: Control := Control(Undetermined, false, false, false, None, [], None, NO_SAMPLE)

  // ----- what a sample is to the controller

  /** There is a percentage, and it is not below the configured minimum. */
  predicate Usable(cfg: Settings.Config, s: Sample) {
    && s.present && s.percent.Some?
    && !(cfg.safety.minimumPercent > 0 && s.percent.value < cfg.safety.minimumPercent)
  }

  /** Usable and taken to be off AC. */
  predicate OffAC(cfg: Settings.Config, s: Sample) {
    && Usable(cfg, s) && !s.OnAC() && s.source != Some(Unknown)
    && (cfg.safety.requireACLoss ==> s.source == Some(Battery))
  }

  predicate InCriticalBand(cfg: Settings.Config, s: Sample) {
    OffAC(cfg, s) && s.discharging && s.percent.value <= cfg.shutdown.critical
  }

  predicate InWarningBand(cfg: Settings.Config, s: Sample) {
    OffAC(cfg, s) && s.discharging && cfg.shutdown.critical < s.percent.value <= cfg.shutdown.warning
  }

  /** The sample releases the warning latch: AC, or more than the margin above the threshold. */
  predicate ClearsWarning(cfg: Settings.Config, s: Sample) {
    || (Usable(cfg, s) && s.OnAC())
    || (OffAC(cfg, s) && s.percent.value > cfg.shutdown.warning + RECOVERY_MARGIN)
  }

  /** The sample releases the critical and shutdown latches. A battery that is not discharging
      has to be above the warning threshold as well. */
  predicate ClearsCritical(cfg: Settings.Config, s: Sample) {
    || (Usable(cfg, s) && s.OnAC())
    || (&& OffAC(cfg, s) && s.percent.value > cfg.shutdown.critical + RECOVERY_MARGIN
        && (s.discharging || s.percent.value > cfg.shutdown.warning))
  }

  predicate CooldownElapsed(last: Option<int>, now: int, seconds: int, force: bool) {
    force || seconds <= 0 || last.None? || now >= last.value + seconds * SECOND
  }

  function Plan(d: Settings.Docker): seq<HostAction> {
    (if d.stopEnabled then [StopDocker] else []) + [Sync, PowerOff]
  }

  // ----- one tick, on values

  function KindOf(c: Control, cfg: Settings.Config, s: Sample): Option<Kind> {
    if InCriticalBand(cfg, s) && !c.criticalLatched then Some(BatteryCritical)
    else if InWarningBand(cfg, s) && !c.warningLatched then Some(BatteryWarning)
    else None
  }

  predicate Plans(c: Control, cfg: Settings.Config, s: StampedSample) {
    && KindOf(c, cfg, s) == Some(BatteryCritical) && cfg.shutdown.enabled
    && CooldownElapsed(c.lastActionAt, s.now.value, cfg.safety.cooldownSeconds, s.force)
  }

  function StateFor(cfg: Settings.Config, s: Sample): State {
    if !Usable(cfg, s) then Undetermined
    else if s.OnAC() then OnMains
    else if !OffAC(cfg, s) then Undetermined
    else if InCriticalBand(cfg, s) then if cfg.shutdown.enabled then ShutdownPending else Critical
    else if InWarningBand(cfg, s) then Warning
    else Normal
  }

  function TickRegion(c: Control, cfg: Settings.Config, s: StampedSample): Control {
    var kind := KindOf(c, cfg, s);
    var plans := Plans(c, cfg, s);
    Control(
      StateFor(cfg, s),
      kind.Some? || (c.warningLatched && !ClearsWarning(cfg, s)),
      kind == Some(BatteryCritical) || (c.criticalLatched && !ClearsCritical(cfg, s)),
      plans || (c.shutdownLatched && !ClearsCritical(cfg, s)),
      if kind.Some? then Some(Event(kind.value, s.now.value, s.percent.value, StateFor(cfg, s))) else c.lastEvent,
      if plans then Plan(cfg.docker) else c.lastPlan,
      if plans then s.now else c.lastActionAt,
      s)
  }

  // ----- a simulation, on values

  /** What `Simulate` releases before its tick. */
  function Released(c: Control, critical: bool): Control {
    if critical then c.(warningLatched := false, criticalLatched := false, shutdownLatched := false)
    else c.(warningLatched := false)
  }

  function SimulatedPercent(cfg: Settings.Config, critical: bool): int {
    if critical then cfg.shutdown.critical else Max(cfg.shutdown.warning, cfg.shutdown.critical + 1)
  }

  function Simulated(cfg: Settings.Config, critical: bool, clock: int): StampedSample {
    Sample(Some(clock), true, Some(SimulatedPercent(cfg, critical)), true, Some(Battery), true)
  }

  // ----- the object

  class Controller {
    var state: State
    var warningLatched: bool
    var criticalLatched: bool
    var shutdownLatched: bool
    var lastEvent: Option<Event>
    var lastPlan: seq<HostAction>
    var lastActionAt: Option<int>
    var lastSample: Sample

    function View(): Control
      reads this
    {
      Control(state, warningLatched, criticalLatched, shutdownLatched, lastEvent, lastPlan, lastActionAt, lastSample)
    }

    constructor ()
      ensures View() == FRESH
    {
      state, lastEvent, lastPlan, lastActionAt, lastSample := Undetermined, None, [], None, NO_SAMPLE;
      warningLatched, criticalLatched, shutdownLatched := false, false, false;
    }

    method UnlatchIfRecovered(pct: int, warning: int, critical: int)
      modifies this`warningLatched, this`criticalLatched, this`shutdownLatched
      ensures warningLatched == (old(warningLatched) && pct <= warning + RECOVERY_MARGIN)
      ensures criticalLatched == (old(criticalLatched) && pct <= critical + RECOVERY_MARGIN)
      ensures shutdownLatched == (old(shutdownLatched) && pct <= critical + RECOVERY_MARGIN)
    {
      if pct > warning + RECOVERY_MARGIN {
        warningLatched := false;
      }
      if pct > critical + RECOVERY_MARGIN {
        criticalLatched := false;
        shutdownLatched := false;
      }
    }

    method Evaluate(cfg: Settings.Config, s: StampedSample)
      returns (event: Option<Event>, plan: seq<HostAction>, next: State)
      modifies this`warningLatched, this`criticalLatched, this`shutdownLatched
      ensures var r := TickRegion(old(View()), cfg, s);
        && warningLatched == r.warningLatched && criticalLatched == r.criticalLatched
        && shutdownLatched == r.shutdownLatched && next == r.state
      ensures event == (if KindOf(old(View()), cfg, s).None? then None
                        else Some(Event(KindOf(old(View()), cfg, s).value, s.now.value, s.percent.value, StateFor(cfg, s))))
      ensures plan == if Plans(old(View()), cfg, s) then Plan(cfg.docker) else []
    {
      event, plan := None, [];
      var warning, critical, minimum := cfg.shutdown.warning, cfg.shutdown.critical, cfg.safety.minimumPercent;
      if !s.present || s.percent.None? {
        return None, [], Undetermined;
      }
      var pct := s.percent.value;
      if minimum > 0 && pct < minimum {
        return None, [], Undetermined;
      }
      if s.source == Some(AC) {
        warningLatched, criticalLatched, shutdownLatched := false, false, false;
        return None, [], OnMains;
      }
      if cfg.safety.requireACLoss && s.source != Some(Battery) {
        return None, [], Undetermined;
      }
      if s.source == Some(Unknown) {
        return None, [], Undetermined;
      }
      if !s.discharging {
        if pct > warning {
          UnlatchIfRecovered(pct, warning, critical);
        }
        return None, [], Normal;
      }
      UnlatchIfRecovered(pct, warning, critical);
      if pct <= critical {
        next := Critical;
        if cfg.shutdown.enabled {
          next := ShutdownPending;
        }
        if !criticalLatched {
          criticalLatched := true;
          warningLatched := true;
          event := Some(Event(BatteryCritical, s.now.value, pct, next));
          if cfg.shutdown.enabled && CooldownElapsed(lastActionAt, s.now.value, cfg.safety.cooldownSeconds, s.force) {
            plan := Plan(cfg.docker);
            shutdownLatched := true;
          }
          return;
        }
        if shutdownLatched && cfg.shutdown.enabled {
          return None, [], ShutdownPending;
        }
        return;
      }
      if pct <= warning {
        if !warningLatched {
          warningLatched := true;
          event := Some(Event(BatteryWarning, s.now.value, pct, Warning));
        }
        return event, [], Warning;
      }
      return None, [], Normal;
    }

    method Tick(cfg: Settings.Config, sample: Sample, clock: int) returns (event: Option<Event>)
      modifies this
      ensures View() == TickRegion(old(View()), cfg, sample.Stamped(clock))
      ensures event.Some? <==> KindOf(old(View()), cfg, sample.Stamped(clock)).Some?
      ensures event.Some? ==> event == lastEvent
    {
      var s := sample.Stamped(clock);
      lastSample := s;
      var e, plan, next := Evaluate(cfg, s);
      state := next;
      if |plan| > 0 {
        lastPlan := plan;
        lastActionAt := s.now;
      }
      if e.Some? {
        lastEvent := e;
      }
      return e;
    }

    /** `Simulate` up to its unlock: the sample is made up and the latches are released. */
    method BeginSimulation(cfg: Settings.Config, critical: bool, clock: int) returns (s: StampedSample)
      modifies this`warningLatched, this`criticalLatched, this`shutdownLatched
      ensures View() == Released(old(View()), critical)
      ensures s == Simulated(cfg, critical, clock)
    {
      var pct := cfg.shutdown.warning;
      if critical {
        pct := cfg.shutdown.critical;
      } else if pct <= cfg.shutdown.critical {
        pct := cfg.shutdown.critical + 1;
      }
      warningLatched := false;
      if critical {
        criticalLatched := false;
        shutdownLatched := false;
      }
      return Sample(Some(clock), true, Some(pct), true, Some(Battery), true);
    }

    /** `Simulate` with no tick of another goroutine before its own, which reads the configuration
        anew. Simulations among other ticks are in BatteryEvents. */
    method Simulate(cfg: Settings.Config, anew: Settings.Config, critical: bool, clock: int)
      returns (event: Option<Event>)
      modifies this
      ensures View() == TickRegion(Released(old(View()), critical), anew, Simulated(cfg, critical, clock))
    {
      var s := BeginSimulation(cfg, critical, clock);
      event := Tick(anew, s, clock);
    }
  }
}
