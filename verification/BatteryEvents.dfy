/** The battery controller over whole runs: which events and plans a sequence of samples gives. */
module BatteryEvents {
  import opened Basics
  import opened Power
  import opened Safety
  import opened Controller
  import Settings

  /** One locked region of the controller: a tick, with the configuration it reads and the sample
      it evaluates, or the release that begins a simulation. The tick that ends a simulation is a
      tick like any other, and others may come between. */
  datatype Input = Poll(cfg: Settings.Config, sample: StampedSample) | Release(critical: bool)

  function Advance(c: Control, i: Input): Control {
    match i
    case Poll(cfg, s) => TickRegion(c, cfg, s)
    case Release(critical) => Released(c, critical)
  }

  /** The controller after the first `n` inputs of a run. */
  function After(start: Control, run: seq<Input>, n: nat): Control
    requires n <= |run|
  {
    if n == 0 then start else Advance(After(start, run, n - 1), run[n - 1])
  }

  /** The event input `n` emits. */
  function KindAt(start: Control, run: seq<Input>, n: nat): Option<Kind>
    requires n < |run|
  {
    match run[n]
    case Poll(cfg, s) => KindOf(After(start, run, n), cfg, s)
    case Release(_) => None
  }

  predicate PlansAt(start: Control, run: seq<Input>, n: nat)
    requires n < |run|
  {
    run[n].Poll? && Plans(After(start, run, n), run[n].cfg, run[n].sample)
  }

  /** The input releases the warning latch, as a sample or as a simulation's beginning. */
  predicate FreesWarning(i: Input) {
    i.Release? || ClearsWarning(i.cfg, i.sample)
  }

  predicate FreesCritical(i: Input) {
    match i
    case Poll(cfg, s) => ClearsCritical(cfg, s)
    case Release(critical) => critical
  }

  // ----- events

  /** An event was emitted before input `n` and nothing has released the warning latch since. */
  ghost predicate WarningStands(run: seq<Input>, n: nat)
    requires n <= |run|
  {
    exists m :: 0 <= m < n && KindAt(FRESH, run, m).Some?
      && forall k :: m < k < n ==> !FreesWarning(run[k])
  }

  ghost predicate CriticalStands(run: seq<Input>, n: nat)
    requires n <= |run|
  {
    exists m :: 0 <= m < n && KindAt(FRESH, run, m) == Some(BatteryCritical)
      && forall k :: m < k < n ==> !FreesCritical(run[k])
  }

  lemma {:induction false} WarningLatchRemembers(run: seq<Input>, n: nat)
    requires n <= |run|
    ensures After(FRESH, run, n).warningLatched <==> WarningStands(run, n)
  {
    if n > 0 {
      WarningLatchRemembers(run, n - 1);
      if KindAt(FRESH, run, n - 1).None? && After(FRESH, run, n).warningLatched {
        var m :| 0 <= m < n - 1 && KindAt(FRESH, run, m).Some?
                 && forall k :: m < k < n - 1 ==> !FreesWarning(run[k]);
        assert WarningStands(run, n);
      }
    }
  }

  lemma {:induction false} CriticalLatchRemembers(run: seq<Input>, n: nat)
    requires n <= |run|
    ensures After(FRESH, run, n).criticalLatched <==> CriticalStands(run, n)
  {
    if n > 0 {
      CriticalLatchRemembers(run, n - 1);
      if KindAt(FRESH, run, n - 1) != Some(BatteryCritical) && After(FRESH, run, n).criticalLatched {
        var m :| 0 <= m < n - 1 && KindAt(FRESH, run, m) == Some(BatteryCritical)
                 && forall k :: m < k < n - 1 ==> !FreesCritical(run[k]);
        assert CriticalStands(run, n);
      }
    }
  }

  /** A tick emits CRITICAL exactly when its sample is in the critical band and no CRITICAL
      stands, and WARNING exactly when its sample is in the warning band and no event stands.
      So no event repeats without a release: a sample on AC or more than the margin above its
      threshold, or the beginning of a simulation. */
  lemma EventsNeverRepeatWithoutRecovery(run: seq<Input>, n: nat)
    requires n < |run|
    ensures KindAt(FRESH, run, n) == Some(BatteryCritical) <==>
      run[n].Poll? && InCriticalBand(run[n].cfg, run[n].sample) && !CriticalStands(run, n)
    ensures KindAt(FRESH, run, n) == Some(BatteryWarning) <==>
      run[n].Poll? && InWarningBand(run[n].cfg, run[n].sample) && !WarningStands(run, n)
  {
    WarningLatchRemembers(run, n);
    CriticalLatchRemembers(run, n);
  }

  /** The sample is on AC, or more than the margin above `threshold`. */
  predicate Recovers(s: Sample, threshold: int) {
    s.percent.Some? && (s.OnAC() || s.percent.value > threshold + RECOVERY_MARGIN)
  }

  /** What "released" comes to between two events of the same kind. */
  lemma RepeatedEventHasRecovery(run: seq<Input>, m: nat, n: nat)
    requires m < n < |run| && KindAt(FRESH, run, m).Some? && KindAt(FRESH, run, n).Some?
    ensures KindAt(FRESH, run, n) == Some(BatteryWarning) ==>
      exists k :: m < k < n && (run[k].Release? || Recovers(run[k].sample, run[k].cfg.shutdown.warning))
    ensures KindAt(FRESH, run, m) == KindAt(FRESH, run, n) == Some(BatteryCritical) ==>
      exists k :: m < k < n && (run[k] == Release(true) || (run[k].Poll? && Recovers(run[k].sample, run[k].cfg.shutdown.critical)))
  {
    EventsNeverRepeatWithoutRecovery(run, n);
    if KindAt(FRESH, run, n) == Some(BatteryWarning) {
      var k :| m < k < n && FreesWarning(run[k]);
    }
    if KindAt(FRESH, run, m) == KindAt(FRESH, run, n) == Some(BatteryCritical) {
      var k :| m < k < n && FreesCritical(run[k]);
    }
  }

  function Extended(t: seq<Kind>, kind: Option<Kind>): seq<Kind> {
    if kind.Some? then t + [kind.value] else t
  }

  /** The events of the first `n` inputs, in order. */
  function Trace(start: Control, run: seq<Input>, n: nat): seq<Kind>
    requires n <= |run|
  {
    if n == 0 then []
    else Extended(Trace(start, run, n - 1), KindAt(start, run, n - 1))
  }

  /** Ticks only, one configuration, off AC, and percentages that never rise. */
  predicate Drains(cfg: Settings.Config, run: seq<Input>) {
    && (forall i :: 0 <= i < |run| ==> run[i].Poll? && run[i].cfg == cfg && !run[i].sample.OnAC())
    && (forall i, j :: 0 <= i < j < |run| && run[i].sample.percent.Some? && run[j].sample.percent.Some? ==>
          run[j].sample.percent.value <= run[i].sample.percent.value)
  }

  /** Some sample of the first `n` was at or below `limit`, so every later one is. */
  predicate SeenBelow(run: seq<Input>, n: nat, limit: int)
    requires n <= |run|
  {
    exists i :: 0 <= i < n && run[i].Poll? && run[i].sample.percent.Some? && run[i].sample.percent.value <= limit
  }

  lemma StaysBelow(cfg: Settings.Config, run: seq<Input>, n: nat, limit: int)
    requires Drains(cfg, run) && n < |run| && SeenBelow(run, n, limit) && run[n].sample.percent.Some?
    ensures run[n].sample.percent.value <= limit
  {
  }

  predicate AtMostOneEach(t: seq<Kind>) {
    t == [] || t == [BatteryWarning] || t == [BatteryCritical] || t == [BatteryWarning, BatteryCritical]
  }

  predicate TraceInv(cfg: Settings.Config, run: seq<Input>, n: nat, t: seq<Kind>, c: Control)
    requires n <= |run|
  {
    && AtMostOneEach(t)
    && (BatteryWarning in t && BatteryCritical !in t ==> c.warningLatched && SeenBelow(run, n, cfg.shutdown.warning))
    && (BatteryCritical in t ==> c.criticalLatched && SeenBelow(run, n, cfg.shutdown.critical))
  }

  lemma TickKeepsTraceInv(cfg: Settings.Config, run: seq<Input>, n: nat, t: seq<Kind>, c: Control)
    requires Drains(cfg, run) && n < |run| && TraceInv(cfg, run, n, t, c)
    ensures var s := run[n].sample;
      TraceInv(cfg, run, n + 1, Extended(t, KindOf(c, cfg, s)), TickRegion(c, cfg, s))
  {
    var s, kind := run[n].sample, KindOf(c, cfg, run[n].sample);
    assert run[n].cfg == cfg && !s.OnAC();
    if BatteryWarning in t && BatteryCritical !in t && s.percent.Some? {
      StaysBelow(cfg, run, n, cfg.shutdown.warning);
    }
    if BatteryCritical in t && s.percent.Some? {
      StaysBelow(cfg, run, n, cfg.shutdown.critical);
    }
    if kind.Some? {
      assert SeenBelow(run, n + 1, s.percent.value);
      assert t == [] ==> t + [kind.value] == [kind.value];
      assert t != [] ==> t + [kind.value] == [BatteryWarning, BatteryCritical];
    }
  }

  lemma OneTickMore(start: Control, cfg: Settings.Config, run: seq<Input>, n: nat)
    requires n < |run| && run[n].Poll? && run[n].cfg == cfg
    ensures var t, c, s := Trace(start, run, n), After(start, run, n), run[n].sample;
      Trace(start, run, n + 1) == Extended(t, KindOf(c, cfg, s)) && After(start, run, n + 1) == TickRegion(c, cfg, s)
  {
  }

  lemma NextTickKeepsTraceInv(start: Control, cfg: Settings.Config, run: seq<Input>, n: nat)
    requires Drains(cfg, run) && n < |run| && TraceInv(cfg, run, n, Trace(start, run, n), After(start, run, n))
    ensures TraceInv(cfg, run, n + 1, Trace(start, run, n + 1), After(start, run, n + 1))
  {
    OneTickMore(start, cfg, run, n);
    TickKeepsTraceInv(cfg, run, n, Trace(start, run, n), After(start, run, n));
  }

  lemma {:induction false} DrainingRunKeepsTraceInv(start: Control, cfg: Settings.Config, run: seq<Input>, n: nat)
    requires Drains(cfg, run) && n <= |run|
    ensures TraceInv(cfg, run, n, Trace(start, run, n), After(start, run, n))
  {
    if n == 0 {
      assert Trace(start, run, 0) == [];
    } else {
      DrainingRunKeepsTraceInv(start, cfg, run, n - 1);
      NextTickKeepsTraceInv(start, cfg, run, n - 1);
    }
  }

  /** From whatever state, a draining run emits at most one WARNING and then at most one CRITICAL. */
  lemma DrainingRunWarnsAtMostOnce(start: Control, cfg: Settings.Config, run: seq<Input>, n: nat)
    requires Drains(cfg, run) && n <= |run|
    ensures AtMostOneEach(Trace(start, run, n))
  {
    DrainingRunKeepsTraceInv(start, cfg, run, n);
  }

  // ----- what must be emitted

  /** What a sample with a percentage at or above the minimum is to the latches and bands. */
  lemma ReadingsDecide(cfg: Settings.Config, s: Sample, pct: int)
    requires s.present && s.percent == Some(pct) && (cfg.safety.minimumPercent <= 0 || pct >= cfg.safety.minimumPercent)
    ensures s.source == Some(AC) ==>
      && !InCriticalBand(cfg, s) && !InWarningBand(cfg, s) && ClearsWarning(cfg, s) && ClearsCritical(cfg, s)
      && StateFor(cfg, s) == OnMains
    ensures s.source == Some(Unknown) || (s.source.None? && cfg.safety.requireACLoss) ==>
      && !InCriticalBand(cfg, s) && !InWarningBand(cfg, s) && !ClearsWarning(cfg, s) && !ClearsCritical(cfg, s)
      && StateFor(cfg, s) == Undetermined
    ensures s.source == Some(Battery) || (s.source.None? && !cfg.safety.requireACLoss) ==>
      && (InCriticalBand(cfg, s) <==> s.discharging && pct <= cfg.shutdown.critical)
      && (InWarningBand(cfg, s) <==> s.discharging && cfg.shutdown.critical < pct <= cfg.shutdown.warning)
      && (ClearsWarning(cfg, s) <==> pct > cfg.shutdown.warning + 2)
      && (ClearsCritical(cfg, s) <==> pct > cfg.shutdown.critical + 2 && (s.discharging || pct > cfg.shutdown.warning))
      && StateFor(cfg, s) == if s.discharging && pct <= cfg.shutdown.critical
                             then if cfg.shutdown.enabled then ShutdownPending else Critical
                             else if s.discharging && pct <= cfg.shutdown.warning then Warning else Normal
  {
  }

  /** A sample without a usable percentage neither emits nor releases anything. */
  lemma UnusableReadingDecidesNothing(c: Control, cfg: Settings.Config, s: StampedSample)
    requires !s.present || s.percent.None? || (cfg.safety.minimumPercent > 0 && s.percent.value < cfg.safety.minimumPercent)
    ensures TickRegion(c, cfg, s) == c.(state := Undetermined, lastSample := s) && KindOf(c, cfg, s).None?
  {
  }

  /** Discharging battery samples on one configuration, at or above the minimum, that never rise. */
  predicate Falls(cfg: Settings.Config, run: seq<Input>) {
    && (forall i :: 0 <= i < |run| ==>
          && run[i].Poll? && run[i].cfg == cfg && run[i].sample.present && run[i].sample.discharging
          && run[i].sample.source == Some(Battery) && run[i].sample.percent.Some?
          && (cfg.safety.minimumPercent <= 0 || run[i].sample.percent.value >= cfg.safety.minimumPercent))
    && (forall i, j :: 0 <= i < j < |run| ==> run[j].sample.percent.value <= run[i].sample.percent.value)
  }

  /** Some sample of the first `n` is above `low` and at or below `high`. */
  predicate SeenWithin(run: seq<Input>, n: nat, low: int, high: int)
    requires n <= |run| && forall i :: 0 <= i < |run| ==> run[i].Poll? && run[i].sample.percent.Some?
  {
    exists i :: 0 <= i < n && low < run[i].sample.percent.value <= high
  }

  predicate SeenAtMost(run: seq<Input>, n: nat, high: int)
    requires n <= |run| && forall i :: 0 <= i < |run| ==> run[i].Poll? && run[i].sample.percent.Some?
  {
    exists i :: 0 <= i < n && run[i].sample.percent.value <= high
  }

  /** The plan by the names of its actions. */
  function PlanByName(cfg: Settings.Config): seq<HostAction> {
    if cfg.docker.stopEnabled then [StopDocker, Sync, PowerOff] else [Sync, PowerOff]
  }

  predicate FallInv(cfg: Settings.Config, run: seq<Input>, n: nat, t: seq<Kind>, c: Control)
    requires Falls(cfg, run) && n <= |run|
  {
    var critical := SeenAtMost(run, n, cfg.shutdown.critical);
    var warned := SeenWithin(run, n, cfg.shutdown.critical, cfg.shutdown.warning);
    && (BatteryCritical in t <==> critical) && (BatteryWarning in t <==> warned)
    && (c.criticalLatched <==> critical) && (warned ==> c.warningLatched) && (c.warningLatched ==> critical || warned)
    && (c.lastActionAt.Some? <==> critical && cfg.shutdown.enabled)
    && c.lastPlan == if critical && cfg.shutdown.enabled then PlanByName(cfg) else []
  }

  lemma TickKeepsFallInv(cfg: Settings.Config, run: seq<Input>, n: nat, t: seq<Kind>, c: Control)
    requires Falls(cfg, run) && n < |run| && FallInv(cfg, run, n, t, c)
    ensures var s := run[n].sample;
      FallInv(cfg, run, n + 1, Extended(t, KindOf(c, cfg, s)), TickRegion(c, cfg, s))
  {
    var s, pct := run[n].sample, run[n].sample.percent.value;
    ReadingsDecide(cfg, s, pct);
    SeenOneMore(cfg, run, n);
    assert Plan(cfg.docker) == PlanByName(cfg);
  }

  lemma SeenOneMore(cfg: Settings.Config, run: seq<Input>, n: nat)
    requires Falls(cfg, run) && n < |run|
    ensures var pct, critical, warning := run[n].sample.percent.value, cfg.shutdown.critical, cfg.shutdown.warning;
      && (SeenAtMost(run, n + 1, critical) <==> SeenAtMost(run, n, critical) || pct <= critical)
      && (SeenAtMost(run, n, critical) ==> pct <= critical)
      && (SeenWithin(run, n + 1, critical, warning) <==>
            SeenWithin(run, n, critical, warning) || critical < pct <= warning)
      && (SeenWithin(run, n, critical, warning) ==> pct <= warning)
  {
  }

  lemma NextTickKeepsFallInv(cfg: Settings.Config, run: seq<Input>, n: nat)
    requires Falls(cfg, run) && n < |run| && FallInv(cfg, run, n, Trace(FRESH, run, n), After(FRESH, run, n))
    ensures FallInv(cfg, run, n + 1, Trace(FRESH, run, n + 1), After(FRESH, run, n + 1))
  {
    OneTickMore(FRESH, cfg, run, n);
    TickKeepsFallInv(cfg, run, n, Trace(FRESH, run, n), After(FRESH, run, n));
  }

  /** A falling battery is announced: CRITICAL exactly when some sample is at or below the critical
      threshold, and then, with shutdown enabled, the plan is made, by name; WARNING exactly when
      some sample is above the critical and at or below the warning threshold. */
  lemma {:induction false} FallingRunIsAnnounced(cfg: Settings.Config, run: seq<Input>, n: nat)
    requires Falls(cfg, run) && n <= |run|
    ensures FallInv(cfg, run, n, Trace(FRESH, run, n), After(FRESH, run, n))
  {
    if n > 0 {
      FallingRunIsAnnounced(cfg, run, n - 1);
      NextTickKeepsFallInv(cfg, run, n - 1);
    }
  }

  /** And the state says so after each sample. */
  lemma FallingRunShowsItsState(cfg: Settings.Config, run: seq<Input>, n: nat)
    requires Falls(cfg, run) && n < |run|
    ensures var pct := run[n].sample.percent.value;
      After(FRESH, run, n + 1).state ==
        if pct <= cfg.shutdown.critical then if cfg.shutdown.enabled then ShutdownPending else Critical
        else if pct <= cfg.shutdown.warning then Warning else Normal
  {
    OneTickMore(FRESH, cfg, run, n);
    ReadingsDecide(cfg, run[n].sample, run[n].sample.percent.value);
  }

  /** After mains power, or more than two points above the warning threshold, a low battery is
      announced again, whatever came before. */
  lemma RecoveredBatteryIsAnnouncedAgain(run: seq<Input>, n: nat)
    requires 0 < n < |run| && run[n - 1].Poll? && run[n].Poll?
    requires var s, cfg := run[n - 1].sample, run[n - 1].cfg;
      && s.present && s.percent.Some? && (cfg.safety.minimumPercent <= 0 || s.percent.value >= cfg.safety.minimumPercent)
      && (s.source == Some(AC) || (&& s.source == Some(Battery) && s.discharging
                                   && s.percent.value > cfg.shutdown.warning + 2 && s.percent.value > cfg.shutdown.critical + 2))
    requires var s, cfg := run[n].sample, run[n].cfg;
      && s.present && s.source == Some(Battery) && s.discharging && s.percent.Some?
      && (cfg.safety.minimumPercent <= 0 || s.percent.value >= cfg.safety.minimumPercent)
    ensures var pct, cfg := run[n].sample.percent.value, run[n].cfg;
      KindAt(FRESH, run, n) == if pct <= cfg.shutdown.critical then Some(BatteryCritical)
                               else if pct <= cfg.shutdown.warning then Some(BatteryWarning) else None
  {
    ReadingsDecide(run[n - 1].cfg, run[n - 1].sample, run[n - 1].sample.percent.value);
    ReadingsDecide(run[n].cfg, run[n].sample, run[n].sample.percent.value);
    assert FreesWarning(run[n - 1]) && FreesCritical(run[n - 1]);
    EventsNeverRepeatWithoutRecovery(run, n);
  }

  /** The event and the plan a tick leaves to be shown. */
  lemma TickRemembers(c: Control, cfg: Settings.Config, s: StampedSample)
    ensures var r, kind := TickRegion(c, cfg, s), KindOf(c, cfg, s);
      && r.lastSample == s
      && (kind.None? ==> r.lastEvent == c.lastEvent)
      && (kind.Some? ==>
            s.percent.Some? && r.lastEvent == Some(Event(kind.value, s.now.value, s.percent.value, r.state)))
      && (Plans(c, cfg, s) ==> r.lastPlan == PlanByName(cfg) && r.lastActionAt == s.now && r.shutdownLatched)
      && (!Plans(c, cfg, s) ==> r.lastPlan == c.lastPlan && r.lastActionAt == c.lastActionAt)
  {
    assert Plan(cfg.docker) == PlanByName(cfg);
  }

  // ----- plans

  /** The time of the plan made last is the one remembered. */
  lemma {:induction false} LastPlanIsRemembered(run: seq<Input>, m: nat, n: nat)
    requires m < n <= |run| && PlansAt(FRESH, run, m) && forall k :: m < k < n ==> !PlansAt(FRESH, run, k)
    ensures After(FRESH, run, n).lastActionAt == run[m].sample.now
  {
    if m < n - 1 {
      LastPlanIsRemembered(run, m, n - 1);
      assert !PlansAt(FRESH, run, n - 1);
    }
  }

  lemma {:induction false} NoPlanIsRemembered(run: seq<Input>, n: nat)
    requires n <= |run| && forall k :: 0 <= k < n ==> !PlansAt(FRESH, run, k)
    ensures After(FRESH, run, n).lastActionAt.None?
  {
    if n > 0 {
      NoPlanIsRemembered(run, n - 1);
      assert !PlansAt(FRESH, run, n - 1);
    }
  }

  /** A plan is made exactly with a CRITICAL event of an enabled shutdown whose cooldown is over:
      forced, switched off, or counted from the plan before, at `m`. */
  lemma PlansAreRateBounded(run: seq<Input>, m: nat, n: nat)
    requires m < n < |run| && PlansAt(FRESH, run, m) && forall k :: m < k < n ==> !PlansAt(FRESH, run, k)
    ensures PlansAt(FRESH, run, n) <==>
      && run[n].Poll? && KindAt(FRESH, run, n) == Some(BatteryCritical) && run[n].cfg.shutdown.enabled
      && (|| run[n].sample.force || run[n].cfg.safety.cooldownSeconds <= 0
          || run[n].sample.now.value - run[m].sample.now.value >= run[n].cfg.safety.cooldownSeconds * SECOND)
  {
    LastPlanIsRemembered(run, m, n);
  }

  lemma FirstPlan(run: seq<Input>, n: nat)
    requires n < |run| && forall k :: 0 <= k < n ==> !PlansAt(FRESH, run, k)
    ensures PlansAt(FRESH, run, n) <==>
      run[n].Poll? && KindAt(FRESH, run, n) == Some(BatteryCritical) && run[n].cfg.shutdown.enabled
  {
    NoPlanIsRemembered(run, n);
  }

  /** With `require_ac_loss`, a plan from a classified scan means that there were adapters, and
      that every one of them was readable and offline. */
  lemma PlanMeansEveryAdapterOffline(c: Control, cfg: Settings.Config, s: StampedSample, adapters: seq<Adapter>)
    requires Plans(c, cfg, s) && cfg.safety.requireACLoss && s.source == Some(Classified(adapters))
    ensures adapters != [] && forall a :: a in adapters ==> Offline(a)
  {
    assert Classified(adapters) == Battery;
  }

  /** A CRITICAL that found the cooldown running is never planned for: until the latch is released
      no later tick plans, however much time passes, while the state of every tick that is still
      critical is SHUTDOWN_PENDING. */
  lemma UnplannedCriticalIsNeverPlanned(run: seq<Input>, m: nat, n: nat)
    requires m < n < |run|
    requires KindAt(FRESH, run, m) == Some(BatteryCritical) && !PlansAt(FRESH, run, m)
    requires forall k :: m < k < n ==> !FreesCritical(run[k])
    ensures !PlansAt(FRESH, run, n)
    ensures run[n].Poll? && InCriticalBand(run[n].cfg, run[n].sample) && run[n].cfg.shutdown.enabled ==>
      After(FRESH, run, n + 1).state == ShutdownPending
  {
    EventsNeverRepeatWithoutRecovery(run, n);
  }

  /** Mains power at `now`, and the battery at the critical threshold at `now`. */
  function OnMainsAt(now: int): StampedSample {
    Sample(Some(now), true, Some(100), false, Some(AC), false)
  }

  function CriticalAt(cfg: Settings.Config, now: int): StampedSample {
    Sample(Some(now), true, Some(cfg.shutdown.critical), true, Some(Battery), false)
  }

  /** A plan, and mains power. */
  lemma PlansThenRecovers(cfg: Settings.Config)
    requires cfg.shutdown.enabled && cfg.safety.minimumPercent <= cfg.shutdown.critical <= 100
    ensures Plans(FRESH, cfg, CriticalAt(cfg, 0))
    ensures var c := TickRegion(TickRegion(FRESH, cfg, CriticalAt(cfg, 0)), cfg, OnMainsAt(0));
      !c.criticalLatched && c.lastActionAt == Some(0)
  {
  }

  function Swallowing(cfg: Settings.Config, late: int): seq<Input> {
    [Poll(cfg, CriticalAt(cfg, 0)), Poll(cfg, OnMainsAt(0)), Poll(cfg, CriticalAt(cfg, SECOND)), Poll(cfg, CriticalAt(cfg, late))]
  }

  /** A run whose second CRITICAL, after mains power, falls within the cooldown of the first: it is
      not planned for, and neither is it by a tick long after the cooldown. */
  lemma CooldownSwallowsAPlan(cfg: Settings.Config, late: int)
    requires cfg.shutdown.enabled && cfg.safety.cooldownSeconds > 1
    requires cfg.safety.minimumPercent <= cfg.shutdown.critical <= 100
    ensures var run := Swallowing(cfg, late);
      && PlansAt(FRESH, run, 0)
      && KindAt(FRESH, run, 2) == Some(BatteryCritical) && !PlansAt(FRESH, run, 2)
      && !PlansAt(FRESH, run, 3) && After(FRESH, run, 4).state == ShutdownPending
  {
    var run := Swallowing(cfg, late);
    PlansThenRecovers(cfg);
    assert After(FRESH, run, 1) == Advance(FRESH, run[0]);
    assert After(FRESH, run, 2) == Advance(Advance(FRESH, run[0]), run[1]);
    UnplannedCriticalIsNeverPlanned(run, 2, 3);
  }

  // ----- the order of the latches

  predicate LatchesInOrder(c: Control) {
    (c.shutdownLatched ==> c.criticalLatched) && (c.criticalLatched ==> c.warningLatched)
  }

  /** A configuration keeps the latches in order, whatever the sample, exactly when its critical
      threshold is not above its warning one, or its minimum hides every percentage at which
      they could come apart. */
  lemma LatchOrderNeedsOrderedThresholds(cfg: Settings.Config)
    ensures (forall c, s :: LatchesInOrder(c) ==> LatchesInOrder(TickRegion(c, cfg, s))) <==>
      cfg.shutdown.critical <= cfg.shutdown.warning
      || (cfg.safety.minimumPercent > 0 && cfg.safety.minimumPercent > cfg.shutdown.critical + RECOVERY_MARGIN)
  {
    var c := FRESH.(warningLatched := true, criticalLatched := true);
    var s := Sample(Some(0), true, Some(cfg.shutdown.critical + RECOVERY_MARGIN), true, Some(Battery), false);
    assert LatchesInOrder(c);
    if cfg.shutdown.critical > cfg.shutdown.warning && Usable(cfg, s) {
      assert !LatchesInOrder(TickRegion(c, cfg, s));
    }
  }

  /** A tick with ordered thresholds, or the release of a simulated CRITICAL. A simulated warning
      releases the warning latch alone. */
  predicate KeepsOrder(i: Input) {
    match i
    case Poll(cfg, _) => cfg.shutdown.critical <= cfg.shutdown.warning
    case Release(critical) => critical
  }

  lemma {:induction false} OrderedRunKeepsOrder(run: seq<Input>, n: nat)
    requires n <= |run| && forall i :: 0 <= i < |run| ==> KeepsOrder(run[i])
    ensures LatchesInOrder(After(FRESH, run, n))
  {
    if n > 0 {
      OrderedRunKeepsOrder(run, n - 1);
    }
  }

  lemma PublishedThresholdsAreOrdered(cfg: Settings.Config)
    requires Settings.Normalized(cfg)
    ensures cfg.shutdown.critical <= cfg.shutdown.warning
  {
  }

  /** Under published configurations the latches stay in order over every run without a simulated
      warning. */
  lemma LatchesStayInOrder(run: seq<Input>, n: nat)
    requires n <= |run|
    requires forall i :: 0 <= i < |run| ==> if run[i].Poll? then Settings.Normalized(run[i].cfg) else run[i].critical
    ensures LatchesInOrder(After(FRESH, run, n))
  {
    forall i | 0 <= i < |run| ensures KeepsOrder(run[i]) {
      if run[i].Poll? {
        PublishedThresholdsAreOrdered(run[i].cfg);
      }
    }
    OrderedRunKeepsOrder(run, n);
  }

  /** A simulated warning takes the latches out of order exactly when a CRITICAL stands. */
  lemma SimulatedWarningDisordersLatches(run: seq<Input>, m: nat)
    requires m < |run| && run[m] == Release(false) && LatchesInOrder(After(FRESH, run, m))
    ensures LatchesInOrder(After(FRESH, run, m + 1)) <==> !CriticalStands(run, m)
  {
    CriticalLatchRemembers(run, m);
  }

  lemma CriticalThenSimulatedWarning(cfg: Settings.Config)
    requires cfg.safety.minimumPercent <= cfg.shutdown.critical
    ensures !LatchesInOrder(After(FRESH, [Poll(cfg, CriticalAt(cfg, 0)), Release(false)], 2))
  {
    var run := [Poll(cfg, CriticalAt(cfg, 0)), Release(false)];
    assert After(FRESH, run, 1) == Advance(FRESH, run[0]);
  }

  // ----- simulations

  function Named(critical: bool): Kind {
    if critical then BatteryCritical else BatteryWarning
  }

  /** An event that keeps the simulation released at `m` from emitting at `n`: it came between
      the two, and nothing released its latch after it. */
  ghost predicate Intervenes(run: seq<Input>, m: nat, n: nat, critical: bool)
    requires m < n < |run|
  {
    exists k :: m < k < n
      && (KindAt(FRESH, run, k) == Some(BatteryCritical) || (!critical && KindAt(FRESH, run, k) == Some(BatteryWarning)))
      && forall l :: k < l < n ==> if critical then !FreesCritical(run[l]) else !FreesWarning(run[l])
  }

  /** A simulation that released its latches at `m` and ticks at `n`, on the sample made up under
      the configuration `read` at its beginning, emits the event it is named for exactly when
      no event intervened and the sample is in that event's band of the configuration the tick
      reads; and a critical one is planned for whenever shutdown is enabled, cooldown or not. */
  lemma SimulationEmitsItsEvent(run: seq<Input>, m: nat, n: nat, read: Settings.Config, critical: bool, clock: int)
    requires m < n < |run| && run[m] == Release(critical)
    requires run[n].Poll? && run[n].sample == Simulated(read, critical, clock)
    ensures KindAt(FRESH, run, n) == Some(Named(critical)) <==>
      && !Intervenes(run, m, n, critical)
      && if critical then InCriticalBand(run[n].cfg, run[n].sample) else InWarningBand(run[n].cfg, run[n].sample)
    ensures critical ==>
      (PlansAt(FRESH, run, n) <==> KindAt(FRESH, run, n) == Some(BatteryCritical) && run[n].cfg.shutdown.enabled)
  {
    EventsNeverRepeatWithoutRecovery(run, n);
    assert FreesWarning(run[m]) && (critical ==> FreesCritical(run[m]));
    if critical {
      assert CriticalStands(run, n) <==> Intervenes(run, m, n, true);
    } else {
      assert WarningStands(run, n) <==> Intervenes(run, m, n, false);
    }
  }

  /** The made-up sample: a discharging battery, forced, at the threshold it is named for, or one
      point above the critical one when the warning threshold is not above that. */
  lemma SimulatedSampleByName(cfg: Settings.Config, critical: bool, clock: int)
    ensures var s := Simulated(cfg, critical, clock);
      && s.now == Some(clock) && s.present && s.discharging && s.source == Some(Battery) && s.force
      && s.percent == Some(if critical then cfg.shutdown.critical
                           else if cfg.shutdown.warning > cfg.shutdown.critical then cfg.shutdown.warning
                           else cfg.shutdown.critical + 1)
  {
  }

  /** On the configuration it was made up under, the sample is in its band unless its percentage
      is below the minimum or the thresholds are out of order. */
  lemma SimulatedSampleIsInBand(cfg: Settings.Config, critical: bool, clock: int)
    ensures var s := Simulated(cfg, critical, clock);
      (if critical then InCriticalBand(cfg, s) else InWarningBand(cfg, s)) <==>
      && !(cfg.safety.minimumPercent > 0 && SimulatedPercent(cfg, critical) < cfg.safety.minimumPercent)
      && (critical || cfg.shutdown.critical < cfg.shutdown.warning)
  {
  }

  /** A simulation of CRITICAL that emits nothing: a poll found the battery critical first. */
  lemma PollSilencesSimulation(cfg: Settings.Config, clock: int)
    requires cfg.safety.minimumPercent <= cfg.shutdown.critical
    ensures var run := [Release(true), Poll(cfg, CriticalAt(cfg, clock)), Poll(cfg, Simulated(cfg, true, clock))];
      KindAt(FRESH, run, 1) == Some(BatteryCritical) && KindAt(FRESH, run, 2).None?
  {
    var run := [Release(true), Poll(cfg, CriticalAt(cfg, clock)), Poll(cfg, Simulated(cfg, true, clock))];
    assert After(FRESH, run, 1) == Advance(FRESH, run[0]);
    assert After(FRESH, run, 2) == Advance(Advance(FRESH, run[0]), run[1]);
  }
}
