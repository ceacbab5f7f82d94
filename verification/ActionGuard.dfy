/** Manual host actions: the guard that lets one action through at a time, the gates before it,
    and the read-only status that has to agree with both. */
module ActionGuard {
  import opened Basics
  import opened Power
  import Settings

  /** An idempotency key's hash; the empty string when the request carried none. */
  type Key = string

  datatype Guard = Guard(inflight: bool, last: Option<int>, lastKey: Key, pendingKey: Key)

  const FRESH: Guard := Guard(false, None, "", "")

  datatype Verdict = Begun | DuplicateKey | InFlight | CoolingDown

  predicate InCooldown(g: Guard, cooldown: int, now: int) {
    cooldown > 0 && g.last.Some? && now < g.last.value + cooldown
  }

  function VerdictOf(g: Guard, cooldown: int, now: int, key: Key): Verdict {
    if g.inflight then if key != "" && key == g.pendingKey then DuplicateKey else InFlight
    else if InCooldown(g, cooldown, now) then if key != "" && key == g.lastKey then DuplicateKey else CoolingDown
    else Begun
  }

  function BeginRegion(g: Guard, cooldown: int, now: int, key: Key): Guard {
    if VerdictOf(g, cooldown, now, key).Begun? then g.(inflight := true, pendingKey := key) else g
  }

  /** `now` is the time the action began. */
  function EndRegion(g: Guard, now: int, ran: bool): Guard {
    if ran then Guard(false, Some(now), g.pendingKey, "") else g.(inflight := false, pendingKey := "")
  }

  datatype Cooldown = Cooldown(active: bool, inProgress: bool, secondsRemaining: int)

  function StatusOf(g: Guard, now: int, cooldown: int): Cooldown {
    if InCooldown(g, cooldown, now)
    then Cooldown(true, g.inflight, Max((g.last.value + cooldown - now) / SECOND, 1))
    else Cooldown(false, g.inflight, 0)
  }

  class ActionGuard {
    var inflight: bool
    var last: Option<int>
    var lastKey: Key
    var pendingKey: Key

    function View(): Guard
      reads this
    {
      Guard(inflight, last, lastKey, pendingKey)
    }

    constructor ()
      ensures View() == FRESH
    {
      inflight, last, lastKey, pendingKey := false, None, "", "";
    }

    method Begin(cooldown: int, now: int, key: Key) returns (v: Verdict)
      modifies this
      ensures v == VerdictOf(old(View()), cooldown, now, key)
      ensures View() == BeginRegion(old(View()), cooldown, now, key)
    {
      if inflight {
        if key != "" && key == pendingKey {
          return DuplicateKey;
        }
        return InFlight;
      }
      if cooldown > 0 && last.Some? && now < last.value + cooldown {
        if key != "" && key == lastKey {
          return DuplicateKey;
        }
        return CoolingDown;
      }
      inflight := true;
      pendingKey := key;
      return Begun;
    }

    method End(now: int, ran: bool)
      modifies this
      ensures View() == EndRegion(old(View()), now, ran)
    {
      inflight := false;
      if ran {
        last := Some(now);
        lastKey := pendingKey;
      }
      pendingKey := "";
    }

    method Status(now: int, cooldown: int) returns (out: Cooldown)
      ensures out == StatusOf(View(), now, cooldown)
    {
      out := Cooldown(false, inflight, 0);
      if cooldown > 0 && last.Some? {
        var until := last.value + cooldown;
        if now < until {
          var sec := (until - now) / SECOND;
          if sec < 1 {
            sec := 1;
          }
          out := Cooldown(true, inflight, sec);
        }
      }
    }
  }

  // ----- the gates

  /** Why a request is refused before the guard. An absent source counts as unknown. */
  datatype Block = RealDisabled | DryRun | OnMains | SourceUnknown | NotDischarging

  function SafetyGate(cfg: Settings.Config, source: Option<Source>, discharging: bool): Option<Block> {
    if !cfg.actions.realEnabled then Some(RealDisabled)
    else if cfg.safety.dryRun then Some(DryRun)
    else if source == Some(AC) then Some(OnMains)
    else if source == Some(Unknown) || source.None? then Some(SourceUnknown)
    else if !discharging then Some(NotDischarging)
    else None
  }

  datatype GateName =
    | RealActionsDisabled | SafetyDryRun | ConfirmationRequired
    | ACIsConnected | ACIsUnknown | BatteryNotDischarging | CooldownActive | ActionInProgress

  function If(b: bool, g: GateName): (r: seq<GateName>)
    ensures r == [] <==> !b
  {
    if b then [g] else []
  }

  function ConfigGates(cfg: Settings.Config): seq<GateName> {
    If(!cfg.actions.realEnabled, RealActionsDisabled) + If(cfg.safety.dryRun, SafetyDryRun)
    + If(!cfg.actions.requireConfirmation, ConfirmationRequired)
  }

  function LiveGates(cfg: Settings.Config, source: Option<Source>, discharging: bool, cool: Cooldown): seq<GateName> {
    ConfigGates(cfg) + If(source == Some(AC), ACIsConnected) + If(source == Some(Unknown) || source.None?, ACIsUnknown)
    + If(!discharging, BatteryNotDischarging) + If(cool.active, CooldownActive) + If(cool.inProgress, ActionInProgress)
  }

  function CooldownOf(cfg: Settings.Config): int {
    cfg.actions.cooldownSeconds * SECOND
  }

  /** The status response's `ready`. */
  predicate Ready(cfg: Settings.Config, source: Option<Source>, discharging: bool, g: Guard, now: int) {
    var cool := StatusOf(g, now, CooldownOf(cfg));
    && LiveGates(cfg, source, discharging, cool) == []
    && cfg.ManualActionsReady() && source == Some(Battery) && discharging && !cool.active && !cool.inProgress
  }

  /** A request made at the same instant, on the same readings, would be let through. */
  predicate WouldRun(cfg: Settings.Config, source: Option<Source>, discharging: bool, g: Guard, now: int, key: Key) {
    SafetyGate(cfg, source, discharging).None? && VerdictOf(g, CooldownOf(cfg), now, key).Begun?
  }

  /** The status is ready exactly when the gates it lists are none, and exactly when a request
      would run, provided confirmation is required, as it is in every normalized configuration.
      The key a request carries never matters to whether it would run. */
  lemma StatusAgreesWithEnforcement(
    cfg: Settings.Config, source: Option<Source>, discharging: bool, g: Guard, now: int, key: Key)
    ensures var gates := LiveGates(cfg, source, discharging, StatusOf(g, now, CooldownOf(cfg)));
      && (Ready(cfg, source, discharging, g, now) <==> gates == [])
      && (Ready(cfg, source, discharging, g, now) <==>
            WouldRun(cfg, source, discharging, g, now, key) && cfg.actions.requireConfirmation)
    ensures Settings.Normalized(cfg) ==>
      (Ready(cfg, source, discharging, g, now) <==> WouldRun(cfg, source, discharging, g, now, key))
  {
    var cool := StatusOf(g, now, CooldownOf(cfg));
    GatesEmpty(cfg, source, discharging, cool);
    if Settings.Normalized(cfg) {
      Settings.NormalizationIdempotentAndSane(cfg);
    }
  }

  lemma GatesEmpty(cfg: Settings.Config, source: Option<Source>, discharging: bool, cool: Cooldown)
    ensures LiveGates(cfg, source, discharging, cool) == [] <==>
      && cfg.ManualActionsReady() && cfg.actions.requireConfirmation && source == Some(Battery) && discharging
      && !cool.active && !cool.inProgress
  {
    assert source.Some? ==> source.value.AC? || source.value.Battery? || source.value.Unknown?;
    var fixed := ConfigGates(cfg);
    var onMains := fixed + If(source == Some(AC), ACIsConnected);
    var unknown := onMains + If(source == Some(Unknown) || source.None?, ACIsUnknown);
    var battery := unknown + If(!discharging, BatteryNotDischarging);
    assert LiveGates(cfg, source, discharging, cool) ==
      battery + If(cool.active, CooldownActive) + If(cool.inProgress, ActionInProgress);
  }

  /** The seconds reported are rounded down: a caller who waits just that long is let through
      exactly when no part of a second was dropped, and one more second is always enough. */
  lemma SecondsRemainingRoundDown(g: Guard, cooldown: int, now: int, key: Key)
    requires !g.inflight && InCooldown(g, cooldown, now)
    ensures var left := g.last.value + cooldown - now; var wait := StatusOf(g, now, cooldown).secondsRemaining;
      && (VerdictOf(g, cooldown, now + wait * SECOND, key).Begun? <==> left <= SECOND || left % SECOND == 0)
      && VerdictOf(g, cooldown, now + (wait + 1) * SECOND, key).Begun?
  {
  }

  /** Two seconds less a nanosecond, reported as one second. */
  lemma RoundedSecondIsTooShort(key: Key)
    ensures var g := FRESH.(last := Some(0)); var wait := StatusOf(g, 1, 2 * SECOND).secondsRemaining;
      wait == 1 && !VerdictOf(g, 2 * SECOND, 1 + wait * SECOND, key).Begun?
  {
  }
}
