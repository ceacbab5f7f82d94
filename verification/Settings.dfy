/** The settings the controllers read, and how an update of them is checked and published. */
module Settings {
  import opened Basics
  import Text

  const DEFAULT_DRAIN_THRESHOLD: int := 10
  const DEFAULT_PRE_NOTIFY_MINUTES: int := 30
  const DEFAULT_RESPONSE_MINUTES: int := 10
  const MAX_DRAIN_MINUTES: int := 1440
  const MAX_DOCKER_TIMEOUT: int := 3600
  const MAX_COOLDOWN: int := 86400
  const DEFAULT_ACTIONS_COOLDOWN: int := 60
  const DEFAULT_POWEROFF_TIMEOUT: int := 30
  const MAX_POWEROFF_TIMEOUT: int := 600
  const MAX_WEBHOOK_URL: int := 2048
  const MAX_CHAT_ID: int := 128
  const DEFAULT_POWER_POLL: int := 5 * SECOND
  const DEFAULT_POWER_DEBOUNCE: int := 10 * SECOND
  const AUTO: string := "auto"
  const REDACTED: string := "[redacted]"
  const CONTINUE_ON_BATTERY: string := "continue_on_battery"

  /** A URL as typed, with what the library's parser says of it once trimmed. */
  datatype Url = Url(text: string, valid: bool)

  datatype Notifications = Notifications(
    provider: string, enabled: bool, dryRun: bool, webhook: Url, chatId: string)

  datatype Shutdown = Shutdown(enabled: bool, warning: int, critical: int)

  datatype Docker = Docker(stopEnabled: bool, timeoutSeconds: int)

  datatype Safety = Safety(dryRun: bool, requireACLoss: bool, minimumPercent: int, cooldownSeconds: int)

  datatype Drain = Drain(
    enabled: bool, threshold: int, preNotifyMinutes: int, responseMinutes: int,
    services: seq<string>, onUserNo: string)

  datatype Actions = Actions(
    realEnabled: bool, requireConfirmation: bool, cooldownSeconds: int,
    powerOffPath: string, dockerPath: string, syncPath: string, powerOffTimeout: int)

  /** What only a restart changes: where readings come from, and how often. */
  datatype General = General(provider: string, thresholdMethod: string, powerPoll: int, powerDebounce: int)

  datatype Auth = Auth(enabled: bool, allowLoopbackNoToken: bool, tokenHash: string, createdAt: string, rotatedAt: string)

  datatype Config = Config(
    general: General, auth: Auth,
    notifications: Notifications, shutdown: Shutdown, docker: Docker, safety: Safety,
    drain: Drain, actions: Actions)
  {
    /** Whether host commands may run at all. */
    predicate ManualActionsReady() {
      actions.realEnabled && !safety.dryRun
    }

    predicate NotificationReady() {
      notifications.enabled && ProviderConfigured(notifications) && AllowsProvider(drain, notifications.provider)
    }
  }

  // ----- reading the settings

  predicate KnownService(name: string) {
    name in {"ntfy", "telegram", "discord", "webhook"}
  }

  predicate ProviderConfigured(n: Notifications) {
    var provider := Text.Fold(n.provider);
    && Text.Trim(n.webhook.text) != ""
    && n.webhook.valid
    && (provider in {"ntfy", "discord", "webhook"} || (provider == "telegram" && Text.Trim(n.chatId) != ""))
  }

  predicate AllowsProvider(d: Drain, provider: string) {
    Text.Fold(provider) in d.services
  }

  // ----- normalization: settings that are only checked

  predicate Percent(value: int) {
    0 <= value <= 100
  }

  function NormalShutdown(s: Shutdown): Result<Shutdown> {
    if Percent(s.warning) && Percent(s.critical) && s.critical < s.warning then Ok(s) else Rejected
  }

  function NormalDocker(d: Docker): Result<Docker> {
    if 0 <= d.timeoutSeconds <= MAX_DOCKER_TIMEOUT then Ok(d) else Rejected
  }

  function NormalSafety(s: Safety): Result<Safety> {
    if Percent(s.minimumPercent) && 0 <= s.cooldownSeconds <= MAX_COOLDOWN then Ok(s) else Rejected
  }

  // ----- normalization: settings that are rewritten

  function NormalNotifications(n: Notifications): Result<Notifications> {
    var folded := Text.Fold(n.provider);
    var provider := if folded == "" then "none" else folded;
    var url := Url(Text.Trim(n.webhook.text), n.webhook.valid);
    var chat := Text.Trim(n.chatId);
    if provider != "none" && !KnownService(provider) then Rejected
    else if |url.text| > MAX_WEBHOOK_URL || |chat| > MAX_CHAT_ID then Rejected
    else if url.text != "" && !url.valid then Rejected
    else if n.enabled && (provider == "none" || url.text == "" || (provider == "telegram" && chat == "")) then Rejected
    else Ok(Notifications(provider, n.enabled, n.dryRun, url, chat))
  }

  /** The known services of `names`, each at its first mention, in order. */
  function DistinctServices(names: seq<string>): (r: seq<string>)
    ensures forall s :: s in r <==> KnownService(s) && exists raw :: raw in names && Text.Fold(raw) == s
    ensures forall i, j :: 0 <= i < j < |r| ==> r[i] != r[j]
  {
    if names == [] then []
    else
      var init, raw := names[..|names| - 1], names[|names| - 1];
      assert names == init + [raw];
      var kept, name := DistinctServices(init), Text.Fold(raw);
      if KnownService(name) && name !in kept then kept + [name] else kept
  }

  function NormalServices(names: seq<string>): (r: seq<string>) {
    if DistinctServices(names) == [] then ["ntfy"] else DistinctServices(names)
  }

  method NormalizeServices(names: seq<string>) returns (out: seq<string>)
    ensures out == NormalServices(names)
  {
    var seen: set<string> := {};
    out := [];
    for i := 0 to |names|
      invariant out == DistinctServices(names[..i])
      invariant forall s :: s in seen <==> s in out
    {
      assert names[..i + 1][..i] == names[..i];
      var name := Text.Fold(names[i]);
      if !KnownService(name) {
        continue;
      }
      if name in seen {
        continue;
      }
      seen := seen + {name};
      out := out + [name];
    }
    assert names[..|names|] == names;
    if |out| == 0 {
      out := ["ntfy"];
    }
  }

  function OrDefault(value: int, default: int): int {
    if value == 0 then default else value
  }

  function NormalDrain(d: Drain): Result<Drain> {
    var answer := if Text.Fold(d.onUserNo) == "" then CONTINUE_ON_BATTERY else Text.Fold(d.onUserNo);
    if !Percent(d.threshold) then Rejected
    else if !(0 <= d.preNotifyMinutes <= MAX_DRAIN_MINUTES) then Rejected
    else if !(0 <= d.responseMinutes <= MAX_DRAIN_MINUTES) then Rejected
    else if answer != CONTINUE_ON_BATTERY then Rejected
    else Ok(Drain(d.enabled, OrDefault(d.threshold, DEFAULT_DRAIN_THRESHOLD),
                  OrDefault(d.preNotifyMinutes, DEFAULT_PRE_NOTIFY_MINUTES),
                  OrDefault(d.responseMinutes, DEFAULT_RESPONSE_MINUTES),
                  NormalServices(d.services), answer))
  }

  /** Rewrites the drain settings field by field, as the program does. */
  method NormalizeDrain(d: Drain) returns (r: Result<Drain>)
    ensures r == NormalDrain(d)
  {
    var out := d;
    if !Percent(out.threshold) {
      return Rejected;
    }
    if out.threshold == 0 {
      out := out.(threshold := DEFAULT_DRAIN_THRESHOLD);
    }
    if out.preNotifyMinutes < 0 || out.preNotifyMinutes > MAX_DRAIN_MINUTES {
      return Rejected;
    }
    if out.preNotifyMinutes == 0 {
      out := out.(preNotifyMinutes := DEFAULT_PRE_NOTIFY_MINUTES);
    }
    if out.responseMinutes < 0 || out.responseMinutes > MAX_DRAIN_MINUTES {
      return Rejected;
    }
    if out.responseMinutes == 0 {
      out := out.(responseMinutes := DEFAULT_RESPONSE_MINUTES);
    }
    out := out.(onUserNo := Text.Fold(out.onUserNo));
    if out.onUserNo == "" {
      out := out.(onUserNo := CONTINUE_ON_BATTERY);
    }
    if out.onUserNo != CONTINUE_ON_BATTERY {
      return Rejected;
    }
    var services := NormalizeServices(out.services);
    out := out.(services := services);
    return Ok(out);
  }

  predicate ExecPathAllowed(path: string, bases: set<string>) {
    path == "" || (Text.IsAbs(path) && !Text.ContainsAny(path, "|&;<>$`\n\r") && Text.Base(path) in bases)
  }

  predicate ExecPathsAllowed(a: Actions) {
    && ExecPathAllowed(a.powerOffPath, {"systemctl", "poweroff"})
    && ExecPathAllowed(a.dockerPath, {"docker"})
    && ExecPathAllowed(a.syncPath, {"sync"})
  }

  function NormalActions(a: Actions): Result<Actions> {
    var out := Actions(a.realEnabled, true,
                       if a.cooldownSeconds <= 0 then DEFAULT_ACTIONS_COOLDOWN else a.cooldownSeconds,
                       Text.Trim(a.powerOffPath), Text.Trim(a.dockerPath), Text.Trim(a.syncPath),
                       if a.powerOffTimeout <= 0 then DEFAULT_POWEROFF_TIMEOUT else a.powerOffTimeout);
    if out.cooldownSeconds > MAX_COOLDOWN || out.powerOffTimeout > MAX_POWEROFF_TIMEOUT then Rejected
    else if !ExecPathsAllowed(out) then Rejected
    else Ok(out)
  }

  function NormalName(name: string): (r: string) {
    if Text.Fold(name) == "" then AUTO else Text.Fold(name)
  }

  function NormalGeneral(g: General): Result<General> {
    var provider, means := NormalName(g.provider), NormalName(g.thresholdMethod);
    if provider !in {AUTO, "sysfs", "mock"} || means !in {AUTO, "sysfs", "tlp", "none"} then Rejected
    else Ok(General(provider, means,
                    if g.powerPoll <= 0 then DEFAULT_POWER_POLL else g.powerPoll,
                    if g.powerDebounce <= 0 then DEFAULT_POWER_DEBOUNCE else g.powerDebounce))
  }

  function NormalAuth(a: Auth): Auth {
    a.(tokenHash := Text.Trim(a.tokenHash), createdAt := Text.Trim(a.createdAt), rotatedAt := Text.Trim(a.rotatedAt))
  }

  function Normal(c: Config): Result<Config> {
    match (NormalGeneral(c.general), NormalNotifications(c.notifications), NormalShutdown(c.shutdown), NormalDocker(c.docker),
           NormalSafety(c.safety), NormalDrain(c.drain), NormalActions(c.actions))
    case (Ok(g), Ok(n), Ok(s), Ok(d), Ok(y), Ok(a), Ok(x)) => Ok(Config(g, NormalAuth(c.auth), n, s, d, y, a, x))
    case _ => Rejected
  }

  /** A configuration that normalization leaves as it is. */
  predicate Normalized(c: Config) {
    Normal(c) == Ok(c)
  }

  // ----- what normalization promises

  /** What the controllers may assume of every published configuration. */
  predicate Sane(c: Config) {
    && c.general.powerPoll > 0 && c.general.powerDebounce > 0
    && c.general.provider in {AUTO, "sysfs", "mock"} && c.general.thresholdMethod in {AUTO, "sysfs", "tlp", "none"}
    && 0 <= c.shutdown.critical < c.shutdown.warning <= 100
    && 0 <= c.docker.timeoutSeconds <= MAX_DOCKER_TIMEOUT
    && 0 <= c.safety.minimumPercent <= 100
    && 0 <= c.safety.cooldownSeconds <= MAX_COOLDOWN
    && 1 <= c.drain.threshold <= 100
    && 1 <= c.drain.preNotifyMinutes <= MAX_DRAIN_MINUTES
    && 1 <= c.drain.responseMinutes <= MAX_DRAIN_MINUTES
    && c.drain.onUserNo == CONTINUE_ON_BATTERY
    && c.drain.services != []
    && (forall s :: s in c.drain.services ==> KnownService(s))
    && (forall i, j :: 0 <= i < j < |c.drain.services| ==> c.drain.services[i] != c.drain.services[j])
    && c.actions.requireConfirmation
    && 1 <= c.actions.cooldownSeconds <= MAX_COOLDOWN
    && 1 <= c.actions.powerOffTimeout <= MAX_POWEROFF_TIMEOUT
    && ExecPathsAllowed(c.actions)
    && (c.notifications.enabled ==> ProviderConfigured(c.notifications))
  }

  predicate KeptName(s: string) {
    KnownService(s) || s in {"none", "", CONTINUE_ON_BATTERY, AUTO, "sysfs", "mock", "tlp"}
  }

  lemma KnownServiceIsFolded(s: string)
    requires KnownService(s)
    ensures Text.Folded(s)
  {
  }

  lemma KeptNameIsFolded(s: string)
    requires KeptName(s)
    ensures Text.Folded(s)
  {
    if KnownService(s) {
      KnownServiceIsFolded(s);
    }
  }

  lemma KeptNamesFold()
    ensures forall s :: KeptName(s) ==> Text.Fold(s) == s
  {
    forall s | KeptName(s) ensures Text.Fold(s) == s {
      KeptNameIsFolded(s);
      Text.FoldOfFolded(s);
    }
  }

  lemma {:induction false} DistinctServicesFixed(names: seq<string>)
    requires forall s :: s in names ==> KnownService(s)
    requires forall i, j :: 0 <= i < j < |names| ==> names[i] != names[j]
    ensures DistinctServices(names) == names
  {
    if names != [] {
      var init, name := names[..|names| - 1], names[|names| - 1];
      assert names == init + [name];
      DistinctServicesFixed(init);
      KeptNamesFold();
    }
  }

  lemma NormalGeneralIdempotent(g: General)
    requires NormalGeneral(g).Ok?
    ensures NormalGeneral(NormalGeneral(g).value) == NormalGeneral(g)
  {
    KeptNamesFold();
  }

  lemma NormalAuthIdempotent(a: Auth)
    ensures NormalAuth(NormalAuth(a)) == NormalAuth(a)
  {
    Text.TrimIdempotent(a.tokenHash);
    Text.TrimIdempotent(a.createdAt);
    Text.TrimIdempotent(a.rotatedAt);
  }

  lemma NormalNotificationsIdempotent(n: Notifications)
    requires NormalNotifications(n).Ok?
    ensures NormalNotifications(NormalNotifications(n).value) == NormalNotifications(n)
    ensures n.enabled ==> ProviderConfigured(NormalNotifications(n).value)
  {
    KeptNamesFold();
    Text.TrimIdempotent(n.webhook.text);
    Text.TrimIdempotent(n.chatId);
  }

  lemma NormalDrainIdempotent(d: Drain)
    requires NormalDrain(d).Ok?
    ensures NormalDrain(NormalDrain(d).value) == NormalDrain(d)
  {
    KeptNamesFold();
    DistinctServicesFixed(NormalServices(d.services));
  }

  lemma NormalActionsIdempotent(a: Actions)
    requires NormalActions(a).Ok?
    ensures NormalActions(NormalActions(a).value) == NormalActions(a)
  {
    Text.TrimIdempotent(a.powerOffPath);
    Text.TrimIdempotent(a.dockerPath);
    Text.TrimIdempotent(a.syncPath);
  }

  /** Normalizing twice is normalizing once, and what comes out is sane. */
  lemma NormalizationIdempotentAndSane(c: Config)
    requires Normal(c).Ok?
    ensures Normalized(Normal(c).value)
    ensures Sane(Normal(c).value)
  {
    NormalGeneralIdempotent(c.general);
    NormalAuthIdempotent(c.auth);
    NormalNotificationsIdempotent(c.notifications);
    NormalDrainIdempotent(c.drain);
    NormalActionsIdempotent(c.actions);
  }

  // ----- updates

  datatype NotificationsPatch = NotificationsPatch(
    provider: Option<string>, enabled: Option<bool>, dryRun: Option<bool>, webhook: Option<Url>, chatId: Option<string>)

  datatype ShutdownPatch = ShutdownPatch(enabled: Option<bool>, warning: Option<int>, critical: Option<int>)

  datatype DockerPatch = DockerPatch(stopEnabled: Option<bool>, timeoutSeconds: Option<int>)

  datatype SafetyPatch = SafetyPatch(
    dryRun: Option<bool>, requireACLoss: Option<bool>, minimumPercent: Option<int>, cooldownSeconds: Option<int>)

  datatype ActionsPatch = ActionsPatch(
    realEnabled: Option<bool>, requireConfirmation: Option<bool>, cooldownSeconds: Option<int>,
    powerOffPath: Option<string>, dockerPath: Option<string>, syncPath: Option<string>, powerOffTimeout: Option<int>)

  datatype DrainPatch = DrainPatch(
    enabled: Option<bool>, threshold: Option<int>, preNotifyMinutes: Option<int>, responseMinutes: Option<int>,
    services: Option<seq<string>>, onUserNo: Option<string>)

  /** One request body: the sections it names. */
  datatype Patch = Patch(
    notifications: Option<NotificationsPatch>, shutdown: Option<ShutdownPatch>, docker: Option<DockerPatch>,
    safety: Option<SafetyPatch>, actions: Option<ActionsPatch>, drain: Option<DrainPatch>)

  function Or<T>(patch: Option<T>, current: T): T {
    if patch.Some? then patch.value else current
  }

  /** A blank or redacted secret keeps the stored one. */
  predicate Blank(secret: string) {
    Text.Trim(secret) == "" || Text.Trim(secret) == REDACTED
  }

  function PatchedNotifications(n: Notifications, p: NotificationsPatch): Notifications {
    var webhook :=
      if p.webhook.Some? && !Blank(p.webhook.value.text)
      then Url(Text.Trim(p.webhook.value.text), p.webhook.value.valid) else n.webhook;
    var chat := if p.chatId.Some? && !Blank(p.chatId.value) then Text.Trim(p.chatId.value) else n.chatId;
    Notifications(Or(p.provider, n.provider), Or(p.enabled, n.enabled), Or(p.dryRun, n.dryRun), webhook, chat)
  }

  function ApplyNotifications(n: Notifications, p: Option<NotificationsPatch>): Result<Notifications> {
    if p.None? then Ok(n) else NormalNotifications(PatchedNotifications(n, p.value))
  }

  function ApplyShutdown(s: Shutdown, p: Option<ShutdownPatch>): Result<Shutdown> {
    if p.None? then Ok(s)
    else
      NormalShutdown(
        Shutdown(Or(p.value.enabled, s.enabled), Or(p.value.warning, s.warning), Or(p.value.critical, s.critical)))
  }

  function ApplyDocker(d: Docker, p: Option<DockerPatch>): Result<Docker> {
    if p.None? then Ok(d)
    else NormalDocker(Docker(Or(p.value.stopEnabled, d.stopEnabled), Or(p.value.timeoutSeconds, d.timeoutSeconds)))
  }

  function ApplySafety(s: Safety, p: Option<SafetyPatch>): Result<Safety> {
    if p.None? then Ok(s)
    else
      NormalSafety(
        Safety(Or(p.value.dryRun, s.dryRun), Or(p.value.requireACLoss, s.requireACLoss),
               Or(p.value.minimumPercent, s.minimumPercent), Or(p.value.cooldownSeconds, s.cooldownSeconds)))
  }

  function PatchedActions(a: Actions, p: ActionsPatch): Actions {
    a.(realEnabled := Or(p.realEnabled, a.realEnabled),
       requireConfirmation := Or(p.requireConfirmation, a.requireConfirmation),
       cooldownSeconds := Or(p.cooldownSeconds, a.cooldownSeconds),
       powerOffTimeout := Or(p.powerOffTimeout, a.powerOffTimeout))
  }

  /** Executable paths cannot be set over HTTP. */
  function ApplyActions(a: Actions, p: Option<ActionsPatch>): Result<Actions> {
    if p.None? then Ok(a)
    else if p.value.powerOffPath.Some? || p.value.dockerPath.Some? || p.value.syncPath.Some? then Rejected
    else NormalActions(PatchedActions(a, p.value))
  }

  function PatchedDrain(d: Drain, p: DrainPatch): Drain {
    Drain(Or(p.enabled, d.enabled), Or(p.threshold, d.threshold), Or(p.preNotifyMinutes, d.preNotifyMinutes),
          Or(p.responseMinutes, d.responseMinutes), Or(p.services, d.services), Or(p.onUserNo, d.onUserNo))
  }

  function ApplyDrain(d: Drain, p: Option<DrainPatch>): Result<Drain> {
    if p.None? then Ok(d) else NormalDrain(PatchedDrain(d, p.value))
  }

  /** What an accepted request leaves published: each section it names is patched and
      normalized, every other section is the one published before. */
  predicate Updates(c: Config, p: Patch, r: Config) {
    && r.general == c.general && r.auth == c.auth
    && ApplyNotifications(c.notifications, p.notifications) == Ok(r.notifications)
    && ApplyShutdown(c.shutdown, p.shutdown) == Ok(r.shutdown)
    && ApplyDocker(c.docker, p.docker) == Ok(r.docker)
    && ApplySafety(c.safety, p.safety) == Ok(r.safety)
    && ApplyActions(c.actions, p.actions) == Ok(r.actions)
    && ApplyDrain(c.drain, p.drain) == Ok(r.drain)
  }

  /** Some section the request names cannot take its patch. */
  predicate Refused(c: Config, p: Patch) {
    || ApplyNotifications(c.notifications, p.notifications).Rejected?
    || ApplyShutdown(c.shutdown, p.shutdown).Rejected?
    || ApplyDocker(c.docker, p.docker).Rejected?
    || ApplySafety(c.safety, p.safety).Rejected?
    || ApplyActions(c.actions, p.actions).Rejected?
    || ApplyDrain(c.drain, p.drain).Rejected?
  }

  /** The chained section updates, on a copy. */
  method PatchSections(c: Config, p: Patch) returns (r: Result<Config>)
    ensures r.Rejected? <==> Refused(c, p)
    ensures r.Ok? ==> Updates(c, p, r.value)
  {
    var next := c;
    var notifications := ApplyNotifications(next.notifications, p.notifications);
    if notifications.Rejected? {
      return Rejected;
    }
    next := next.(notifications := notifications.value);
    var shutdown := ApplyShutdown(next.shutdown, p.shutdown);
    if shutdown.Rejected? {
      return Rejected;
    }
    next := next.(shutdown := shutdown.value);
    var docker := ApplyDocker(next.docker, p.docker);
    if docker.Rejected? {
      return Rejected;
    }
    next := next.(docker := docker.value);
    var safety := ApplySafety(next.safety, p.safety);
    if safety.Rejected? {
      return Rejected;
    }
    next := next.(safety := safety.value);
    var actions := ApplyActions(next.actions, p.actions);
    if actions.Rejected? {
      return Rejected;
    }
    next := next.(actions := actions.value);
    if p.drain.Some? {
      var drain := NormalizeDrain(PatchedDrain(next.drain, p.drain.value));
      if drain.Rejected? {
        return Rejected;
      }
      next := next.(drain := drain.value);
    }
    return Ok(next);
  }

  /** The server's published configuration. */
  class Server {
    var cfg: Config

    constructor (initial: Config)
      requires Normalized(initial)
      ensures cfg == initial
    {
      cfg := initial;
    }

    /** `updateSettings` running the chained section updates under the server's lock. `saved`
        says whether the file could be written. An accepted request publishes exactly the
        patched sections; a request with a section that is refused, or that cannot be saved,
        publishes nothing. */
    method PutConfig(p: Patch, saved: bool) returns (ok: bool)
      requires Normalized(cfg)
      modifies this
      ensures Normalized(cfg)
      ensures ok <==> saved && !Refused(old(cfg), p)
      ensures if ok then Updates(old(cfg), p, cfg) else cfg == old(cfg)
    {
      var next := PatchSections(cfg, p);
      if next.Rejected? {
        return false;
      }
      UpdatedIsNormalized(cfg, p, next.value);
      var normal := Normal(next.value);
      if normal.Rejected? || !saved {
        return false;
      }
      cfg := normal.value;
      return true;
    }
  }

  lemma PatchedSectionsAreFixed(c: Config, p: Patch)
    requires Normalized(c) && !Refused(c, p)
    ensures forall n :: ApplyNotifications(c.notifications, p.notifications) == Ok(n) ==> NormalNotifications(n) == Ok(n)
    ensures forall a :: ApplyActions(c.actions, p.actions) == Ok(a) ==> NormalActions(a) == Ok(a)
    ensures forall d :: ApplyDrain(c.drain, p.drain) == Ok(d) ==> NormalDrain(d) == Ok(d)
  {
    if p.notifications.Some? {
      NormalNotificationsIdempotent(PatchedNotifications(c.notifications, p.notifications.value));
    }
    if p.actions.Some? {
      NormalActionsIdempotent(PatchedActions(c.actions, p.actions.value));
    }
    if p.drain.Some? {
      NormalDrainIdempotent(PatchedDrain(c.drain, p.drain.value));
    }
  }

  /** From a normalized start the sections of an accepted update are all normalized, so the
      normalization that ends every update neither refuses nor rewrites anything. */
  lemma UpdatedIsNormalized(c: Config, p: Patch, r: Config)
    requires Normalized(c) && Updates(c, p, r)
    ensures Normalized(r)
  {
    PatchedSectionsAreFixed(c, p);
  }

  /** Every request of a sequence of update requests, with whether it could be saved. */
  ghost predicate Published(history: seq<Config>, requests: seq<(Patch, bool)>) {
    && |history| == |requests| + 1
    && forall i :: 0 <= i < |requests| ==>
         if requests[i].1 && !Refused(history[i], requests[i].0)
         then Updates(history[i], requests[i].0, history[i + 1])
         else history[i + 1] == history[i]
  }

  /** From a normalized start, every configuration ever published is normalized and sane. */
  lemma {:induction false} EveryPublishedConfigIsSane(history: seq<Config>, requests: seq<(Patch, bool)>, n: nat)
    requires Published(history, requests) && Normalized(history[0]) && n < |history|
    ensures Normalized(history[n]) && Sane(history[n])
  {
    if n > 0 {
      EveryPublishedConfigIsSane(history, requests, n - 1);
      if requests[n - 1].1 && !Refused(history[n - 1], requests[n - 1].0) {
        UpdatedIsNormalized(history[n - 1], requests[n - 1].0, history[n]);
      }
    }
    NormalizationIdempotentAndSane(history[n]);
  }
}
