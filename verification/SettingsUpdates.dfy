/** What an accepted update leaves in every field: the given value, or its normal form, where the
    request gives one, and the published value where it does not; and when an update is refused. */
module SettingsUpdates {
  import opened Basics
  import opened Settings
  import Text

  // ----- the sections, field by field

  predicate IsPercent(value: int) {
    0 <= value <= 100
  }

  /** The field is what the section's patch gives, or what was published. */
  predicate Takes<P, T(==)>(section: Option<P>, given: P -> Option<T>, before: T, after: T) {
    if section.Some? && given(section.value).Some? then after == given(section.value).value else after == before
  }

  /** The same, for a field that is put in a normal form. */
  predicate TakesNormal<P, T(==)>(section: Option<P>, given: P -> Option<T>, normal: T -> T, before: T, after: T) {
    if section.Some? && given(section.value).Some? then after == normal(given(section.value).value) else after == before
  }

  predicate ShutdownTakes(c: Shutdown, p: Option<ShutdownPatch>, r: Shutdown) {
    && Takes(p, (x: ShutdownPatch) => x.enabled, c.enabled, r.enabled)
    && Takes(p, (x: ShutdownPatch) => x.warning, c.warning, r.warning)
    && Takes(p, (x: ShutdownPatch) => x.critical, c.critical, r.critical)
  }

  lemma ShutdownFields(c: Shutdown, p: Option<ShutdownPatch>, r: Shutdown)
    requires ApplyShutdown(c, p) == Ok(r)
    ensures ShutdownTakes(c, p, r)
  {
  }

  lemma ShutdownAccepted(c: Shutdown, p: Option<ShutdownPatch>, next: Shutdown)
    requires p.Some?
    requires Takes(p, (x: ShutdownPatch) => x.enabled, c.enabled, next.enabled)
    requires Takes(p, (x: ShutdownPatch) => x.warning, c.warning, next.warning)
    requires Takes(p, (x: ShutdownPatch) => x.critical, c.critical, next.critical)
    ensures ApplyShutdown(c, p).Ok? <==> IsPercent(next.warning) && IsPercent(next.critical) && next.critical < next.warning
  {
  }

  predicate DockerTakes(c: Docker, p: Option<DockerPatch>, r: Docker) {
    && Takes(p, (x: DockerPatch) => x.stopEnabled, c.stopEnabled, r.stopEnabled)
    && Takes(p, (x: DockerPatch) => x.timeoutSeconds, c.timeoutSeconds, r.timeoutSeconds)
  }

  lemma DockerFields(c: Docker, p: Option<DockerPatch>, r: Docker)
    requires ApplyDocker(c, p) == Ok(r)
    ensures DockerTakes(c, p, r)
  {
  }

  lemma DockerAccepted(c: Docker, p: Option<DockerPatch>, next: Docker)
    requires p.Some? && Takes(p, (x: DockerPatch) => x.timeoutSeconds, c.timeoutSeconds, next.timeoutSeconds)
    ensures ApplyDocker(c, p).Ok? <==> 0 <= next.timeoutSeconds <= 3600
  {
  }

  predicate SafetyTakes(c: Safety, p: Option<SafetyPatch>, r: Safety) {
    && Takes(p, (x: SafetyPatch) => x.dryRun, c.dryRun, r.dryRun)
    && Takes(p, (x: SafetyPatch) => x.requireACLoss, c.requireACLoss, r.requireACLoss)
    && Takes(p, (x: SafetyPatch) => x.minimumPercent, c.minimumPercent, r.minimumPercent)
    && Takes(p, (x: SafetyPatch) => x.cooldownSeconds, c.cooldownSeconds, r.cooldownSeconds)
  }

  lemma SafetyFields(c: Safety, p: Option<SafetyPatch>, r: Safety)
    requires ApplySafety(c, p) == Ok(r)
    ensures SafetyTakes(c, p, r)
  {
  }

  lemma SafetyAccepted(c: Safety, p: Option<SafetyPatch>, next: Safety)
    requires p.Some?
    requires Takes(p, (x: SafetyPatch) => x.minimumPercent, c.minimumPercent, next.minimumPercent)
    requires Takes(p, (x: SafetyPatch) => x.cooldownSeconds, c.cooldownSeconds, next.cooldownSeconds)
    ensures ApplySafety(c, p).Ok? <==> IsPercent(next.minimumPercent) && 0 <= next.cooldownSeconds <= 86400
  {
  }

  function PositiveOr(default: int): int -> int {
    (x: int) => if x > 0 then x else default
  }

  /** Confirmation is required whatever the request says, and the executable paths stay. */
  predicate ActionsTakes(c: Actions, p: Option<ActionsPatch>, r: Actions) {
    && Takes(p, (x: ActionsPatch) => x.realEnabled, c.realEnabled, r.realEnabled)
    && TakesNormal(p, (x: ActionsPatch) => x.cooldownSeconds, PositiveOr(60), c.cooldownSeconds, r.cooldownSeconds)
    && TakesNormal(p, (x: ActionsPatch) => x.powerOffTimeout, PositiveOr(30), c.powerOffTimeout, r.powerOffTimeout)
    && r.requireConfirmation
    && r.powerOffPath == c.powerOffPath && r.dockerPath == c.dockerPath && r.syncPath == c.syncPath
  }

  lemma ActionsFields(c: Actions, p: Option<ActionsPatch>, r: Actions)
    requires NormalActions(c) == Ok(c) && ApplyActions(c, p) == Ok(r)
    ensures ActionsTakes(c, p, r)
  {
  }

  lemma ActionsAccepted(c: Actions, p: Option<ActionsPatch>, next: Actions)
    requires NormalActions(c) == Ok(c) && p.Some?
    requires Takes(p, (x: ActionsPatch) => x.cooldownSeconds, c.cooldownSeconds, next.cooldownSeconds)
    requires Takes(p, (x: ActionsPatch) => x.powerOffTimeout, c.powerOffTimeout, next.powerOffTimeout)
    ensures ApplyActions(c, p).Ok? <==>
      && p.value.powerOffPath.None? && p.value.dockerPath.None? && p.value.syncPath.None?
      && next.cooldownSeconds <= 86400 && next.powerOffTimeout <= 600
  {
  }

  function NonZeroOr(default: int): int -> int {
    (x: int) => if x == 0 then default else x
  }

  predicate DrainTakes(c: Drain, p: Option<DrainPatch>, r: Drain) {
    && Takes(p, (x: DrainPatch) => x.enabled, c.enabled, r.enabled)
    && TakesNormal(p, (x: DrainPatch) => x.threshold, NonZeroOr(10), c.threshold, r.threshold)
    && TakesNormal(p, (x: DrainPatch) => x.preNotifyMinutes, NonZeroOr(30), c.preNotifyMinutes, r.preNotifyMinutes)
    && TakesNormal(p, (x: DrainPatch) => x.responseMinutes, NonZeroOr(10), c.responseMinutes, r.responseMinutes)
    && TakesNormal(p, (x: DrainPatch) => x.services, NormalServices, c.services, r.services)
    && r.onUserNo == "continue_on_battery"
  }

  lemma DrainFields(c: Drain, p: Option<DrainPatch>, r: Drain)
    requires NormalDrain(c) == Ok(c) && ApplyDrain(c, p) == Ok(r)
    ensures DrainTakes(c, p, r)
  {
    NormalDrainIdempotent(c);
  }

  lemma DrainAccepted(c: Drain, p: Option<DrainPatch>, next: Drain)
    requires NormalDrain(c) == Ok(c) && p.Some?
    requires Takes(p, (x: DrainPatch) => x.threshold, c.threshold, next.threshold)
    requires Takes(p, (x: DrainPatch) => x.preNotifyMinutes, c.preNotifyMinutes, next.preNotifyMinutes)
    requires Takes(p, (x: DrainPatch) => x.responseMinutes, c.responseMinutes, next.responseMinutes)
    requires Takes(p, (x: DrainPatch) => x.onUserNo, c.onUserNo, next.onUserNo)
    ensures ApplyDrain(c, p).Ok? <==>
      && IsPercent(next.threshold) && 0 <= next.preNotifyMinutes <= 1440 && 0 <= next.responseMinutes <= 1440
      && (Text.Fold(next.onUserNo) == "" || Text.Fold(next.onUserNo) == "continue_on_battery")
  {
  }

  /** A provider's name, folded, with the empty one standing for none. */
  function ProviderName(s: string): string {
    if Text.Fold(s) == "" then "none" else Text.Fold(s)
  }

  /** A secret that is blank or redacted keeps the published one. */
  predicate KeepsSecret(s: string) {
    Text.Trim(s) == "" || Text.Trim(s) == "[redacted]"
  }

  predicate NotificationsTakes(c: Notifications, p: Option<NotificationsPatch>, r: Notifications) {
    && TakesNormal(p, (x: NotificationsPatch) => x.provider, ProviderName, c.provider, r.provider)
    && Takes(p, (x: NotificationsPatch) => x.enabled, c.enabled, r.enabled)
    && Takes(p, (x: NotificationsPatch) => x.dryRun, c.dryRun, r.dryRun)
    && (if p.Some? && p.value.webhook.Some? && !KeepsSecret(p.value.webhook.value.text)
        then r.webhook == Url(Text.Trim(p.value.webhook.value.text), p.value.webhook.value.valid)
        else r.webhook == c.webhook)
    && (if p.Some? && p.value.chatId.Some? && !KeepsSecret(p.value.chatId.value)
        then r.chatId == Text.Trim(p.value.chatId.value) else r.chatId == c.chatId)
  }

  lemma NotificationsFields(c: Notifications, p: Option<NotificationsPatch>, r: Notifications)
    requires NormalNotifications(c) == Ok(c) && ApplyNotifications(c, p) == Ok(r)
    ensures NotificationsTakes(c, p, r)
  {
    if p.Some? {
      if p.value.webhook.Some? {
        Text.TrimIdempotent(p.value.webhook.value.text);
      }
      if p.value.chatId.Some? {
        Text.TrimIdempotent(p.value.chatId.value);
      }
    }
  }

  predicate IsProvider(name: string) {
    name == "ntfy" || name == "telegram" || name == "discord" || name == "webhook"
  }

  /** Enabled notifications need a known provider with a URL, and Telegram a chat; a URL has to parse
      whether they are enabled or not. */
  lemma NotificationsAccepted(c: Notifications, p: NotificationsPatch)
    ensures var next := PatchedNotifications(c, p);
      var provider, url, chat := ProviderName(next.provider), Text.Trim(next.webhook.text), Text.Trim(next.chatId);
      ApplyNotifications(c, Some(p)).Ok? <==>
      && (provider == "none" || IsProvider(provider))
      && |url| <= 2048 && |chat| <= 128 && (url != "" ==> next.webhook.valid)
      && (next.enabled ==> IsProvider(provider) && url != "" && (provider == "telegram" ==> chat != ""))
  {
  }

  /** What an accepted request publishes, field by field. */
  lemma UpdateTakesEveryField(c: Config, p: Patch, r: Config)
    requires Normalized(c) && Updates(c, p, r)
    ensures NotificationsTakes(c.notifications, p.notifications, r.notifications)
    ensures ShutdownTakes(c.shutdown, p.shutdown, r.shutdown) && DockerTakes(c.docker, p.docker, r.docker)
    ensures SafetyTakes(c.safety, p.safety, r.safety)
    ensures DrainTakes(c.drain, p.drain, r.drain) && ActionsTakes(c.actions, p.actions, r.actions)
    ensures r.general == c.general && r.auth == c.auth
  {
    NotificationsFields(c.notifications, p.notifications, r.notifications);
    ShutdownFields(c.shutdown, p.shutdown, r.shutdown);
    DockerFields(c.docker, p.docker, r.docker);
    SafetyFields(c.safety, p.safety, r.safety);
    DrainFields(c.drain, p.drain, r.drain);
    ActionsFields(c.actions, p.actions, r.actions);
  }

  // ----- what no request changes

  function NameOrAuto(name: string): string {
    if Text.Fold(name) == "" then "auto" else Text.Fold(name)
  }

  /** The settings that only a restart changes, as a start normalizes them. */
  lemma GeneralAndAuthForms(c: Config, r: Config)
    requires Normal(c) == Ok(r)
    ensures r.general.provider == NameOrAuto(c.general.provider)
    ensures r.general.thresholdMethod == NameOrAuto(c.general.thresholdMethod)
    ensures r.general.powerPoll == if c.general.powerPoll > 0 then c.general.powerPoll else 5_000_000_000
    ensures r.general.powerDebounce == if c.general.powerDebounce > 0 then c.general.powerDebounce else 10_000_000_000
    ensures r.auth.enabled == c.auth.enabled && r.auth.allowLoopbackNoToken == c.auth.allowLoopbackNoToken
    ensures r.auth.tokenHash == Text.Trim(c.auth.tokenHash)
    ensures r.auth.createdAt == Text.Trim(c.auth.createdAt) && r.auth.rotatedAt == Text.Trim(c.auth.rotatedAt)
  {
  }

  lemma GeneralAccepted(g: General)
    ensures var provider, means := NameOrAuto(g.provider), NameOrAuto(g.thresholdMethod);
      NormalGeneral(g).Ok? <==>
      && (provider == "auto" || provider == "sysfs" || provider == "mock")
      && (means == "auto" || means == "sysfs" || means == "tlp" || means == "none")
  {
  }

  // ----- the services of a drain

  predicate Mentions(names: seq<string>, k: nat, service: string) {
    k < |names| && Text.Fold(names[k]) == service
  }

  lemma KeptIsMentioned(names: seq<string>, s: string)
    ensures s in DistinctServices(names) <==> IsProvider(s) && exists k: nat :: Mentions(names, k, s)
  {
    if raw :| raw in names && Text.Fold(raw) == s {
      var k :| 0 <= k < |names| && names[k] == raw;
      assert Mentions(names, k, s);
    }
    if k: nat :| Mentions(names, k, s) {
      assert names[k] in names;
    }
  }

  /** Some mention of `s` comes before every mention of `t`. */
  ghost predicate MentionedFirst(names: seq<string>, s: string, t: string) {
    exists k: nat :: Mentions(names, k, s) && forall l: nat :: Mentions(names, l, t) ==> k < l
  }

  lemma StaysFirst(names: seq<string>, raw: string, s: string, t: string)
    requires MentionedFirst(names, s, t)
    ensures MentionedFirst(names + [raw], s, t)
  {
    var k: nat :| Mentions(names, k, s) && forall l: nat :: Mentions(names, l, t) ==> k < l;
    assert Mentions(names + [raw], k, s);
    forall l: nat | Mentions(names + [raw], l, t) ensures k < l {
      assert l == |names| || Mentions(names, l, t);
    }
  }

  /** The services stand in the order of their first mentions. */
  lemma {:induction false} ServicesKeepTheirOrder(names: seq<string>, i: nat, j: nat)
    requires i < j < |DistinctServices(names)|
    ensures MentionedFirst(names, DistinctServices(names)[i], DistinctServices(names)[j])
  {
    var init, raw := names[..|names| - 1], names[|names| - 1];
    var r, kept := DistinctServices(names), DistinctServices(init);
    assert names == init + [raw];
    if j < |kept| {
      ServicesKeepTheirOrder(init, i, j);
    } else {
      LastServiceIsNew(init, r[i], r[j]);
    }
    StaysFirst(init, raw, r[i], r[j]);
  }

  lemma LastServiceIsNew(names: seq<string>, s: string, t: string)
    requires s in DistinctServices(names) && t !in DistinctServices(names) && KnownService(t)
    ensures MentionedFirst(names, s, t)
  {
    KeptIsMentioned(names, s);
    KeptIsMentioned(names, t);
  }

  /** They are the known services mentioned, or ntfy alone when none is. */
  lemma ServicesAreTheKnownOnes(names: seq<string>)
    ensures (forall s :: s in NormalServices(names) <==> IsProvider(s) && exists k: nat :: Mentions(names, k, s))
         || ((forall s, k: nat :: IsProvider(s) ==> !Mentions(names, k, s)) && NormalServices(names) == ["ntfy"])
  {
    forall s ensures s in DistinctServices(names) <==> IsProvider(s) && exists k: nat :: Mentions(names, k, s) {
      KeptIsMentioned(names, s);
    }
    if DistinctServices(names) == [] {
      forall s, k: nat ensures IsProvider(s) ==> !Mentions(names, k, s) {
        assert s !in DistinctServices(names);
      }
    }
  }

  // ----- histories

  /** A request that is accepted and gives `dry_run`. */
  predicate SetsDryRun(p: Patch, value: bool) {
    p.safety.Some? && p.safety.value.dryRun == Some(value)
  }

  /** Once an accepted request sets `dry_run`, it stays set until an accepted request unsets it. */
  lemma {:induction false} DryRunStays(history: seq<Config>, requests: seq<(Patch, bool)>, n: nat, m: nat)
    requires Published(history, requests) && n < m < |history|
    requires SetsDryRun(requests[n].0, true) && requests[n].1 && !Refused(history[n], requests[n].0)
    requires forall k :: n < k < m ==> !SetsDryRun(requests[k].0, false)
    ensures history[m].safety.dryRun && !history[m].ManualActionsReady()
  {
    var p := requests[m - 1].0;
    if m - 1 > n {
      DryRunStays(history, requests, n, m - 1);
    }
    if requests[m - 1].1 && !Refused(history[m - 1], p) {
      SafetyFields(history[m - 1].safety, p.safety, history[m].safety);
    }
  }
}
