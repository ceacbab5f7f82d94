/** What dry run promises from the request that sets it: no manual action begins and no real host call
    is made on the configurations published from there, until a request unsets it. */
module DryRun {
  import opened Basics
  import opened Safety
  import opened Settings
  import opened SettingsUpdates
  import DrainProtocol
  import DrainSafety
  import GuardProtocol

  /** Request `n` set dry run and was accepted, and no request since unsets it. */
  ghost predicate DrySince(history: seq<Config>, requests: seq<(Patch, bool)>, n: nat) {
    && Published(history, requests) && n < |requests|
    && SetsDryRun(requests[n].0, true) && requests[n].1 && !Refused(history[n], requests[n].0)
    && forall k :: n < k < |requests| ==> !SetsDryRun(requests[k].0, false)
  }

  lemma PublishedSinceIsDry(history: seq<Config>, requests: seq<(Patch, bool)>, n: nat, cfg: Config)
    requires DrySince(history, requests, n) && cfg in history[n + 1..]
    ensures cfg.safety.dryRun
  {
    var k :| 0 <= k < |history| - (n + 1) && history[n + 1..][k] == cfg;
    DryRunStays(history, requests, n, n + 1 + k);
  }

  /** Every configuration the action reads is one of `published`. */
  predicate DrainReads(a: DrainProtocol.Action, published: seq<Config>) {
    match a
    case Enter(cfg, _, _) => cfg in published
    case Respond(cfg, _, _) => cfg in published
    case Gate(_, live) => live in published
    case _ => true
  }

  predicate GuardReads(a: GuardProtocol.Action, published: seq<Config>) {
    match a
    case Arrive(cfg, _, _, _, _) => cfg in published
    case Choose(_, live) => live in published
    case _ => true
  }

  /** No manual action begins. */
  lemma NoManualActionBegins(
    history: seq<Config>, requests: seq<(Patch, bool)>, n: nat, actions: seq<GuardProtocol.Action>)
    requires DrySince(history, requests, n)
    requires forall i :: 0 <= i < |actions| ==> GuardReads(actions[i], history[n + 1..])
    ensures forall i :: 0 <= i < |GuardProtocol.Run(actions).log| ==> !GuardProtocol.Run(actions).log[i].Began?
  {
    forall i | 0 <= i < |actions| ensures GuardProtocol.Dry(actions[i]) {
      match actions[i]
      case Arrive(cfg, _, _, _, _) => PublishedSinceIsDry(history, requests, n, cfg);
      case Choose(_, live) => PublishedSinceIsDry(history, requests, n, live);
      case _ =>
    }
    GuardProtocol.DryRunNeverBegins(actions);
  }

  /** A call that was in a real host sequence already. */
  predicate WasReal(s: DrainProtocol.System, t: nat) {
    t < |s.threads| && s.threads[t].Running? && s.threads[t].executor.Real?
  }

  /** Since `s`, only sequences that were real there are, or have called, the real executor. */
  predicate NoNewReal(s: DrainProtocol.System, r: DrainProtocol.System) {
    && |s.log| <= |r.log| && |s.threads| <= |r.threads|
    && (forall t: nat :: t < |r.threads| && WasReal(r, t) ==> WasReal(s, t))
    && forall i :: |s.log| <= i < |r.log| && r.log[i].event.Called? && r.log[i].event.executor.Real? ==>
         WasReal(s, r.log[i].event.t)
  }

  lemma DryStepAddsNoReal(s: DrainProtocol.System, r: DrainProtocol.System, a: DrainProtocol.Action)
    requires NoNewReal(s, r) && DrainSafety.Dry(a)
    ensures NoNewReal(s, DrainProtocol.Next(r, a))
  {
  }

  /** From whatever point dry run is set, auto-drain makes no real call but those of a sequence that
      was on its way with the real executor before. */
  lemma {:induction false} NoRealDrainCall(
    history: seq<Config>, requests: seq<(Patch, bool)>, n: nat, s: DrainProtocol.System, more: seq<DrainProtocol.Action>)
    requires DrySince(history, requests, n)
    requires forall i :: 0 <= i < |more| ==> DrainReads(more[i], history[n + 1..])
    ensures NoNewReal(s, DrainProtocol.RunFrom(s, more))
  {
    if more != [] {
      var init, a := more[..|more| - 1], more[|more| - 1];
      NoRealDrainCall(history, requests, n, s, init);
      match a {
        case Enter(cfg, _, _) => PublishedSinceIsDry(history, requests, n, cfg);
        case Respond(cfg, _, _) => PublishedSinceIsDry(history, requests, n, cfg);
        case Gate(_, live) => PublishedSinceIsDry(history, requests, n, live);
        case _ =>
      }
      DryStepAddsNoReal(s, DrainProtocol.RunFrom(s, init), a);
    }
  }
}
