/** Auto-drain as a concurrent protocol.

    A system is the shared state, the calls in progress, and the log of what has happened.
    Each action is one atomic step: one locked region, one return of the notifier, or one host
    call. Configurations, samples, clocks, outcomes and the schedule are whatever the actions
    say, so a list of actions is any interleaving of any number of `Tick`, `Respond` and
    `Reset` calls; an action whose call is not at that point does nothing. */
module DrainProtocol {
  import opened Basics
  import opened Power
  import opened Safety
  import opened AutoDrain
  import Settings

  /** Where a call of `Tick` or `Respond` stands while it does not hold the mutex. */
  datatype Thread =
    | Notifying(cfg: Settings.Config, sample: StampedSample)
    | Delivered(cfg: Settings.Config, sample: StampedSample)
    | Undelivered
    | Consenting(cfg: Settings.Config, sample: StampedSample, trigger: Trigger)
    | Running(cfg: Settings.Config, trigger: Trigger, executor: Executor, made: nat)
    | Finishing(cfg: Settings.Config, trigger: Trigger, ok: bool)
    | Done

  datatype Action =
    | Enter(cfg: Settings.Config, sample: Sample, clock: int)
    | Return(t: nat, ok: bool)
    | Relock(t: nat)
    | Respond(cfg: Settings.Config, yes: bool, clock: int)
    | Reset
    | Gate(t: nat, live: Settings.Config)
    | Call(t: nat, ok: bool)
    | Close(t: nat)

  /** `Returned(t, true)` is `sendWarning` returning nil, which it also does after a panic. */
  datatype Event =
    | Ticked(t: nat, cfg: Settings.Config, sample: StampedSample, move: TickMove, reset: bool)
    | Returned(t: nat, ok: bool)
    | Prompted(t: nat, cfg: Settings.Config, sample: StampedSample)
    | Abandoned(t: nat)
    | Unprompted(t: nat, reset: bool)
    | RefusedByUser(t: nat)
    | AgreedByUser(t: nat, cfg: Settings.Config, sample: StampedSample)
    | ResetCalled
    | Started(t: nat, cfg: Settings.Config, sample: StampedSample, trigger: Trigger, live: Settings.Config)
    | Barred(t: nat)
    | Called(t: nat, executor: Executor, action: HostAction, ok: bool)
    | Closed(t: nat, ok: bool, claimed: bool)

  /** An event, and whether a prompt was waiting for an answer when it happened. */
  datatype Entry = Entry(open: bool, event: Event)

  datatype System = System(notifier: bool, drain: Drain, threads: seq<Thread>, log: seq<Entry>)

  function Start(notifier: bool): System {
    System(notifier, FRESH, [], [])
  }

  predicate At(s: System, t: nat) {
    t < |s.threads|
  }

  /** The system after a step that leaves `drain`, puts thread `t` at `thread` and logs `event`. */
  function Step(s: System, drain: Drain, t: nat, thread: Thread, event: Event): System
    requires t <= |s.threads|
  {
    var threads := if t < |s.threads| then s.threads[t := thread] else s.threads + [thread];
    s.(drain := drain, threads := threads, log := s.log + [Entry(s.drain.state.Awaiting?, event)])
  }

  function Next(s: System, a: Action): System {
    match a
    case Enter(cfg, sample, clock) =>
      var stamped := sample.Stamped(clock);
      var (d, move, reset) := TickRegion(s.drain, s.notifier, cfg, stamped);
      var thread := match move
        case Rest => Done
        case Warn => Notifying(cfg, stamped)
        case Expire => Consenting(cfg, stamped, Timeout);
      Step(s, d, |s.threads|, thread, Ticked(|s.threads|, cfg, stamped, move, reset))
    case Return(t, ok) =>
      if At(s, t) && s.threads[t].Notifying? then
        var c := s.threads[t];
        Step(s, s.drain, t, if ok then Delivered(c.cfg, c.sample) else Undelivered, Returned(t, ok))
      else s
    case Relock(t) =>
      if At(s, t) && s.threads[t].Delivered? then
        var c := s.threads[t];
        Step(s, PromptRegion(s.drain, c.cfg, c.sample), t, Done, Prompted(t, c.cfg, c.sample))
      else if At(s, t) && s.threads[t].Undelivered? then
        Step(s, ToIdle(s.drain), t, Done, Abandoned(t))
      else s
    case Respond(cfg, yes, clock) =>
      var t := |s.threads|;
      var (d, reply) := RespondRegion(s.drain, yes, clock);
      (match reply
       case NoPrompt(reset) => Step(s, d, t, Done, Unprompted(t, reset))
       case Declined => Step(s, d, t, Done, RefusedByUser(t))
       case Confirmed(sample) => Step(s, d, t, Consenting(cfg, sample, Yes), AgreedByUser(t, cfg, sample)))
    case Reset =>
      s.(drain := ToIdle(s.drain), log := s.log + [Entry(s.drain.state.Awaiting?, ResetCalled)])
    case Gate(t, live) =>
      if At(s, t) && s.threads[t].Consenting? then
        var c := s.threads[t];
        var (d, go) := GateRegion(s.drain, c.cfg, c.sample, c.trigger);
        if go then
          Step(s, d, t, Running(c.cfg, c.trigger, Pick(c.cfg, live), 0),
               Started(t, c.cfg, c.sample, c.trigger, live))
        else Step(s, d, t, Done, Barred(t))
      else s
    case Call(t, outcome) =>
      if At(s, t) && s.threads[t].Running? && s.threads[t].made < |DRAIN_PLAN| then
        var c := s.threads[t];
        var ok := outcome || c.executor.Recording?;
        var thread :=
          if !ok || c.made + 1 == |DRAIN_PLAN| then Finishing(c.cfg, c.trigger, ok) else c.(made := c.made + 1);
        Step(s, s.drain, t, thread, Called(t, c.executor, DRAIN_PLAN[c.made], ok))
      else s
    case Close(t) =>
      if At(s, t) && s.threads[t].Finishing? then
        var c := s.threads[t];
        var d := CloseRegion(s.drain, c.cfg, c.ok);
        Step(s, d, t, Done, Closed(t, c.ok, d.commandsExecuted))
      else s
  }

  /** The system after `actions`, from `s`. */
  function RunFrom(s: System, actions: seq<Action>): System {
    if actions == [] then s
    else Next(RunFrom(s, actions[..|actions| - 1]), actions[|actions| - 1])
  }

  function Run(notifier: bool, actions: seq<Action>): System {
    RunFrom(Start(notifier), actions)
  }

  lemma RunFromAppends(s: System, actions: seq<Action>, a: Action)
    ensures RunFrom(s, actions + [a]) == Next(RunFrom(s, actions), a)
  {
    assert (actions + [a])[..|actions|] == actions;
  }

  // ----- reading the log

  /** The step passed through a reset to idle. */
  predicate IsReset(e: Event) {
    || e.Abandoned? || e.ResetCalled?
    || (e.Ticked? && e.reset) || (e.Unprompted? && e.reset)
  }

  /** Where the prompt recorded last stands in the log, unless a reset followed it. */
  function Standing(log: seq<Entry>): (p: Option<nat>)
    ensures p.Some? ==> p.value < |log| && log[p.value].event.Prompted?
    ensures p.Some? ==> forall i :: p.value < i < |log| ==> !IsReset(log[i].event) && !log[i].event.Prompted?
  {
    if log == [] then None
    else
      var n := |log| - 1;
      if log[n].event.Prompted? then Some(n)
      else if IsReset(log[n].event) then None
      else Standing(log[..n])
  }

  /** When the prompt at `p` runs out: the prompting tick's time plus the timeout it read. */
  function Due(log: seq<Entry>, p: nat): int
    requires p < |log| && log[p].event.Prompted?
  {
    log[p].event.sample.now.value + Wait(log[p].event.cfg)
  }

  predicate Of(e: Event, t: nat) {
    !e.ResetCalled? && e.t == t
  }

  /** The events of one call, in order. */
  function Story(log: seq<Entry>, t: nat): seq<Event> {
    if log == [] then []
    else
      var n := |log| - 1;
      Story(log[..n], t) + if Of(log[n].event, t) then [log[n].event] else []
  }

  predicate IsWarning(e: Event, t: nat, cfg: Settings.Config, s: StampedSample) {
    e.Ticked? && e.t == t && e.cfg == cfg && e.sample == s && e.move.Warn?
  }

  /** The step that let a sequence go ahead: the user's YES, or a tick that found time up. */
  predicate IsConsent(e: Event, t: nat, cfg: Settings.Config, s: StampedSample, trigger: Trigger) {
    match trigger
    case Yes => e == AgreedByUser(t, cfg, s)
    case Timeout => e.Ticked? && e.t == t && e.cfg == cfg && e.sample == s && e.move.Expire?
  }

  /** The story of a call that has consented, started, and made `made` host calls, all good. */
  predicate IsSequence(story: seq<Event>, t: nat, executor: Executor, made: nat) {
    && made <= |DRAIN_PLAN| && |story| == 2 + made
    && story[1].Started? && story[1].t == t && Pick(story[1].cfg, story[1].live) == executor
    && IsConsent(story[0], t, story[1].cfg, story[1].sample, story[1].trigger)
    && forall k :: 0 <= k < made ==> story[2 + k] == Called(t, executor, DRAIN_PLAN[k], true)
  }

  /** The story of a call whose host sequence is over: the whole plan if it ended well, and
      otherwise some good calls and then the real one that failed. */
  predicate IsFinished(story: seq<Event>, t: nat, ok: bool) {
    && |story| >= 2 && story[1].Started?
    && var executor := Pick(story[1].cfg, story[1].live);
    if ok then IsSequence(story, t, executor, |DRAIN_PLAN|)
    else
      && 3 <= |story| < 3 + |DRAIN_PLAN| && executor.Real?
      && IsSequence(story[..|story| - 1], t, executor, |story| - 3)
      && story[|story| - 1] == Called(t, executor, DRAIN_PLAN[|story| - 3], false)
  }

  /** What must have happened for an event to be in the log. */
  ghost predicate Justified(past: seq<Entry>, e: Event) {
    match e
    case Ticked(t, cfg, s, move, reset) =>
      move.Expire? ==> Standing(past).Some? && s.now.value >= Due(past, Standing(past).value)
    case Prompted(t, cfg, s) =>
      && |Story(past, t)| == 2
      && IsWarning(Story(past, t)[0], t, cfg, s) && Story(past, t)[1] == Returned(t, true)
    case AgreedByUser(t, cfg, s) => Standing(past).Some?
    case Started(t, cfg, s, trigger, live) =>
      && Standing(past).Some? && MayExecute(cfg, s)
      && |Story(past, t)| == 1 && IsConsent(Story(past, t)[0], t, cfg, s, trigger)
    case Called(t, executor, action, ok) =>
      exists made: nat :: made < |DRAIN_PLAN| && action == DRAIN_PLAN[made] && IsSequence(Story(past, t), t, executor, made)
    case Closed(t, ok, claimed) =>
      IsFinished(Story(past, t), t, ok) && claimed == (ok && Story(past, t)[1].cfg.ManualActionsReady())
    case _ => true
  }

  // ----- the invariant

  /** Whether a prompt was delivered is what the state says, whenever the mutex is free. */
  predicate DrainInv(d: Drain) {
    d.notified <==> d.state !in {Idle, WarningSent}
  }

  /** What the log knows of a call that stands at `thread`. */
  predicate Tells(story: seq<Event>, t: nat, thread: Thread) {
    match thread
    case Notifying(cfg, s) => |story| == 1 && IsWarning(story[0], t, cfg, s)
    case Delivered(cfg, s) => |story| == 2 && IsWarning(story[0], t, cfg, s) && story[1] == Returned(t, true)
    case Consenting(cfg, s, trigger) => |story| == 1 && IsConsent(story[0], t, cfg, s, trigger)
    case Running(cfg, trigger, executor, made) =>
      made < |DRAIN_PLAN| && IsSequence(story, t, executor, made) && story[1].cfg == cfg
    case Finishing(cfg, trigger, ok) => IsFinished(story, t, ok) && story[1].cfg == cfg
    case _ => true
  }

  predicate PromptInv(s: System) {
    && DrainInv(s.drain)
    && (s.drain.notified <==> Standing(s.log).Some?)
    && (s.drain.notified ==> s.drain.deadline == Some(Due(s.log, Standing(s.log).value)))
  }

  ghost predicate ThreadInv(s: System) {
    && (forall t: nat :: t < |s.threads| ==> Tells(Story(s.log, t), t, s.threads[t]))
    && (forall t: nat :: t >= |s.threads| ==> Story(s.log, t) == [])
  }

  ghost predicate LogInv(s: System) {
    forall i :: 0 <= i < |s.log| ==> Justified(s.log[..i], s.log[i].event)
  }

  ghost predicate Inv(s: System) {
    PromptInv(s) && ThreadInv(s) && LogInv(s)
  }

  /** What appending one entry does to the readings of a log. */
  lemma Appended(log: seq<Entry>, e: Entry)
    ensures Standing(log + [e]) ==
      if e.event.Prompted? then Some(|log|) else if IsReset(e.event) then None else Standing(log)
    ensures forall t: nat {:trigger Story(log + [e], t)} ::
      Story(log + [e], t) == Story(log, t) + if Of(e.event, t) then [e.event] else []
  {
    assert (log + [e])[..|log|] == log;
  }

  lemma LogInvExtends(s: System, r: System, e: Entry)
    requires LogInv(s) && r.log == s.log + [e] && Justified(s.log, e.event)
    ensures LogInv(r)
  {
    forall i | 0 <= i < |r.log| ensures Justified(r.log[..i], r.log[i].event) {
      if i < |s.log| {
        assert r.log[..i] == s.log[..i];
      } else {
        assert r.log[..i] == s.log;
      }
    }
  }

  /** Every action that does something, other than a reset, is one step of one call. */
  lemma NextIsStep(s: System, a: Action)
    requires Next(s, a) != s && !a.Reset?
    ensures var r := Next(s, a); |r.log| == |s.log| + 1 && var e := r.log[|s.log|].event;
      && Of(e, e.t) && e.t <= |s.threads| && e.t < |r.threads|
      && r == Step(s, r.drain, e.t, r.threads[e.t], e)
  {
  }

  /** What a step must do to the state to keep it in line with the event it logs. */
  predicate Follows(before: Drain, e: Event, after: Drain) {
    DrainInv(after)
    && (if e.Prompted? then after.notified && after.deadline == Some(e.sample.now.value + Wait(e.cfg))
        else if IsReset(e) then !after.notified
        else after.notified == before.notified && after.deadline == before.deadline)
  }

  lemma StepKeepsPromptInv(s: System, r: System, e: Entry)
    requires PromptInv(s) && r.log == s.log + [e] && Follows(s.drain, e.event, r.drain)
    ensures PromptInv(r)
  {
    Appended(s.log, e);
  }

  lemma TickFollows(d: Drain, notifier: bool, t: nat, cfg: Settings.Config, sample: StampedSample)
    requires DrainInv(d)
    ensures var (r, move, reset) := TickRegion(d, notifier, cfg, sample);
      Follows(d, Ticked(t, cfg, sample, move, reset), r)
  {
  }

  lemma AnswerFollows(s: System, cfg: Settings.Config, yes: bool, clock: int)
    requires DrainInv(s.drain)
    ensures var r := Next(s, Respond(cfg, yes, clock));
      |r.log| == |s.log| + 1 && r.log == s.log + [r.log[|s.log|]] && Follows(s.drain, r.log[|s.log|].event, r.drain)
  {
  }

  lemma CallStepFollows(s: System, a: Action)
    requires DrainInv(s.drain) && Next(s, a) != s && !a.Enter? && !a.Respond?
    ensures var r := Next(s, a);
      |r.log| == |s.log| + 1 && r.log == s.log + [r.log[|s.log|]] && Follows(s.drain, r.log[|s.log|].event, r.drain)
  {
  }

  lemma NextFollows(s: System, a: Action)
    requires DrainInv(s.drain) && Next(s, a) != s
    ensures var r := Next(s, a);
      |r.log| == |s.log| + 1 && r.log == s.log + [r.log[|s.log|]] && Follows(s.drain, r.log[|s.log|].event, r.drain)
  {
    match a
    case Enter(cfg, sample, clock) => TickFollows(s.drain, s.notifier, |s.threads|, cfg, sample.Stamped(clock));
    case Respond(cfg, yes, clock) => AnswerFollows(s, cfg, yes, clock);
    case _ => CallStepFollows(s, a);
  }

  lemma NextKeepsPromptInv(s: System, a: Action)
    requires PromptInv(s)
    ensures PromptInv(Next(s, a))
  {
    var r := Next(s, a);
    if r != s {
      NextFollows(s, a);
      StepKeepsPromptInv(s, r, r.log[|s.log|]);
    }
  }

  lemma StepKeepsThreadInv(s: System, d: Drain, t: nat, thread: Thread, event: Event)
    requires ThreadInv(s) && t <= |s.threads| && Of(event, t)
    requires Tells(Story(s.log, t) + [event], t, thread)
    ensures ThreadInv(Step(s, d, t, thread, event))
  {
    var r := Step(s, d, t, thread, event);
    Appended(s.log, Entry(s.drain.state.Awaiting?, event));
    forall u: nat | u < |r.threads| ensures Tells(Story(r.log, u), u, r.threads[u]) {
      if u != t {
        assert Story(r.log, u) == Story(s.log, u);
      }
    }
  }

  /** The event a call logs extends its story to what its new place tells. */
  ghost predicate StoryGoesOn(s: System, r: System) {
    |r.log| == |s.log| + 1 && var e := r.log[|s.log|].event;
    !e.ResetCalled? && Of(e, e.t) && e.t < |r.threads| && Tells(Story(s.log, e.t) + [e], e.t, r.threads[e.t])
  }

  lemma CallGoesOn(s: System, t: nat, ok: bool)
    requires ThreadInv(s) && Next(s, Call(t, ok)) != s
    ensures StoryGoesOn(s, Next(s, Call(t, ok)))
  {
    var story, r := Story(s.log, t), Next(s, Call(t, ok));
    assert Tells(story, t, s.threads[t]);
    assert (story + [r.log[|s.log|].event])[..|story|] == story;
  }

  lemma NewCallGoesOn(s: System, a: Action)
    requires ThreadInv(s) && (a.Enter? || a.Respond?)
    ensures StoryGoesOn(s, Next(s, a))
  {
    assert Story(s.log, |s.threads|) == [];
  }

  lemma RegionGoesOn(s: System, a: Action)
    requires ThreadInv(s) && Next(s, a) != s && (a.Return? || a.Relock? || a.Gate? || a.Close?)
    ensures StoryGoesOn(s, Next(s, a))
  {
    assert Tells(Story(s.log, a.t), a.t, s.threads[a.t]);
  }

  lemma ResetKeepsThreadInv(s: System)
    requires ThreadInv(s)
    ensures ThreadInv(Next(s, Reset))
  {
    var r := Next(s, Reset);
    Appended(s.log, r.log[|s.log|]);
    forall t: nat | t < |r.threads| ensures Tells(Story(r.log, t), t, r.threads[t]) {
      assert Story(r.log, t) == Story(s.log, t);
    }
  }

  lemma NextKeepsThreadInv(s: System, a: Action)
    requires ThreadInv(s)
    ensures ThreadInv(Next(s, a))
  {
    var r := Next(s, a);
    if a.Reset? {
      ResetKeepsThreadInv(s);
    } else if r != s {
      NextIsStep(s, a);
      match a {
        case Enter(_, _, _) => NewCallGoesOn(s, a);
        case Respond(_, _, _) => NewCallGoesOn(s, a);
        case Call(t, ok) => CallGoesOn(s, t, ok);
        case _ => RegionGoesOn(s, a);
      }
      var e := r.log[|s.log|].event;
      StepKeepsThreadInv(s, r.drain, e.t, r.threads[e.t], e);
    }
  }

  lemma NextCallIsJustified(past: seq<Entry>, t: nat, executor: Executor, made: nat, ok: bool)
    requires made < |DRAIN_PLAN| && IsSequence(Story(past, t), t, executor, made)
    ensures Justified(past, Called(t, executor, DRAIN_PLAN[made], ok))
  {
  }

  lemma CallIsJustified(s: System, t: nat, ok: bool)
    requires ThreadInv(s) && Next(s, Call(t, ok)) != s
    ensures Justified(s.log, Next(s, Call(t, ok)).log[|s.log|].event)
  {
    var c := s.threads[t];
    assert Tells(Story(s.log, t), t, c);
    NextCallIsJustified(s.log, t, c.executor, c.made, ok || c.executor.Recording?);
  }

  lemma NextIsJustified(s: System, a: Action)
    requires PromptInv(s) && ThreadInv(s) && Next(s, a) != s
    ensures Justified(s.log, Next(s, a).log[|s.log|].event)
  {
    if a.Call? {
      CallIsJustified(s, a.t, a.ok);
    }
  }

  lemma NextKeepsLogInv(s: System, a: Action)
    requires Inv(s)
    ensures LogInv(Next(s, a))
  {
    var r := Next(s, a);
    if r != s {
      NextFollows(s, a);
      NextIsJustified(s, a);
      LogInvExtends(s, r, r.log[|s.log|]);
    }
  }

  lemma NextKeepsInv(s: System, a: Action)
    requires Inv(s)
    ensures Inv(Next(s, a))
  {
    NextKeepsPromptInv(s, a);
    NextKeepsThreadInv(s, a);
    NextKeepsLogInv(s, a);
  }

  lemma {:induction false} RunFromKeepsInv(s: System, actions: seq<Action>)
    requires Inv(s)
    ensures Inv(RunFrom(s, actions))
  {
    if actions != [] {
      RunFromKeepsInv(s, actions[..|actions| - 1]);
      NextKeepsInv(RunFrom(s, actions[..|actions| - 1]), actions[|actions| - 1]);
    }
  }

  /** Every reachable system satisfies the invariant. */
  lemma RunKeepsInv(notifier: bool, actions: seq<Action>)
    ensures Inv(Run(notifier, actions))
  {
    RunFromKeepsInv(Start(notifier), actions);
  }
}
