/** What holds over every interleaving of auto-drain. */
module DrainSafety {
  import opened Basics
  import opened Safety
  import opened AutoDrain
  import opened DrainProtocol
  import Settings

  // ----- prompts are conserved

  /** What became of the prompts delivered so far. `lost` counts prompts that were waiting for
      an answer when a reset, a newer prompt or an older consent took the state away. */
  datatype Ledger = Ledger(delivered: nat, started: nat, barred: nat, declined: nat, lost: nat)

  function One(b: bool): nat {
    if b then 1 else 0
  }

  predicate Loses(e: Entry) {
    e.open && (IsReset(e.event) || e.event.Prompted? || e.event.Started? || e.event.Barred?)
  }

  function Posted(l: Ledger, e: Entry): Ledger {
    Ledger(l.delivered + One(e.event.Returned? && e.event.ok), l.started + One(e.event.Started?),
           l.barred + One(e.event.Barred?), l.declined + One(e.event.RefusedByUser?), l.lost + One(Loses(e)))
  }

  function Tally(log: seq<Entry>): Ledger {
    if log == [] then Ledger(0, 0, 0, 0, 0) else Posted(Tally(log[..|log| - 1]), log[|log| - 1])
  }

  /** A call that holds a delivered prompt: not recorded yet, or consented and not yet past
      the gate. */
  function Holds(t: Thread): nat {
    if t.Delivered? || t.Consenting? then 1 else 0
  }

  function Held(threads: seq<Thread>): nat {
    if threads == [] then 0 else Held(threads[..|threads| - 1]) + Holds(threads[|threads| - 1])
  }

  function Waiting(d: Drain): nat {
    if d.state.Awaiting? then 1 else 0
  }

  predicate Balanced(s: System) {
    var l := Tally(s.log);
    l.delivered == l.started + l.barred + l.declined + l.lost + Held(s.threads) + Waiting(s.drain)
  }

  lemma {:induction false} HeldAfter(threads: seq<Thread>, t: nat, thread: Thread)
    requires t <= |threads|
    ensures t < |threads| ==> Held(threads[t := thread]) == Held(threads) - Holds(threads[t]) + Holds(thread)
    ensures t == |threads| ==> Held(threads + [thread]) == Held(threads) + Holds(thread)
  {
    if t == |threads| {
      assert (threads + [thread])[..|threads|] == threads;
    } else {
      var n := |threads| - 1;
      var after := threads[t := thread];
      if t == n {
        assert after[..n] == threads[..n];
      } else {
        assert after[..n] == threads[..n][t := thread];
        HeldAfter(threads[..n], t, thread);
      }
    }
  }

  /** The step that logs `e` takes its thread from holding `before` prompts to `after`, and
      each prompt it touches from one place to one other. */
  predicate Moves(e: Entry, before: nat, after: nat, d: Drain, r: Drain) {
    One(e.event.Returned? && e.event.ok) + before + Waiting(d)
    == One(e.event.Started?) + One(e.event.Barred?) + One(e.event.RefusedByUser?) + One(Loses(e)) + after + Waiting(r)
  }

  lemma EntryMovesPrompts(s: System, a: Action)
    requires DrainInv(s.drain) && (a.Enter? || a.Respond?)
    ensures var r := Next(s, a);
      && |r.log| == |s.log| + 1 && |r.threads| == |s.threads| + 1
      && Moves(r.log[|s.log|], 0, Holds(r.threads[|s.threads|]), s.drain, r.drain)
  {
  }

  lemma StepMovesPrompts(s: System, a: Action)
    requires DrainInv(s.drain) && Next(s, a) != s && !a.Reset? && !a.Enter? && !a.Respond?
    ensures var r := Next(s, a);
      && |r.log| == |s.log| + 1 && a.t < |s.threads| == |r.threads|
      && Moves(r.log[|s.log|], Holds(s.threads[a.t]), Holds(r.threads[a.t]), s.drain, r.drain)
  {
  }

  lemma StepKeepsBalance(s: System, d: Drain, t: nat, thread: Thread, event: Event)
    requires Balanced(s) && t <= |s.threads|
    requires Moves(Entry(s.drain.state.Awaiting?, event), if t < |s.threads| then Holds(s.threads[t]) else 0,
                   Holds(thread), s.drain, d)
    ensures Balanced(Step(s, d, t, thread, event))
  {
    var r := Step(s, d, t, thread, event);
    assert r.log[..|s.log|] == s.log;
    HeldAfter(s.threads, t, thread);
  }

  lemma NextKeepsBalance(s: System, a: Action)
    requires DrainInv(s.drain) && Balanced(s)
    ensures Balanced(Next(s, a))
  {
    var r := Next(s, a);
    if a.Reset? {
      assert r.log[..|s.log|] == s.log;
    } else if r != s {
      NextIsStep(s, a);
      var e := r.log[|s.log|].event;
      if a.Enter? || a.Respond? {
        EntryMovesPrompts(s, a);
      } else {
        StepMovesPrompts(s, a);
      }
      StepKeepsBalance(s, r.drain, e.t, r.threads[e.t], e);
    }
  }

  /** Every delivered prompt is in exactly one place: consumed by one sequence, stopped at the
      gate, declined, lost, carried by one call, or waiting. So sequences never outnumber
      deliveries, in any interleaving. */
  lemma {:induction false} PromptsAreConserved(notifier: bool, actions: seq<Action>)
    ensures Balanced(Run(notifier, actions))
    ensures var l := Tally(Run(notifier, actions).log); l.started + l.barred + l.declined + l.lost <= l.delivered
  {
    if actions != [] {
      var init := actions[..|actions| - 1];
      PromptsAreConserved(notifier, init);
      RunKeepsInv(notifier, init);
      NextKeepsBalance(Run(notifier, init), actions[|actions| - 1]);
    }
  }

  // ----- sequences are grounded

  /** The `k`-th event of a call's story, found in the log. */
  lemma {:induction false} StoryPosition(log: seq<Entry>, t: nat, k: nat) returns (j: nat)
    requires k < |Story(log, t)|
    ensures j < |log| && log[j].event == Story(log, t)[k]
    ensures Story(log[..j], t) == Story(log, t)[..k]
  {
    var n := |log| - 1;
    if k < |Story(log[..n], t)| {
      j := StoryPosition(log[..n], t, k);
      assert log[..n][..j] == log[..j];
    } else {
      j := n;
    }
  }

  lemma {:induction false} InStory(log: seq<Entry>, t: nat, b: nat)
    requires b < |log| && Of(log[b].event, t)
    ensures log[b].event in Story(log, t)
  {
    if b < |log| - 1 {
      InStory(log[..|log| - 1], t, b);
    }
  }

  /** The prompt recorded at `p`, whose warning was delivered at `d`, stands at `i`. */
  predicate Stands(log: seq<Entry>, d: nat, p: nat, i: nat) {
    && d < p < i <= |log|
    && log[p].event.Prompted? && log[d].event == Returned(log[p].event.t, true)
    && forall k :: p < k < i ==> !IsReset(log[k].event) && !log[k].event.Prompted?
  }

  lemma StandingPrompt(s: System, i: nat) returns (d: nat, p: nat)
    requires LogInv(s) && i <= |s.log| && Standing(s.log[..i]).Some?
    ensures Stands(s.log, d, p, i) && Standing(s.log[..i]) == Some(p)
  {
    p := Standing(s.log[..i]).value;
    assert Justified(s.log[..p], s.log[p].event);
    d := StoryPosition(s.log[..p], s.log[p].event.t, 1);
    forall k | p < k < i ensures !IsReset(s.log[k].event) && !s.log[k].event.Prompted? {
      assert s.log[..i][k] == s.log[k];
    }
  }

  /** Every sequence starts while a delivered prompt stands, with no reset to idle since it was
      recorded, and on a configuration and sample that ask for it. */
  lemma EveryStartIsGrounded(notifier: bool, actions: seq<Action>, i: nat)
    requires var log := Run(notifier, actions).log; i < |log| && log[i].event.Started?
    ensures exists d, p :: Stands(Run(notifier, actions).log, d, p, i)
    ensures var e := Run(notifier, actions).log[i].event;
      && e.cfg.drain.enabled && e.cfg.docker.stopEnabled && e.sample.discharging && e.sample.source != Some(Power.AC)
      && e.sample.percent.Some? && e.sample.percent.value <= e.cfg.drain.threshold
  {
    var s := Run(notifier, actions);
    RunKeepsInv(notifier, actions);
    assert Justified(s.log[..i], s.log[i].event);
    var d, p := StandingPrompt(s, i);
  }

  // ----- consents

  /** A consent at `c`: the user's YES, or a tick at or after the time the standing prompt ran out. */
  predicate ConsentsTo(log: seq<Entry>, p: nat, c: nat, start: Event) {
    && c < |log| && start.Started? && IsConsent(log[c].event, start.t, start.cfg, start.sample, start.trigger)
    && (start.trigger.Timeout? ==>
          p < |log| && log[p].event.Prompted? && start.sample.now.value >= Due(log, p))
  }

  lemma StartHasConsent(s: System, i: nat) returns (d: nat, p: nat, c: nat)
    requires Inv(s) && i < |s.log| && s.log[i].event.Started?
    ensures c < i && Stands(s.log, d, p, c) && ConsentsTo(s.log, p, c, s.log[i].event)
  {
    var start := s.log[i].event;
    assert Justified(s.log[..i], start);
    c := StoryPosition(s.log[..i], start.t, 0);
    assert s.log[..i][..c] == s.log[..c];
    assert Justified(s.log[..c], s.log[c].event);
    d, p := StandingPrompt(s, c);
  }

  /** A timeout is never early: the tick that found time up saw a time no earlier than the
      prompting tick's time plus the timeout that tick had read, which is a minute or more. */
  lemma TimeoutIsNeverEarly(notifier: bool, actions: seq<Action>, i: nat)
    requires var log := Run(notifier, actions).log;
      i < |log| && log[i].event.Started? && log[i].event.trigger.Timeout?
    ensures var log := Run(notifier, actions).log; var now := log[i].event.sample.now.value;
      exists d: nat, p: nat, c: nat :: c < i && Stands(log, d, p, c) && ConsentsTo(log, p, c, log[i].event)
        && now >= log[p].event.sample.now.value + Wait(log[p].event.cfg)
        && now >= log[p].event.sample.now.value + MINUTE
  {
    RunKeepsInv(notifier, actions);
    var d, p, c := StartHasConsent(Run(notifier, actions), i);
  }

  // ----- every start has a prompt of its own

  /** The step takes the answer to the waiting prompt: a YES, a NO, or a tick that found time up. */
  predicate Takes(e: Event) {
    e.AgreedByUser? || e.RefusedByUser? || (e.Ticked? && e.move.Expire?)
  }

  /** Some answer has been taken and no prompt recorded since. */
  predicate Taken(log: seq<Entry>) {
    exists c :: 0 <= c < |log| && Takes(log[c].event) && forall q :: c < q < |log| ==> !log[q].event.Prompted?
  }

  /** Once a prompt is taken there is none to answer until the next one is recorded. */
  ghost predicate TakenInv(s: System) {
    && DrainInv(s.drain)
    && (Taken(s.log) ==> !s.drain.state.Awaiting?)
    && forall b, c :: 0 <= b < c < |s.log| && Takes(s.log[b].event) && Takes(s.log[c].event) ==> PromptBetween(s.log, b, c)
  }

  predicate PromptBetween(log: seq<Entry>, b: nat, c: nat) {
    exists q :: b < q < c && q < |log| && log[q].event.Prompted?
  }

  lemma TakingStep(s: System, a: Action)
    requires DrainInv(s.drain) && Next(s, a) != s
    ensures var r := Next(s, a); |r.log| == |s.log| + 1 && r.log[..|s.log|] == s.log && var e := r.log[|s.log|].event;
      && DrainInv(r.drain)
      && (Takes(e) ==> s.drain.state.Awaiting? && !r.drain.state.Awaiting?)
      && (r.drain.state.Awaiting? ==> s.drain.state.Awaiting? || e.Prompted?)
  {
    NextFollows(s, a);
  }

  lemma TakenOrPrompted(log: seq<Entry>, c: nat)
    requires c < |log| && Takes(log[c].event)
    ensures Taken(log) || PromptBetween(log, c, |log|)
  {
  }

  lemma TakenStays(log: seq<Entry>, longer: seq<Entry>)
    requires |longer| == |log| + 1 && log <= longer && Taken(longer) && !Takes(longer[|log|].event)
    ensures Taken(log) && !longer[|log|].event.Prompted?
  {
    var c :| 0 <= c < |longer| && Takes(longer[c].event) && forall q :: c < q < |longer| ==> !longer[q].event.Prompted?;
    assert forall q :: 0 <= q < |log| ==> log[q] == longer[q];
  }

  lemma NextKeepsPromptBetween(s: System, a: Action, b: nat, c: nat)
    requires TakenInv(s) && Next(s, a) != s
    requires var log := Next(s, a).log; b < c < |log| && Takes(log[b].event) && Takes(log[c].event)
    ensures PromptBetween(Next(s, a).log, b, c)
  {
    TakingStep(s, a);
    var r, n := Next(s, a), |s.log|;
    assert forall q :: 0 <= q < n ==> r.log[q] == r.log[..n][q] == s.log[q];
    if c < n {
      assert PromptBetween(s.log, b, c);
    } else {
      TakenOrPrompted(s.log, b);
    }
  }

  lemma NextKeepsTakenInv(s: System, a: Action)
    requires TakenInv(s)
    ensures TakenInv(Next(s, a))
  {
    var r := Next(s, a);
    if r != s {
      TakingStep(s, a);
      if Taken(r.log) && !Takes(r.log[|s.log|].event) {
        TakenStays(s.log, r.log);
      }
      forall b, c | 0 <= b < c < |r.log| && Takes(r.log[b].event) && Takes(r.log[c].event)
        ensures PromptBetween(r.log, b, c)
      {
        NextKeepsPromptBetween(s, a, b, c);
      }
    }
  }

  lemma {:induction false} RunKeepsTakenInv(notifier: bool, actions: seq<Action>)
    ensures TakenInv(Run(notifier, actions))
  {
    if actions != [] {
      RunKeepsTakenInv(notifier, actions[..|actions| - 1]);
      NextKeepsTakenInv(Run(notifier, actions[..|actions| - 1]), actions[|actions| - 1]);
    }
  }

  /** A call's story grows with each of its events, so a step that finds it at one length happens
      once. */
  lemma StoryHasGrown(log: seq<Entry>, t: nat, i: nat, j: nat)
    requires i < j <= |log| && Of(log[i].event, t)
    ensures |Story(log[..j], t)| > |Story(log[..i], t)|
  {
    assert log[..i + 1] == log[..i] + [log[i]];
    Appended(log[..i], log[i]);
    StoryGrows(log, t, i + 1, j);
  }

  lemma CallsStartOnce(s: System, i: nat, j: nat)
    requires LogInv(s) && i < j < |s.log| && s.log[i].event.Started? && s.log[j].event.Started?
    ensures s.log[i].event.t != s.log[j].event.t
  {
    assert Justified(s.log[..i], s.log[i].event) && Justified(s.log[..j], s.log[j].event);
    StoryHasGrown(s.log, s.log[i].event.t, i, j);
  }

  lemma CallsRecordOnce(s: System, p: nat, q: nat)
    requires LogInv(s) && p < q < |s.log| && s.log[p].event.Prompted? && s.log[q].event.Prompted?
    ensures s.log[p].event.t != s.log[q].event.t
  {
    assert Justified(s.log[..p], s.log[p].event) && Justified(s.log[..q], s.log[q].event);
    StoryHasGrown(s.log, s.log[p].event.t, p, q);
  }

  /** The start at `i` rests on a delivery at `d`, recorded at `p` and consented to at `c`. */
  predicate Rests(log: seq<Entry>, d: nat, p: nat, c: nat, i: nat) {
    c < i < |log| && log[i].event.Started? && Stands(log, d, p, c) && ConsentsTo(log, p, c, log[i].event)
  }

  /** No delivery, no prompt and no consent serves two starts: each one rests on its own. */
  lemma StartsRestOnTheirOwn(
    notifier: bool, actions: seq<Action>, i: nat, d: nat, p: nat, c: nat, j: nat, d': nat, p': nat, c': nat)
    requires var log := Run(notifier, actions).log; i != j && Rests(log, d, p, c, i) && Rests(log, d', p', c', j)
    ensures d != d' && p != p' && c != c'
  {
    var s := Run(notifier, actions);
    RunKeepsInv(notifier, actions);
    RunKeepsTakenInv(notifier, actions);
    if i < j {
      CallsStartOnce(s, i, j);
    } else {
      CallsStartOnce(s, j, i);
    }
    if c < c' {
      LaterConsentHasLaterPrompt(s, d, p, c, i, d', p', c', j);
    } else {
      LaterConsentHasLaterPrompt(s, d', p', c', j, d, p, c, i);
    }
  }

  lemma LaterConsentHasLaterPrompt(
    s: System, d: nat, p: nat, c: nat, i: nat, d': nat, p': nat, c': nat, j: nat)
    requires LogInv(s) && TakenInv(s) && c < c' && Rests(s.log, d, p, c, i) && Rests(s.log, d', p', c', j)
    ensures p < p' && d != d'
  {
    assert PromptBetween(s.log, c, c');
    CallsRecordOnce(s, p, p');
  }

  /** Every start rests on some delivery, prompt and consent. */
  lemma EveryStartRests(notifier: bool, actions: seq<Action>, i: nat)
    requires var log := Run(notifier, actions).log; i < |log| && log[i].event.Started?
    ensures exists d, p, c :: Rests(Run(notifier, actions).log, d, p, c, i)
  {
    RunKeepsInv(notifier, actions);
    var d, p, c := StartHasConsent(Run(notifier, actions), i);
    assert Rests(Run(notifier, actions).log, d, p, c, i);
  }

  // ----- host calls

  /** Before the host call at `i`, and since `g`, its thread made the first `made` calls of the
      plan with the same executor, and all succeeded. */
  ghost predicate Made(log: seq<Entry>, g: nat, i: nat, made: nat) {
    && i < |log| && log[i].event.Called? && made < |DRAIN_PLAN| && log[i].event.action == DRAIN_PLAN[made]
    && forall j :: 0 <= j < made ==>
         exists b :: g < b < i && log[b].event == Called(log[i].event.t, log[i].event.executor, DRAIN_PLAN[j], true)
  }

  /** The whole history a host call rests on, in order: a warning delivered at `d` and recorded
      at `p`, a consent at `c` while that prompt stood, and a start at `g`, of the calling
      thread from `c` on; then each earlier action of the plan, made by the same executor and
      successful. */
  ghost predicate Chain(log: seq<Entry>, i: nat, d: nat, p: nat, c: nat, g: nat, made: nat) {
    && Made(log, g, i, made)
    && c < g < i && Stands(log, d, p, c)
    && log[g].event.Started? && log[g].event.t == log[i].event.t
    && ConsentsTo(log, p, c, log[g].event)
    && MayExecute(log[g].event.cfg, log[g].event.sample)
    && log[i].event.executor == Pick(log[g].event.cfg, log[g].event.live)
  }

  lemma CallFollowsStory(s: System, i: nat) returns (g: nat, made: nat)
    requires Inv(s) && i < |s.log| && s.log[i].event.Called?
    ensures g < i && Made(s.log, g, i, made) && s.log[g].event.Started? && s.log[g].event.t == s.log[i].event.t
    ensures s.log[i].event.executor == Pick(s.log[g].event.cfg, s.log[g].event.live)
  {
    var e := s.log[i].event;
    var past := s.log[..i];
    assert Justified(past, e);
    made :| made < |DRAIN_PLAN| && e.action == DRAIN_PLAN[made] && IsSequence(Story(past, e.t), e.t, e.executor, made);
    g := StoryPosition(past, e.t, 1);
    forall j | 0 <= j < made
      ensures exists b :: g < b < i && s.log[b].event == Called(e.t, e.executor, DRAIN_PLAN[j], true)
    {
      var b := StoryPosition(past, e.t, 2 + j);
      if b <= g {
        StoryGrows(past, e.t, b, g);
      }
    }
  }

  lemma {:induction false} StoryGrows(log: seq<Entry>, t: nat, i: nat, j: nat)
    requires i <= j <= |log|
    ensures |Story(log[..i], t)| <= |Story(log[..j], t)|
  {
    if i < j {
      StoryGrows(log, t, i, j - 1);
      assert log[..j][..j - 1] == log[..j - 1];
    }
  }

  lemma HostCallHasItsChain(s: System, i: nat) returns (d: nat, p: nat, c: nat, g: nat, made: nat)
    requires Inv(s) && i < |s.log| && s.log[i].event.Called?
    ensures Chain(s.log, i, d, p, c, g, made)
  {
    g, made := CallFollowsStory(s, i);
    assert Justified(s.log[..g], s.log[g].event);
    d, p, c := StartHasConsent(s, g);
  }

  /** Every host call has its whole chain behind it; a power-off, in particular, follows a
      delivered warning, a consent to it, and a successful drain and sync. */
  lemma EveryHostCallHasItsChain(notifier: bool, actions: seq<Action>, i: nat)
    requires var log := Run(notifier, actions).log; i < |log| && log[i].event.Called?
    ensures exists d, p, c, g, made :: Chain(Run(notifier, actions).log, i, d, p, c, g, made)
  {
    RunKeepsInv(notifier, actions);
    var d, p, c, g, made := HostCallHasItsChain(Run(notifier, actions), i);
  }

  // ----- dry run

  /** The configuration an action reads, if any, keeps real actions off. */
  predicate Dry(a: Action) {
    match a
    case Enter(cfg, _, _) => !cfg.ManualActionsReady()
    case Respond(cfg, _, _) => !cfg.ManualActionsReady()
    case Gate(_, live) => !live.ManualActionsReady()
    case _ => true
  }

  predicate OnlyRecorded(s: System) {
    && (forall t :: 0 <= t < |s.threads| && s.threads[t].Running? ==> s.threads[t].executor.Recording?)
    && (forall i :: 0 <= i < |s.log| && s.log[i].event.Called? ==> s.log[i].event.executor.Recording?)
  }

  lemma DryStepOnlyRecords(s: System, a: Action)
    requires OnlyRecorded(s) && Dry(a)
    ensures OnlyRecorded(Next(s, a))
  {
  }

  /** While every configuration read has real actions off or dry run on, no real call is made. */
  lemma {:induction false} DryRunOnlyRecords(notifier: bool, actions: seq<Action>)
    requires forall i :: 0 <= i < |actions| ==> Dry(actions[i])
    ensures OnlyRecorded(Run(notifier, actions))
  {
    if actions != [] {
      DryRunOnlyRecords(notifier, actions[..|actions| - 1]);
      DryStepOnlyRecords(Run(notifier, actions[..|actions| - 1]), actions[|actions| - 1]);
    }
  }

  /** A real call needs real actions on in both readings: the captured one and the live one. */
  lemma RealCallNeedsBothReadings(notifier: bool, actions: seq<Action>, i: nat)
    requires var log := Run(notifier, actions).log; i < |log| && log[i].event.Called? && log[i].event.executor.Real?
    ensures var log := Run(notifier, actions).log;
      exists g :: 0 <= g < i && log[g].event.Started? && log[g].event.t == log[i].event.t
        && log[g].event.cfg.ManualActionsReady() && log[g].event.live.ManualActionsReady()
  {
    EveryHostCallHasItsChain(notifier, actions, i);
  }
}
