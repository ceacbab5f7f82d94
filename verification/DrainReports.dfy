/** What auto-drain reports of the sequences it ran, against the host calls they made. */
module DrainReports {
  import opened Basics
  import opened Safety
  import opened AutoDrain
  import opened DrainProtocol
  import opened DrainSafety
  import opened DrainSchedules
  import Settings

  /** The sequence that ends at `i` started at `g`. */
  predicate Ends(log: seq<Entry>, g: nat, i: nat) {
    g < i < |log| && log[i].event.Closed? && log[g].event.Started? && log[g].event.t == log[i].event.t
  }

  /** It ran something on the host for real. */
  ghost predicate ReallyRan(log: seq<Entry>, g: nat, i: nat)
    requires Ends(log, g, i)
  {
    exists b :: g < b < i && IsGoodRealCall(log[b].event, log[i].event.t)
  }

  predicate IsGoodRealCall(e: Event, t: nat) {
    e.Called? && e.t == t && e.executor.Real? && e.ok
  }

  ghost predicate FirstCallFailed(log: seq<Entry>, g: nat, i: nat)
    requires Ends(log, g, i)
  {
    exists b :: g < b < i && log[b].event == Called(log[i].event.t, Real, DRAIN_PLAN[0], false)
  }

  /** Real actions were on when the sequence captured its configuration, and off when its executor
      was picked. */
  predicate SwitchedOff(start: Event)
    requires start.Started?
  {
    start.cfg.ManualActionsReady() && !start.live.ManualActionsReady()
  }

  /** What `commandsExecuted` claims at the end at `i` is true of the calls made since `g`. */
  ghost predicate ClaimIsTrue(log: seq<Entry>, g: nat, i: nat)
    requires Ends(log, g, i)
  {
    log[i].event.claimed <==> ReallyRan(log, g, i)
  }

  lemma StoryAfterStart(log: seq<Entry>, t: nat, g: nat, k: nat) returns (b: nat)
    requires g < |log| && 2 <= k < |Story(log, t)| && Story(log[..g], t) == Story(log, t)[..1]
    ensures g < b < |log| && log[b].event == Story(log, t)[k]
  {
    b := StoryPosition(log, t, k);
    if b <= g {
      StoryGrows(log, t, b, g);
    }
  }

  /** In a finished story the first host call decides: if it went well for real, commands ran, and
      otherwise no call did. */
  lemma FinishedStory(story: seq<Event>, t: nat, ok: bool)
    requires IsFinished(story, t, ok)
    ensures |story| > 2 && story[2].Called? && story[2] == Called(t, Pick(story[1].cfg, story[1].live), DRAIN_PLAN[0], story[2].ok)
    ensures ok ==> story[2].ok
    ensures !ok ==> story[2].executor.Real?
    ensures forall e :: e in story && IsGoodRealCall(e, t) ==> IsGoodRealCall(story[2], t)
    ensures forall e :: e in story && e == Called(t, Real, DRAIN_PLAN[0], false) ==> story[2] == e
  {
    var made := if ok then |DRAIN_PLAN| else |story| - 3;
    var good := if ok then story else story[..|story| - 1];
    forall k | 2 <= k < 2 + made
      ensures story[k] == Called(t, Pick(story[1].cfg, story[1].live), DRAIN_PLAN[k - 2], true)
    {
      assert story[k] == good[2 + (k - 2)];
    }
    assert good[0] == story[0] && good[1] == story[1];
    forall e | e in story ensures e == story[0] || e == story[1] || exists k :: 2 <= k < |story| && e == story[k] {
      var k :| 0 <= k < |story| && story[k] == e;
    }
  }

  lemma CallsDecide(log: seq<Entry>, g: nat, i: nat)
    requires Ends(log, g, i)
    requires var t := log[i].event.t; var story := Story(log[..i], t);
      IsFinished(story, t, log[i].event.ok) && Story(log[..g], t) == story[..1]
    ensures var story := Story(log[..i], log[i].event.t);
      && |story| > 2
      && (ReallyRan(log, g, i) <==> IsGoodRealCall(story[2], log[i].event.t))
      && (FirstCallFailed(log, g, i) <==> story[2] == Called(log[i].event.t, Real, DRAIN_PLAN[0], false))
  {
    var past, t := log[..i], log[i].event.t;
    var story := Story(past, t);
    FinishedStory(story, t, log[i].event.ok);
    assert past[..g] == log[..g];
    var first := StoryAfterStart(past, t, g, 2);
    forall b | g < b < i && Of(log[b].event, t) ensures log[b].event in story {
      assert past[b] == log[b];
      InStory(past, t, b);
    }
  }

  lemma EndHasStart(s: System, i: nat) returns (g: nat)
    requires Inv(s) && i < |s.log| && s.log[i].event.Closed?
    ensures Ends(s.log, g, i)
    ensures var t := s.log[i].event.t; var story := Story(s.log[..i], t);
      && IsFinished(story, t, s.log[i].event.ok) && Story(s.log[..g], t) == story[..1] && story[1] == s.log[g].event
      && s.log[i].event.claimed == (s.log[i].event.ok && story[1].cfg.ManualActionsReady())
  {
    assert Justified(s.log[..i], s.log[i].event);
    g := StoryPosition(s.log[..i], s.log[i].event.t, 1);
    assert s.log[..i][..g] == s.log[..g];
  }

  /** `commandsExecuted` is claimed by the captured configuration, and of a sequence that ended
      well only; but the executor is picked by the live configuration as well, and commands run
      before one fails. So the claim is true of the host calls made exactly when the sequence
      ended well and real actions were not switched off between capture and pick, or it failed at
      its first call. */
  lemma ClaimIsTrueExactlyWhen(notifier: bool, actions: seq<Action>, i: nat)
    requires var log := Run(notifier, actions).log; i < |log| && log[i].event.Closed?
    ensures var log := Run(notifier, actions).log;
      exists g: nat :: Ends(log, g, i)
        && (ClaimIsTrue(log, g, i) <==>
              if log[i].event.ok then !SwitchedOff(log[g].event) else FirstCallFailed(log, g, i))
  {
    var s := Run(notifier, actions);
    RunKeepsInv(notifier, actions);
    var g := EndHasStart(s, i);
    CallsDecide(s.log, g, i);
    FinishedStory(Story(s.log[..i], s.log[i].event.t), s.log[i].event.t, s.log[i].event.ok);
  }

  // ----- the two ways the claim is false

  /** Thread 0 warns, and thread 1 answers with a YES and passes the gate. */
  lemma Agrees(
    run: seq<Action> -> System, cfg: Settings.Config, sample: Sample, clock: int, live: Settings.Config)
    returns (actions: seq<Action>)
    requires IsRun(run) && run([]) == Start(true) && MayStart(true, cfg, sample)
    ensures var s := run(actions);
      && |s.log| == 5 && s.log[1].event == Returned(0, true) && s.log[4].event.Started?
      && s.threads == [Done, Running(cfg, Yes, Pick(cfg, live), 0)]
  {
    var warned := WarnsAndRecords(run, [], cfg, sample, clock);
    actions := YesStarts(run, warned, cfg, clock, live);
  }

  /** A run whose real actions are switched off before the pick: nothing real is run, and commands
      are claimed. */
  lemma SwitchedOffRunIsClaimed(cfg: Settings.Config, sample: Sample, clock: int, live: Settings.Config)
    returns (actions: seq<Action>)
    requires MayStart(true, cfg, sample) && cfg.ManualActionsReady() && !live.ManualActionsReady()
    ensures var log := Run(true, actions).log;
      && |log| == 9 && log[4].event.Started? && log[8].event == Closed(1, true, true)
      && forall b :: 4 < b < 8 ==> !IsGoodRealCall(log[b].event, 1)
  {
    var run := From(Start(true));
    FromIsRun(Start(true));
    var agreed := Agrees(run, cfg, sample, clock, live);
    var one := CallFollows(run, agreed, 1, true);
    var two := CallFollows(run, one, 1, true);
    var three := CallFollows(run, two, 1, true);
    actions := Closes(run, three, 1);
  }

  /** A run with real actions on throughout whose sync fails: the containers were stopped, and no
      command is claimed. */
  lemma FailedRunIsNotClaimed(cfg: Settings.Config, sample: Sample, clock: int, live: Settings.Config)
    returns (actions: seq<Action>)
    requires MayStart(true, cfg, sample) && cfg.ManualActionsReady() && live.ManualActionsReady()
    ensures var log := Run(true, actions).log;
      && |log| == 8 && log[4].event.Started? && log[5].event == Called(1, Real, StopDocker, true)
      && log[7].event == Closed(1, false, false)
  {
    var run := From(Start(true));
    FromIsRun(Start(true));
    var agreed := Agrees(run, cfg, sample, clock, live);
    var one := CallFollows(run, agreed, 1, true);
    var two := CallFollows(run, one, 1, false);
    actions := Closes(run, two, 1);
  }
}
