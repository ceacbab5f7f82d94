/** The host calls of an auto-drain sequence, by name: containers, then sync, then power-off. */
module DrainSequence {
  import opened Basics
  import opened Safety
  import opened AutoDrain
  import opened DrainProtocol
  import opened DrainSafety
  import Settings

  /** The sequence of `t` started at `g`. */
  predicate StartsAt(log: seq<Entry>, g: nat, t: nat) {
    g < |log| && log[g].event.Started? && log[g].event.t == t
  }

  predicate CalledWell(log: seq<Entry>, i: nat, t: nat, executor: Executor, action: HostAction) {
    i < |log| && log[i].event == Called(t, executor, action, true)
  }

  predicate IsCallOf(e: Event, t: nat) {
    e.Called? && e.t == t
  }

  /** An event of a call stands in its story after as many as the log had of it before. */
  lemma {:induction false} StoryIndex(log: seq<Entry>, t: nat, k: nat)
    requires k < |log| && Of(log[k].event, t)
    ensures var m := |Story(log[..k], t)|; m < |Story(log, t)| && Story(log, t)[m] == log[k].event
  {
    var n := |log| - 1;
    if k < n {
      StoryIndex(log[..n], t, k);
      assert log[..n][..k] == log[..k];
    }
  }

  /** Where the story of `t` stands at `m` events. */
  predicate Place(log: seq<Entry>, t: nat, m: nat, j: nat) {
    && m < |Story(log, t)| && j < |log| && log[j].event == Story(log, t)[m]
    && Of(log[j].event, t) && |Story(log[..j], t)| == m
  }

  lemma {:induction false} StoryIsOf(log: seq<Entry>, t: nat)
    ensures forall m :: 0 <= m < |Story(log, t)| ==> Of(Story(log, t)[m], t)
  {
    if log != [] {
      StoryIsOf(log[..|log| - 1], t);
    }
  }

  lemma PlaceOf(log: seq<Entry>, t: nat, m: nat) returns (j: nat)
    requires m < |Story(log, t)|
    ensures Place(log, t, m, j)
  {
    j := StoryPosition(log, t, m);
    StoryIsOf(log, t);
  }

  lemma PlacesAreInOrder(log: seq<Entry>, t: nat, m: nat, j: nat, n: nat, k: nat)
    requires Place(log, t, m, j) && Place(log, t, n, k)
    ensures m < n ==> j < k
    ensures m == n ==> j == k
  {
    if k < j {
      StoryHasGrown(log, t, k, j);
    } else if j < k {
      StoryHasGrown(log, t, j, k);
    }
  }

  /** Every event of a call is at one of its places. */
  lemma EventHasPlace(log: seq<Entry>, t: nat, k: nat)
    requires k < |log| && Of(log[k].event, t)
    ensures Place(log, t, |Story(log[..k], t)|, k)
  {
    StoryIndex(log, t, k);
  }

  /** The places of the start and the first `made` host calls of a sequence, all good. */
  lemma CallPlaces(log: seq<Entry>, t: nat, executor: Executor, made: nat) returns (g: nat, calls: seq<nat>)
    requires IsSequence(Story(log, t), t, executor, made)
    ensures Place(log, t, 1, g) && StartsAt(log, g, t) && |calls| == made
    ensures forall k :: 0 <= k < made ==>
      Place(log, t, 2 + k, calls[k]) && CalledWell(log, calls[k], t, executor, DRAIN_PLAN[k]) && g < calls[k]
    ensures forall k, l :: 0 <= k < l < made ==> calls[k] < calls[l]
  {
    g := PlaceOf(log, t, 1);
    calls := [];
    for n := 0 to made
      invariant |calls| == n && forall k :: 0 <= k < n ==> Place(log, t, 2 + k, calls[k])
    {
      var j := PlaceOf(log, t, 2 + n);
      calls := calls + [j];
    }
    forall k | 0 <= k < made ensures CalledWell(log, calls[k], t, executor, DRAIN_PLAN[k]) && g < calls[k] {
      PlacesAreInOrder(log, t, 1, g, 2 + k, calls[k]);
    }
    forall k, l | 0 <= k < l < made ensures calls[k] < calls[l] {
      PlacesAreInOrder(log, t, 2 + k, calls[k], 2 + l, calls[l]);
    }
  }

  lemma CallHasSequence(s: System, i: nat) returns (made: nat)
    requires LogInv(s) && i < |s.log| && s.log[i].event.Called?
    ensures var e := s.log[i].event;
      made < 3 && e.action == DRAIN_PLAN[made] && IsSequence(Story(s.log[..i], e.t), e.t, e.executor, made)
  {
    var e := s.log[i].event;
    assert Justified(s.log[..i], e);
    made :| made < |DRAIN_PLAN| && e.action == DRAIN_PLAN[made] && IsSequence(Story(s.log[..i], e.t), e.t, e.executor, made);
  }

  lemma InLongerLog(log: seq<Entry>, past: seq<Entry>, i: nat)
    requires i <= |log| && past == log[..i]
    ensures forall j: nat, t: nat :: StartsAt(past, j, t) ==> j < i && StartsAt(log, j, t)
    ensures forall j: nat, t: nat, x, a :: CalledWell(past, j, t, x, a) ==> j < i && CalledWell(log, j, t, x, a)
  {
  }

  /** The host is powered off only after the containers were stopped well, and then the disks synced
      well, by the same call and executor since that call's start. */
  lemma PowerOffFollowsSync(notifier: bool, actions: seq<Action>, i: nat)
    requires var log := Run(notifier, actions).log; i < |log| && log[i].event.Called? && log[i].event.action == PowerOff
    ensures var log := Run(notifier, actions).log; var t, x := log[i].event.t, log[i].event.executor;
      exists g: nat, a: nat, b: nat :: g < a < b < i && StartsAt(log, g, t)
        && CalledWell(log, a, t, x, StopDocker) && CalledWell(log, b, t, x, Sync)
  {
    var s := Run(notifier, actions);
    RunKeepsInv(notifier, actions);
    var made := CallHasSequence(s, i);
    var g, calls := CallPlaces(s.log[..i], s.log[i].event.t, s.log[i].event.executor, made);
    InLongerLog(s.log, s.log[..i], i);
    assert calls[0] < calls[1];
  }

  /** The disks are synced only after the containers were stopped well. */
  lemma SyncFollowsDrain(notifier: bool, actions: seq<Action>, i: nat)
    requires var log := Run(notifier, actions).log; i < |log| && log[i].event.Called? && log[i].event.action == Sync
    ensures var log := Run(notifier, actions).log; var t, x := log[i].event.t, log[i].event.executor;
      exists g: nat, a: nat :: g < a < i && StartsAt(log, g, t) && CalledWell(log, a, t, x, StopDocker)
  {
    var s := Run(notifier, actions);
    RunKeepsInv(notifier, actions);
    var made := CallHasSequence(s, i);
    var g, calls := CallPlaces(s.log[..i], s.log[i].event.t, s.log[i].event.executor, made);
    InLongerLog(s.log, s.log[..i], i);
    assert calls[0] < i;
  }

  lemma NoCallBefore(log: seq<Entry>, t: nat, x: Executor, k: nat)
    requires IsSequence(Story(log, t), t, x, 0) && k < |log|
    ensures !IsCallOf(log[k].event, t)
  {
    if IsCallOf(log[k].event, t) {
      EventHasPlace(log, t, k);
    }
  }

  /** Stopping the containers is the first call of its sequence. */
  lemma DrainComesFirst(notifier: bool, actions: seq<Action>, i: nat)
    requires var log := Run(notifier, actions).log; i < |log| && log[i].event.Called? && log[i].event.action == StopDocker
    ensures var log := Run(notifier, actions).log; var t := log[i].event.t;
      && (exists g: nat :: g < i && StartsAt(log, g, t))
      && forall k :: 0 <= k < i ==> !IsCallOf(log[k].event, t)
  {
    var s, past := Run(notifier, actions), Run(notifier, actions).log[..i];
    var t := s.log[i].event.t;
    RunKeepsInv(notifier, actions);
    var made := CallHasSequence(s, i);
    var g, calls := CallPlaces(past, t, s.log[i].event.executor, made);
    InLongerLog(s.log, past, i);
    forall k | 0 <= k < i ensures !IsCallOf(s.log[k].event, t) {
      assert past[k] == s.log[k];
      NoCallBefore(past, t, s.log[i].event.executor, k);
    }
  }

  /** The three calls of `t` at `a`, `b` and `c`, by name, and no other, since its start at `g`. */
  predicate WholePlan(log: seq<Entry>, t: nat, x: Executor, g: nat, a: nat, b: nat, c: nat) {
    && g < a < b < c < |log| && StartsAt(log, g, t)
    && CalledWell(log, a, t, x, StopDocker) && CalledWell(log, b, t, x, Sync) && CalledWell(log, c, t, x, PowerOff)
    && forall k :: 0 <= k < |log| && IsCallOf(log[k].event, t) ==> k == a || k == b || k == c
  }

  lemma SequenceIsWholePlan(log: seq<Entry>, t: nat, x: Executor) returns (g: nat, calls: seq<nat>)
    requires IsSequence(Story(log, t), t, x, 3)
    ensures |calls| == 3 && WholePlan(log, t, x, g, calls[0], calls[1], calls[2])
  {
    g, calls := CallPlaces(log, t, x, 3);
    forall k | 0 <= k < |log| && IsCallOf(log[k].event, t) ensures k == calls[0] || k == calls[1] || k == calls[2] {
      CallIsOneOf(log, t, x, calls, k);
    }
  }

  /** A sequence that ended well made exactly three host calls: it stopped the containers, synced the
      disks, and powered the host off. */
  lemma EndedWellMadeThePlan(notifier: bool, actions: seq<Action>, i: nat)
    requires var log := Run(notifier, actions).log; i < |log| && log[i].event.Closed? && log[i].event.ok
    ensures var log := Run(notifier, actions).log;
      exists x, g: nat, a: nat, b: nat, c: nat :: WholePlan(log[..i], log[i].event.t, x, g, a, b, c)
  {
    var s := Run(notifier, actions);
    RunKeepsInv(notifier, actions);
    var past, t := s.log[..i], s.log[i].event.t;
    assert Justified(past, s.log[i].event);
    var start := Story(past, t)[1];
    var g, calls := SequenceIsWholePlan(past, t, Pick(start.cfg, start.live));
  }

  lemma CallIsOneOf(log: seq<Entry>, t: nat, x: Executor, calls: seq<nat>, k: nat)
    requires IsSequence(Story(log, t), t, x, 3) && |calls| == 3
    requires forall l :: 0 <= l < 3 ==> Place(log, t, 2 + l, calls[l])
    requires k < |log| && IsCallOf(log[k].event, t)
    ensures k == calls[0] || k == calls[1] || k == calls[2]
  {
    EventHasPlace(log, t, k);
    var m := |Story(log[..k], t)|;
    assert m >= 2;
    PlacesAreInOrder(log, t, m, k, 2 + (m - 2), calls[m - 2]);
  }
}
