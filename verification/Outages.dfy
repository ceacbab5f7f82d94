/** What the debounced transitions of a whole history add up to. */
module Outages {
  import opened Basics
  import opened Power
  import opened Watcher

  /** The polls among the first `n` that commit their source: the baseline, then every poll
      that emits. */
  function Commitments(debounce: int, h: seq<Poll>, n: nat): (c: seq<nat>)
    requires n <= |h|
    ensures forall i :: 0 <= i < |c| ==> c[i] < n
  {
    if n == 0 then []
    else Commitments(debounce, h, n - 1) + if Commits(debounce, h, n - 1) then [n - 1] else []
  }

  ghost predicate Monotone(h: seq<Poll>) {
    forall i, j :: 0 <= i <= j < |h| ==> h[i].at <= h[j].at
  }

  lemma {:induction false} CommitmentsInOrder(debounce: int, h: seq<Poll>, n: nat)
    requires 0 < n <= |h|
    ensures var c := Commitments(debounce, h, n);
      && |c| > 0 && c[0] == 0 && c[|c| - 1] == LastCommit(debounce, h, n)
      && (forall i :: 0 < i < |c| ==> 0 < c[i] && LastCommit(debounce, h, c[i]) == c[i - 1])
  {
    if n > 1 {
      CommitmentsInOrder(debounce, h, n - 1);
    }
  }

  lemma {:induction false} CommitmentsAreTheCommits(debounce: int, h: seq<Poll>, n: nat, m: nat)
    requires n <= |h| && m < n
    ensures m in Commitments(debounce, h, n) <==> Commits(debounce, h, m)
  {
    if m < n - 1 {
      CommitmentsAreTheCommits(debounce, h, n - 1, m);
    } else {
      assert m !in Commitments(debounce, h, n - 1);
    }
  }

  /** `to` follows `from` with no commit between, and emits exactly that change; it reports the
      time since `from` when power is back. */
  predicate Link(debounce: int, h: seq<Poll>, from: nat, to: nat) {
    && from < to < |h|
    && h[to].source != h[from].source
    && Emitted(debounce, h, to) ==
       Some(Transition(EventOf(h[to].source), h[to].at, h[from].source, h[to].source,
                       if h[to].source.AC? then Some(Millis(h[to].at - h[from].at)) else None))
  }

  /** The transitions form a chain: each one leaves the source the previous one reached, or the
      baseline's, for another one, and an outage is counted from just that commit. Nothing else
      is emitted, and no two consecutive events are of the same type. */
  lemma TransitionsFormAChain(debounce: int, h: seq<Poll>)
    requires h != []
    ensures var c := Commitments(debounce, h, |h|);
      && |c| > 0 && c[0] == 0
      && (forall n :: 0 <= n < |h| ==> (Emitted(debounce, h, n).Some? <==> n > 0 && n in c))
      && (forall i :: 0 < i < |c| ==> Link(debounce, h, c[i - 1], c[i]))
      && (forall i :: 0 < i < |c| ==> EventOf(h[c[i]].source) != EventOf(h[c[i - 1]].source))
  {
    var c := Commitments(debounce, h, |h|);
    CommitmentsInOrder(debounce, h, |h|);
    forall n | 0 <= n < |h| ensures n in c <==> Commits(debounce, h, n) {
      CommitmentsAreTheCommits(debounce, h, |h|, n);
    }
    forall i | 0 < i < |c| ensures Link(debounce, h, c[i - 1], c[i]) {
      assert c[i] in c && Emits(debounce, h, c[i]);
      assert Committed(debounce, h, c[i]) == h[c[i - 1]].source;
    }
  }

  /** What a transition is called is where it goes: power is connected, disconnected, or unknown. One
      that goes to AC reports the whole milliseconds since the commit before it. */
  lemma TransitionNamesItsSource(debounce: int, h: seq<Poll>, n: nat)
    requires n < |h| && Emitted(debounce, h, n).Some?
    ensures var tr := Emitted(debounce, h, n).value;
      && tr.to == h[n].source && tr.at == h[n].at
      && (tr.event == ACConnected <==> tr.to == AC)
      && (tr.event == ACDisconnected <==> tr.to == Battery)
      && (tr.event == ACUnknown <==> tr.to == Unknown)
      && (tr.duration.Some? <==> tr.to == AC)
      && (tr.to == AC ==>
            var gap, ms := tr.at - h[LastCommit(debounce, h, n)].at, tr.duration.value;
            if gap < 0 then ms == 0 else ms * 1_000_000 <= gap < (ms + 1) * 1_000_000)
  {
  }

  /** Over classified scans: power is announced as connected exactly when some readable adapter is
      online, as disconnected exactly when there are adapters, all readable and offline, and as
      unknown exactly when neither holds. */
  lemma EventsMatchTheAdapters(debounce: int, h: seq<Poll>, scans: seq<seq<Adapter>>, n: nat)
    requires n < |h| == |scans| && forall k :: 0 <= k < |h| ==> h[k].source == Classified(scans[k])
    requires Emitted(debounce, h, n).Some?
    ensures var event, scan := Emitted(debounce, h, n).value.event, scans[n];
      var online := exists k :: 0 <= k < |scan| && scan[k].readable && scan[k].online == Some(true);
      var offline := scan != [] && forall k :: 0 <= k < |scan| ==> scan[k].readable && scan[k].online == Some(false);
      && (event == ACConnected <==> online)
      && (event == ACDisconnected <==> offline)
      && (event == ACUnknown <==> !online && !offline)
  {
    TransitionNamesItsSource(debounce, h, n);
    var scan := scans[n];
    assert forall k :: 0 <= k < |scan| ==> scan[k] in scan;
  }

  /** The polls from `k` to `n` all read the same source, for the debounce time at least. */
  predicate Settled(debounce: int, h: seq<Poll>, k: nat, n: nat) {
    && k <= n < |h| && h[n].at - h[k].at >= debounce
    && forall i :: k <= i <= n ==> h[i].source == h[n].source
  }

  lemma {:induction false} RunStartIsFirst(h: seq<Poll>, k: nat, n: nat)
    requires k <= n < |h| && forall i :: k <= i <= n ==> h[i].source == h[n].source
    ensures RunStart(h, n) <= k
  {
    if k < n {
      RunStartIsFirst(h, k, n - 1);
    }
  }

  /** With a clock that does not run backwards, a poll emits exactly when it is not the first, its
      source is not the committed one, and it has been read for the debounce time, from some poll on. */
  lemma EmitsExactlyWhenSettled(debounce: int, h: seq<Poll>, n: nat)
    requires 0 < n < |h| && Monotone(h)
    ensures Emitted(debounce, h, n).Some? <==>
      h[n].source != Committed(debounce, h, n) && exists k :: Settled(debounce, h, k, n)
  {
    RunIsMaximal(h, n);
    if Emitted(debounce, h, n).Some? {
      assert Settled(debounce, h, RunStart(h, n), n);
    }
    if k: nat :| Settled(debounce, h, k, n) {
      RunStartIsFirst(h, k, n);
    }
  }

  /** A source that has been read for the debounce time is the committed one from then on. */
  lemma SettledSourceIsCommitted(debounce: int, h: seq<Poll>, k: nat, n: nat)
    requires Monotone(h) && Settled(debounce, h, k, n)
    ensures Committed(debounce, h, n + 1) == h[n].source
  {
    if n > 0 {
      EmitsExactlyWhenSettled(debounce, h, n);
      assert Emits(debounce, h, n) || h[n].source == Committed(debounce, h, n);
    }
    assert LastCommit(debounce, h, n + 1) == if Commits(debounce, h, n) then n else LastCommit(debounce, h, n);
  }

  /** A run that emits lies wholly after the commit before it. */
  lemma RunFollowsCommit(debounce: int, h: seq<Poll>, n: nat)
    requires n < |h| && Emits(debounce, h, n)
    ensures LastCommit(debounce, h, n) < RunStart(h, n)
  {
    RunIsMaximal(h, n);
  }

  /** With a clock that does not run backwards, commits are at least a debounce time apart. */
  lemma {:induction false} CommitsAreSpaced(debounce: int, h: seq<Poll>, i: nat, j: nat)
    requires h != [] && Monotone(h)
    requires i <= j < |Commitments(debounce, h, |h|)|
    ensures var c := Commitments(debounce, h, |h|); h[c[j]].at - h[c[i]].at >= (j - i) * debounce
  {
    if i < j {
      var c := Commitments(debounce, h, |h|);
      CommitsAreSpaced(debounce, h, i, j - 1);
      TransitionsFormAChain(debounce, h);
      CommitmentsInOrder(debounce, h, |h|);
      RunFollowsCommit(debounce, h, c[j]);
      assert (j - i) * debounce == (j - 1 - i) * debounce + debounce;
    }
  }

  /** How many of the first `n` polls emit, from the instant `from` on and within `window`. */
  function EmissionsWithin(debounce: int, h: seq<Poll>, n: nat, from: int, window: int): nat
    requires n <= |h|
  {
    if n == 0 then 0
    else
      EmissionsWithin(debounce, h, n - 1, from, window)
      + if Emits(debounce, h, n - 1) && from <= h[n - 1].at <= from + window then 1 else 0
  }

  lemma {:induction false} EmissionsAreSpaced(debounce: int, h: seq<Poll>, n: nat, from: int, window: int)
    requires debounce > 0 && Monotone(h) && n <= |h|
    ensures var count := EmissionsWithin(debounce, h, n, from, window);
      count > 0 ==> (count - 1) * debounce <= window && (count - 1) * debounce <= h[LastCommit(debounce, h, n)].at - from
  {
    if n > 0 {
      EmissionsAreSpaced(debounce, h, n - 1, from, window);
      if Emits(debounce, h, n - 1) {
        RunFollowsCommit(debounce, h, n - 1);
        var before := EmissionsWithin(debounce, h, n - 1, from, window);
        assert before * debounce == (before - 1) * debounce + debounce;
      }
    }
  }

  /** With a clock that does not run backwards, the events in any window are no more than one plus
      the debounce times it holds. */
  lemma EventsInWindowAreBounded(debounce: int, h: seq<Poll>, from: int, window: nat)
    requires debounce > 0 && Monotone(h)
    ensures EmissionsWithin(debounce, h, |h|, from, window) <= window / debounce + 1
  {
    var count := EmissionsWithin(debounce, h, |h|, from, window);
    EmissionsAreSpaced(debounce, h, |h|, from, window);
    if count > 0 {
      QuotientBounds(count - 1, window, debounce);
    }
  }

  lemma QuotientBounds(a: nat, total: nat, d: int)
    requires d > 0 && a * d <= total
    ensures a <= total / d
  {
    TimesMonotone(total / d + 1, a, d);
    assert total < (total / d + 1) * d;
  }

  lemma TimesMonotone(a: int, b: int, d: int)
    requires d >= 0
    ensures a <= b ==> a * d <= b * d
  {
    if a <= b {
      assert (b - a) * d >= 0;
    }
  }

  lemma CommitsAreApart(debounce: int, h: seq<Poll>, i: nat, j: nat)
    requires debounce > 0 && h != [] && Monotone(h) && i < j < |Commitments(debounce, h, |h|)|
    ensures var c := Commitments(debounce, h, |h|); h[c[i]].at + debounce <= h[c[j]].at
  {
    CommitsAreSpaced(debounce, h, i, j);
    TimesMonotone(1, j - i, debounce);
  }

  /** The outage time reported by the first `n` polls, in milliseconds. */
  function Reported(debounce: int, h: seq<Poll>, n: nat): int
    requires n <= |h|
  {
    if n == 0 then 0
    else
      var tr := Emitted(debounce, h, n - 1);
      Reported(debounce, h, n - 1) + if tr.Some? && tr.value.duration.Some? then tr.value.duration.value else 0
  }

  /** Reported outages are disjoint parts of the time that passed: with a clock that does not run
      backwards their sum never exceeds the time from the baseline to the last commit. */
  lemma {:induction false} ReportedOutagesFitElapsedTime(debounce: int, h: seq<Poll>, n: nat)
    requires 0 < n <= |h| && Monotone(h)
    ensures Reported(debounce, h, n) * MILLISECOND <= h[LastCommit(debounce, h, n)].at - h[0].at
    ensures Reported(debounce, h, n) * MILLISECOND <= h[n - 1].at - h[0].at
  {
    if n > 1 {
      ReportedOutagesFitElapsedTime(debounce, h, n - 1);
    }
  }

  /** The first commit of the unbroken stretch off AC that lasts until the `i`-th commit. */
  function StretchStart(h: seq<Poll>, c: seq<nat>, i: nat): (j: nat)
    requires 0 < i < |c| && forall k :: 0 <= k < |c| ==> c[k] < |h|
    ensures j < i
  {
    if i == 1 || h[c[i - 2]].source.AC? then i - 1 else StretchStart(h, c, i - 1)
  }

  lemma LongerByAMillisecond(whole: int, part: int)
    requires part >= 0 && whole >= part + MILLISECOND
    ensures Millis(whole) > Millis(part)
  {
  }

  /** A restored-power event counts the whole stretch off AC exactly when that stretch was a single
      commit: an AC state that turned unknown, or battery again, on the way restarts the count. With
      a debounce of a millisecond or more the milliseconds it reports say the same. */
  lemma OutageReportedInFull(debounce: int, h: seq<Poll>, i: nat)
    requires debounce > 0 && h != [] && Monotone(h)
    requires 0 < i < |Commitments(debounce, h, |h|)| && h[Commitments(debounce, h, |h|)[i]].source.AC?
    ensures var c := Commitments(debounce, h, |h|);
      var stretch := h[c[i]].at - h[c[StretchStart(h, c, i)]].at;
      && (h[c[i]].at - h[c[i - 1]].at == stretch <==> i == 1 || h[c[i - 2]].source.AC?)
      && Emitted(debounce, h, c[i]).Some?
      && Emitted(debounce, h, c[i]).value.duration == Some(Millis(h[c[i]].at - h[c[i - 1]].at))
      && (debounce >= MILLISECOND ==>
            (Emitted(debounce, h, c[i]).value.duration == Some(Millis(stretch)) <==> i == 1 || h[c[i - 2]].source.AC?))
  {
    var c := Commitments(debounce, h, |h|);
    var j := StretchStart(h, c, i);
    TransitionsFormAChain(debounce, h);
    assert Link(debounce, h, c[i - 1], c[i]);
    if j < i - 1 {
      CommitsAreApart(debounce, h, j, i - 1);
      if debounce >= MILLISECOND {
        LongerByAMillisecond(h[c[i]].at - h[c[j]].at, h[c[i]].at - h[c[i - 1]].at);
      }
    }
  }

  /** Mains, then battery, then unknown, then mains again, each for two polls a debounce apart. */
  function ThroughUnknown(d: int): seq<Poll> {
    [Poll(0, AC), Poll(d, Battery), Poll(2 * d, Battery), Poll(3 * d, Unknown), Poll(4 * d, Unknown),
     Poll(5 * d, AC), Poll(6 * d, AC)]
  }

  lemma ThroughUnknownCommits(d: int)
    requires d > 0
    ensures var h := ThroughUnknown(d);
      Commitments(d, h, 7) == [0, 2, 4, 6]
  {
    var h := ThroughUnknown(d);
    assert LastCommit(d, h, 1) == 0 && !Emits(d, h, 1) && LastCommit(d, h, 2) == 0;
    assert RunStart(h, 2) == 1 && Emits(d, h, 2) && LastCommit(d, h, 3) == 2;
    assert !Emits(d, h, 3) && LastCommit(d, h, 4) == 2;
    assert RunStart(h, 4) == 3 && Emits(d, h, 4) && LastCommit(d, h, 5) == 4;
    assert !Emits(d, h, 5) && LastCommit(d, h, 6) == 4;
    assert RunStart(h, 6) == 5 && Emits(d, h, 6);
    assert Commitments(d, h, 1) == [0] == Commitments(d, h, 2);
    assert Commitments(d, h, 3) == [0, 2] == Commitments(d, h, 4);
    assert Commitments(d, h, 5) == [0, 2, 4] == Commitments(d, h, 6);
  }

  /** An outage of four debounce times that passed through UNKNOWN, reported as two. */
  lemma OutageThroughUnknownIsHalved(d: int)
    requires d > 0
    ensures var h := ThroughUnknown(d); var c := Commitments(d, h, |h|);
      && |c| == 4 && c[3] == 6
      && h[c[3]].at - h[c[StretchStart(h, c, 3)]].at == 4 * d
      && Emitted(d, h, 6).Some? && Emitted(d, h, 6).value.duration == Some(Millis(2 * d))
  {
    var h := ThroughUnknown(d);
    ThroughUnknownCommits(d);
    TransitionsFormAChain(d, h);
    var c := Commitments(d, h, |h|);
    assert Link(d, h, c[2], c[3]);
    assert StretchStart(h, c, 3) == StretchStart(h, c, 2) == 1;
  }
}
