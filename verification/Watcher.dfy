/** The AC watcher: an incremental debounce filter, and the declarative filter over the whole
    history of polls that it computes. */
module Watcher {
  import opened Basics
  import opened Power

  datatype Poll = Poll(at: int, source: Source)

  /** `duration` is in whole milliseconds. */
  datatype Transition = Transition(event: EventType, at: int, from: Source, to: Source, duration: Option<int>)

  // ----- the declarative filter

  /** Where the longest run of equal sources that ends at poll `n` begins. */
  function RunStart(h: seq<Poll>, n: nat): (k: nat)
    requires n < |h|
    ensures k <= n
  {
    if n > 0 && h[n - 1].source == h[n].source then RunStart(h, n - 1) else n
  }

  /** Poll `n` emits: there is a baseline, its source is not the committed one, and the run of
      its source that ends there spans the debounce time. */
  predicate Emits(debounce: int, h: seq<Poll>, n: nat)
    requires n < |h|
    decreases n, 2
  {
    n > 0 && h[n].source != Committed(debounce, h, n) && h[n].at - h[RunStart(h, n)].at >= debounce
  }

  /** Poll `m` commits its source: it is the baseline or it emits. */
  predicate Commits(debounce: int, h: seq<Poll>, m: nat)
    requires m < |h|
    decreases m, 3
  {
    m == 0 || Emits(debounce, h, m)
  }

  /** The last of the first `n` polls to commit its source. */
  function LastCommit(debounce: int, h: seq<Poll>, n: nat): (m: nat)
    requires 0 < n <= |h|
    ensures m < n
    decreases n, 0
  {
    if Commits(debounce, h, n - 1) then n - 1 else LastCommit(debounce, h, n - 1)
  }

  /** The source committed by the first `n` polls. */
  function Committed(debounce: int, h: seq<Poll>, n: nat): Source
    requires 0 < n <= |h|
    decreases n, 1
  {
    h[LastCommit(debounce, h, n)].source
  }

  /** `Duration.Milliseconds`, with a negative duration reported as none. */
  function Millis(d: int): (ms: int)
    ensures 0 <= ms && (d >= 0 ==> ms * MILLISECOND <= d < (ms + 1) * MILLISECOND)
  {
    if d < 0 then 0 else d / MILLISECOND
  }

  /** What poll `n` emits: the change from the last commit to its source, and, when power comes
      back, the time since that commit. */
  function Emitted(debounce: int, h: seq<Poll>, n: nat): Option<Transition>
    requires n < |h|
  {
    if !Emits(debounce, h, n) then None
    else
      var last := h[LastCommit(debounce, h, n)];
      Some(Transition(EventOf(h[n].source), h[n].at, last.source, h[n].source,
                      if h[n].source.AC? then Some(Millis(h[n].at - last.at)) else None))
  }

  lemma {:induction false} RunIsMaximal(h: seq<Poll>, n: nat)
    requires n < |h|
    ensures var k := RunStart(h, n);
      && (forall i :: k <= i <= n ==> h[i].source == h[n].source)
      && (k == 0 || h[k - 1].source != h[n].source)
  {
    if n > 0 && h[n - 1].source == h[n].source {
      RunIsMaximal(h, n - 1);
    }
  }

  lemma {:induction false} LastCommitIsLast(debounce: int, h: seq<Poll>, n: nat)
    requires 0 < n <= |h|
    ensures var m := LastCommit(debounce, h, n);
      Commits(debounce, h, m) && forall k :: m < k < n ==> !Commits(debounce, h, k)
  {
    if !Commits(debounce, h, n - 1) {
      LastCommitIsLast(debounce, h, n - 1);
    }
  }

  // ----- the incremental filter

  class Watcher {
    const debounce: int
    var baselined: bool
    var committed: Source
    var pending: Option<Source>
    var pendingSince: Option<int>
    var lastOffAC: Option<int>
    var lastSnap: Option<Poll>
    ghost var history: seq<Poll>

    /** The fields hold what the history says they should. */
    ghost predicate Valid()
      reads this
    {
      var n := |history|;
      && debounce > 0
      && (baselined <==> n > 0)
      && (lastSnap == if n > 0 then Some(history[n - 1]) else None)
      && (n == 0 ==> pending.None?)
      && (n > 0 ==>
            var last := LastCommit(debounce, history, n);
            var run := RunStart(history, n - 1);
            && committed == history[last].source
            && (committed != AC ==> lastOffAC == Some(history[last].at))
            && (if history[n - 1].source == committed then pending.None?
                else pending == Some(history[n - 1].source) && pendingSince == Some(history[run].at)))
    }

    constructor (debounce: int)
      ensures Valid() && history == []
      ensures this.debounce == if debounce <= 0 then 10_000_000_000 else debounce
    {
      this.debounce := if debounce <= 0 then 10 * SECOND else debounce;
      baselined, committed, pending, pendingSince, lastOffAC := false, Unknown, None, None, None;
      lastSnap := None;
      history := [];
    }

    /** One poll. The incremental filter emits what the declarative one says of the history. */
    method Tick(now: int, src: Source) returns (tr: Option<Transition>)
      requires Valid()
      modifies this
      ensures Valid() && history == old(history) + [Poll(now, src)]
      ensures tr == Emitted(debounce, history, |history| - 1)
    {
      ghost var before := history;
      history := history + [Poll(now, src)];
      lastSnap := Some(Poll(now, src));
      OnePollMore(debounce, before, Poll(now, src));
      if !baselined {
        committed := src;
        baselined := true;
        pending := None;
        if src != AC {
          lastOffAC := Some(now);
        }
        return None;
      }
      if src == committed {
        pending := None;
        pendingSince := None;
        return None;
      }
      if pending != Some(src) {
        pending := Some(src);
        pendingSince := Some(now);
        if debounce > 0 {
          return None;
        }
      }
      if debounce > 0 && now - pendingSince.value < debounce {
        return None;
      }
      assert Emits(debounce, history, |before|);
      var duration := None;
      if committed != AC && src == AC && lastOffAC.Some? {
        var ms := Millis(now - lastOffAC.value);
        duration := Some(ms);
      }
      tr := Some(Transition(EventOf(src), now, committed, src, duration));
      if src != AC {
        lastOffAC := Some(now);
      }
      committed := src;
      pending := None;
      pendingSince := None;
    }
  }

  /** What the filter says of a poll depends on that poll and the ones before it only. */
  lemma {:induction false} FilterSeesOnlyThePast(debounce: int, h: seq<Poll>, g: seq<Poll>, n: nat)
    requires n <= |h| && h <= g
    ensures forall k :: 0 <= k < n ==> RunStart(h, k) == RunStart(g, k) && Emits(debounce, h, k) == Emits(debounce, g, k)
    ensures n > 0 ==> LastCommit(debounce, h, n) == LastCommit(debounce, g, n)
  {
    if n > 0 {
      FilterSeesOnlyThePast(debounce, h, g, n - 1);
      RunStartSeesOnlyThePast(h, g, n - 1);
    }
  }

  lemma {:induction false} RunStartSeesOnlyThePast(h: seq<Poll>, g: seq<Poll>, n: nat)
    requires n < |h| && h <= g
    ensures RunStart(h, n) == RunStart(g, n)
  {
    if n > 0 && h[n - 1].source == h[n].source {
      RunStartSeesOnlyThePast(h, g, n - 1);
    }
  }

  /** The declarative filter after one more poll, from what it said before. */
  lemma OnePollMore(debounce: int, h: seq<Poll>, p: Poll)
    ensures var g, n := h + [p], |h|;
      && RunStart(g, n) == (if n > 0 && h[n - 1].source == p.source then RunStart(h, n - 1) else n)
      && LastCommit(debounce, g, n + 1) == (if Commits(debounce, g, n) then n else LastCommit(debounce, h, n))
      && (n > 0 ==> LastCommit(debounce, g, n) == LastCommit(debounce, h, n))
      && (Emits(debounce, g, n) <==>
            n > 0 && p.source != Committed(debounce, h, n) && p.at - g[RunStart(g, n)].at >= debounce)
  {
    var g, n := h + [p], |h|;
    FilterSeesOnlyThePast(debounce, h, g, n);
    if n > 0 {
      RunStartSeesOnlyThePast(h, g, n - 1);
    }
  }
}
