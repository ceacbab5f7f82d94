/** Notification delivery: the per-event rate limiter and the bounded retry. */
module Delivery {
  import opened Basics

  // ----- rate limiter

  type Grants = map<string, int>

  predicate Admits(last: Grants, cooldown: int, key: string, now: int) {
    key != "" && !(key in last && now - last[key] < cooldown)
  }

  function AllowRegion(last: Grants, cooldown: int, key: string, now: int): Grants {
    if Admits(last, cooldown, key, now) then last[key := now] else last
  }

  class Limiter {
    const cooldown: int
    var last: Grants

    constructor (cooldown: int, default: int)
      ensures this.cooldown == (if cooldown <= 0 then default else cooldown) && last == map[]
    {
      this.cooldown := if cooldown <= 0 then default else cooldown;
      last := map[];
    }

    method Allow(key: string, now: int) returns (ok: bool)
      modifies this
      ensures ok == Admits(old(last), cooldown, key, now)
      ensures last == AllowRegion(old(last), cooldown, key, now)
    {
      if key == "" {
        return false;
      }
      if key in last && now - last[key] < cooldown {
        return false;
      }
      last := last[key := now];
      return true;
    }
  }

  datatype Request = Request(key: string, now: int)

  /** The limiter's memory after the first `n` requests. */
  function After(cooldown: int, run: seq<Request>, n: nat): Grants
    requires n <= |run|
  {
    if n == 0 then map[] else AllowRegion(After(cooldown, run, n - 1), cooldown, run[n - 1].key, run[n - 1].now)
  }

  predicate Granted(cooldown: int, run: seq<Request>, n: nat)
    requires n < |run|
  {
    Admits(After(cooldown, run, n), cooldown, run[n].key, run[n].now)
  }

  /** Request `m` is the last one granted to its key before request `n`. */
  predicate LastGrant(cooldown: int, run: seq<Request>, m: nat, n: nat)
    requires n <= |run|
  {
    m < n && Granted(cooldown, run, m)
    && forall k :: m < k < n && run[k].key == run[m].key ==> !Granted(cooldown, run, k)
  }

  lemma {:induction false} MemoryIsLastGrant(cooldown: int, run: seq<Request>, m: nat, n: nat)
    requires n <= |run| && LastGrant(cooldown, run, m, n)
    ensures run[m].key in After(cooldown, run, n) && After(cooldown, run, n)[run[m].key] == run[m].now
  {
    if m < n - 1 {
      MemoryIsLastGrant(cooldown, run, m, n - 1);
      assert run[n - 1].key == run[m].key ==> !Granted(cooldown, run, n - 1);
    }
  }

  /** Two grants to one key are at least the cooldown apart, whatever the clock did between. */
  lemma {:induction false} GrantsAreSpaced(cooldown: int, run: seq<Request>, i: nat, j: nat)
    requires cooldown > 0 && i < j < |run| && run[i].key == run[j].key
    requires Granted(cooldown, run, i) && Granted(cooldown, run, j)
    ensures run[j].now - run[i].now >= cooldown
    decreases j - i
  {
    if LastGrant(cooldown, run, i, j) {
      MemoryIsLastGrant(cooldown, run, i, j);
    } else {
      var k :| i < k < j && run[k].key == run[i].key && Granted(cooldown, run, k);
      GrantsAreSpaced(cooldown, run, i, k);
      GrantsAreSpaced(cooldown, run, k, j);
    }
  }

  /** Request `m` was granted to the key of request `n`, less than the cooldown before it, and nothing
      was granted to that key since. */
  predicate Blocks(cooldown: int, run: seq<Request>, m: nat, n: nat)
    requires n < |run|
  {
    LastGrant(cooldown, run, m, n) && run[m].key == run[n].key && run[n].now - run[m].now < cooldown
  }

  /** A request is granted exactly when it has a key, and the last grant to that key, if any, is the
      cooldown ago. */
  lemma GrantedExactlyWhenDue(cooldown: int, run: seq<Request>, n: nat)
    requires n < |run|
    ensures Granted(cooldown, run, n) <==> run[n].key != "" && !exists m: nat :: Blocks(cooldown, run, m, n)
  {
    if m: nat :| Blocks(cooldown, run, m, n) {
      MemoryIsLastGrant(cooldown, run, m, n);
    }
    if run[n].key in After(cooldown, run, n) {
      var m := GrantOfMemory(cooldown, run, run[n].key, n);
      MemoryIsLastGrant(cooldown, run, m, n);
      assert Blocks(cooldown, run, m, n) <==> run[n].now - run[m].now < cooldown;
    }
  }

  lemma {:induction false} GrantOfMemory(cooldown: int, run: seq<Request>, key: string, n: nat) returns (m: nat)
    requires n <= |run| && key in After(cooldown, run, n)
    ensures LastGrant(cooldown, run, m, n) && run[m].key == key
  {
    if run[n - 1].key == key && Granted(cooldown, run, n - 1) {
      m := n - 1;
    } else {
      m := GrantOfMemory(cooldown, run, key, n - 1);
    }
  }

  /** The requests of one key. */
  function Only(run: seq<Request>, key: string): seq<Request> {
    if run == [] then []
    else Only(run[..|run| - 1], key) + if run[|run| - 1].key == key then [run[|run| - 1]] else []
  }

  /** The requests that were granted. */
  function GrantedOf(cooldown: int, run: seq<Request>, n: nat): seq<Request>
    requires n <= |run|
  {
    if n == 0 then []
    else GrantedOf(cooldown, run, n - 1) + if Granted(cooldown, run, n - 1) then [run[n - 1]] else []
  }

  /** Keys are independent: what is granted to a key is what would be granted had there been no
      other requests. */
  lemma {:induction false} KeysAreIndependent(cooldown: int, run: seq<Request>, key: string)
    ensures var own := Only(run, key); var a, b := After(cooldown, run, |run|), After(cooldown, own, |own|);
      && (key in a <==> key in b) && (key in a ==> a[key] == b[key])
      && Only(GrantedOf(cooldown, run, |run|), key) == GrantedOf(cooldown, own, |own|)
  {
    if run != [] {
      var init, r := run[..|run| - 1], run[|run| - 1];
      KeysAreIndependent(cooldown, init, key);
      assert run == init + [r];
      var own, granted := Only(init, key), GrantedOf(cooldown, init, |init|);
      OneRequestMore(cooldown, init, r);
      OnlyOfAppended(init, r, key);
      OnlyOfAppended(granted, r, key);
      if r.key == key {
        OneRequestMore(cooldown, own, r);
        var ownGranted := GrantedOf(cooldown, own, |own|);
        assert Only(granted + [], key) == ownGranted == ownGranted + [];
      } else {
        assert Only(run, key) == own;
        assert Only(granted, key) + [] == Only(granted, key);
      }
    }
  }

  lemma OneRequestMore(cooldown: int, run: seq<Request>, r: Request)
    ensures var g, last := run + [r], After(cooldown, run, |run|);
      && After(cooldown, g, |g|) == AllowRegion(last, cooldown, r.key, r.now)
      && GrantedOf(cooldown, g, |g|) ==
         GrantedOf(cooldown, run, |run|) + if Admits(last, cooldown, r.key, r.now) then [r] else []
  {
    PrefixDecides(cooldown, run, run + [r], |run|);
  }

  lemma {:induction false} PrefixDecides(cooldown: int, h: seq<Request>, g: seq<Request>, n: nat)
    requires h <= g && n <= |h|
    ensures After(cooldown, h, n) == After(cooldown, g, n) && GrantedOf(cooldown, h, n) == GrantedOf(cooldown, g, n)
  {
    if n > 0 {
      PrefixDecides(cooldown, h, g, n - 1);
    }
  }

  lemma OnlyOfAppended(run: seq<Request>, r: Request, key: string)
    ensures Only(run + [r], key) == Only(run, key) + if r.key == key then [r] else []
    ensures Only(run + [], key) == Only(run, key)
  {
    assert (run + [r])[..|run|] == run;
    assert run + [] == run;
  }

  // ----- retry

  datatype Failure = Canceled | DeadlineExceeded | Status(code: int) | Network | Other

  datatype Reply = Fine | Error(failure: Failure)

  predicate Retryable(f: Failure) {
    match f
    case Canceled => false
    case DeadlineExceeded => true
    case Status(code) => code == 429 || code >= 500
    case Network => true
    case Other => false
  }

  /** Worth another try: a deadline, too many requests, a server's fault, or the network. */
  lemma RetryableByName(code: int)
    ensures !Retryable(Canceled) && Retryable(DeadlineExceeded) && Retryable(Network) && !Retryable(Other)
    ensures code < 500 ==> (Retryable(Status(code)) <==> code == 429)
    ensures code >= 500 ==> Retryable(Status(code))
  {
  }

  /** What happens around the calls: whether the context is over before the `i`-th call, what the
      call replies, and whether the wait after it is cut short, and when. */
  datatype World = World(over: int -> Option<Failure>, reply: int -> Reply, cut: int -> Option<(nat, Failure)>)

  function Pow2(n: nat): (p: nat)
    ensures p >= 1
  {
    if n == 0 then 1 else 2 * Pow2(n - 1)
  }

  /** The wait after the `n`-th call, and all the waits before it: they double from `backoff` on. */
  function Delay(backoff: int, n: nat): int {
    if n == 0 then backoff else 2 * Delay(backoff, n - 1)
  }

  function TotalWait(backoff: int, n: nat): int {
    if n == 0 then 0 else TotalWait(backoff, n - 1) + Delay(backoff, n - 1)
  }

  lemma {:induction false} WaitsDouble(backoff: int, n: nat)
    ensures Delay(backoff, n) == backoff * Pow2(n) && TotalWait(backoff, n) == backoff * (Pow2(n) - 1)
  {
    if n > 0 {
      WaitsDouble(backoff, n - 1);
    }
  }

  lemma {:induction false} WaitsGrow(backoff: int, i: nat, j: nat)
    requires backoff > 0 && i <= j
    ensures 0 <= TotalWait(backoff, i) <= TotalWait(backoff, j) && Delay(backoff, j) > 0
  {
    if i < j {
      WaitsGrow(backoff, i, j - 1);
    } else if i > 0 {
      WaitsGrow(backoff, i - 1, j - 1);
    }
  }

  /** Every call before `n` failed in a way worth another try. */
  predicate WorthRetrying(w: World, n: int) {
    forall i :: 0 <= i < n ==> w.reply(i).Error? && Retryable(w.reply(i).failure)
  }

  /** A wait that the context's end cut short after the `n`-th call. */
  predicate CutShort(w: World, backoff: int, n: nat)
    requires n > 0
  {
    w.cut(n - 1).Some? && w.cut(n - 1).value.0 < Delay(backoff, n - 1)
  }

  /** How the retry ended after `calls` calls: on its last reply, which was good, not worth another
      try, or the last allowed; before a further call, the context being over; or in a wait. And how
      long it had waited by then. */
  predicate Ends(w: World, limit: int, backoff: int, calls: nat, r: Reply, waited: int) {
    || (&& calls > 0 && r == w.reply(calls - 1) && (r.Fine? || !Retryable(r.failure) || calls == limit)
        && waited == WaitedBefore(backoff, calls - 1))
    || (&& calls < limit && WorthRetrying(w, calls) && w.over(calls).Some? && r == Error(w.over(calls).value)
        && waited == WaitedBefore(backoff, calls))
    || (&& 0 < calls < limit && WorthRetrying(w, calls)
        && CutShort(w, backoff, calls) && r == Error(w.cut(calls - 1).value.1)
        && waited == WaitedBefore(backoff, calls - 1) + w.cut(calls - 1).value.0)
  }

  /** All the waits after the first `n` calls; there are none without a backoff. */
  function WaitedBefore(backoff: int, n: nat): int {
    if backoff <= 0 then 0 else TotalWait(backoff, n)
  }

  /** `withRetry`: calls at most `attempts` times, or once, and goes on only past failures worth
      another try. Waits double, so together they never exceed `backoff * (2^(attempts-1) - 1)`. */
  method WithRetry(attempts: int, backoff: int, w: World) returns (r: Reply, calls: nat, waited: int)
    ensures calls <= Max(attempts, 1) && WorthRetrying(w, calls - 1)
    ensures Ends(w, Max(attempts, 1), backoff, calls, r, waited)
    ensures backoff <= 0 ==> waited == 0
    ensures backoff > 0 ==> 0 <= waited <= backoff * (Pow2(Max(attempts, 1) - 1) - 1)
  {
    var limit := if attempts < 1 then 1 else attempts;
    var delay := backoff;
    r, calls, waited := Fine, 0, 0;
    WaitsDouble(backoff, limit - 1);
    if backoff > 0 {
      WaitsGrow(backoff, 0, limit - 1);
    }
    for i := 0 to limit
      invariant calls == i
      invariant WorthRetrying(w, i) && (i > 0 ==> r == w.reply(i - 1))
      invariant backoff > 0 && i < limit ==> delay == Delay(backoff, i) && waited == TotalWait(backoff, i)
      invariant backoff > 0 ==> 0 <= waited <= TotalWait(backoff, limit - 1)
      invariant backoff <= 0 ==> delay == backoff && waited == 0
      invariant i == limit ==> waited == WaitedBefore(backoff, limit - 1)
    {
      if w.over(i).Some? {
        return Error(w.over(i).value), calls, waited;
      }
      calls := calls + 1;
      r := w.reply(i);
      if r.Fine? {
        return;
      }
      if !Retryable(r.failure) || i == limit - 1 {
        return;
      }
      if backoff > 0 {
        WaitsGrow(backoff, i, i);
      }
      if delay > 0 {
        var cut := w.cut(i);
        WaitsGrow(backoff, i + 1, limit - 1);
        assert Delay(backoff, i + 1) == 2 * Delay(backoff, i);
        if cut.Some? && cut.value.0 < delay {
          return Error(cut.value.1), calls, waited + cut.value.0;
        }
        waited := waited + delay;
        delay := delay * 2;
      }
    }
  }
}
