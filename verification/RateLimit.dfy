/** The sliding-window rate limiter of the integration API (app/security/integration_rate_limit.py).
    Clock readings are seconds of a monotonic clock. */
module RateLimit {
  const WINDOW_SECONDS := 60.0

  type Buckets = map<string, seq<real>>

  datatype Request = Request(key: string, at: real, limit: int)

  function BucketOf(buckets: Buckets, key: string): seq<real> {
    if key in buckets then buckets[key] else []
  }

  /** What is left of a bucket once expired readings are popped from its front. */
  function Live(bucket: seq<real>, now: real): seq<real> {
    if bucket != [] && now - bucket[0] >= WINDOW_SECONDS then Live(bucket[1..], now) else bucket
  }

  predicate Accepts(buckets: Buckets, r: Request) {
    r.limit <= 0 || |Live(BucketOf(buckets, r.key), r.at)| < r.limit
  }

  /** The buckets after one request; a limit of zero or less switches the limiter off. */
  function After(buckets: Buckets, r: Request): Buckets {
    if r.limit <= 0 then buckets
    else
      var live := Live(BucketOf(buckets, r.key), r.at);
      buckets[r.key := if |live| < r.limit then live + [r.at] else live]
  }

  method Cleanup(bucket: seq<real>, now: real) returns (live: seq<real>)
    ensures live == Live(bucket, now)
  {
    live := bucket;
    while live != [] && now - live[0] >= WINDOW_SECONDS
      invariant Live(live, now) == Live(bucket, now)
      decreases |live|
    {
      live := live[1..];
    }
  }

  class RateLimiter {
    var buckets: Buckets

    constructor ()
      ensures buckets == BucketsAfter([])
    {
      buckets := map[];
    }

    method EnforceRateLimit(key: string, now: real, limit: int) returns (accepted: bool)
      modifies this
      ensures accepted == Accepts(old(buckets), Request(key, now, limit))
      ensures buckets == After(old(buckets), Request(key, now, limit))
      ensures forall run :: old(buckets) == BucketsAfter(run) ==> buckets == BucketsAfter(run + [Request(key, now, limit)])
    {
      ghost var r := Request(key, now, limit);
      assert forall run :: (run + [r])[..|run|] == run && (run + [r])[|run|] == r;
      if limit <= 0 {
        return true;
      }
      var live := Cleanup(BucketOf(buckets, key), now);
      accepted := |live| < limit;
      if accepted {
        live := live + [now];
      }
      buckets := buckets[key := live];
    }

    /** Forgetting everything starts a new run. */
    method Reset()
      modifies this
      ensures buckets == BucketsAfter([])
    {
      buckets := map[];
    }
  }

  // ---- runs ----

  ghost predicate Monotone(run: seq<Request>) {
    forall i, j :: 0 <= i < j < |run| ==> run[i].at <= run[j].at
  }

  function BucketsAfter(run: seq<Request>): Buckets {
    if run == [] then map[] else After(BucketsAfter(run[..|run| - 1]), run[|run| - 1])
  }

  /** Whether request `i` of a run was let through. */
  predicate AcceptedAt(run: seq<Request>, i: nat)
    requires i < |run|
  {
    Accepts(BucketsAfter(run[..i]), run[i])
  }

  /** When the limited requests of one key were let through, in order. */
  function AcceptedTimes(run: seq<Request>, key: string): seq<real> {
    if run == [] then []
    else
      var n := |run| - 1;
      var before := AcceptedTimes(run[..n], key);
      if run[n].key == key && run[n].limit > 0 && Accepts(BucketsAfter(run[..n]), run[n]) then before + [run[n].at]
      else before
  }

  /** How many readings lie in the half-open window of sixty seconds from `from`. */
  function CountFrom(times: seq<real>, from: real): nat {
    if times == [] then 0
    else CountFrom(times[1..], from) + if from <= times[0] < from + 60.0 then 1 else 0
  }

  /** How many readings are less than sixty seconds old at `now`. */
  function Recent(times: seq<real>, now: real): nat {
    if times == [] then 0 else Recent(times[1..], now) + if now - times[0] < 60.0 then 1 else 0
  }

  // ---- the bucket forgets only what no later reading can need ----

  lemma {:induction false} LiveAppend(a: seq<real>, t: real, now: real)
    ensures Live(a + [t], now) == if Live(a, now) == [] then Live([t], now) else Live(a, now) + [t]
  {
    if a == [] {
      assert a + [t] == [t];
    } else {
      assert (a + [t])[1..] == a[1..] + [t];
      LiveAppend(a[1..], t, now);
    }
  }

  lemma {:induction false} LiveTwice(a: seq<real>, t: real, now: real)
    requires t <= now
    ensures Live(Live(a, t), now) == Live(a, now)
  {
    if a != [] && t - a[0] >= WINDOW_SECONDS {
      LiveTwice(a[1..], t, now);
    }
  }

  lemma {:induction false} AfterOne(buckets: Buckets, r: Request, key: string)
    ensures BucketOf(After(buckets, r), key)
         == if r.key != key || r.limit <= 0 then BucketOf(buckets, key)
            else if Accepts(buckets, r) then Live(BucketOf(buckets, key), r.at) + [r.at]
            else Live(BucketOf(buckets, key), r.at)
  {
    hide Live;
  }

  /** After any run, a bucket cleaned at any later reading is the whole acceptance history of its key
      cleaned at that reading. */
  lemma {:induction false} BucketIsHistory(run: seq<Request>, key: string, now: real)
    requires Monotone(run) && forall i :: 0 <= i < |run| ==> run[i].at <= now
    ensures Live(BucketOf(BucketsAfter(run), key), now) == Live(AcceptedTimes(run, key), now)
    decreases |run|
  {
    if run != [] {
      hide Live, Accepts, After, BucketOf, Monotone;
      var n := |run| - 1;
      var before, r := BucketsAfter(run[..n]), run[n];
      MonotonePrefix(run, n);
      BucketIsHistory(run[..n], key, now);
      AfterOne(before, r, key);
      var bucket, history := BucketOf(before, key), AcceptedTimes(run[..n], key);
      LiveTwice(bucket, r.at, now);
      LiveAppend(Live(bucket, r.at), r.at, now);
      LiveAppend(history, r.at, now);
    }
  }

  lemma {:induction false} MonotonePrefix(run: seq<Request>, n: nat)
    requires Monotone(run) && n <= |run|
    ensures Monotone(run[..n])
  {
  }

  lemma {:induction false} AcceptedElements(run: seq<Request>, key: string)
    ensures forall t :: t in AcceptedTimes(run, key) ==> exists i :: 0 <= i < |run| && run[i].at == t
  {
    hide Accepts, BucketsAfter;
    if run != [] {
      var n := |run| - 1;
      AcceptedElements(run[..n], key);
      forall t | t in AcceptedTimes(run, key) ensures exists i :: 0 <= i < |run| && run[i].at == t {
        if t in AcceptedTimes(run[..n], key) {
          var i :| 0 <= i < n && run[..n][i].at == t;
          assert run[i].at == t;
        } else {
          assert run[n].at == t;
        }
      }
    }
  }

  ghost predicate NonDecreasing(times: seq<real>) {
    forall i, j :: 0 <= i < j < |times| ==> times[i] <= times[j]
  }

  lemma {:induction false} AcceptedInOrder(run: seq<Request>, key: string)
    requires Monotone(run)
    ensures NonDecreasing(AcceptedTimes(run, key))
    decreases |run|
  {
    hide Accepts, BucketsAfter;
    if run != [] {
      var n := |run| - 1;
      AcceptedInOrder(run[..n], key);
      AcceptedElements(run[..n], key);
      var before := AcceptedTimes(run[..n], key);
      forall i | 0 <= i < |before| ensures before[i] <= run[n].at {
        assert before[i] in before;
      }
    }
  }

  lemma {:induction false} NothingExpired(times: seq<real>, now: real)
    requires NonDecreasing(times) && (times == [] || now - times[0] < WINDOW_SECONDS)
    ensures Recent(times, now) == |times|
  {
    if |times| > 1 {
      assert times[0] <= times[1];
      NothingExpired(times[1..], now);
    }
  }

  /** Cleaning keeps exactly the readings less than sixty seconds old. */
  lemma {:induction false} LiveCounts(times: seq<real>, now: real)
    requires NonDecreasing(times)
    ensures |Live(times, now)| == Recent(times, now)
  {
    if times != [] && now - times[0] >= WINDOW_SECONDS {
      LiveCounts(times[1..], now);
    } else {
      NothingExpired(times, now);
    }
  }

  /** A request is refused exactly when it has a limit and that many requests of its key were accepted in
      the sixty seconds before it; without a limit it leaves no trace. */
  lemma {:induction false} RefusedExactlyWhenFull(run: seq<Request>, i: nat)
    requires Monotone(run) && i < |run|
    ensures !AcceptedAt(run, i)
       <==> run[i].limit > 0 && Recent(AcceptedTimes(run[..i], run[i].key), run[i].at) >= run[i].limit
    ensures run[i].limit <= 0 ==> BucketsAfter(run[..i + 1]) == BucketsAfter(run[..i])
  {
    hide Live, AcceptedTimes, Recent;
    assert run[..i + 1][..i] == run[..i];
    if run[i].limit > 0 {
      hide BucketsAfter;
      MonotonePrefix(run, i);
      BucketIsHistory(run[..i], run[i].key, run[i].at);
      AcceptedInOrder(run[..i], run[i].key);
      LiveCounts(AcceptedTimes(run[..i], run[i].key), run[i].at);
    }
  }

  lemma {:induction false} CountAppend(times: seq<real>, t: real, from: real)
    ensures CountFrom(times + [t], from) == CountFrom(times, from) + if from <= t < from + WINDOW_SECONDS then 1 else 0
  {
    if times == [] {
      assert times + [t] == [t];
    } else {
      assert (times + [t])[1..] == times[1..] + [t];
      CountAppend(times[1..], t, from);
    }
  }

  /** A window that reaches up to `now` holds no more readings than are recent at `now`. */
  lemma {:induction false} WindowIsRecent(times: seq<real>, from: real, now: real)
    requires from <= now < from + WINDOW_SECONDS
    ensures CountFrom(times, from) <= Recent(times, now)
  {
    if times != [] {
      WindowIsRecent(times[1..], from, now);
    }
  }

  /** No window of sixty seconds, wherever it starts, holds more accepted requests of a key than the
      largest limit ever applied to that key. */
  lemma {:induction false} EveryWindowIsLimited(run: seq<Request>, key: string, limit: nat, from: real)
    requires Monotone(run) && forall i :: 0 <= i < |run| && run[i].key == key ==> run[i].limit <= limit
    ensures CountFrom(AcceptedTimes(run, key), from) <= limit
    decreases |run|
  {
    if run != [] {
      hide Live, Accepts, After, BucketOf, Monotone, Recent, CountFrom;
      var n := |run| - 1;
      var r, times := run[n], AcceptedTimes(run[..n], key);
      MonotonePrefix(run, n);
      EveryWindowIsLimited(run[..n], key, limit, from);
      CountAppend(times, r.at, from);
      if r.key == key && r.limit > 0 && from <= r.at < from + WINDOW_SECONDS {
        RefusedExactlyWhenFull(run, n);
        WindowIsRecent(times, from, r.at);
      }
    }
  }

  /** The requests of one key only. */
  function Only(run: seq<Request>, key: string): seq<Request> {
    if run == [] then []
    else
      var n := |run| - 1;
      if run[n].key == key then Only(run[..n], key) + [run[n]] else Only(run[..n], key)
  }

  lemma {:induction false} OnlyLast(run: seq<Request>, key: string)
    requires run != [] && run[|run| - 1].key == key
    ensures var n, mine := |run| - 1, Only(run, key);
      mine != [] && mine[|mine| - 1] == run[n] && mine[..|mine| - 1] == Only(run[..n], key)
  {
  }

  /** Keys do not influence each other: a key's bucket, and so every decision on it, is what it would
      be had no other key sent anything. */
  lemma {:induction false} KeysAreIndependent(run: seq<Request>, key: string)
    ensures BucketOf(BucketsAfter(run), key) == BucketOf(BucketsAfter(Only(run, key)), key)
    decreases |run|
  {
    if run != [] {
      var n := |run| - 1;
      KeysAreIndependent(run[..n], key);
      AfterOne(BucketsAfter(run[..n]), run[n], key);
      if run[n].key == key {
        OnlyLast(run, key);
        AfterOne(BucketsAfter(Only(run[..n], key)), run[n], key);
      } else {
        assert Only(run, key) == Only(run[..n], key);
      }
    }
  }
}
