/**
  The fixed-window limiter. Its reference is a limiter that never prunes, read off the whole history
  of requests; the one that runs keeps a bucket per client and forgets expired ones.
 */
module RateLimit {
  /** Nanoseconds since the zero time, which marks a bucket that was never used. */
  type Time = int

  const MINUTE: int := 60_000_000_000

  datatype Bucket = Bucket(windowStart: Time, count: nat)

  const UNUSED := Bucket(0, 0)

  datatype Request = Request(key: string, time: Time)

  predicate Expired(bucket: Bucket, now: Time, window: int) {
    bucket.windowStart == 0 || now - bucket.windowStart >= window
  }

  function Count(bucket: Bucket, now: Time, window: int): Bucket {
    if Expired(bucket, now, window) then Bucket(now, 1) else bucket.(count := bucket.count + 1)
  }

  /** The client's bucket after a history, in a limiter that never prunes. */
  ghost function BucketAfter(history: seq<Request>, key: string, window: int): Bucket {
    if history == [] then UNUSED else
    var was, last := BucketAfter(history[..|history| - 1], key, window), history[|history| - 1];
    if last.key == key then Count(was, last.time, window) else was
  }

  ghost predicate Admitted(history: seq<Request>, n: nat, max: int, window: int)
    requires n < |history|
  {
    BucketAfter(history[..n + 1], history[n].key, window).count <= max
  }

  /** Real requests: after the zero time, and never going back. */
  ghost predicate InOrder(history: seq<Request>) {
    && (forall i :: 0 <= i < |history| ==> history[i].time > 0)
    && forall i, j :: 0 <= i < j < |history| ==> history[i].time <= history[j].time
  }

  /** A missing bucket is one the next request would have replaced anyway. */
  ghost predicate Simulates(
      buckets: map<string, Bucket>, history: seq<Request>, lastCleanup: Time, window: int, key: string)
  {
    var reference := BucketAfter(history, key, window);
    if key in buckets then buckets[key] == reference else Expired(reference, lastCleanup, window)
  }

  function Lookup(buckets: map<string, Bucket>, key: string): Bucket {
    if key in buckets then buckets[key] else UNUSED
  }

  lemma CountKeeps(
      was: map<string, Bucket>, history: seq<Request>, lastCleanup: Time, window: int, key: string, now: Time,
      bucket: Bucket, next: map<string, Bucket>, after: seq<Request>)
    requires (forall other :: Simulates(was, history, lastCleanup, window, other)) && lastCleanup <= now
    requires bucket == Count(Lookup(was, key), now, window) && next == was[key := bucket]
    requires after == history + [Request(key, now)]
    ensures bucket == BucketAfter(after, key, window)
    ensures forall other :: Simulates(next, after, lastCleanup, window, other)
  {
    assert after[..|after| - 1] == history;
    assert Simulates(was, history, lastCleanup, window, key);
    forall other ensures Simulates(next, after, lastCleanup, window, other) {
      assert Simulates(was, history, lastCleanup, window, other);
    }
  }

  lemma InOrderOneMore(history: seq<Request>, request: Request)
    requires InOrder(history) && request.time > 0
    requires history != [] ==> history[|history| - 1].time <= request.time
    ensures InOrder(history + [request])
  {
  }

  lemma LastIsAdmittedIff(history: seq<Request>, key: string, now: Time, bucket: Bucket, max: int, window: int)
    requires bucket == BucketAfter(history + [Request(key, now)], key, window)
    ensures Admitted(history + [Request(key, now)], |history|, max, window) <==> bucket.count <= max
  {
    var after := history + [Request(key, now)];
    assert after[..|history| + 1] == after;
  }

  lemma PruneKeeps(
      was: map<string, Bucket>, kept: map<string, Bucket>, history: seq<Request>, lastCleanup: Time, window: int,
      now: Time)
    requires (forall key :: Simulates(was, history, lastCleanup, window, key)) && lastCleanup <= now
    requires forall key :: key in kept <==> key in was && !Expired(was[key], now, window)
    requires forall key | key in kept :: kept[key] == was[key]
    ensures forall key :: Simulates(kept, history, now, window, key)
  {
    forall key ensures Simulates(kept, history, now, window, key) {
      assert Simulates(was, history, lastCleanup, window, key);
    }
  }

  class Limiter {
    const maxRequests: int
    const window: int
    var buckets: map<string, Bucket>
    var lastCleanup: Time

    ghost var history: seq<Request>

    ghost predicate Valid()
      reads this
    {
      && maxRequests > 0 && window > 0 && InOrder(history)
      && (history != [] ==> lastCleanup <= history[|history| - 1].time)
      && forall key :: Simulates(buckets, history, lastCleanup, window, key)
    }

    constructor (maxRequests: int, window: int, now: Time)
      ensures Valid() && history == [] && lastCleanup == now
      ensures this.maxRequests == if maxRequests <= 0 then 120 else maxRequests
      ensures this.window == if window <= 0 then MINUTE else window
    {
      this.maxRequests := if maxRequests <= 0 then 120 else maxRequests;
      this.window := if window <= 0 then MINUTE else window;
      buckets, lastCleanup, history := map[], now, [];
    }

    method PruneExpired(now: Time)
      modifies this`buckets
      ensures forall key :: key in buckets <==> key in old(buckets) && !Expired(old(buckets)[key], now, window)
      ensures forall key | key in buckets :: buckets[key] == old(buckets)[key]
    {
      ghost var was := buckets;
      var rest := buckets.Keys;
      while rest != {}
        invariant rest <= buckets.Keys <= was.Keys
        invariant forall key | key in buckets :: buckets[key] == was[key]
        invariant forall key | key in was && key !in rest :: key in buckets <==> !Expired(was[key], now, window)
        decreases rest
      {
        var key :| key in rest;
        if Expired(buckets[key], now, window) {
          buckets := buckets - {key};
        }
        rest := rest - {key};
      }
    }

    method PruneWhenDue(now: Time)
      requires Valid() && now >= lastCleanup
      modifies this`buckets, this`lastCleanup
      ensures lastCleanup <= now && forall key :: Simulates(buckets, history, lastCleanup, window, key)
    {
      if now - lastCleanup >= window {
        PruneExpired(now);
        PruneKeeps(old(buckets), buckets, history, lastCleanup, window, now);
        lastCleanup := now;
      }
    }

    /** One request. Whatever was pruned before, the answer is the reference's. */
    method Allow(key: string, now: Time) returns (allowed: bool)
      requires Valid() && now > 0 && now >= lastCleanup && (history != [] ==> history[|history| - 1].time <= now)
      modifies this
      ensures Valid() && history == old(history) + [Request(key, now)]
      ensures allowed <==> Admitted(history, |history| - 1, maxRequests, window)
    {
      PruneWhenDue(now);
      ghost var was := buckets;
      var bucket := Lookup(buckets, key);
      if bucket.windowStart == 0 || now - bucket.windowStart >= window {
        bucket := Bucket(now, 0);
      }
      bucket := bucket.(count := bucket.count + 1);
      buckets := buckets[key := bucket];
      CountKeeps(was, history, lastCleanup, window, key, now, bucket, buckets, history + [Request(key, now)]);
      InOrderOneMore(history, Request(key, now));
      LastIsAdmittedIff(history, key, now, bucket, maxRequests, window);
      history := history + [Request(key, now)];
      return bucket.count <= maxRequests;
    }
  }

  // ---------------------------------------------------------------- the bound

  ghost function AdmittedIn(history: seq<Request>, key: string, from: nat, to: nat, max: int, window: int): nat
    requires from <= to <= |history|
  {
    if from == to then 0 else
    AdmittedIn(history, key, from, to - 1, max, window) +
    if history[to - 1].key == key && Admitted(history, to - 1, max, window) then 1 else 0
  }

  function Capped(count: nat, max: nat): nat {
    if count <= max then count else max
  }

  lemma BucketStep(history: seq<Request>, key: string, n: nat, window: int)
    requires n < |history|
    ensures BucketAfter(history[..n + 1], key, window) ==
      if history[n].key == key then Count(BucketAfter(history[..n], key, window), history[n].time, window)
      else BucketAfter(history[..n], key, window)
  {
    assert history[..n + 1][..n] == history[..n];
  }

  ghost predicate UsableAt(bucket: Bucket, now: Time) {
    bucket == UNUSED || (bucket.count >= 1 && 0 < bucket.windowStart <= now)
  }

  lemma {:induction false} BucketIsUsed(history: seq<Request>, key: string, n: nat, window: int)
    requires n <= |history| && InOrder(history)
    ensures forall i :: n <= i < |history| ==> UsableAt(BucketAfter(history[..n], key, window), history[i].time)
  {
    if n > 0 {
      BucketIsUsed(history, key, n - 1, window);
      BucketStep(history, key, n - 1, window);
    }
  }

  /** A span that began at `begin` with bucket `first` and has now reached `bucket`. */
  ghost predicate SpanInvariant(first: Bucket, bucket: Bucket, admitted: nat, begin: Time, max: nat) {
    if bucket.windowStart == first.windowStart
    then admitted + Capped(first.count, max) == Capped(bucket.count, max)
    else bucket.windowStart >= begin && admitted <= (if first == UNUSED then 0 else max - 1) + Capped(bucket.count, max)
  }

  lemma SpanStep(
      first: Bucket, bucket: Bucket, admitted: nat, begin: Time, max: nat, window: int, now: Time, next: Bucket)
    requires SpanInvariant(first, bucket, admitted, begin, max) && max > 0
    requires UsableAt(first, begin) && UsableAt(bucket, now) && 0 < begin <= now < begin + window
    requires next == Count(bucket, now, window)
    ensures SpanInvariant(first, next, admitted + if next.count <= max then 1 else 0, begin, max)
  {
  }

  /** While a span shorter than the window lasts, at most one new bucket is opened. */
  lemma {:induction false} SpanCount(history: seq<Request>, key: string, from: nat, to: nat, max: nat, window: int)
    requires InOrder(history) && from < |history| && from <= to <= |history| && max > 0 && window > 0
    requires forall i :: from <= i < to ==> history[i].time - history[from].time < window
    ensures SpanInvariant(
      BucketAfter(history[..from], key, window), BucketAfter(history[..to], key, window),
      AdmittedIn(history, key, from, to, max, window), history[from].time, max)
  {
    if from < to {
      SpanCount(history, key, from, to - 1, max, window);
      BucketIsUsed(history, key, from, window);
      BucketIsUsed(history, key, to - 1, window);
      BucketStep(history, key, to - 1, window);
      var first, bucket := BucketAfter(history[..from], key, window), BucketAfter(history[..to - 1], key, window);
      if history[to - 1].key == key {
        SpanStep(first, bucket, AdmittedIn(history, key, from, to - 1, max, window), history[from].time, max, window,
                 history[to - 1].time, BucketAfter(history[..to], key, window));
      }
    }
  }

  /** No span shorter than the window admits more than twice the maximum, less one. */
  lemma SpanBound(history: seq<Request>, key: string, from: nat, to: nat, max: nat, window: int)
    requires InOrder(history) && from <= to <= |history| && max > 0 && window > 0
    requires forall i :: from <= i < to ==> history[i].time - history[from].time < window
    ensures AdmittedIn(history, key, from, to, max, window) <= 2 * max - 1
  {
    if from < to {
      SpanCount(history, key, from, to, max, window);
      BucketIsUsed(history, key, from, window);
    }
  }

  // ---------------------------------------------------------------- the bound is reached

  /** One request, then the rest of its window at the last moment, then a full new window at once. */
  function WorstCase(key: string, start: Time, max: nat, window: int): (history: seq<Request>)
    ensures |history| == 2 * max
  {
    seq(2 * max, i => Request(key, if i == 0 then start else if i < max then start + window - 1 else start + window))
  }

  lemma {:induction false} WorstCaseBuckets(key: string, start: Time, max: nat, window: int, n: nat)
    requires start > 0 && max > 0 && window > 1 && n <= 2 * max
    ensures BucketAfter(WorstCase(key, start, max, window)[..n], key, window) ==
      if n == 0 then UNUSED else if n <= max then Bucket(start, n) else Bucket(start + window, n - max)
  {
    if n > 0 {
      WorstCaseBuckets(key, start, max, window, n - 1);
      BucketStep(WorstCase(key, start, max, window), key, n - 1, window);
    }
  }

  lemma {:induction false} WorstCaseAdmits(key: string, start: Time, max: nat, window: int, to: nat)
    requires start > 0 && max > 0 && window > 1 && 1 <= to <= 2 * max
    ensures AdmittedIn(WorstCase(key, start, max, window), key, 1, to, max, window) == to - 1
  {
    if to > 1 {
      WorstCaseAdmits(key, start, max, window, to - 1);
      WorstCaseBuckets(key, start, max, window, to);
    }
  }

  /** So the bound cannot be improved: some span of one nanosecond admits exactly that many. */
  lemma BoundIsTight(key: string, start: Time, max: nat, window: int)
    requires start > 0 && max > 0 && window > 1
    ensures var history := WorstCase(key, start, max, window);
      && InOrder(history) && history[|history| - 1].time - history[1].time <= 1
      && AdmittedIn(history, key, 1, |history|, max, window) == 2 * max - 1
  {
    WorstCaseAdmits(key, start, max, window, 2 * max);
  }

  // ---------------------------------------------------------------- clients do not affect each other

  /** The requests of one client, in order. */
  ghost function Own(history: seq<Request>, key: string): seq<Request> {
    if history == [] then [] else
    var init, last := history[..|history| - 1], history[|history| - 1];
    Own(init, key) + if last.key == key then [last] else []
  }

  /** A client's bucket, and so each of its answers, depends on its own requests only. */
  lemma {:induction false} OthersDoNotMatter(history: seq<Request>, key: string, window: int)
    ensures BucketAfter(Own(history, key), key, window) == BucketAfter(history, key, window)
  {
    if history != [] {
      var init, last := history[..|history| - 1], history[|history| - 1];
      OthersDoNotMatter(init, key, window);
      if last.key == key {
        assert Own(history, key)[..|Own(history, key)| - 1] == Own(init, key);
      } else {
        assert Own(history, key) == Own(init, key);
      }
    }
  }

  /** After a whole window without requests the client starts afresh: its next request is admitted. */
  lemma QuietWindowAdmits(history: seq<Request>, key: string, now: Time, max: int, window: int)
    requires max > 0 && forall i :: 0 <= i < |history| && history[i].key == key ==> now - history[i].time >= window
    ensures Admitted(history + [Request(key, now)], |history|, max, window)
  {
    var after := history + [Request(key, now)];
    BucketIsOld(history, key, now, window);
    assert after[..|history| + 1] == after && after[..|history|] == history;
    BucketStep(after, key, |history|, window);
  }

  lemma {:induction false} BucketIsOld(history: seq<Request>, key: string, now: Time, window: int)
    requires forall i :: 0 <= i < |history| && history[i].key == key ==> now - history[i].time >= window
    ensures Expired(BucketAfter(history, key, window), now, window)
  {
    if history != [] {
      var init, last := history[..|history| - 1], history[|history| - 1];
      BucketIsOld(init, key, now, window);
      assert last.key == key ==> now - last.time >= window;
    }
  }
}
