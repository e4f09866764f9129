// The bandwidth limiter: every caller draws the number of bytes it wants to send.
module Bandwidth {
  import opened TokenBucket

  datatype Request = Request(at: real, bytes: nat)

  // Requests served in time order; all callers share the bucket.
  ghost predicate Ordered(from: real, requests: seq<Request>, to: real) {
    && (forall i | 0 <= i < |requests| :: from <= requests[i].at <= to)
    && (forall i, j | 0 <= i < j < |requests| :: requests[i].at <= requests[j].at)
  }

  function BucketAfter(capacity: real, b: Bucket, requests: seq<Request>): Bucket
    requires capacity > 0.0
  {
    if requests == [] then b
    else
      var r := requests[|requests| - 1];
      TryDraw(capacity, BucketAfter(capacity, b, requests[..|requests| - 1]), r.at, r.bytes as real).after
  }

  predicate Served(capacity: real, b: Bucket, requests: seq<Request>, i: nat)
    requires capacity > 0.0 && i < |requests|
  {
    TryDraw(capacity, BucketAfter(capacity, b, requests[..i]), requests[i].at, requests[i].bytes as real).Taken?
  }

  function BytesServed(capacity: real, b: Bucket, requests: seq<Request>): nat
    requires capacity > 0.0
  {
    if requests == [] then 0
    else
      BytesServed(capacity, b, requests[..|requests| - 1])
      + (if Served(capacity, b, requests, |requests| - 1) then requests[|requests| - 1].bytes else 0)
  }

  lemma {:induction false} RunWithinBudget(capacity: real, b: Bucket, from: real, requests: seq<Request>, to: real)
    requires capacity > 0.0 && ValidBucket(capacity, b) && b.lastRefill <= from <= to && Ordered(from, requests, to)
    ensures var after := BucketAfter(capacity, b, requests);
            && ValidBucket(capacity, after) && after.lastRefill <= to
            && (requests != [] ==> after.lastRefill == requests[|requests| - 1].at)
            && WithinBudget(capacity, from, BytesServed(capacity, b, requests) as real, after)
    decreases |requests|
  {
    if requests != [] {
      var front, r := requests[..|requests| - 1], requests[|requests| - 1];
      RunWithinBudget(capacity, b, from, front, r.at);
      var before := BucketAfter(capacity, b, front);
      DrawKeepsValid(capacity, before, r.at, r.bytes as real);
      DrawWithinBudget(capacity, from, BytesServed(capacity, b, front) as real, before, r.at, r.bytes as real);
    }
  }

  // Whoever asks, the bytes let through in a window are at most one second's
  // worth more than the rate allows in that time.
  lemma WindowBound(capacity: real, b: Bucket, from: real, requests: seq<Request>, to: real)
    requires capacity > 0.0 && ValidBucket(capacity, b) && b.lastRefill <= from <= to && Ordered(from, requests, to)
    ensures BytesServed(capacity, b, requests) as real <= capacity * (1.0 + (to - from))
  {
    RunWithinBudget(capacity, b, from, requests, to);
    BudgetOverWindow(capacity, from, to, BytesServed(capacity, b, requests) as real,
                     BucketAfter(capacity, b, requests));
  }

  // Nothing has been lost since the bucket was b0.
  ghost predicate Balanced(capacity: real, b0: Bucket, spent: real, b: Bucket) {
    spent + b.tokens == b0.tokens + (b.lastRefill - b0.lastRefill) * capacity
  }

  lemma BalancedNext(capacity: real, b0: Bucket, spent: real, b: Bucket, now: real, n: real)
    requires capacity > 0.0 && Balanced(capacity, b0, spent, b) && Filling(capacity, b, now) <= capacity
    ensures var d := TryDraw(capacity, b, now, n);
            Balanced(capacity, b0, if d.Taken? then spent + n else spent, d.after)
  {
    DrawConserves(capacity, b, now, n);
    SplitProduct(capacity, b0.lastRefill, b.lastRefill, now);
  }

  lemma SplitProduct(capacity: real, start: real, mid: real, end: real)
    ensures (end - start) * capacity == (mid - start) * capacity + (end - mid) * capacity
  {
  }

  lemma BalancedStart(capacity: real, b: Bucket)
    ensures Balanced(capacity, b, 0.0, b)
  {
  }

  // Over any requests upon which the bucket never brims over, the bytes granted and
  // the bytes saved are exactly what was there and what the limit let in.
  lemma {:induction false} BytesConserved(capacity: real, b: Bucket, requests: seq<Request>)
    requires capacity > 0.0
    requires forall i | 0 <= i < |requests| ::
               Filling(capacity, BucketAfter(capacity, b, requests[..i]), requests[i].at) <= capacity
    ensures Balanced(capacity, b, BytesServed(capacity, b, requests) as real, BucketAfter(capacity, b, requests))
    decreases |requests|
  {
    if requests == [] {
      BalancedStart(capacity, b);
    } else {
      var front, r := requests[..|requests| - 1], requests[|requests| - 1];
      forall i | 0 <= i < |front|
        ensures Filling(capacity, BucketAfter(capacity, b, front[..i]), front[i].at) <= capacity
      {
        assert front[..i] == requests[..i];
      }
      BytesConserved(capacity, b, front);
      BalancedNext(capacity, b, BytesServed(capacity, b, front) as real, BucketAfter(capacity, b, front),
                   r.at, r.bytes as real);
    }
  }

  class BandwidthLimiter {
    const limitBps: nat
    var tokens: real
    var lastRefill: real

    ghost predicate Valid()
      reads this
    {
      ValidBucket(limitBps as real, State())
    }

    function State(): Bucket
      reads this
    {
      Bucket(tokens, lastRefill)
    }

    constructor (limitKbps: nat, now: real)
      ensures limitBps == limitKbps * 1024 && Valid() && State() == Bucket(limitBps as real, now)
    {
      limitBps := limitKbps * 1024;
      tokens := limitKbps as real * 1024.0;
      lastRefill := now;
    }

    // One pass through the critical section: None when the bytes were granted.
    method Poll(n: nat, now: real) returns (granted: bool, wait: real)
      requires Valid() && limitBps > 0 && lastRefill <= now
      modifies this
      ensures Valid() && lastRefill == now
      ensures var d := TryDraw(limitBps as real, old(State()), now, n as real);
              && State() == d.after && granted == d.Taken?
              && (d.Short? ==> wait == d.wait && wait > 0.0)
    {
      var limit := limitBps as real;
      ghost var before := State();
      DrawKeepsValid(limit, before, now, n as real);
      var elapsed := now - lastRefill;
      tokens := tokens + elapsed * limit;
      if tokens > limit {
        tokens := limit;
      }
      lastRefill := now;
      assert State() == Refill(limit, before, now);
      if tokens >= n as real {
        tokens := tokens - n as real;
        return true, 0.0;
      }
      var needed := n as real - tokens;
      return false, needed / limit;
    }

    // A lone caller, watched for at most `patience` sleeps, each of which may last
    // longer than asked for. It gets through exactly if the request fits into one
    // second (or nothing is limited), and then after at most one sleep; a larger
    // request waits for ever.
    method Acquire(n: nat, start: real, patience: nat) returns (passed: bool, now: real, sleeps: nat)
      requires Valid() && lastRefill <= start
      modifies this
      ensures Valid() && now >= start && lastRefill <= now && sleeps <= patience
      ensures passed ==> sleeps <= 1
      ensures patience >= 1 ==> (passed <==> limitBps == 0 || n <= limitBps)
    {
      now, sleeps := start, 0;
      if limitBps == 0 {
        return true, now, sleeps;
      }
      var served := false;
      while true
        invariant Valid() && lastRefill <= now && start <= now && sleeps <= patience
        invariant n <= limitBps ==> sleeps <= 1
        invariant n <= limitBps && sleeps == 1 ==> TryDraw(limitBps as real, State(), now, n as real).Taken?
        decreases patience - sleeps
      {
        ghost var before, at := State(), now;
        var granted, wait := Poll(n, now);
        if granted {
          if n > limitBps { TooLargeIsNeverServed(limitBps as real, before, at, n as real); }
          return true, now, sleeps;
        }
        if sleeps == patience {
          return false, now, sleeps;
        }
        var overshoot: real := *;
        now := now + wait + (if overshoot > 0.0 then overshoot else 0.0);
        sleeps := sleeps + 1;
        if n <= limitBps {
          WaitSuffices(limitBps as real, before, at, n as real, now);
        }
      }
    }

    // Sends block after block, each after it was acquired.
    method AcquireAll(blocks: seq<nat>, start: real) returns (passed: bool, now: real)
      requires Valid() && lastRefill <= start
      modifies this
      ensures Valid() && now >= start && lastRefill <= now
      ensures passed <==> !WaitsForEver(limitBps, blocks)
    {
      now := start;
      for i := 0 to |blocks|
        invariant Valid() && lastRefill <= now && start <= now
        invariant limitBps > 0 ==> forall k | 0 <= k < i :: blocks[k] <= limitBps
      {
        var sleeps;
        passed, now, sleeps := Acquire(blocks[i], now, 1);
        if !passed {
          return;
        }
      }
      passed := true;
    }
  }

  // ---- Uploads -------------------------------------------------------------

  const BLOCK: nat := 65536

  // Some block is larger than what the bucket ever holds.
  predicate WaitsForEver(limitBps: nat, blocks: seq<nat>) {
    limitBps > 0 && exists i :: 0 <= i < |blocks| && blocks[i] > limitBps
  }

  function Sum(blocks: seq<nat>): nat {
    if blocks == [] then 0 else blocks[0] + Sum(blocks[1..])
  }

  // What an upload asks the limiter for: the whole of a file up to the threshold, the
  // blocks in which it is read beyond that.
  ghost predicate Asked(size: nat, threshold: nat, blocks: seq<nat>) {
    if size <= threshold then blocks == [size]
    else Sum(blocks) == size && forall i | 0 <= i < |blocks| :: 0 < blocks[i] <= BLOCK
  }

  // Up to the threshold an upload waits for ever exactly if the limit is set and less
  // than the file; beyond it, never if the limit is at least a block, and always if it
  // is not and some read fills its buffer.
  lemma UploadWaits(limitBps: nat, size: nat, threshold: nat, blocks: seq<nat>)
    requires Asked(size, threshold, blocks)
    ensures size <= threshold ==> (WaitsForEver(limitBps, blocks) <==> limitBps > 0 && size > limitBps)
    ensures size > threshold && limitBps >= BLOCK ==> !WaitsForEver(limitBps, blocks)
    ensures size > threshold && 0 < limitBps < BLOCK && BLOCK in blocks ==> WaitsForEver(limitBps, blocks)
  {
    if size <= threshold {
      assert blocks[0] == size;
    }
  }
}
