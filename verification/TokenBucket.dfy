// A token bucket over real time: `capacity` tokens a second, at most `capacity`
// of them saved up.
module TokenBucket {
  datatype Bucket = Bucket(tokens: real, lastRefill: real)

  predicate ValidBucket(capacity: real, b: Bucket) {
    0.0 <= b.tokens <= capacity
  }

  function Refill(capacity: real, b: Bucket, now: real): Bucket {
    var tokens := b.tokens + (now - b.lastRefill) * capacity;
    Bucket(if tokens > capacity then capacity else tokens, now)
  }

  // Takes n tokens if they are there after the refill; else tells how long it
  // takes until they are.
  datatype Draw = Taken(after: Bucket) | Short(after: Bucket, wait: real)

  function TryDraw(capacity: real, b: Bucket, now: real, n: real): Draw
    requires capacity > 0.0
  {
    var full := Refill(capacity, b, now);
    if full.tokens >= n then Taken(full.(tokens := full.tokens - n))
    else Short(full, (n - full.tokens) / capacity)
  }

  lemma NonNegativeProduct(a: real, c: real)
    requires a >= 0.0 && c >= 0.0
    ensures a * c >= 0.0
  {
  }

  // Time in a window, split at an instant.
  lemma SplitTime(capacity: real, start: real, mid: real, end: real)
    ensures capacity * (end - start) == capacity * (mid - start) + (end - mid) * capacity
  {
  }

  lemma Allowance(capacity: real, time: real)
    ensures capacity * (1.0 + time) == capacity + capacity * time
  {
  }

  lemma DrawKeepsValid(capacity: real, b: Bucket, now: real, n: real)
    requires capacity > 0.0 && ValidBucket(capacity, b) && b.lastRefill <= now && n >= 0.0
    ensures var d := TryDraw(capacity, b, now, n);
            ValidBucket(capacity, d.after) && d.after.lastRefill == now
    ensures TryDraw(capacity, b, now, n).Short? ==> TryDraw(capacity, b, now, n).wait > 0.0
  {
    NonNegativeProduct(now - b.lastRefill, capacity);
    var full := Refill(capacity, b, now);
    if full.tokens < n {
      PositiveQuotient(n - full.tokens, capacity);
    }
  }

  lemma PositiveQuotient(x: real, c: real)
    requires x > 0.0 && c > 0.0
    ensures x / c > 0.0 && x / c * c == x
  {
  }

  // Waiting as long as told, or longer, is enough for a request that fits.
  lemma WaitSuffices(capacity: real, b: Bucket, now: real, n: real, later: real)
    requires capacity > 0.0 && ValidBucket(capacity, b) && b.lastRefill <= now && 0.0 <= n <= capacity
    requires var d := TryDraw(capacity, b, now, n); d.Short? && now + d.wait <= later
    ensures TryDraw(capacity, TryDraw(capacity, b, now, n).after, later, n).Taken?
  {
    var d := TryDraw(capacity, b, now, n);
    DrawKeepsValid(capacity, b, now, n);
    PositiveQuotient(n - d.after.tokens, capacity);
    NonNegativeProduct(later - now - d.wait, capacity);
    assert (later - now) * capacity == d.wait * capacity + (later - now - d.wait) * capacity;
  }

  // A request above the capacity is never served.
  lemma TooLargeIsNeverServed(capacity: real, b: Bucket, now: real, n: real)
    requires capacity > 0.0 && n > capacity
    ensures TryDraw(capacity, b, now, n).Short?
  {
  }

  // What one draw in a window that began at `start` does to the bound on what has
  // been spent there: spent + saved <= capacity * (1 + time since start).
  ghost predicate WithinBudget(capacity: real, start: real, spent: real, b: Bucket) {
    if b.lastRefill < start then spent == 0.0
    else spent + b.tokens <= capacity + capacity * (b.lastRefill - start)
  }

  lemma DrawWithinBudget(capacity: real, start: real, spent: real, b: Bucket, now: real, n: real)
    requires capacity > 0.0 && ValidBucket(capacity, b) && b.lastRefill <= now && start <= now && n >= 0.0
    requires WithinBudget(capacity, start, spent, b)
    ensures var d := TryDraw(capacity, b, now, n);
            WithinBudget(capacity, start, if d.Taken? then spent + n else spent, d.after)
  {
    DrawKeepsValid(capacity, b, now, n);
    if b.lastRefill >= start {
      SplitTime(capacity, start, b.lastRefill, now);
    } else {
      NonNegativeProduct(now - start, capacity);
    }
  }

  lemma BudgetOverWindow(capacity: real, start: real, end: real, spent: real, b: Bucket)
    requires capacity > 0.0 && ValidBucket(capacity, b) && b.lastRefill <= end && start <= end
    requires WithinBudget(capacity, start, spent, b)
    ensures spent <= capacity * (1.0 + (end - start))
  {
    Allowance(capacity, end - start);
    if b.lastRefill >= start {
      SplitTime(capacity, start, b.lastRefill, end);
      NonNegativeProduct(end - b.lastRefill, capacity);
    } else {
      NonNegativeProduct(end - start, capacity);
    }
  }

  // ---- What a draw does, exactly -------------------------------------------

  // What the bucket holds now, if nothing is lost at the brim.
  function Filling(capacity: real, b: Bucket, now: real): real {
    b.tokens + (now - b.lastRefill) * capacity
  }

  // A request is served exactly if it fits into one second and the bucket holds enough
  // by now. It takes exactly what it asked for; one that is not served takes nothing,
  // and is told to wait for exactly the time it takes to save the rest.
  lemma DrawExactly(capacity: real, b: Bucket, now: real, n: real)
    requires capacity > 0.0
    ensures var (d, held) := (TryDraw(capacity, b, now, n), b.tokens + (now - b.lastRefill) * capacity);
            && (d.Taken? <==> n <= capacity && n <= held)
            && d.after.lastRefill == now
            && d.after.tokens == (if held > capacity then capacity else held) - (if d.Taken? then n else 0.0)
            && (d.Short? ==> d.wait * capacity == n - d.after.tokens)
  {
    var d := TryDraw(capacity, b, now, n);
    if d.Short? {
      QuotientTimes(n - d.after.tokens, capacity);
    }
  }

  lemma QuotientTimes(x: real, c: real)
    requires c > 0.0
    ensures x / c * c == x
  {
  }

  lemma LessTime(capacity: real, time: real, wait: real)
    requires capacity > 0.0 && time < wait
    ensures time * capacity < wait * capacity
  {
  }

  // The wait is the least that can do: at any earlier time the request is short again.
  lemma WaitIsLeast(capacity: real, b: Bucket, now: real, n: real, t: real)
    requires capacity > 0.0
    requires var d := TryDraw(capacity, b, now, n); d.Short? && now <= t < now + d.wait
    ensures TryDraw(capacity, TryDraw(capacity, b, now, n).after, t, n).Short?
  {
    var d := TryDraw(capacity, b, now, n);
    DrawExactly(capacity, b, now, n);
    DrawExactly(capacity, d.after, t, n);
    LessTime(capacity, t - now, d.wait);
  }

  // As long as the bucket does not brim over, nothing is lost: what was spent and what
  // is saved is what was there and what came in.
  lemma DrawConserves(capacity: real, b: Bucket, now: real, n: real)
    requires capacity > 0.0 && Filling(capacity, b, now) <= capacity
    ensures var d := TryDraw(capacity, b, now, n);
            d.after.tokens + (if d.Taken? then n else 0.0) == b.tokens + (now - b.lastRefill) * capacity
  {
    DrawExactly(capacity, b, now, n);
  }
}
