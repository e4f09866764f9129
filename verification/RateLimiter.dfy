// The API rate limiter: one token per request, and a lock set by 429 answers.
module RateLimiter {
  import opened PathCaching
  import opened TokenBucket

  datatype ApiState = ApiState(bucket: Bucket, lockedUntil: Option<real>)

  // `Pass(paid)`: the caller may go on; it has not paid a token when its call was
  // the one that removed an expired lock.
  datatype Answer = Pass(paid: bool) | Wait(delay: real)

  function Ask(maxRps: real, s: ApiState, now: real): (ApiState, Answer)
    requires maxRps > 0.0
  {
    match s.lockedUntil
    case Some(end) =>
      if now < end then (s, Wait(end - now)) else (s.(lockedUntil := None), Pass(false))
    case None =>
      match TryDraw(maxRps, s.bucket, now, 1.0)
      case Taken(b) => (s.(bucket := b), Pass(true))
      case Short(b, wait) => (s.(bucket := b), Wait(wait))
  }

  // A 429 extends the lock, never shortens it.
  function Punish(s: ApiState, now: real, seconds: nat): ApiState {
    var end := now + seconds as real;
    match s.lockedUntil
    case Some(current) => if end > current then s.(lockedUntil := Some(end)) else s
    case None => s.(lockedUntil := Some(end))
  }

  datatype Event = Request(at: real) | TooMany(at: real, seconds: nat)

  ghost predicate Ordered(from: real, events: seq<Event>, to: real) {
    && (forall i | 0 <= i < |events| :: from <= events[i].at <= to)
    && (forall i, j | 0 <= i < j < |events| :: events[i].at <= events[j].at)
  }

  function StateAfter(maxRps: real, s: ApiState, events: seq<Event>): ApiState
    requires maxRps > 0.0
  {
    if events == [] then s
    else
      var before := StateAfter(maxRps, s, events[..|events| - 1]);
      match events[|events| - 1]
      case Request(at) => Ask(maxRps, before, at).0
      case TooMany(at, seconds) => Punish(before, at, seconds)
  }

  // The answer the i-th event gets; 429s get none.
  function AnswerTo(maxRps: real, s: ApiState, events: seq<Event>, i: nat): Option<Answer>
    requires maxRps > 0.0 && i < |events|
  {
    match events[i]
    case Request(at) => Some(Ask(maxRps, StateAfter(maxRps, s, events[..i]), at).1)
    case TooMany(_, _) => None
  }

  // How many of the first n events were requests let through, paid or free.
  function Passed(maxRps: real, s: ApiState, events: seq<Event>, paid: bool, n: nat): nat
    requires maxRps > 0.0 && n <= |events|
  {
    if n == 0 then 0
    else
      Passed(maxRps, s, events, paid, n - 1)
      + (if AnswerTo(maxRps, s, events, n - 1) == Some(Pass(paid)) then 1 else 0)
  }

  // How many of the first n events were 429s that set a lock; a 429 that meets a
  // lock at most extends it.
  function LocksSet(maxRps: real, s: ApiState, events: seq<Event>, n: nat): nat
    requires maxRps > 0.0 && n <= |events|
  {
    if n == 0 then 0
    else
      LocksSet(maxRps, s, events, n - 1)
      + (if events[n - 1].TooMany? && StateAfter(maxRps, s, events[..n - 1]).lockedUntil.None? then 1 else 0)
  }

  function LockCount(s: ApiState): nat {
    if s.lockedUntil.Some? then 1 else 0
  }

  lemma {:induction false} RunWithinBudget(maxRps: real, s: ApiState, from: real, events: seq<Event>, n: nat, to: real)
    requires maxRps > 0.0 && ValidBucket(maxRps, s.bucket) && s.bucket.lastRefill <= from
    requires Ordered(from, events, to) && n <= |events|
    ensures var after := StateAfter(maxRps, s, events[..n]);
            && ValidBucket(maxRps, after.bucket)
            && (after.bucket.lastRefill <= from || (n > 0 && after.bucket.lastRefill <= events[n - 1].at))
            && WithinBudget(maxRps, from, Passed(maxRps, s, events, true, n) as real, after.bucket)
  {
    if n > 0 {
      RunWithinBudget(maxRps, s, from, events, n - 1, to);
      assert events[..n][..n - 1] == events[..n - 1];
      var before := StateAfter(maxRps, s, events[..n - 1]);
      if events[n - 1].Request? && before.lockedUntil.None? {
        DrawKeepsValid(maxRps, before.bucket, events[n - 1].at, 1.0);
        DrawWithinBudget(maxRps, from, Passed(maxRps, s, events, true, n - 1) as real, before.bucket, events[n - 1].at,
                         1.0);
      }
    }
  }

  // Every lock, held at the start or set since, is still held or was removed by
  // exactly one request, which passed free.
  lemma {:induction false} FreePassesAreLocks(maxRps: real, s: ApiState, events: seq<Event>, n: nat)
    requires maxRps > 0.0 && n <= |events|
    ensures Passed(maxRps, s, events, false, n) + LockCount(StateAfter(maxRps, s, events[..n]))
         == LockCount(s) + LocksSet(maxRps, s, events, n)
  {
    if n > 0 {
      FreePassesAreLocks(maxRps, s, events, n - 1);
      assert events[..n][..n - 1] == events[..n - 1];
    }
  }

  // In any window the requests that paid are at most max_rps * (1 + T). Those that
  // passed free are exactly the locks, held at the start or set in the window, that
  // are no longer held at its end.
  lemma WindowBound(maxRps: real, s: ApiState, from: real, events: seq<Event>, to: real)
    requires maxRps > 0.0 && ValidBucket(maxRps, s.bucket) && s.bucket.lastRefill <= from <= to
    requires Ordered(from, events, to)
    ensures Passed(maxRps, s, events, true, |events|) as real <= maxRps * (1.0 + (to - from))
    ensures Passed(maxRps, s, events, false, |events|)
         == LockCount(s) + LocksSet(maxRps, s, events, |events|) - LockCount(StateAfter(maxRps, s, events))
  {
    RunWithinBudget(maxRps, s, from, events, |events|, to);
    FreePassesAreLocks(maxRps, s, events, |events|);
    assert events[..|events|] == events;
    BudgetInWindow(maxRps, from, to, Passed(maxRps, s, events, true, |events|) as real, StateAfter(maxRps, s, events));
  }

  // However many 429s overlap, a lock they only extend lets no further one through:
  // between two free passes a lock was set anew.
  lemma {:induction false} NoFreePassWithoutNewLock(maxRps: real, s: ApiState, events: seq<Event>, i: nat, n: nat)
    requires maxRps > 0.0 && i < n <= |events|
    requires AnswerTo(maxRps, s, events, i) == Some(Pass(false))
    requires LocksSet(maxRps, s, events, n) == LocksSet(maxRps, s, events, i + 1)
    ensures StateAfter(maxRps, s, events[..n]).lockedUntil.None?
    ensures Passed(maxRps, s, events, false, n) == Passed(maxRps, s, events, false, i + 1)
    decreases n
  {
    assert events[..n][..n - 1] == events[..n - 1];
    if i + 1 < n {
      LocksSetGrow(maxRps, s, events, i + 1, n - 1);
      NoFreePassWithoutNewLock(maxRps, s, events, i, n - 1);
    }
  }

  lemma {:induction false} LocksSetGrow(maxRps: real, s: ApiState, events: seq<Event>, i: nat, n: nat)
    requires maxRps > 0.0 && i <= n <= |events|
    ensures LocksSet(maxRps, s, events, i) <= LocksSet(maxRps, s, events, n)
  {
    if i < n {
      LocksSetGrow(maxRps, s, events, i, n - 1);
    }
  }

  lemma BudgetInWindow(capacity: real, from: real, to: real, spent: real, s: ApiState)
    requires capacity > 0.0 && ValidBucket(capacity, s.bucket) && s.bucket.lastRefill <= to && from <= to
    requires WithinBudget(capacity, from, spent, s.bucket)
    ensures spent <= capacity * (1.0 + (to - from))
  {
    BudgetOverWindow(capacity, from, to, spent, s.bucket);
  }

  // The free passes are needed in the bound: with one request a second, a full
  // bucket and a lock of no length, two requests pass at the same instant.
  lemma FreePassesExceedTheRate()
    ensures var s := ApiState(Bucket(1.0, 0.0), None);
            var events := [TooMany(0.0, 0), Request(0.0), Request(0.0)];
            && Ordered(0.0, events, 0.0)
            && Passed(1.0, s, events, true, 3) + Passed(1.0, s, events, false, 3) == 2
  {
    var s := ApiState(Bucket(1.0, 0.0), None);
    var events := [TooMany(0.0, 0), Request(0.0), Request(0.0)];
    StateNext(1.0, s, events, 0);
    StateNext(1.0, s, events, 1);
    assert Refill(1.0, s.bucket, 0.0) == s.bucket;
    assert AnswerTo(1.0, s, events, 0) == None;
    assert AnswerTo(1.0, s, events, 1) == Some(Pass(false));
    assert AnswerTo(1.0, s, events, 2) == Some(Pass(true));
    assert Passed(1.0, s, events, true, 1) == 0 && Passed(1.0, s, events, false, 1) == 0;
    assert Passed(1.0, s, events, true, 2) == 0 && Passed(1.0, s, events, false, 2) == 1;
  }

  lemma StateNext(maxRps: real, s: ApiState, events: seq<Event>, n: nat)
    requires maxRps > 0.0 && n < |events|
    ensures StateAfter(maxRps, s, events[..n + 1]) ==
            match events[n]
            case Request(at) => Ask(maxRps, StateAfter(maxRps, s, events[..n]), at).0
            case TooMany(at, seconds) => Punish(StateAfter(maxRps, s, events[..n]), at, seconds)
    ensures n == 0 ==> StateAfter(maxRps, s, events[..n]) == s
  {
    assert events[..n + 1][..n] == events[..n];
  }

  lemma {:induction false} LockHolds(maxRps: real, s: ApiState, events: seq<Event>, n: nat, end: real)
    requires maxRps > 0.0 && n <= |events| && s.lockedUntil.Some? && s.lockedUntil.value >= end
    requires forall i | 0 <= i < n :: events[i].at < end
    ensures var after := StateAfter(maxRps, s, events[..n]); after.lockedUntil.Some? && after.lockedUntil.value >= end
  {
    if n > 0 {
      LockHolds(maxRps, s, events, n - 1, end);
      assert events[..n][..n - 1] == events[..n - 1];
    }
  }

  // After a 429 at time t asking for r seconds no request passes before t + r,
  // whatever other 429s come in between.
  lemma NoPassWhilePunished(maxRps: real, s: ApiState, t: real, r: nat, events: seq<Event>, i: nat)
    requires maxRps > 0.0 && i < |events|
    requires forall k | 0 <= k <= i :: events[k].at < t + r as real
    ensures var a := AnswerTo(maxRps, Punish(s, t, r), events, i); a.Some? ==> a.value.Wait? && a.value.delay > 0.0
  {
    LockHolds(maxRps, Punish(s, t, r), events, i, t + r as real);
  }

  // The lock ends with the latest of all the times asked for.
  lemma PunishExactly(s: ApiState, now: real, seconds: nat)
    ensures var (s', asked) := (Punish(s, now, seconds), now + seconds as real);
            && s'.bucket == s.bucket && s'.lockedUntil.Some?
            && s'.lockedUntil.value ==
               if s.lockedUntil.Some? && s.lockedUntil.value >= asked then s.lockedUntil.value else asked
  {
  }

  lemma {:induction false} LockAtMost(maxRps: real, s: ApiState, events: seq<Event>, n: nat, end: real)
    requires maxRps > 0.0 && n <= |events| && (s.lockedUntil.Some? ==> s.lockedUntil.value <= end)
    requires forall i | 0 <= i < n && events[i].TooMany? :: events[i].at + events[i].seconds as real <= end
    ensures var after := StateAfter(maxRps, s, events[..n]); after.lockedUntil.Some? ==> after.lockedUntil.value <= end
  {
    if n > 0 {
      LockAtMost(maxRps, s, events, n - 1, end);
      StateNext(maxRps, s, events, n - 1);
    }
  }

  // A request at or after every time asked for does not wait for the lock: it removes
  // the lock and passes, or there is none and only the bucket counts.
  lemma NoWaitAfterPunishment(maxRps: real, s: ApiState, events: seq<Event>, i: nat)
    requires maxRps > 0.0 && i < |events| && events[i].Request?
    requires s.lockedUntil.Some? ==> s.lockedUntil.value <= events[i].at
    requires forall k | 0 <= k < i && events[k].TooMany? :: events[k].at + events[k].seconds as real <= events[i].at
    ensures var before := StateAfter(maxRps, s, events[..i]);
            var a := AnswerTo(maxRps, s, events, i);
            && (before.lockedUntil.Some? ==> a == Some(Pass(false)))
            && (before.lockedUntil.None? ==>
                  a == match TryDraw(maxRps, before.bucket, events[i].at, 1.0)
                       case Taken(_) => Some(Pass(true))
                       case Short(_, wait) => Some(Wait(wait)))
  {
    LockAtMost(maxRps, s, events, i, events[i].at);
  }

  // One answer, case by case: under a lock the wait is what is left of it, a lock that
  // has ended is removed, and without one a token is drawn; nothing else changes.
  lemma AskExactly(maxRps: real, s: ApiState, now: real)
    requires maxRps > 0.0
    ensures var (s', a) := Ask(maxRps, s, now);
            var d := TryDraw(maxRps, s.bucket, now, 1.0);
            && (s.lockedUntil.Some? && now < s.lockedUntil.value ==> s' == s && a == Wait(s.lockedUntil.value - now))
            && (s.lockedUntil.Some? && now >= s.lockedUntil.value ==>
                  s' == ApiState(s.bucket, None) && a == Pass(false))
            && (s.lockedUntil.None? ==>
                  s' == ApiState(d.after, None) && a == if d.Taken? then Pass(true) else Wait(d.wait))
  {
  }

  class ApiRateLimiter {
    const maxRps: nat
    var tokens: real
    var lastRefill: real
    var lockedUntil: Option<real>

    function State(): ApiState
      reads this
    {
      ApiState(Bucket(tokens, lastRefill), lockedUntil)
    }

    ghost predicate Valid()
      reads this
    {
      ValidBucket(maxRps as real, State().bucket)
    }

    constructor (maxRps: nat, now: real)
      ensures this.maxRps == maxRps && Valid() && State() == ApiState(Bucket(maxRps as real, now), None)
    {
      this.maxRps := maxRps;
      tokens, lastRefill, lockedUntil := maxRps as real, now, None;
    }

    // One pass through the critical section: the delay to sleep, or None to go on.
    method Poll(now: real) returns (delay: Option<real>)
      requires Valid() && maxRps > 0 && lastRefill <= now
      modifies this
      ensures Valid() && lastRefill <= now
      ensures State() == Ask(maxRps as real, old(State()), now).0
      ensures delay == match Ask(maxRps as real, old(State()), now).1 case Pass(_) => None case Wait(d) => Some(d)
    {
      if lockedUntil.Some? {
        if now < lockedUntil.value {
          return Some(lockedUntil.value - now);
        }
        lockedUntil := None;
        return None;
      }
      var limit := maxRps as real;
      DrawKeepsValid(limit, State().bucket, now, 1.0);
      var elapsed := now - lastRefill;
      tokens := tokens + elapsed * limit;
      if tokens > limit {
        tokens := limit;
      }
      lastRefill := now;
      if tokens >= 1.0 {
        tokens := tokens - 1.0;
        return None;
      }
      return Some((1.0 - tokens) / limit);
    }

    method HandleRateLimit(now: real, retryAfterSecs: nat)
      requires Valid()
      modifies this
      ensures Valid() && State() == Punish(old(State()), now, retryAfterSecs)
    {
      var lockEnd := now + retryAfterSecs as real;
      if lockedUntil.Some? {
        if lockEnd > lockedUntil.value {
          lockedUntil := Some(lockEnd);
        }
      } else {
        lockedUntil := Some(lockEnd);
      }
    }

    // A lone caller passes after at most one sleep, even a sleep under a lock.
    method Acquire(start: real) returns (now: real, sleeps: nat)
      requires Valid() && lastRefill <= start
      modifies this
      ensures Valid() && now >= start && sleeps <= 1
      ensures maxRps > 0 && old(lockedUntil).Some? ==> now >= old(lockedUntil).value && lockedUntil.None?
    {
      now, sleeps := start, 0;
      if maxRps == 0 {
        return;
      }
      while true
        invariant Valid() && lastRefill <= now && start <= now && sleeps <= 1
        invariant sleeps == 0 ==> State() == old(State())
        invariant sleeps == 1 ==> Ask(maxRps as real, State(), now).1.Pass?
        invariant lockedUntil == old(lockedUntil)
        decreases 1 - sleeps
      {
        ghost var before, at := State(), now;
        var delay := Poll(now);
        if delay.None? {
          return;
        }
        var overshoot: real := *;
        now := now + delay.value + (if overshoot > 0.0 then overshoot else 0.0);
        sleeps := sleeps + 1;
        if before.lockedUntil.None? {
          DrawKeepsValid(maxRps as real, before.bucket, at, 1.0);
          WaitSuffices(maxRps as real, before.bucket, at, 1.0, now);
        }
      }
    }
  }
}
