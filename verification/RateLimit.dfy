/** The per-key token bucket: calls take the bucket's lock one after the other, and a call
    that finds less than one token sleeps with the lock held. The bucket works in seconds; its
    specification on a clock that counts tokens of the nominal rate: `rps * seconds`. */
module RateLimit {
  import opened Basics

  // One call: when it gets the lock, and when its context is cancelled, if ever.
  datatype Request = Request(at: real, cancelAt: Option<real>)

  datatype State = State(tokens: real, lastRefill: real)

  // How a call ends: with or without its permission, and when it lets go of the lock.
  datatype Outcome = Outcome(state: State, granted: bool, freeAt: real)

  function BurstOf(rps: real): real {
    if rps * 2.0 < 1.0 then 1.0 else rps * 2.0
  }

  function Capped(x: real, max: real): real {
    if x > max then max else x
  }

  /** The tokens the bucket would have at a later moment. */
  function Available(s: State, max: real, at: real): real {
    Capped(s.tokens + (at - s.lastRefill), max)
  }

  /** A call in closed form: the refill is `Available`, a missing part of a token is slept for. */
  function Waited(s: State, max: real, q: Request): Outcome {
    var a := Available(s, max, q.at);
    if a >= 1.0 then Outcome(State(a - 1.0, q.at), true, q.at)
    else
      var wakeAt := q.at + (1.0 - a);
      if q.cancelAt.Some? && q.cancelAt.value < wakeAt then
        Outcome(State(0.0, q.at), false, if q.cancelAt.value < q.at then q.at else q.cancelAt.value)
      else
        Outcome(State(0.0, q.at), true, wakeAt)
  }

  /** A call finds the tokens left over and those gained since, but no more than the burst. With one it
      goes on at once; otherwise it waits for the missing part and leaves the bucket empty, unless its
      context is cancelled before. */
  lemma WaitedSpelledOut(s: State, max: real, q: Request)
    ensures var gained, o := s.tokens + q.at - s.lastRefill, Waited(s, max, q);
      var a := if gained <= max then gained else max;
      var wakeAt := q.at + 1.0 - a;
      && o.state.lastRefill == q.at
      && (a >= 1.0 ==> o.granted && o.freeAt == q.at && o.state.tokens == a - 1.0)
      && (a < 1.0 ==>
            && o.state.tokens == 0.0
            && (o.granted <==> (q.cancelAt.Some? ==> q.cancelAt.value >= wakeAt))
            && (o.granted ==> o.freeAt == wakeAt)
            && (!o.granted ==> o.freeAt == if q.cancelAt.value >= q.at then q.cancelAt.value else q.at))
  {}

  // ---- The bucket, in seconds ----

  function Clock(rps: real, seconds: real): real {
    rps * seconds
  }

  function RequestAt(rps: real, now: real, cancelAt: Option<real>): Request {
    Request(Clock(rps, now), if cancelAt.Some? then Some(Clock(rps, cancelAt.value)) else None)
  }

  lemma ClockSteps(rps: real, a: real, b: real)
    ensures (b - a) * rps == Clock(rps, b) - Clock(rps, a)
  {}

  lemma ClockOrders(rps: real, a: real, b: real)
    requires rps > 0.0
    ensures a < b <==> Clock(rps, a) < Clock(rps, b)
  {
    if a < b {
      ProductPositive(rps, b - a);
      ClockSteps(rps, a, b);
    } else if b < a {
      ProductPositive(rps, a - b);
      ClockSteps(rps, b, a);
    }
  }

  lemma ProductPositive(a: real, b: real)
    requires a > 0.0 && b > 0.0
    ensures b * a > 0.0
  {}

  lemma SleepOnClock(rps: real, now: real, missing: real)
    requires rps > 0.0
    ensures Clock(rps, now + missing / rps) == Clock(rps, now) + missing
  {
    var wait := missing / rps;
    assert wait * rps == missing;
    assert rps * (now + wait) == rps * now + wait * rps;
  }

  class Bucket {
    var tokens: real
    var lastRefill: real
    const maxTokens: real
    const rps: real

    ghost predicate Valid()
      reads this
    {
      rps > 0.0 && maxTokens >= 1.0 && 0.0 <= tokens <= maxTokens
    }

    ghost function Abs(): State
      reads this
    {
      State(tokens, Clock(rps, lastRefill))
    }

    constructor (rps: real, now: real)
      requires rps > 0.0
      ensures Valid() && this.rps == rps && maxTokens == BurstOf(rps)
      ensures tokens == maxTokens && lastRefill == now
    {
      this.rps, maxTokens, tokens, lastRefill := rps, BurstOf(rps), BurstOf(rps), now;
    }

    /** Returns whether the call got its permission, and the time at which it ends. */
    method Wait(now: real, cancelAt: Option<real>) returns (granted: bool, freeAt: real)
      requires Valid() && lastRefill <= now
      modifies this
      ensures Valid() && now == lastRefill <= freeAt
      ensures Outcome(Abs(), granted, Clock(rps, freeAt)) == Waited(old(Abs()), maxTokens,
                RequestAt(rps, now, cancelAt))
    {
      Refill(now);
      if tokens >= 1.0 {
        tokens := tokens - 1.0;
        return true, now;
      }
      var missing := 1.0 - tokens;
      tokens := 0.0;
      granted, freeAt := Sleep(now, missing, cancelAt);
    }

    method Refill(now: real)
      requires Valid() && lastRefill <= now
      modifies this
      ensures Valid() && lastRefill == now
      ensures tokens == Available(old(Abs()), maxTokens, Clock(rps, now))
    {
      ClockSteps(rps, lastRefill, now);
      if lastRefill < now { ClockOrders(rps, lastRefill, now); }
      var gained := (now - lastRefill) * rps;
      assert gained >= 0.0;
      tokens := tokens + gained;
      if tokens > maxTokens { tokens := maxTokens; }
      lastRefill := now;
    }

    /** Sleeps until the missing part of a token has come, or the context is cancelled. */
    method Sleep(now: real, missing: real, cancelAt: Option<real>) returns (granted: bool, freeAt: real)
      requires rps > 0.0 && missing > 0.0
      ensures now <= freeAt
      ensures granted == (cancelAt.None? || Clock(rps, cancelAt.value) >= Clock(rps, now) + missing)
      ensures granted ==> Clock(rps, freeAt) == Clock(rps, now) + missing
      ensures !granted ==> freeAt == if Clock(rps, cancelAt.value) < Clock(rps, now) then now else cancelAt.value
    {
      var wakeAt := now + missing / rps;
      SleepOnClock(rps, now, missing);
      ClockOrders(rps, now, wakeAt);
      if cancelAt.Some? {
        ClockOrders(rps, cancelAt.value, wakeAt);
        ClockOrders(rps, cancelAt.value, now);
        if cancelAt.value < wakeAt {
          return false, if cancelAt.value < now then now else cancelAt.value;
        }
      }
      return true, wakeAt;
    }
  }

  // ---- Sequences of calls ----

  /** The lock serializes the calls: each starts when the previous one has ended, or later. */
  ghost predicate Serialized(s: State, freeAt: real, max: real, calls: seq<Request>)
    decreases |calls|
  {
    calls == [] || (freeAt <= calls[0].at
                    && var o := Waited(s, max, calls[0]); Serialized(o.state, o.freeAt, max, calls[1..]))
  }

  /** How many permissions the calls get by time `until`. */
  function Grants(s: State, max: real, calls: seq<Request>, until: real): nat
    decreases |calls|
  {
    if calls == [] then 0 else
      var o := Waited(s, max, calls[0]);
      (if o.granted && o.freeAt <= until then 1 else 0) + Grants(o.state, max, calls[1..], until)
  }

  ghost predicate Sound(s: State, max: real, freeAt: real) {
    max >= 1.0 && 0.0 <= s.tokens <= max && s.lastRefill <= freeAt
  }

  /** What one call may add to the account of permissions plus available tokens. */
  lemma OneCall(s: State, max: real, freeAt: real, q: Request)
    requires Sound(s, max, freeAt) && freeAt <= q.at
    ensures var o := Waited(s, max, q);
            && Sound(o.state, max, o.freeAt) && q.at <= o.freeAt
            && (if o.granted then 1.0 else 0.0) + Available(o.state, max, o.freeAt)
               <= Available(s, max, freeAt) + 2.0 * (o.freeAt - freeAt)
  {}

  /** From any moment `from` at which the lock is free: by time `until`, every mix of
      immediate, slept and cancelled calls gets at most the available tokens plus twice the
      nominal rate. */
  lemma {:induction false} TwiceTheRate(s: State, max: real, from: real, calls: seq<Request>, until: real)
    requires Sound(s, max, from) && Serialized(s, from, max, calls)
    ensures Grants(s, max, calls, until) as real <= if from <= until
              then Available(s, max, from) + 2.0 * (until - from) else 0.0
    decreases |calls|
  {
    if calls != [] {
      var o := Waited(s, max, calls[0]);
      OneCall(s, max, from, calls[0]);
      TwiceTheRate(o.state, max, o.freeAt, calls[1..], until);
    }
  }

  /** In seconds: never more than the burst plus twice the rate. */
  lemma BurstAndTwiceTheRate(s: State, rps: real, from: real, calls: seq<Request>, until: real)
    requires rps > 0.0 && from <= until
    requires Sound(s, BurstOf(rps), Clock(rps, from)) && Serialized(s, Clock(rps, from), BurstOf(rps), calls)
    ensures Grants(s, BurstOf(rps), calls, Clock(rps, until)) as real
            <= (if 2.0 * rps >= 1.0 then 2.0 * rps else 1.0) + 2.0 * rps * (until - from)
    ensures BurstOf(rps) == if 2.0 * rps >= 1.0 then 2.0 * rps else 1.0
    ensures Clock(rps, until) == rps * until
  {
    TwiceTheRate(s, BurstOf(rps), Clock(rps, from), calls, Clock(rps, until));
    if from < until { ClockOrders(rps, from, until); }
    ClockSteps(rps, from, until);
    assert 2.0 * rps * (until - from) == 2.0 * ((until - from) * rps);
  }

  // ---- The factor two is reached ----

  /** Callers that follow each other without a pause, on a bucket emptied at time `t`. */
  function BackToBack(t: real, pairs: nat): seq<Request>
    decreases pairs
  {
    if pairs == 0 then [] else [Request(t, None), Request(t + 1.0, None)] + BackToBack(t + 1.0, pairs - 1)
  }

  /** The time slept is credited again at the next call: `2n` permissions in the time of `n`. */
  lemma {:induction false} FactorTwoIsReached(t: real, max: real, pairs: nat, until: real)
    requires max >= 1.0 && t + pairs as real <= until
    ensures Serialized(State(0.0, t), t, max, BackToBack(t, pairs))
    ensures Grants(State(0.0, t), max, BackToBack(t, pairs), until) == 2 * pairs
    decreases pairs
  {
    if pairs > 0 {
      var s, t1, calls := State(0.0, t), t + 1.0, BackToBack(t, pairs);
      FactorTwoIsReached(t1, max, pairs - 1, until);
      assert calls[1..][1..] == BackToBack(t1, pairs - 1);
      assert Serialized(s, t1, max, calls[1..]);
      assert Grants(s, max, calls[1..], until) == 1 + Grants(State(0.0, t1), max, BackToBack(t1, pairs - 1), until);
    }
  }
}
