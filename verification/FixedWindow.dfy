/** The Redis limiter: a counter per key that lives for one window from its first increment. */
module FixedWindow {
  import opened Basics

  // Times and windows in milliseconds of the server's clock.
  datatype Counter = Counter(count: nat, start: int)

  // A call of the script; `expired` is what the server finds for a key whose end of life is
  // exactly now, where either answer is allowed.
  datatype Call = Call(at: int, expired: bool)

  datatype Reply = Reply(allowed: bool, count: nat, ttl: int)

  predicate Alive(c: Option<Counter>, window: nat, call: Call) {
    c.Some? && (call.at < c.value.start + window || (call.at == c.value.start + window && !call.expired))
  }

  /** INCR, PEXPIRE for a fresh counter, PTTL, as one script. */
  function RunScript(c: Option<Counter>, window: nat, call: Call): Counter {
    if Alive(c, window, call) then c.value.(count := c.value.count + 1) else Counter(1, call.at)
  }

  class Limiter {
    var counter: Option<Counter>

    constructor ()
      ensures counter == None
    {
      counter := None;
    }

    /** `window` in milliseconds; a limit or window that is not positive allows everything.
        (A positive window below one millisecond counts as one.) */
    method Allow(limit: int, window: int, call: Call) returns (r: Reply)
      modifies this
      ensures limit <= 0 || window <= 0 ==> r.allowed && counter == old(counter)
      ensures limit > 0 && window > 0 ==>
                && counter == Some(RunScript(old(counter), window, call))
                && (r.allowed <==> counter.value.count <= limit) && r.count == counter.value.count
                && r.ttl == counter.value.start + window - call.at
      // A counter lives for one window from its first call; at its very end either answer is possible.
      ensures limit > 0 && window > 0 ==>
                if old(counter).None? || call.at > old(counter).value.start + window
                then counter == Some(Counter(1, call.at))
                else (counter == Some(Counter(old(counter).value.count + 1, old(counter).value.start))
                      || (call.at == old(counter).value.start + window && counter == Some(Counter(1, call.at))))
    {
      if limit <= 0 || window <= 0 {
        return Reply(true, 0, 0);
      }
      var current := 1;
      if Alive(counter, window, call) {
        current := counter.value.count + 1;
        counter := Some(counter.value.(count := current));
      } else {
        counter := Some(Counter(current, call.at));
      }
      r := Reply(current <= limit, current, counter.value.start + window - call.at);
    }
  }

  ghost predicate InOrder(calls: seq<Call>) {
    forall i, j :: 0 <= i < j < |calls| ==> calls[i].at <= calls[j].at
  }

  /** The counter after all calls. */
  function After(c: Option<Counter>, window: nat, calls: seq<Call>): Option<Counter> {
    if calls == [] then c else
      Some(RunScript(After(c, window, calls[..|calls| - 1]), window, calls[|calls| - 1]))
  }

  /** How many of the calls in `[from, to)` are allowed. */
  function Allowed(c: Option<Counter>, limit: nat, window: nat, calls: seq<Call>, from: int, to: int): nat {
    if calls == [] then 0 else
      var last := calls[|calls| - 1];
      Allowed(c, limit, window, calls[..|calls| - 1], from, to)
      + (if After(c, window, calls).value.count <= limit && from <= last.at < to then 1 else 0)
  }

  /** How many of the calls made in the life of the current counter are allowed. */
  function AllowedInLife(c: Option<Counter>, limit: nat, window: nat, calls: seq<Call>): nat {
    if calls == [] then 0 else
      var init, last := calls[..|calls| - 1], calls[|calls| - 1];
      (if Alive(After(c, window, init), window, last) then AllowedInLife(c, limit, window, init) else 0)
      + (if After(c, window, calls).value.count <= limit then 1 else 0)
  }

  /** Over every call sequence: the counter counts the calls of its life, and exactly the
      first `limit` of them are allowed. */
  lemma {:induction false} AtMostLimitPerLife(limit: nat, window: nat, calls: seq<Call>)
    requires limit > 0
    ensures var c := After(None, window, calls);
            AllowedInLife(None, limit, window, calls) == if c.None? then 0 else Min(c.value.count, limit)
  {
    if calls != [] {
      AtMostLimitPerLife(limit, window, calls[..|calls| - 1]);
    }
  }

  /** The current counter began at one of the calls, and no later than the last. */
  lemma {:induction false} CounterStart(window: nat, calls: seq<Call>)
    requires InOrder(calls) && calls != []
    ensures var c := After(None, window, calls); c.Some? && c.value.start <= calls[|calls| - 1].at && c.value.count >= 1
  {
    var init := calls[..|calls| - 1];
    if init != [] {
      CounterStart(window, init);
    }
  }

  /** What one interval of a window length can hold: the rest of the life it begins in, whose
      first call it misses, and the life that begins in it. */
  lemma {:induction false} IntervalBound(limit: nat, window: nat, calls: seq<Call>, from: int)
    requires limit > 0 && window > 0 && InOrder(calls)
    ensures var n, c := Allowed(None, limit, window, calls, from, from + window), After(None, window, calls);
            && n <= 2 * limit - 1
            && (calls != [] && calls[|calls| - 1].at < from ==> n == 0)
            && (calls != [] && c.value.start < from ==> n <= Min(c.value.count, limit) - 1)
            && (calls != [] && from <= c.value.start < from + window ==> n <= limit - 1 + Min(c.value.count, limit))
  {
    if calls != [] {
      var init, last := calls[..|calls| - 1], calls[|calls| - 1];
      IntervalBound(limit, window, init, from);
      CounterStart(window, calls);
      if init != [] {
        CounterStart(window, init);
        assert init[|init| - 1].at <= last.at;
      }
    }
  }

  /** Over every call sequence, at most `2 * limit - 1` calls are allowed in any interval of one
      window length, for lives begin at least a window apart. */
  lemma TwiceTheLimitPerWindow(limit: nat, window: nat, calls: seq<Call>, from: int)
    requires limit > 0 && window > 0 && InOrder(calls)
    ensures Allowed(None, limit, window, calls, from, from + window) < 2 * limit
  {
    IntervalBound(limit, window, calls, from);
  }

  lemma AllowedStep(c: Option<Counter>, limit: nat, window: nat, calls: seq<Call>, call: Call, from: int, to: int)
    ensures After(c, window, calls + [call]) == Some(RunScript(After(c, window, calls), window, call))
    ensures Allowed(c, limit, window, calls + [call], from, to) ==
              Allowed(c, limit, window, calls, from, to)
              + (if RunScript(After(c, window, calls), window, call).count <= limit && from <= call.at < to then 1
                  else 0)
  {
    assert (calls + [call])[..|calls|] == calls;
  }

  /** The bound is reached, for every limit and window: after a first call, `limit - 1` calls just
      before its counter expires and `limit` just after. */
  lemma BoundIsReached(limit: nat, window: nat) returns (calls: seq<Call>, from: int)
    requires limit > 0 && window > 0
    ensures InOrder(calls) && Allowed(None, limit, window, calls, from, from + window) == 2 * limit - 1
  {
    from := 1;
    var start := [Call(0, true)] + Repeated(Call(window, false), limit - 1);
    BeforeExpiry(limit, window, limit - 1);
    AfterExpiry(limit, window, start, limit);
    calls := start + Repeated(Call(window, true), limit);
  }

  function Repeated(c: Call, n: nat): (r: seq<Call>)
    ensures |r| == n && forall k :: 0 <= k < n ==> r[k] == c
  {
    if n == 0 then [] else Repeated(c, n - 1) + [c]
  }

  lemma {:induction false} BeforeExpiry(limit: nat, window: nat, n: nat)
    requires window > 0 && n < limit
    ensures var calls := [Call(0, true)] + Repeated(Call(window, false), n);
      && After(None, window, calls) == Some(Counter(n + 1, 0))
      && Allowed(None, limit, window, calls, 1, 1 + window) == n
  {
    var calls := [Call(0, true)];
    if n == 0 {
      AllowedStep(None, limit, window, [], Call(0, true), 1, 1 + window);
      assert [] + calls == calls == calls + Repeated(Call(window, false), 0);
    } else {
      BeforeExpiry(limit, window, n - 1);
      var c := Call(window, false);
      AllowedStep(None, limit, window, calls + Repeated(c, n - 1), c, 1, 1 + window);
      assert calls + Repeated(c, n) == calls + Repeated(c, n - 1) + [c];
    }
  }

  lemma {:induction false} AfterExpiry(limit: nat, window: nat, start: seq<Call>, n: nat)
    requires window > 0 && 0 < n <= limit
    requires After(None, window, start) == Some(Counter(limit, 0)) &&
             Allowed(None, limit, window, start, 1, 1 + window) == limit - 1
    ensures var calls := start + Repeated(Call(window, true), n);
      && After(None, window, calls) == Some(Counter(n, window))
      && Allowed(None, limit, window, calls, 1, 1 + window) == limit - 1 + n
  {
    var c := Call(window, true);
    var init := start + Repeated(c, n - 1);
    AllowedStep(None, limit, window, init, c, 1, 1 + window);
    assert start + Repeated(c, n) == init + [c];
    if n == 1 {
      assert init == start;
    } else {
      AfterExpiry(limit, window, start, n - 1);
    }
  }
}
