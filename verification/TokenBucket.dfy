/** The token bucket that paces the load. Time is in milliseconds and the clock never goes back. */
module TokenBucket {
  datatype Bucket = Bucket(tps: real, capacity: real, tokens: real, last: int)

  /** `Attempt` is one turn of the loop in which a caller waits for a token. */
  datatype Event = SetRate(tps: real) | Attempt(now: int)

  function Max(a: real, b: real): real {
    if a > b then a else b
  }

  function Min(a: real, b: real): real {
    if a < b then a else b
  }

  /** What accrues in so many milliseconds. */
  function Earned(ms: int, tps: real): real {
    ms as real / 1000.0 * tps
  }

  function Refilled(b: Bucket, now: int): Bucket {
    b.(tokens := Min(b.capacity, b.tokens + Earned(now - b.last, b.tps)), last := now)
  }

  function Granted(b: Bucket, e: Event): bool {
    e.Attempt? && Refilled(b, e.now).tokens >= 1.0
  }

  function Next(b: Bucket, e: Event): Bucket {
    match e
    case SetRate(tps) => b.(tps := Max(0.0, tps), capacity := Max(1.0, tps))
    case Attempt(now) =>
      var r := Refilled(b, now);
      if r.tokens >= 1.0 then r.(tokens := r.tokens - 1.0) else r
  }

  class RateLimiter {
    var tps: real
    var capacity: real
    var tokens: real
    var last: int

    ghost function View(): Bucket
      reads this
    {
      Bucket(tps, capacity, tokens, last)
    }

    constructor (rate: real, now: int)
      ensures View() == Bucket(Max(0.0, rate), Max(1.0, rate), 0.0, now)
    {
      tps, capacity, tokens, last := Max(0.0, rate), Max(1.0, rate), 0.0, now;
    }

    method ChangeRate(rate: real)
      modifies this
      ensures View() == Next(old(View()), SetRate(rate))
    {
      tps, capacity := Max(0.0, rate), Max(1.0, rate);
    }

    method Refill(now: int)
      modifies this
      ensures View() == Refilled(old(View()), now)
    {
      tokens := Min(capacity, tokens + (now - last) as real / 1000.0 * tps);
      last := now;
    }

    /** One turn of the loop; otherwise the time to sleep, between 2 and 100 milliseconds. */
    method TakeTurn(now: int) returns (granted: bool, sleep: real)
      modifies this
      ensures granted == Granted(old(View()), Attempt(now)) && View() == Next(old(View()), Attempt(now))
      ensures var have := old(tokens) + (now - old(last)) as real / 1000.0 * old(tps);
              var level := if have < old(capacity) then have else old(capacity);
              && (granted <==> level >= 1.0) && tokens == (if granted then level - 1.0 else level)
              && last == now && tps == old(tps) && capacity == old(capacity)
      ensures !granted ==> 2.0 <= sleep <= 100.0
      ensures !granted ==>
                var need := if tps > 0.0 then (1.0 - tokens) / tps * 1000.0 else 50.0;
                sleep == if need < 2.0 then 2.0 else if need > 100.0 then 100.0 else need
    {
      Refill(now);
      if tokens >= 1.0 {
        tokens := tokens - 1.0;
        return true, 0.0;
      }
      var need := if tps > 0.0 then (1.0 - tokens) / tps * 1000.0 else 50.0;
      return false, Min(100.0, Max(2.0, need));
    }
  }

  // ---- runs ----

  function Run(b: Bucket, events: seq<Event>): Bucket {
    if events == [] then b else Next(Run(b, events[..|events| - 1]), events[|events| - 1])
  }

  function Grants(b: Bucket, events: seq<Event>): nat {
    if events == [] then 0
    else
      var before, e := events[..|events| - 1], events[|events| - 1];
      Grants(b, before) + if Granted(Run(b, before), e) then 1 else 0
  }

  /** The clock of a run, from `from` on. */
  function Clock(from: int, events: seq<Event>): int {
    if events == [] then from
    else
      var e := events[|events| - 1];
      if e.Attempt? then e.now else Clock(from, events[..|events| - 1])
  }

  predicate Monotone(from: int, events: seq<Event>) {
    if events == [] then true
    else
      var before, e := events[..|events| - 1], events[|events| - 1];
      Monotone(from, before) && (e.Attempt? ==> e.now >= Clock(from, before))
  }

  predicate Valid(b: Bucket) {
    b.tokens >= 0.0 && b.tps >= 0.0 && b.capacity == Max(1.0, b.tps)
  }

  predicate RateAtMost(b: Bucket, events: seq<Event>, rate: real) {
    b.tps <= rate && forall i | 0 <= i < |events| :: events[i].SetRate? ==> events[i].tps <= rate
  }

  predicate HasAttempt(events: seq<Event>) {
    exists i | 0 <= i < |events| :: events[i].Attempt?
  }

  lemma EarnedGrows(ms: int, more: int, low: real, high: real)
    requires 0 <= ms <= more && 0.0 <= low <= high
    ensures 0.0 <= Earned(ms, low) <= Earned(ms, high) <= Earned(more, high)
  {
    var x, y := ms as real / 1000.0, more as real / 1000.0;
    assert 0.0 <= x <= y;
    assert x * low <= x * high;
    assert x * high <= y * high;
    assert 0.0 <= x * low;
  }

  lemma EarnedAdds(a: int, b: int, tps: real)
    ensures Earned(a + b, tps) == Earned(a, tps) + Earned(b, tps)
  {
    var x, y := a as real / 1000.0, b as real / 1000.0;
    assert (a + b) as real / 1000.0 == x + y;
    assert (x + y) * tps == x * tps + y * tps;
  }

  /** What a refill may add. */
  lemma RefillBound(b: Bucket, now: int, rate: real)
    requires Valid(b) && now >= b.last && b.tps <= rate
    ensures 0.0 <= Refilled(b, now).tokens <= Max(1.0, rate)
    ensures Refilled(b, now).tokens <= b.tokens + Earned(now - b.last, rate)
  {
    EarnedGrows(now - b.last, now - b.last, b.tps, rate);
    hide Earned;
  }

  lemma {:induction false} GrantsPlusTokens(b: Bucket, events: seq<Event>, from: int, rate: real)
    requires Valid(b) && b.last <= from && Monotone(from, events) && RateAtMost(b, events, rate)
    ensures var u := Run(b, events);
            && Valid(u) && u.tps <= rate && u.last <= Clock(from, events) && from <= Clock(from, events)
            && (HasAttempt(events) ==>
                  u.last == Clock(from, events)
                  && Grants(b, events) as real + u.tokens <= Max(1.0, rate) + Earned(Clock(from, events) - from, rate))
            && (!HasAttempt(events) ==> Grants(b, events) == 0)
  {
    if events != [] {
      var before, e := events[..|events| - 1], events[|events| - 1];
      assert forall i :: 0 <= i < |before| ==> before[i] == events[i];
      GrantsPlusTokens(b, before, from, rate);
      var u, t := Run(b, before), Clock(from, before);
      if e.Attempt? {
        assert events[|events| - 1].Attempt?;
        RefillBound(u, e.now, rate);
        EarnedAdds(t - from, e.now - t, rate);
        EarnedGrows(t - from, e.now - from, rate, rate);
      } else {
        assert HasAttempt(events) ==> HasAttempt(before);
        assert HasAttempt(before) ==> HasAttempt(events);
      }
      hide Earned;
    }
  }

  /** In any window of `span` milliseconds in which the rate never exceeds R, at most
      max(1, R) + R * span / 1000 takes are granted: from any state, over any changes of the rate. */
  lemma GrantsInWindow(b: Bucket, events: seq<Event>, from: int, span: nat, rate: real)
    requires Valid(b) && b.last <= from && Monotone(from, events) && RateAtMost(b, events, rate)
    requires Clock(from, events) <= from + span
    ensures Grants(b, events) as real <= Max(1.0, rate) + span as real / 1000.0 * rate
  {
    GrantsPlusTokens(b, events, from, rate);
    EarnedGrows(Clock(from, events) - from, span, rate, rate);
    assert Earned(span, rate) == span as real / 1000.0 * rate;
    hide Earned;
  }

  /** The first burst is really there: a full bucket grants its whole capacity at once. */
  lemma {:induction false} FullBucketGrantsAtOnce(b: Bucket, n: nat)
    requires Valid(b) && b.tokens == b.capacity && n as real <= b.capacity
    ensures Grants(b, seq(n, i => Attempt(b.last))) == n
    ensures Run(b, seq(n, i => Attempt(b.last))) == b.(tokens := b.capacity - n as real)
  {
    if n > 0 {
      var all := seq(n, i => Attempt(b.last));
      assert all[..n - 1] == seq(n - 1, i => Attempt(b.last));
      FullBucketGrantsAtOnce(b, n - 1);
      assert Earned(0, b.tps) == 0.0;
    }
  }

  /** A caller that was refused gets its token at its next turn if and only if what was missing has accrued
      by then, as long as nobody else took a turn and the rate stayed. */
  lemma GrantedOnceEarned(b: Bucket, now: int, later: int)
    requires Valid(b) && b.last <= now <= later && !Granted(b, Attempt(now))
    ensures var missing := 1.0 - (b.tokens + (now - b.last) as real / 1000.0 * b.tps);
            Granted(Next(b, Attempt(now)), Attempt(later)) <==> (later - now) as real / 1000.0 * b.tps >= missing
  {
    assert Earned(now - b.last, b.tps) == (now - b.last) as real / 1000.0 * b.tps;
    assert Earned(later - now, b.tps) == (later - now) as real / 1000.0 * b.tps;
    hide Earned;
  }

  /** So at a rate R above zero a bucket from which nothing is taken gives a token at the latest after
      1000 / R milliseconds. */
  lemma NobodyWaitsLonger(b: Bucket, now: int)
    requires Valid(b) && b.tps > 0.0 && now >= b.last && (now - b.last) as real >= 1000.0 / b.tps
    ensures Granted(b, Attempt(now))
  {
    var ms := (now - b.last) as real;
    assert ms / 1000.0 >= 1.0 / b.tps;
    assert ms / 1000.0 * b.tps >= 1.0 / b.tps * b.tps == 1.0;
  }
}
