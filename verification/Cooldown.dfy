/** The faucet's cooldown per key, whose map sweeps itself. */
module Cooldown {
  type Key = string

  type Times = map<Key, int>

  function Remaining(last: Times, key: Key, now: int, cooldown: nat): nat {
    if key in last && cooldown > now - last[key] then cooldown - (now - last[key]) else 0
  }

  function Swept(last: Times, now: int, cooldown: nat): Times {
    map k | k in last && now - last[k] < cooldown :: last[k]
  }

  /** `sweeping` is how the limiter works; without it nothing is ever forgotten. */
  function Acquired(last: Times, key: Key, now: int, cooldown: nat, sweeping: bool): (Times, bool) {
    if Remaining(last, key, now, cooldown) > 0 then (last, false)
    else ((if sweeping then Swept(last, now, cooldown) else last)[key := now], true)
  }

  class CooldownLimiter {
    const cooldownMs: nat
    var last: Times

    constructor (cooldownMs: nat)
      ensures this.cooldownMs == cooldownMs && last == map[]
    {
      this.cooldownMs, last := cooldownMs, map[];
    }

    method RemainingOf(key: Key, now: int) returns (ms: nat)
      ensures ms == Remaining(last, key, now, cooldownMs)
      ensures ms == if key in last && now - last[key] < cooldownMs then cooldownMs - (now - last[key]) else 0
    {
      if key !in last { return 0; }
      var left := cooldownMs - (now - last[key]);
      return if left > 0 then left else 0;
    }

    method TryAcquire(key: Key, now: int) returns (ok: bool)
      modifies this
      ensures (last, ok) == Acquired(old(last), key, now, cooldownMs, true)
      ensures ok <==> key !in old(last) || now - old(last)[key] >= cooldownMs
      ensures !ok ==> last == old(last)
      ensures ok ==> key in last && last[key] == now
                     && forall k :: k != key && k in old(last) && now - old(last)[k] < cooldownMs ==>
                          k in last && last[k] == old(last)[k]
    {
      var left := RemainingOf(key, now);
      if left > 0 { return false; }
      Sweep(now);
      last := last[key := now];
      return true;
    }

    method Release(key: Key)
      modifies this
      ensures last == old(last) - {key}
    {
      last := last - {key};
    }

    /** Visits the entries in any order and deletes the elapsed ones on the way. */
    method Sweep(now: int)
      modifies this
      ensures last == Swept(old(last), now, cooldownMs)
    {
      var rest := last.Keys;
      while rest != {}
        invariant rest <= old(last).Keys
        invariant forall k :: k in last <==> k in old(last) && (k in rest || now - old(last)[k] < cooldownMs)
        invariant forall k :: k in last ==> last[k] == old(last)[k]
        decreases |rest|
      {
        var k :| k in rest;
        if now - last[k] >= cooldownMs {
          last := last - {k};
        }
        rest := rest - {k};
      }
    }
  }

  // ---- sweeping changes no answer ----

  datatype Call = TryAcquire(key: Key, now: int) | Release(key: Key)

  function Next(last: Times, c: Call, cooldown: nat, sweeping: bool): Times {
    match c
    case TryAcquire(key, now) => Acquired(last, key, now, cooldown, sweeping).0
    case Release(key) => last - {key}
  }

  function Run(calls: seq<Call>, cooldown: nat, sweeping: bool): Times {
    if calls == [] then map[] else Next(Run(calls[..|calls| - 1], cooldown, sweeping), calls[|calls|
        - 1], cooldown, sweeping)
  }

  function Clock(calls: seq<Call>, start: int): int {
    if calls == [] then start
    else if calls[|calls| - 1].TryAcquire? then calls[|calls| - 1].now
    else Clock(calls[..|calls| - 1], start)
  }

  predicate Monotone(calls: seq<Call>, start: int) {
    calls == [] ||
    (Monotone(calls[..|calls| - 1], start)
     && (calls[|calls| - 1].TryAcquire? ==> calls[|calls| - 1].now >= Clock(calls[..|calls| - 1], start)))
  }

  /** What is missing from the swept map has elapsed. */
  ghost predicate Agrees(swept: Times, full: Times, now: int, cooldown: nat) {
    && (forall k :: k in swept ==> k in full && full[k] == swept[k])
    && (forall k :: k in full && k !in swept ==> now - full[k] >= cooldown)
  }

  lemma {:induction false} SweepingAgrees(calls: seq<Call>, start: int, cooldown: nat)
    requires Monotone(calls, start)
    ensures Agrees(Run(calls, cooldown, true), Run(calls, cooldown, false), Clock(calls, start), cooldown)
  {
    if calls != [] {
      SweepingAgrees(calls[..|calls| - 1], start, cooldown);
    }
  }

  /** A limiter that forgets answers every later query like one that never does. */
  lemma SweepingIsInvisible(calls: seq<Call>, start: int, cooldown: nat, key: Key, now: int)
    requires Monotone(calls, start) && now >= Clock(calls, start)
    ensures Remaining(Run(calls, cooldown, true), key, now, cooldown)
        == Remaining(Run(calls, cooldown, false), key, now, cooldown)
    ensures Acquired(Run(calls, cooldown, true), key, now, cooldown, true).1
        == Acquired(Run(calls, cooldown, false), key, now, cooldown, false).1
  {
    SweepingAgrees(calls, start, cooldown);
  }

  /** Right after a successful acquisition the map holds only what is younger than the cooldown. */
  lemma OnlyYoungEntries(last: Times, key: Key, now: int, cooldown: nat)
    requires cooldown > 0 && Acquired(last, key, now, cooldown, true).1
    ensures forall k :: k in Acquired(last, key, now, cooldown, true).0 ==>
        now - Acquired(last, key, now, cooldown, true).0[k] < cooldown
  {}

  /** Taking back an acquisition restores every answer from then on. */
  lemma ReleaseUndoes(last: Times, key: Key, now: int, cooldown: nat, k: Key, later: int)
    requires Acquired(last, key, now, cooldown, true).1 && later >= now
    ensures Remaining(Acquired(last, key, now, cooldown, true).0 - {key}, k, later, cooldown)
        == Remaining(last, k, later, cooldown)
  {}

  // ---- how far apart grants are ----

  datatype Grant = Grant(key: Key, at: int, released: bool)

  datatype World = World(last: Times, now: int, grants: seq<Grant>)

  /** A holder releases its own grant, by the key alone. */
  datatype Event = Try(key: Key, now: int) | GiveBack(g: nat, now: int)

  /** When holders give back: at any time, within one cooldown of their grant, or whenever it does no
      harm. Each grant is given back at most once. */
  datatype Rule = Anytime | InTime | WhenHarmless

  /** No other kept grant of the key is younger than the cooldown, so no record of one is deleted. */
  predicate Harmless(w: World, g: nat, now: int, cooldown: nat)
    requires g < |w.grants|
  {
    forall i | 0 <= i < |w.grants| ::
      i != g && w.grants[i].key == w.grants[g].key && !w.grants[i].released ==> now - w.grants[i].at >= cooldown
  }

  predicate Enabled(w: World, e: Event, cooldown: nat, rule: Rule) {
    && e.now >= w.now
    && (e.GiveBack? ==>
          && e.g < |w.grants| && !w.grants[e.g].released
          && (rule.InTime? ==> e.now - w.grants[e.g].at < cooldown)
          && (rule.WhenHarmless? ==> Harmless(w, e.g, e.now, cooldown)))
  }

  function Step(w: World, e: Event, cooldown: nat, rule: Rule): World {
    if !Enabled(w, e, cooldown, rule) then w
    else
      match e
      case Try(key, now) =>
        var (last, ok) := Acquired(w.last, key, now, cooldown, true);
        World(last, now, if ok then w.grants + [Grant(key, now, false)] else w.grants)
      case GiveBack(g, now) =>
        World(w.last - {w.grants[g].key}, now, w.grants[g := w.grants[g].(released := true)])
  }

  function Steps(events: seq<Event>, start: int, cooldown: nat, rule: Rule): World {
    if events == [] then World(map[], start, [])
    else Step(Steps(events[..|events| - 1], start, cooldown, rule), events[|events| - 1], cooldown, rule)
  }

  ghost predicate Apart(w: World, cooldown: nat) {
    forall i, j ::
      0 <= i < j < |w.grants| && w.grants[i].key == w.grants[j].key && !w.grants[i].released
          && !w.grants[j].released ==>
        w.grants[j].at - w.grants[i].at >= cooldown
  }

  /** A young grant that was not given back is the one on record. */
  ghost predicate OnRecord(w: World, cooldown: nat) {
    forall i :: 0 <= i < |w.grants| ==>
      var g := w.grants[i];
      && g.at <= w.now
      && (!g.released && w.now - g.at < cooldown ==> g.key in w.last && w.last[g.key] == g.at)
  }

  /** A holder that gives back in time has the only young grant of its key. */
  lemma InTimeIsHarmless(w: World, g: nat, now: int, cooldown: nat)
    requires Apart(w, cooldown) && OnRecord(w, cooldown) && g < |w.grants| && !w.grants[g].released
    requires now >= w.now && now - w.grants[g].at < cooldown
    ensures Harmless(w, g, now, cooldown)
  {}

  lemma StepKeepsApart(w: World, e: Event, cooldown: nat, rule: Rule)
    requires Apart(w, cooldown) && OnRecord(w, cooldown) && !rule.Anytime?
    ensures Apart(Step(w, e, cooldown, rule), cooldown) && OnRecord(Step(w, e, cooldown, rule), cooldown)
  {
    if e.GiveBack? && rule.InTime? && Enabled(w, e, cooldown, rule) {
      InTimeIsHarmless(w, e.g, e.now, cooldown);
    }
  }

  /** Over every run, if holders give back in time, or late but harmlessly, then two grants of a key
      that were both kept are at least one cooldown apart. */
  lemma {:induction false} KeptGrantsAreApart(events: seq<Event>, start: int, cooldown: nat, rule: Rule)
    requires !rule.Anytime?
    ensures var w := Steps(events, start, cooldown, rule); Apart(w, cooldown) && OnRecord(w, cooldown)
  {
    if events != [] {
      var before := events[..|events| - 1];
      KeptGrantsAreApart(before, start, cooldown, rule);
      StepKeepsApart(Steps(before, start, cooldown, rule), events[|events| - 1], cooldown, rule);
    }
  }

  /** And harmless is exact: whenever a holder gives back although another kept grant of the key is
      young, the next request for the key, at the same moment even, is granted too early. */
  lemma HarmfulIff(w: World, g: nat, now: int, cooldown: nat)
    requires Apart(w, cooldown) && OnRecord(w, cooldown)
    requires Enabled(w, GiveBack(g, now), cooldown, Anytime)
    ensures var u := Step(w, GiveBack(g, now), cooldown, Anytime);
            Harmless(w, g, now, cooldown) <==> Apart(Step(u, Try(w.grants[g].key, now), cooldown, Anytime), cooldown)
  {
    var u := Step(w, GiveBack(g, now), cooldown, Anytime);
    var v := Step(u, Try(w.grants[g].key, now), cooldown, Anytime);
    var n := |w.grants|;
    assert v.grants == u.grants + [Grant(w.grants[g].key, now, false)];
    if !Harmless(w, g, now, cooldown) {
      var i :| 0 <= i < n && i != g && w.grants[i].key == w.grants[g].key && !w.grants[i].released
               && now - w.grants[i].at < cooldown;
      assert v.grants[i] == w.grants[i] && v.grants[n] == Grant(w.grants[g].key, now, false);
    }
  }

  /** A late release that deletes somebody else's record: of three grants the last two are both kept,
      one millisecond apart, whatever the cooldown. */
  lemma LateReleaseBreaksIt(key: Key, cooldown: nat)
    requires cooldown > 1
    ensures var events := [Try(key, 0), Try(key, cooldown), GiveBack(0, cooldown), Try(key, cooldown + 1)];
            Steps(events, 0, cooldown, Anytime).grants
            == [Grant(key, 0, true), Grant(key, cooldown, false), Grant(key, cooldown + 1, false)]
  {
    var a, b, c, d := Try(key, 0), Try(key, cooldown), GiveBack(0, cooldown), Try(key, cooldown + 1);
    assert [a, b, c, d][..3] == [a, b, c] && [a, b, c][..2] == [a, b] && [a, b][..1] == [a] && [a][..0] == [];
    assert Steps([a], 0, cooldown, Anytime).grants == [Grant(key, 0, false)];
    assert Steps([a, b], 0, cooldown, Anytime).grants == [Grant(key, 0, false), Grant(key, cooldown, false)];
    assert key !in Steps([a, b, c], 0, cooldown, Anytime).last;
  }
}
