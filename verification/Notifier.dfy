/** Two watchers of the notifier: the Nakamoto coefficient and the cursor over sales. */
module Notifier {
  import opened Wrappers

  datatype Validator = Validator(operator: string, tokens: nat)

  function Stake(vs: seq<Validator>): nat {
    if vs == [] then 0 else vs[0].tokens + Stake(vs[1..])
  }

  predicate Descending(vs: seq<Validator>) {
    forall i, j | 0 <= i < j < |vs| :: vs[i].tokens >= vs[j].tokens
  }

  /** Some of the bonded validators, each at most once, that together hold more than a third. */
  ghost predicate CanHalt(coalition: seq<Validator>, bonded: seq<Validator>) {
    multiset(coalition) <= multiset(bonded) && Stake(coalition) * 3 > Stake(bonded)
  }

  lemma {:induction false} StakeAppend(a: seq<Validator>, b: seq<Validator>)
    ensures Stake(a + b) == Stake(a) + Stake(b)
  {
    if a == [] {
      assert a + b == b;
    } else {
      assert (a + b)[1..] == a[1..] + b;
      StakeAppend(a[1..], b);
    }
  }

  function Without(c: seq<Validator>, i: nat): seq<Validator>
    requires i < |c|
  {
    c[..i] + c[i + 1..]
  }

  lemma StakeWithout(c: seq<Validator>, i: nat)
    requires i < |c|
    ensures Stake(c) == c[i].tokens + Stake(Without(c, i))
  {
    var a, b := c[..i], c[i + 1..];
    assert c == a + ([c[i]] + b);
    assert ([c[i]] + b)[1..] == b;
    StakeAppend(a, [c[i]] + b);
    StakeAppend(a, b);
  }

  lemma MultisetWithout(c: seq<Validator>, i: nat)
    requires i < |c|
    ensures multiset(Without(c, i)) == multiset(c) - multiset{c[i]}
  {
    assert c == c[..i] + [c[i]] + c[i + 1..];
  }

  /** Stake does not depend on the order. */
  lemma {:induction false} SameStake(a: seq<Validator>, b: seq<Validator>)
    requires multiset(a) == multiset(b)
    ensures Stake(a) == Stake(b)
    decreases |a|
  {
    if a == [] {
      assert |b| == |multiset(b)| == 0;
    } else {
      assert a == [a[0]] + a[1..];
      assert a[0] in multiset(b);
      var i :| 0 <= i < |b| && b[i] == a[0];
      StakeWithout(b, i);
      MultisetWithout(b, i);
      SameStake(a[1..], Without(b, i));
    }
  }

  lemma RestFits(h: Validator, t: seq<Validator>, c: seq<Validator>, x: Validator, rest: seq<Validator>)
    requires multiset(c) <= multiset{h} + multiset(t) && x in c && multiset(rest) == multiset(c) - multiset{x}
    requires h in c ==> x == h
    ensures multiset(rest) <= multiset(t)
  {
    if h !in c { assert multiset(c)[h] == 0; }
  }

  lemma PrefixSplits(vs: seq<Validator>, i: nat, n: nat)
    requires i <= n <= |vs|
    ensures Stake(vs[..i]) <= Stake(vs[..n])
    ensures n == i + 1 ==> Stake(vs[..n]) == Stake(vs[..i]) + vs[i].tokens
    ensures multiset(vs[..n]) <= multiset(vs)
  {
    assert vs[..n] == vs[..i] + vs[i..n];
    StakeAppend(vs[..i], vs[i..n]);
    assert vs == vs[..n] + vs[n..];
  }

  lemma PrefixHead(vs: seq<Validator>, n: nat)
    requires 0 < n <= |vs|
    ensures Stake(vs[..n]) == vs[0].tokens + Stake(vs[1..][..n - 1])
  {
    assert vs[..n][1..] == vs[1..][..n - 1];
  }

  /** A coalition without its largest possible member, taken from the others. */
  lemma DropOne(h: Validator, t: seq<Validator>, c: seq<Validator>) returns (rest: seq<Validator>)
    requires c != [] && multiset(c) <= multiset{h} + multiset(t)
    requires forall v :: v in t ==> v.tokens <= h.tokens
    ensures |rest| == |c| - 1 && multiset(rest) <= multiset(t) && Stake(c) <= h.tokens + Stake(rest)
  {
    var i: nat := 0;
    if h in c { i :| 0 <= i < |c| && c[i] == h; }
    assert c[i] in multiset(c);
    assert c[i] == h || c[i] in t;
    rest := Without(c, i);
    StakeWithout(c, i);
    MultisetWithout(c, i);
    hide Stake;
    assert |rest| == |c| - 1;
    hide Without;
    RestFits(h, t, c, c[i], rest);
  }

  /** No coalition holds more than as many of the largest. */
  lemma {:induction false} LargestHoldMost(sorted: seq<Validator>, c: seq<Validator>)
    requires Descending(sorted) && multiset(c) <= multiset(sorted)
    ensures |c| <= |sorted| && Stake(c) <= Stake(sorted[..|c|])
    decreases |sorted|
  {
    if sorted == [] {
      assert |c| == |multiset(c)| == 0;
    } else if c != [] {
      assert sorted == [sorted[0]] + sorted[1..];
      var rest := DropOne(sorted[0], sorted[1..], c);
      LargestHoldMost(sorted[1..], rest);
      hide Stake;
      PrefixHead(sorted, |c|);
    }
  }

  /** The smallest number of validators that can halt the chain. `sorted` is what the library's sort
      makes of `bonded`; the loop leaves by its break whenever there is stake at all. */
  method NakamotoCoefficient(bonded: seq<Validator>, sorted: seq<Validator>) returns (nakamoto: nat, broke: bool)
    requires multiset(sorted) == multiset(bonded) && Descending(sorted)
    ensures Stake(bonded) > 0 ==> broke
    ensures broke ==> nakamoto <= |sorted| && CanHalt(sorted[..nakamoto], bonded)
    ensures forall c :: CanHalt(c, bonded) ==> |c| >= nakamoto
  {
    var totalBonded := Stake(bonded);
    SameStake(sorted, bonded);
    assert sorted[..|sorted|] == sorted;
    assert Stake(sorted[..0]) == 0;
    hide Stake;
    hide Descending;
    var acc: nat := 0;
    nakamoto, broke := 0, false;
    for i := 0 to |sorted|
      invariant nakamoto == i && acc == Stake(sorted[..i]) && acc * 3 <= totalBonded && !broke
    {
      PrefixSplits(sorted, i, i + 1);
      acc := acc + sorted[i].tokens;
      nakamoto := nakamoto + 1;
      if acc * 3 > totalBonded {
        broke := true;
        FewerCannotHalt(bonded, sorted, i);
        break;
      }
    }
    if !broke {
      FewerCannotHalt(bonded, sorted, |sorted|);
    }
  }

  lemma FewerCannotHalt(bonded: seq<Validator>, sorted: seq<Validator>, n: nat)
    requires multiset(sorted) == multiset(bonded) && Descending(sorted) && n <= |sorted|
    requires Stake(sorted[..n]) * 3 <= Stake(bonded)
    ensures forall c :: CanHalt(c, bonded) ==> |c| > n
  {
    hide Stake;
    hide Descending;
    forall c | CanHalt(c, bonded) ensures |c| > n {
      LargestHoldMost(sorted, c);
      if |c| <= n { PrefixSplits(sorted, |c|, n); }
    }
  }

  // ---- sales ----

  datatype Range = Range(from: nat, to: nat)

  /** One poll: what it scans, if anything, when `latest` is the newest block. */
  function Scanned(last: nat, latest: nat): Option<Range> {
    var from := if last != 0 then last + 1 else if latest > 500 then latest - 500 else 0;
    if from > latest then None else Some(Range(from, latest))
  }

  class SalesWatcher {
    var lastDispenserBlock: nat

    constructor ()
      ensures lastDispenserBlock == 0
    {
      lastDispenserBlock := 0;
    }

    /** `fails`: fetching the logs or sending a notice throws, and the range is tried again next time. */
    method WatchGmbSales(latest: nat, fails: bool) returns (done: Option<Range>)
      modifies this
      ensures done == if fails then None else Scanned(old(lastDispenserBlock), latest)
      ensures lastDispenserBlock == Cursor(old(lastDispenserBlock), Poll(latest, fails))
    {
      var from := if lastDispenserBlock != 0 then lastDispenserBlock + 1 else if latest > 500 then latest - 500 else 0;
      if from > latest || fails {
        return None;
      }
      lastDispenserBlock := latest;
      return Some(Range(from, latest));
    }
  }

  datatype Poll = Poll(latest: nat, fails: bool)

  function Cursor(last: nat, p: Poll): nat {
    if !p.fails && Scanned(last, p.latest).Some? then p.latest else last
  }

  function CursorAfter(polls: seq<Poll>): nat {
    if polls == [] then 0 else Cursor(CursorAfter(polls[..|polls| - 1]), polls[|polls| - 1])
  }

  /** The ranges that were scanned to the end. */
  function Ranges(polls: seq<Poll>): seq<Range> {
    if polls == [] then []
    else
      var before, p := polls[..|polls| - 1], polls[|polls| - 1];
      var r := Scanned(CursorAfter(before), p.latest);
      Ranges(before) + if !p.fails && r.Some? then [r.value] else []
  }

  ghost predicate Consecutive(rs: seq<Range>) {
    && (forall i :: 0 <= i < |rs| ==> rs[i].from <= rs[i].to)
    && (forall i :: 0 < i < |rs| ==> rs[i].from == rs[i - 1].to + 1)
  }

  predicate AllFail(polls: seq<Poll>) {
    forall i | 0 <= i < |polls| :: polls[i].fails
  }

  /** The first poll that goes through finds a chain with blocks. */
  predicate StartsAbove(polls: seq<Poll>) {
    polls == []
    || (var before, p := polls[..|polls| - 1], polls[|polls| - 1];
        StartsAbove(before) && (AllFail(before) && !p.fails ==> p.latest > 0))
  }

  /** The cursor is where the last scan ended, and nothing is scanned exactly if every poll fails. */
  lemma {:induction false} CursorIsLastScanned(polls: seq<Poll>)
    ensures var rs := Ranges(polls);
            && (rs == [] <==> AllFail(polls))
            && (rs == [] ==> CursorAfter(polls) == 0)
            && (rs != [] ==> rs[|rs| - 1].to == CursorAfter(polls))
  {
    if polls != [] {
      var before := polls[..|polls| - 1];
      CursorIsLastScanned(before);
      assert AllFail(polls) <==> AllFail(before) && polls[|polls| - 1].fails;
      hide AllFail;
    }
  }

  lemma ConsecutiveSnoc(rs: seq<Range>, r: Range)
    ensures Consecutive(rs + [r]) <==>
            Consecutive(rs) && r.from <= r.to && (rs != [] ==> r.from == rs[|rs| - 1].to + 1)
  {
    var us := rs + [r];
    assert us[|rs|] == r;
    assert forall i :: 0 <= i < |rs| ==> us[i] == rs[i];
    if Consecutive(us) {
      forall i | 0 < i < |rs| ensures rs[i].from == rs[i - 1].to + 1 { assert us[i] == rs[i]
          && us[i - 1] == rs[i - 1]; }
    }
  }

  /** The last poll, after anything whatever: what is scanned stays consecutive unless the cursor is 0
      although something was scanned, and then only if the tip is exactly one look-back further. */
  lemma OnePoll(polls: seq<Poll>, before: seq<Poll>, p: Poll)
    requires polls != [] && before == polls[..|polls| - 1] && p == polls[|polls| - 1]
    ensures CursorAfter(polls) == Cursor(CursorAfter(before), p)
    ensures Consecutive(Ranges(polls)) <==>
            Consecutive(Ranges(before))
            && (p.fails || Scanned(CursorAfter(before), p.latest).None? || Ranges(before) == []
                || CursorAfter(before) > 0 || p.latest == 501)
  {
    CursorIsLastScanned(before);
    var rs, r := Ranges(before), Scanned(CursorAfter(before), p.latest);
    assert Ranges(polls) == rs + if !p.fails && r.Some? then [r.value] else [];
    hide Ranges;
    hide CursorAfter;
    hide Consecutive;
    if !p.fails && r.Some? {
      ConsecutiveSnoc(rs, r.value);
    } else {
      assert rs + [] == rs;
    }
  }

  /** Every block from the first scanned one up to the cursor is scanned exactly once, over any polls
      of which the first that goes through finds a height above 0: also when others fail or a node
      answers with an old height. */
  lemma {:induction false} EverySaleIsSeenOnce(polls: seq<Poll>)
    requires StartsAbove(polls)
    ensures var rs := Ranges(polls);
            && Consecutive(rs)
            && (rs == [] <==> AllFail(polls))
            && (rs == [] <==> CursorAfter(polls) == 0)
            && (rs != [] ==> rs[|rs| - 1].to == CursorAfter(polls))
  {
    CursorIsLastScanned(polls);
    if polls != [] {
      var before, p := polls[..|polls| - 1], polls[|polls| - 1];
      EverySaleIsSeenOnce(before);
      hide Ranges;
      hide CursorAfter;
      hide Consecutive;
      hide AllFail;
      OnePoll(polls, before, p);
    }
  }

  /** The polls that scan again with an unset cursor all find the tip at 501. */
  ghost predicate RescansFit(polls: seq<Poll>) {
    forall i :: 0 <= i < |polls| && !polls[i].fails && CursorAfter(polls[..i]) == 0 && Ranges(polls[..i]) != [] ==>
      polls[i].latest == 501
  }

  lemma RescansFitSnoc(polls: seq<Poll>, before: seq<Poll>, p: Poll)
    requires polls != [] && before == polls[..|polls| - 1] && p == polls[|polls| - 1]
    ensures RescansFit(polls) <==>
            RescansFit(before) && (!p.fails && CursorAfter(before) == 0 && Ranges(before) != [] ==> p.latest == 501)
  {
    hide Ranges;
    hide CursorAfter;
    var n := |before|;
    assert forall i :: 0 <= i < n ==> before[i] == polls[i] && before[..i] == polls[..i];
  }

  /** Over any polls at all this is exact: no block is scanned twice and none is skipped if and only if
      a scan at height 0, which leaves the cursor unset, is only ever followed by one at 501. */
  lemma {:induction false} SeenOnceIff(polls: seq<Poll>)
    ensures Consecutive(Ranges(polls)) <==> RescansFit(polls)
  {
    if polls != [] {
      var before, p := polls[..|polls| - 1], polls[|polls| - 1];
      SeenOnceIff(before);
      hide Consecutive;
      hide Ranges;
      hide CursorAfter;
      hide RescansFit;
      OnePoll(polls, before, p);
      RescansFitSnoc(polls, before, p);
    }
  }

  predicate Covers(r: Range, block: nat) {
    r.from <= block <= r.to
  }

  /** A scan at height 0 is forgotten: the next one starts at the look-back again. It scans block 0
      again, or, once the chain is past 501, leaves out every block up to its look-back. */
  lemma GenesisIsForgotten(latest: nat)
    requires latest > 0
    ensures Ranges([Poll(0, false), Poll(latest, false)])
            == [Range(0, 0), Range(if latest > 500 then latest - 500 else 0, latest)]
    ensures forall r, b :: r in Ranges([Poll(0, false), Poll(latest, false)]) && 0 < b < latest - 500 ==> !Covers(r, b)
  {
    var polls := [Poll(0, false), Poll(latest, false)];
    assert polls[..1] == [Poll(0, false)] && [Poll(0, false)][..0] == [];
    assert CursorAfter([Poll(0, false)]) == 0 && Ranges([Poll(0, false)]) == [Range(0, 0)];
  }
}
