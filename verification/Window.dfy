/** When the in-flight window keeps a wallet's next nonce near its mined ones, over whole runs of the
    harness and the chain. */
module Window {
  import opened Wrappers
  import opened Nonces
  import opened Collector
  import opened Credits
  import opened HarnessRun

  function Mined(w: World, x: Wallet): nat {
    Get(w.minedNonces, x, 0)
  }

  predicate LevelAt(w: World, x: Wallet) {
    Level(w.nonces, x, Mined(w, x))
  }

  function Count(hashes: seq<Hash>, x: Wallet): nat {
    if hashes == [] then 0
    else Count(hashes[..|hashes| - 1], x) + if hashes[|hashes| - 1].wallet == x then 1 else 0
  }

  lemma {:induction false} SettleAllCounts(s: NonceState, hashes: seq<Hash>, x: Wallet)
    ensures var u, n := SettleAll(s, hashes), Get(s.inflight, x, 0);
            && Get(u.next, x, 0) == Get(s.next, x, 0)
            && Get(u.inflight, x, 0) == if n >= Count(hashes, x) then n - Count(hashes, x) else 0
  {
    if hashes != [] { SettleAllCounts(s, hashes[..|hashes| - 1], x); }
  }

  /** How often an event settles a wallet. */
  function Settlings(w: World, e: Event, x: Wallet, timeoutMs: nat): nat {
    if e.Failed? || e.Dropped? then (if e.h.wallet == x then 1 else 0)
    else if e.Block? then Count(Seen(w.tracking, e.hashes), x)
    else if e.SweepTurn? then Count(GivenUp(w.tracking, e.order, e.now, timeoutMs), x)
    else 0
  }

  /** The count that a node tells a wallet in an event. */
  function Told(e: Event, x: Wallet): Option<nat> {
    if e.Dropped? && e.h.wallet == x then e.read
    else if e.Resynced? && e.w == x then Some(e.count)
    else None
  }

  /** What an event asks of the state before it: that a node does not claim more than is mined, and that,
      once it has answered, the in-flight count has room for the settlings above the gap. */
  predicate Calm(w: World, e: Event, x: Wallet, timeoutMs: nat) {
    && (Told(e, x).Some? ==> Told(e, x).value <= Mined(w, x))
    && Room(Asked(w.nonces, x, Told(e, x)), x, Mined(w, x), Settlings(w, e, x, timeoutMs))
  }

  // ---- what an event does to the numbers ----

  function NoncesAfter(w: World, e: Event, timeoutMs: nat): NonceState {
    match e
    case Fire(y, _) => Nonces.Apply(w.nonces, Take(y))
    case Failed(h) => Nonces.Apply(w.nonces, Settle(h.wallet))
    case Dropped(h, read) => Nonces.Apply(Asked(w.nonces, h.wallet, read), Settle(h.wallet))
    case Block(hashes) => SettleAll(w.nonces, Seen(w.tracking, hashes))
    case SweepTurn(order, now) => SettleAll(w.nonces, GivenUp(w.tracking, order, now, timeoutMs))
    case Resynced(y, count) => Nonces.Apply(w.nonces, Resync(y, count))
    case _ => w.nonces
  }

  lemma NextNonces(w: World, e: Event, timeoutMs: nat)
    requires Enabled(w, e)
    ensures var u := Next(w, e, timeoutMs);
            && u.nonces == NoncesAfter(w, e, timeoutMs) && u.cap == w.cap
            && u.minedNonces == (if e.Mine? then w.minedNonces[e.h.wallet := e.h.nonce + 1] else w.minedNonces)
            && u.picked == if e.Pick? then Some(e.w) else if e.Fire? then None else w.picked
  {
    hide Nonces.Apply;
    hide SettleAll;
    hide Scan;
    hide Sweep;
    hide Answer;
    hide Track;
  }

  /** ... and so to the two numbers of a wallet. */
  lemma NextCounts(w: World, e: Event, x: Wallet, timeoutMs: nat)
    requires Enabled(w, e)
    ensures var u := Next(w, e, timeoutMs); var s := Asked(w.nonces, x, Told(e, x));
            var sent := if e.Fire? && e.w == x then 1 else 0;
            var k := Settlings(w, e, x, timeoutMs);
            && Get(u.nonces.next, x, 0) == Get(s.next, x, 0) + sent
            && Get(u.nonces.inflight, x, 0)
               == if Get(s.inflight, x, 0) + sent >= k then Get(s.inflight, x, 0) + sent - k else 0
    ensures Mined(Next(w, e, timeoutMs), x) == Mined(w, x) + if e.Mine? && e.h.wallet == x then 1 else 0
  {
    NextNonces(w, e, timeoutMs);
    hide Next;
    if e.Block? {
      SettleAllCounts(w.nonces, Seen(w.tracking, e.hashes), x);
    } else if e.SweepTurn? {
      SettleAllCounts(w.nonces, GivenUp(w.tracking, e.order, e.now, timeoutMs), x);
    }
    hide SettleAll;
    hide Count;
  }

  /** A step leaves the gap covered if and only if the event was calm. */
  lemma StepIff(w: World, e: Event, x: Wallet, timeoutMs: nat)
    requires LevelAt(w, x) && Enabled(w, e)
    ensures LevelAt(Next(w, e, timeoutMs), x) <==> Calm(w, e, x, timeoutMs)
  {
    NextCounts(w, e, x, timeoutMs);
    hide Next;
    hide Settlings;
  }

  /** Covered after each of the first events. */
  ghost predicate AlwaysLevel(w: World, events: seq<Event>, x: Wallet, timeoutMs: nat) {
    forall i :: 0 <= i <= |events| ==> LevelAt(Run(w, events[..i], timeoutMs), x)
  }

  ghost predicate AlwaysCalm(w: World, events: seq<Event>, x: Wallet, timeoutMs: nat) {
    forall i :: 0 <= i < |events| ==>
      var u := Run(w, events[..i], timeoutMs);
      Enabled(u, events[i]) ==> Calm(u, events[i], x, timeoutMs)
  }

  lemma PrefixStep(w: World, events: seq<Event>, i: nat, timeoutMs: nat)
    requires i < |events|
    ensures Run(w, events[..i + 1], timeoutMs) == Next(Run(w, events[..i], timeoutMs), events[i], timeoutMs)
  {
    assert events[..i + 1][..i] == events[..i];
  }

  /** Over every run the gap stays covered if and only if every event was calm when it came. */
  lemma CoveredIffCalm(w: World, events: seq<Event>, x: Wallet, timeoutMs: nat)
    requires LevelAt(w, x)
    ensures AlwaysLevel(w, events, x, timeoutMs) <==> AlwaysCalm(w, events, x, timeoutMs)
  {
    hide Next;
    hide Calm;
    hide LevelAt;
    hide Enabled;
    if AlwaysLevel(w, events, x, timeoutMs) {
      forall i | 0 <= i < |events| && Enabled(Run(w, events[..i], timeoutMs), events[i])
        ensures Calm(Run(w, events[..i], timeoutMs), events[i], x, timeoutMs)
      {
        PrefixStep(w, events, i, timeoutMs);
        StepIff(Run(w, events[..i], timeoutMs), events[i], x, timeoutMs);
      }
    }
    if AlwaysCalm(w, events, x, timeoutMs) {
      CalmStaysLevel(w, events, |events|, x, timeoutMs);
    }
  }

  lemma OneCalmStep(w: World, events: seq<Event>, n: nat, x: Wallet, timeoutMs: nat)
    requires AlwaysCalm(w, events, x, timeoutMs) && n < |events| && LevelAt(Run(w, events[..n], timeoutMs), x)
    ensures LevelAt(Run(w, events[..n + 1], timeoutMs), x)
  {
    hide Next;
    hide Calm;
    hide LevelAt;
    PrefixStep(w, events, n, timeoutMs);
    var u, e := Run(w, events[..n], timeoutMs), events[n];
    if Enabled(u, e) {
      StepIff(u, e, x, timeoutMs);
    } else {
      NothingHappens(u, e, timeoutMs);
    }
  }

  lemma {:induction false} CalmStaysLevel(w: World, events: seq<Event>, n: nat, x: Wallet, timeoutMs: nat)
    requires LevelAt(w, x) && AlwaysCalm(w, events, x, timeoutMs) && n <= |events|
    ensures forall i :: 0 <= i <= n ==> LevelAt(Run(w, events[..i], timeoutMs), x)
  {
    hide LevelAt;
    hide AlwaysCalm;
    if n == 0 {
      assert events[..0] == [];
    } else {
      CalmStaysLevel(w, events, n - 1, x, timeoutMs);
      OneCalmStep(w, events, n - 1, x, timeoutMs);
    }
  }

  lemma NothingHappens(w: World, e: Event, timeoutMs: nat)
    requires !Enabled(w, e)
    ensures Next(w, e, timeoutMs) == w
  {}

  // ---- the bound ----

  /** Within the window; and a wallet that was picked has room for one more. */
  predicate Bounded(w: World, x: Wallet) {
    && Gap(w.nonces, x, Mined(w, x)) <= w.cap
    && (w.picked == Some(x) ==> w.cap > 0 && Gap(w.nonces, x, Mined(w, x)) < w.cap)
  }

  lemma StepStaysBounded(w: World, e: Event, x: Wallet, timeoutMs: nat)
    requires Bounded(w, x) && LevelAt(w, x) && Enabled(w, e) && Calm(w, e, x, timeoutMs)
    ensures Bounded(Next(w, e, timeoutMs), x)
  {
    NextNonces(w, e, timeoutMs);
    NextCounts(w, e, x, timeoutMs);
    hide Next;
    hide NoncesAfter;
    hide Settlings;
  }

  /** As long as every event is calm, the next nonce of a wallet never outruns the mined ones by more than
      the window. The wallet is picked while the window has room and sends later, so even a check that is
      out of date by then is good enough. */
  lemma {:induction false} WindowBoundsTheGap(w: World, events: seq<Event>, x: Wallet, timeoutMs: nat)
    requires LevelAt(w, x) && Bounded(w, x) && AlwaysCalm(w, events, x, timeoutMs)
    ensures Bounded(Run(w, events, timeoutMs), x)
  {
    hide Next;
    hide Calm;
    hide LevelAt;
    hide Bounded;
    if events != [] {
      var n := |events| - 1;
      var before, e := events[..n], events[n];
      var u := Run(w, before, timeoutMs);
      assert forall i :: 0 <= i < n ==> before[i] == events[i] && before[..i] == events[..i];
      WindowBoundsTheGap(w, before, x, timeoutMs);
      CalmStaysLevel(w, events, n, x, timeoutMs);
      if Enabled(u, e) {
        StepStaysBounded(u, e, x, timeoutMs);
      } else {
        NothingHappens(u, e, timeoutMs);
      }
    }
  }

  /** Every wallet whose counter was initialised to no more than is mined starts like that. */
  lemma BeginningIsLevel(start: Start, x: Wallet)
    requires Get(start.next, x, 0) <= Get(start.mined, x, 0)
    ensures LevelAt(Beginning(start), x) && Bounded(Beginning(start), x)
  {}

  // ---- and it is exact ----

  /** Picked as often as the window lets it, and sending whenever it was. */
  function Rounds(x: Wallet, n: nat): seq<Event> {
    if n == 0 then [] else Rounds(x, n - 1) + [Pick(x), Fire(x, Unrelated)]
  }

  lemma RunOne(w: World, events: seq<Event>, e: Event, timeoutMs: nat)
    ensures Run(w, events + [e], timeoutMs) == Next(Run(w, events, timeoutMs), e, timeoutMs)
  {
    assert (events + [e])[..|events + [e]| - 1] == events;
  }

  lemma RunTwo(w: World, events: seq<Event>, a: Event, b: Event, timeoutMs: nat)
    ensures Run(w, events + [a, b], timeoutMs) == Next(Next(Run(w, events, timeoutMs), a, timeoutMs), b, timeoutMs)
  {
    hide Next;
    var all := events + [a, b];
    assert all[..|all| - 1] == events + [a] && (events + [a])[..|events + [a]| - 1] == events;
  }

  lemma OneRound(w: World, x: Wallet, timeoutMs: nat)
    requires w.picked == None
    ensures var u := Next(Next(w, Pick(x), timeoutMs), Fire(x, Unrelated), timeoutMs);
            && u.picked == None && u.cap == w.cap && u.minedNonces == w.minedNonces
            && u.nonces == if CanSend(w.nonces, x, w.cap) then Nonces.Apply(w.nonces, Take(x)) else w.nonces
  {
    hide Nonces.Apply;
  }

  lemma {:induction false} RoundsCount(w: World, x: Wallet, n: nat, timeoutMs: nat)
    requires w.picked == None && Get(w.nonces.inflight, x, 0) <= w.cap
    ensures var u := Run(w, Rounds(x, n), timeoutMs);
            var room := w.cap - Get(w.nonces.inflight, x, 0); var sent := if n < room then n else room;
            && u.picked == None && u.cap == w.cap && u.minedNonces == w.minedNonces
            && Get(u.nonces.next, x, 0) == Get(w.nonces.next, x, 0) + sent
            && Get(u.nonces.inflight, x, 0) == Get(w.nonces.inflight, x, 0) + sent
  {
    hide Next;
    if n > 0 {
      RoundsCount(w, x, n - 1, timeoutMs);
      RunTwo(w, Rounds(x, n - 1), Pick(x), Fire(x, Unrelated), timeoutMs);
      OneRound(Run(w, Rounds(x, n - 1), timeoutMs), x, timeoutMs);
      hide Run;
    }
  }

  /** In any state with a window that is not overfull, the wallet can be let through until its next nonce
      is further ahead than the window, if and only if the count does not cover the gap now. */
  lemma WindowHoldsIff(w: World, x: Wallet, timeoutMs: nat)
    requires w.picked == None && Get(w.nonces.inflight, x, 0) <= w.cap
    ensures LevelAt(w, x) <==>
            forall n :: var u := Run(w, Rounds(x, n), timeoutMs); Gap(u.nonces, x, Mined(u, x)) <= w.cap
  {
    var room := w.cap - Get(w.nonces.inflight, x, 0);
    forall n: nat
      ensures var u := Run(w, Rounds(x, n), timeoutMs);
              Gap(u.nonces, x, Mined(u, x)) == Gap(w.nonces, x, Mined(w, x)) + if n < room then n else room
    {
      RoundsCount(w, x, n, timeoutMs);
    }
    hide Run;
    assert Gap(Run(w, Rounds(x, room), timeoutMs).nonces, x, Mined(Run(w, Rounds(x, room), timeoutMs), x))
        == Gap(w.nonces, x, Mined(w, x)) + room;
  }

  // ---- a run that breaks it ----

  /** A wallet whose submits fail hard, over and over. */
  function Failures(x: Wallet, from: nat, n: nat): seq<Event> {
    if n == 0 then []
    else Failures(x, from, n - 1) + [Pick(x), Fire(x, Unrelated)] + [Failed(Hash(x, from + n - 1))]
  }

  lemma OneFailure(w: World, x: Wallet, n: nat, timeoutMs: nat)
    requires w.picked == None && w.cap > 0 && w.nonces == NonceState(map[x := n], map[x := 0])
    ensures var u := Next(Next(Next(w, Pick(x), timeoutMs), Fire(x, Unrelated), timeoutMs), Failed(Hash(x, n)),
        timeoutMs);
            && u.picked == None && u.cap == w.cap && u.minedNonces == w.minedNonces
            && u.nonces == NonceState(map[x := n + 1], map[x := 0])
  {
    var v := Next(Next(w, Pick(x), timeoutMs), Fire(x, Unrelated), timeoutMs);
    assert Hash(x, n) in v.sending;
    HardFailure(x, n);
    OneRound(w, x, timeoutMs);
    hide Nonces.Apply;
  }

  /** From any beginning: after so many hard failures the window is as free as at first, while the next
      nonce is that far ahead of the mined one, past any cap. */
  lemma {:induction false} FailuresOutrunTheWindow(x: Wallet, from: nat, cap: nat, n: nat, timeoutMs: nat)
    requires cap > 0
    ensures var u := Run(Beginning(Start(map[x := from], map[x := from], map[], cap)), Failures(x, from, n), timeoutMs);
            && u.picked == None && u.cap == cap && u.minedNonces == map[x := from]
            && u.nonces == NonceState(map[x := from + n], map[x := 0])
            && Gap(u.nonces, x, Mined(u, x)) == n && CanSend(u.nonces, x, cap)
  {
    hide Next;
    var w := Beginning(Start(map[x := from], map[x := from], map[], cap));
    if n > 0 {
      var before := Failures(x, from, n - 1);
      FailuresOutrunTheWindow(x, from, cap, n - 1, timeoutMs);
      RunTwo(w, before, Pick(x), Fire(x, Unrelated), timeoutMs);
      RunOne(w, before + [Pick(x), Fire(x, Unrelated)], Failed(Hash(x, from + n - 1)), timeoutMs);
      hide Run;
      OneFailure(Run(w, before, timeoutMs), x, from + n - 1, timeoutMs);
    }
  }
}
