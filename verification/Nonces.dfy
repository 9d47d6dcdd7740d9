/** The load harness's nonce pipeline: a local counter per wallet, handed out ahead of the chain. */
module Nonces {
  type Wallet = string

  datatype NonceState = NonceState(next: map<Wallet, nat>, inflight: map<Wallet, nat>)

  /** `mined` is what the node answers when asked for the transaction count; it may lag behind. */
  datatype Call = Take(w: Wallet) | Settle(w: Wallet) | Resync(w: Wallet, mined: nat)

  function Get(m: map<Wallet, nat>, w: Wallet, otherwise: nat): nat {
    if w in m then m[w] else otherwise
  }

  function Apply(s: NonceState, c: Call): NonceState {
    match c
    case Take(w) => NonceState(s.next[w := Get(s.next, w, 0) + 1], s.inflight[w := Get(s.inflight, w, 0) + 1])
    case Settle(w) =>
      s.(inflight := s.inflight[w := if Get(s.inflight, w, 0) > 0 then Get(s.inflight, w, 0) - 1 else 0])
    case Resync(w, mined) =>
      var cur := Get(s.next, w, mined);
      var next := if cur > mined then cur else mined;
      NonceState(s.next[w := next], s.inflight[w := next - mined])
  }

  function After(s: NonceState, calls: seq<Call>): NonceState {
    if calls == [] then s else Apply(After(s, calls[..|calls| - 1]), calls[|calls| - 1])
  }

  /** The nonce the call at index `i` hands out. */
  function Issued(s: NonceState, calls: seq<Call>, i: nat): nat
    requires i < |calls| && calls[i].Take?
  {
    Get(After(s, calls[..i]).next, calls[i].w, 0)
  }

  predicate CanSend(s: NonceState, w: Wallet, cap: nat) {
    Get(s.inflight, w, 0) < cap
  }

  class NonceManager {
    var next: map<Wallet, nat>
    var inflight: map<Wallet, nat>

    ghost function View(): NonceState
      reads this
    {
      NonceState(next, inflight)
    }

    constructor ()
      ensures View() == NonceState(map[], map[])
    {
      next, inflight := map[], map[];
    }

    method Init(w: Wallet, mined: nat)
      modifies this
      ensures View() == NonceState(old(next)[w := mined], old(inflight)[w := 0])
    {
      next, inflight := next[w := mined], inflight[w := 0];
    }

    method MaySend(w: Wallet, cap: nat) returns (ok: bool)
      ensures ok <==> CanSend(View(), w, cap)
      ensures ok <==> (if w in inflight then inflight[w] else 0) < cap
    {
      return Get(inflight, w, 0) < cap;
    }

    method TakeNonce(w: Wallet) returns (n: nat)
      modifies this
      ensures n == Get(old(next), w, 0) && View() == Apply(old(View()), Take(w))
      ensures next == old(next)[w := n + 1] && inflight == old(inflight)[w := Get(old(inflight), w, 0) + 1]
    {
      n := Get(next, w, 0);
      next := next[w := n + 1];
      inflight := inflight[w := Get(inflight, w, 0) + 1];
    }

    method SettleOne(w: Wallet)
      modifies this`inflight
      ensures View() == Apply(old(View()), Settle(w))
      ensures inflight == old(inflight)[w := if Get(old(inflight), w, 0) > 0 then Get(old(inflight), w, 0) - 1 else 0]
    {
      var n := Get(inflight, w, 0);
      inflight := inflight[w := if n > 0 then n - 1 else 0];
    }

    method ResyncTo(w: Wallet, mined: nat) returns (n: nat)
      modifies this
      ensures View() == Apply(old(View()), Resync(w, mined)) && n == next[w]
      ensures n >= mined && (w in old(next) ==> n >= old(next)[w]) && (n == mined || (w in old(next)
          && n == old(next)[w]))
      ensures next == old(next)[w := n] && inflight == old(inflight)[w := n - mined]
    {
      var cur := Get(next, w, mined);
      n := if cur > mined then cur else mined;
      next := next[w := n];
      inflight := inflight[w := n - mined];
    }
  }

  lemma NextNeverRewinds(s: NonceState, c: Call, w: Wallet)
    requires w in s.next
    ensures w in Apply(s, c).next && Apply(s, c).next[w] >= s.next[w]
    ensures c == Take(w) ==> Apply(s, c).next[w] == s.next[w] + 1
  {}

  lemma {:induction false} NextGrows(s: NonceState, calls: seq<Call>, i: nat, w: Wallet)
    requires i <= |calls| && w in After(s, calls[..i]).next
    ensures w in After(s, calls).next && After(s, calls[..i]).next[w] <= After(s, calls).next[w]
    decreases |calls| - i
  {
    if i < |calls| {
      assert calls[..i + 1][..i] == calls[..i];
      NextNeverRewinds(After(s, calls[..i]), calls[i], w);
      NextGrows(s, calls, i + 1, w);
    } else {
      assert calls[..i] == calls;
    }
  }

  /** No wallet gets a nonce twice, whatever the interleaving of settling and of resyncs that read an
      old count: what is handed out later is larger. */
  lemma NoncesIncrease(s: NonceState, calls: seq<Call>, i: nat, j: nat)
    requires i < j < |calls| && calls[i].Take? && calls[j] == calls[i]
    ensures Issued(s, calls, i) < Issued(s, calls, j)
  {
    var w := calls[i].w;
    assert calls[..i + 1][..i] == calls[..i];
    assert calls[..j][..i + 1] == calls[..i + 1];
    NextGrows(s, calls[..j], i + 1, w);
  }

  // ---- does the window bound the gap? ----

  /** By how much the next nonce has outrun the mined ones. */
  function Gap(s: NonceState, w: Wallet, mined: nat): int {
    Get(s.next, w, 0) - mined
  }

  /** The in-flight count covers the gap. */
  predicate Level(s: NonceState, w: Wallet, mined: nat) {
    Gap(s, w, mined) <= Get(s.inflight, w, 0)
  }

  function Sends(s: NonceState, w: Wallet, n: nat): NonceState {
    if n == 0 then s else Apply(Sends(s, w, n - 1), Take(w))
  }

  /** Each of the next `n` sends finds room in the window. */
  ghost predicate Allowed(s: NonceState, w: Wallet, cap: nat, n: nat) {
    forall k :: 0 <= k < n ==> CanSend(Sends(s, w, k), w, cap)
  }

  lemma {:induction false} SendsCount(s: NonceState, w: Wallet, n: nat)
    ensures Get(Sends(s, w, n).next, w, 0) == Get(s.next, w, 0) + n
    ensures Get(Sends(s, w, n).inflight, w, 0) == Get(s.inflight, w, 0) + n
  {
    if n > 0 { SendsCount(s, w, n - 1); }
  }

  /** The window keeps the gap within the cap, whatever it still lets through, if and only if the count
      covers the gap now. */
  lemma WindowBoundsGapIff(s: NonceState, w: Wallet, mined: nat, cap: nat)
    requires Get(s.inflight, w, 0) <= cap
    ensures Level(s, w, mined) <==> forall n :: Allowed(s, w, cap, n) ==> Gap(Sends(s, w, n), w, mined) <= cap
  {
    var room := cap - Get(s.inflight, w, 0);
    forall n: nat ensures Allowed(s, w, cap, n) <==> n <= room {
      forall k: nat | k < n ensures CanSend(Sends(s, w, k), w, cap) <==> k < room { SendsCount(s, w, k); }
      if n > room { assert !CanSend(Sends(s, w, room), w, cap); }
      SendsCount(s, w, n);
    }
    forall n: nat ensures Gap(Sends(s, w, n), w, mined) == Gap(s, w, mined) + n { SendsCount(s, w, n); }
    assert Allowed(s, w, cap, room);
  }

  /** `k` settlings leave the count above the gap, or there is no gap. */
  predicate Room(s: NonceState, w: Wallet, mined: nat, k: nat) {
    Gap(s, w, mined) <= 0 || Gap(s, w, mined) + k <= Get(s.inflight, w, 0)
  }

  /** Sending and mining never uncover the gap; a resync uncovers it exactly if it reads more than is
      mined; and a settling exactly if there is a gap that uses up the whole count. */
  lemma LevelIff(s: NonceState, w: Wallet, mined: nat, read: nat)
    requires Level(s, w, mined)
    ensures Level(Apply(s, Take(w)), w, mined) && Level(s, w, mined + 1)
    ensures Level(Apply(s, Resync(w, read)), w, mined) <==> read <= mined
    ensures Level(Apply(s, Settle(w)), w, mined) <==> Room(s, w, mined, 1)
  {}

  lemma HardFailure(w: Wallet, next: nat)
    ensures Apply(Apply(NonceState(map[w := next], map[w := 0]), Take(w)), Settle(w))
            == NonceState(map[w := next + 1], map[w := 0])
  {}

  /** A submit that fails hard settles without a resync, while its nonce stays a gap. */
  lemma HardFailureLeaks(w: Wallet, n: nat)
    ensures var s := NonceState(map[w := n], map[w := 0]);
            Level(s, w, n) && !Level(Apply(Apply(s, Take(w)), Settle(w)), w, n)
  {}

  /** A refused nonce is resynced to the true count and then settled once more. */
  lemma RefusedNonceLeaks(w: Wallet, n: nat)
    ensures var s := NonceState(map[w := n + 1], map[w := 1]);
            Level(s, w, n) && !Level(Apply(Apply(Apply(s, Take(w)), Resync(w, n)), Settle(w)), w, n)
  {}

  /** A resync, to the true count, counts a transaction out that is mined but not scanned yet; the scan
      settles it again. */
  lemma LateScanLeaks(w: Wallet, n: nat)
    ensures var s := NonceState(map[w := n + 2], map[w := 2]);
            && Level(s, w, n) && Level(Apply(s, Resync(w, n + 1)), w, n + 1)
            && !Level(Apply(Apply(s, Resync(w, n + 1)), Settle(w)), w, n + 1)
  {}
}
