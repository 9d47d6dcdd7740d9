/** What the load harness remembers of its NFTs: queues per wallet and a list of offers. Every
    collection has a shelf of its own and uses some of these operations. */
module NftShelf {
  import opened Wrappers
  import opened Nonces

  type Id = nat

  datatype Listing = Listing(id: Id, seller: Wallet, taken: bool)

  type Queues = map<Wallet, seq<Id>>

  datatype Shelf = Shelf(next: Id, owned: Queues, staked: Queues, listed: seq<Listing>, cursor: nat)

  const QCAP: nat := 300
  const LISTING_LIMIT: nat := 6000
  const LISTING_KEEP: nat := 3000
  const BUY_WINDOW: nat := 400
  const CANCEL_WINDOW: nat := 200

  function Queue(m: Queues, f: Wallet): seq<Id> {
    if f in m then m[f] else []
  }

  function Capped(q: seq<Id>): seq<Id> {
    if |q| > QCAP then q[1..] else q
  }

  function Range(start: Id, n: nat): (r: seq<Id>)
    ensures forall id: Id :: id in r <==> start <= id < start + n
  {
    RangeHas(start, n);
    seq(n, i requires 0 <= i => start + i)
  }

  lemma RangeHas(start: Id, n: nat)
    ensures var r := seq(n, i requires 0 <= i => start + i); forall id: Id :: id in r <==> start <= id < start + n
  {
    var r := seq(n, i requires 0 <= i => start + i);
    forall id: Id | start <= id < start + n ensures id in r {
      var k := id - start;
      assert r[k] == id;
    }
  }

  function Pushed(m: Queues, f: Wallet, ids: seq<Id>): Queues {
    m[f := Capped(Queue(m, f) + ids)]
  }

  function Shifted(m: Queues, f: Wallet): Queues
    requires Queue(m, f) != []
  {
    m[f := m[f][1..]]
  }

  function Offered(s: Shelf, id: Id, seller: Wallet): Shelf {
    var all := s.listed + [Listing(id, seller, false)];
    if |all| > LISTING_LIMIT then s.(listed := all[|all| - LISTING_KEEP..], cursor := 0) else s.(listed := all)
  }

  /** Where an entry of a queue was before something was pushed. */
  lemma PushedFrom(m: Queues, f: Wallet, ids: seq<Id>, p: nat)
    requires p < |Queue(Pushed(m, f, ids), f)|
    ensures var q := Queue(m, f); var k := p + if |q| + |ids| > QCAP then 1 else 0;
            k < |q| + |ids| && Queue(Pushed(m, f, ids), f)[p] == if k < |q| then q[k] else ids[k - |q|]
  {}

  lemma OfferedFrom(s: Shelf, id: Id, seller: Wallet, k: nat)
    requires k < |Offered(s, id, seller).listed|
    ensures var n := k + if |s.listed| + 1 > LISTING_LIMIT then |s.listed| + 1 - LISTING_KEEP else 0;
            n <= |s.listed| && Offered(s, id, seller).listed[k]
                == if n < |s.listed| then s.listed[n] else Listing(id, seller, false)
  {}

  function SkipTaken(l: seq<Listing>, i: nat): nat
    decreases |l| - i
  {
    if i < |l| && l[i].taken then SkipTaken(l, i + 1) else i
  }

  predicate Wanted(e: Listing, f: Wallet, own: bool) {
    !e.taken && (e.seller == f) == own
  }

  /** The first wanted offer among `n` from `i` on. */
  function Pick(l: seq<Listing>, i: nat, n: nat, f: Wallet, own: bool): Option<nat>
    decreases n
  {
    if i >= |l| || n == 0 then None
    else if Wanted(l[i], f, own) then Some(i)
    else Pick(l, i + 1, n - 1, f, own)
  }

  function Marked(l: seq<Listing>, k: nat): seq<Listing>
    requires k < |l|
  {
    l[k := l[k].(taken := true)]
  }

  /** What is picked is wanted and is the first such offer; nothing is picked only if the window has none. */
  lemma {:induction false} PickIsTheFirstWanted(l: seq<Listing>, i: nat, n: nat, f: Wallet, own: bool)
    ensures var r := Pick(l, i, n, f, own);
            && (r.Some? ==> i <= r.value < |l| && r.value < i + n && Wanted(l[r.value], f, own))
            && forall k :: i <= k < |l| && k < (if r.Some? then r.value else i + n) ==> !Wanted(l[k], f, own)
    decreases n
  {
    if i < |l| && n > 0 && !Wanted(l[i], f, own) {
      PickIsTheFirstWanted(l, i + 1, n - 1, f, own);
    }
  }

  /** The cursor passes over taken offers only. */
  lemma {:induction false} SkipTakenStops(l: seq<Listing>, i: nat)
    requires i <= |l|
    ensures i <= SkipTaken(l, i) <= |l|
    ensures forall k :: i <= k < SkipTaken(l, i) ==> l[k].taken
    ensures SkipTaken(l, i) < |l| ==> !l[SkipTaken(l, i)].taken
    decreases |l| - i
  {
    if i < |l| && l[i].taken { SkipTakenStops(l, i + 1); }
  }

  class NftState {
    var next: Id
    var owned: Queues
    var staked: Queues
    var listed: seq<Listing>
    var cursor: nat

    ghost function View(): Shelf
      reads this
    {
      Shelf(next, owned, staked, listed, cursor)
    }

    constructor (first: Id)
      ensures View() == Shelf(first, map[], map[], [], 0)
    {
      next, owned, staked, listed, cursor := first, map[], map[], [], 0;
    }

    method Mint(n: nat) returns (start: Id)
      modifies this`next
      ensures start == old(next) && View() == old(View()).(next := start + n)
    {
      start := next;
      next := next + n;
    }

    /** One push per minted id, then a single check of the cap. */
    method ApplyMint(f: Wallet, start: Id, n: nat)
      modifies this`owned
      ensures View() == old(View()).(owned := Pushed(old(owned), f, Range(start, n)))
      ensures var all := Queue(old(owned), f) + Range(start, n);
              Queue(owned, f) == if |all| <= 300 then all else all[1..]
    {
      var q := Queue(owned, f);
      for i := 0 to n
        invariant q == Queue(owned, f) + Range(start, i)
      {
        q := q + [start + i];
      }
      if |q| > QCAP { q := q[1..]; }
      owned := owned[f := q];
    }

    /** The id that the next transfer, offer or stake of this wallet uses. */
    method ShiftOwned(f: Wallet) returns (id: Option<Id>)
      modifies this`owned
      ensures id == if Queue(old(owned), f) == [] then None else Some(old(owned)[f][0])
      ensures View() == if id == None then old(View()) else old(View()).(owned := Shifted(old(owned), f))
      ensures id.Some? ==> Queue(old(owned), f) == [id.value] + Queue(owned, f)
    {
      if Queue(owned, f) == [] { return None; }
      id := Some(owned[f][0]);
      owned := owned[f := owned[f][1..]];
    }

    method ApplyStake(f: Wallet, id: Id)
      modifies this`staked
      ensures View() == old(View()).(staked := Pushed(old(staked), f, [id]))
      ensures var all := Queue(old(staked), f) + [id];
              Queue(staked, f) == if |all| <= 300 then all else all[1..]
    {
      var q := Queue(staked, f) + [id];
      if |q| > QCAP { q := q[1..]; }
      staked := staked[f := q];
    }

    method ShiftStaked(f: Wallet) returns (id: Option<Id>)
      modifies this`staked
      ensures id == if Queue(old(staked), f) == [] then None else Some(old(staked)[f][0])
      ensures View() == if id == None then old(View()) else old(View()).(staked := Shifted(old(staked), f))
      ensures id.Some? ==> Queue(old(staked), f) == [id.value] + Queue(staked, f)
    {
      if Queue(staked, f) == [] { return None; }
      id := Some(staked[f][0]);
      staked := staked[f := staked[f][1..]];
    }

    method ApplyList(f: Wallet, id: Id)
      modifies this`listed, this`cursor
      ensures View() == Offered(old(View()), id, f)
      ensures var all := old(listed) + [Listing(id, f, false)];
              && listed == (if |all| <= 6000 then all else all[|all| - 3000..])
              && cursor == if |all| <= 6000 then old(cursor) else 0
    {
      listed := listed + [Listing(id, f, false)];
      if |listed| > LISTING_LIMIT {
        listed := listed[|listed| - LISTING_KEEP..];
        cursor := 0;
      }
    }

    method Buy(f: Wallet) returns (id: Option<Id>)
      modifies this`listed, this`cursor
      ensures var s := old(View()); var c := SkipTaken(s.listed, s.cursor); var r :=
          Pick(s.listed, c, BUY_WINDOW, f, false);
              match r
              case None => id == None && View() == s.(cursor := c)
              case Some(k) =>
                k < |s.listed| && id == Some(s.listed[k].id) && View() == s.(cursor := c, listed := Marked(s.listed, k))
      ensures id.Some? ==> exists k :: 0 <= k < |listed| && id.value == listed[k].id && listed[k].seller != f
                                       && !old(listed)[k].taken && listed == old(listed)[k := listed[k]]
                                       && listed[k].taken
      ensures id.None? ==> forall k :: cursor <= k < cursor + 400 && k < |listed| ==>
          listed[k].taken || listed[k].seller == f
    {
      while cursor < |listed| && listed[cursor].taken
        invariant listed == old(listed)
        invariant SkipTaken(listed, cursor) == SkipTaken(old(listed), old(cursor))
        decreases |listed| - cursor
      {
        cursor := cursor + 1;
      }
      PickIsTheFirstWanted(listed, cursor, BUY_WINDOW, f, false);
      var i: nat, n: nat := cursor, 0;
      while i < |listed| && n < BUY_WINDOW
        invariant n <= BUY_WINDOW
        invariant Pick(listed, i, BUY_WINDOW - n, f, false) == Pick(old(listed), cursor, BUY_WINDOW, f, false)
        invariant listed == old(listed) && cursor == SkipTaken(old(listed), old(cursor))
        decreases BUY_WINDOW - n
      {
        if !listed[i].taken && listed[i].seller != f {
          id := Some(listed[i].id);
          listed := listed[i := listed[i].(taken := true)];
          return;
        }
        i, n := i + 1, n + 1;
      }
      return None;
    }

    method Cancel(f: Wallet) returns (id: Option<Id>)
      modifies this`listed
      ensures var s := old(View()); var r := Pick(s.listed, 0, CANCEL_WINDOW, f, true);
              match r
              case None => id == None && View() == s
              case Some(k) =>
                k < |s.listed| && id == Some(s.listed[k].id) && View() == s.(listed := Marked(s.listed, k))
      ensures id.None? ==> forall k :: 0 <= k < 200 && k < |listed| ==> listed[k].taken || listed[k].seller != f
    {
      PickIsTheFirstWanted(listed, 0, CANCEL_WINDOW, f, true);
      var i := 0;
      while i < |listed| && i < CANCEL_WINDOW
        invariant i <= CANCEL_WINDOW
        invariant Pick(listed, i, CANCEL_WINDOW - i, f, true) == Pick(old(listed), 0, CANCEL_WINDOW, f, true)
        invariant listed == old(listed)
      {
        if !listed[i].taken && listed[i].seller == f {
          id := Some(listed[i].id);
          listed := listed[i := listed[i].(taken := true)];
          return;
        }
        i := i + 1;
      }
      return None;
    }
  }
}
