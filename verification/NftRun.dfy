/** The shelf, the transactions built from it and the chain together, in every interleaving of building,
    mining and applying. A transaction that is dropped or lost is one that is never applied; it may
    still be mined later. */
module NftRun {
  import opened Wrappers
  import opened Nonces
  import opened NftShelf
  import Credits

  type Fate = Credits.Fate

  datatype Op = Mint | Transfer(to: Wallet) | List | Stake | Buy | Cancel | Unstake

  /** Concerns the ids from `id` on; only a mint concerns several. */
  datatype Tx = Tx(op: Op, w: Wallet, id: Id, count: nat, fate: Fate, applied: bool)

  datatype Holder = Held(w: Wallet) | Escrow(seller: Wallet) | StakedBy(w: Wallet)

  type Chain = map<Id, Holder>

  datatype World = World(shelf: Shelf, chain: Chain, txs: seq<Tx>)

  datatype Event =
    | BuildMint(f: Wallet, n: nat)
    | FromOwned(f: Wallet, op: Op)
    | FromStaked(f: Wallet)
    | BuildBuy(f: Wallet)
    | BuildCancel(f: Wallet)
    | Mined(i: nat, succeeds: bool)
    | Apply(i: nat)

  predicate Covers(t: Tx, id: Id) {
    t.id <= id < t.id + t.count
  }

  /** What the contract asks for before it moves a token. */
  predicate Accepts(chain: Chain, t: Tx, id: Id) {
    match t.op
    case Mint => id !in chain
    case Transfer(_) => id in chain && chain[id] == Held(t.w)
    case List => id in chain && chain[id] == Held(t.w)
    case Stake => id in chain && chain[id] == Held(t.w)
    case Buy => id in chain && chain[id].Escrow? && chain[id].seller != t.w
    case Cancel => id in chain && chain[id] == Escrow(t.w)
    case Unstake => id in chain && chain[id] == StakedBy(t.w)
  }

  function Holds(t: Tx): Holder {
    match t.op
    case List => Escrow(t.w)
    case Stake => StakedBy(t.w)
    case Transfer(to) => Held(to)
    case _ => Held(t.w)
  }

  function Executed(chain: Chain, t: Tx): Chain {
    chain + map id | id in Range(t.id, t.count) :: Holds(t)
  }

  predicate Accepted(chain: Chain, t: Tx) {
    forall id: Id | id in Range(t.id, t.count) :: Accepts(chain, t, id)
  }

  predicate Enabled(w: World, e: Event) {
    match e
    case FromOwned(f, op) => Queue(w.shelf.owned, f) != [] && (op.Transfer? || op.List? || op.Stake?)
    case FromStaked(f) => Queue(w.shelf.staked, f) != []
    case Mined(i, succeeds) =>
      i < |w.txs| && w.txs[i].fate == Credits.Unmined && (succeeds ==> Accepted(w.chain, w.txs[i]))
    case Apply(i) => i < |w.txs| && w.txs[i].fate == Credits.Succeeded && !w.txs[i].applied
    case _ => true
  }

  function Sent(w: World, s: Shelf, op: Op, f: Wallet, id: Id, n: nat): World {
    w.(shelf := s, txs := w.txs + [Tx(op, f, id, n, Credits.Unmined, false)])
  }

  /** The deferred effect of a transaction that went through. */
  function Recorded(s: Shelf, t: Tx): Shelf {
    match t.op
    case Mint => s.(owned := Pushed(s.owned, t.w, Range(t.id, t.count)))
    case List => Offered(s, t.id, t.w)
    case Stake => s.(staked := Pushed(s.staked, t.w, [t.id]))
    case _ => s
  }

  function Chosen(s: Shelf, f: Wallet, own: bool): Option<nat> {
    if own then Pick(s.listed, 0, CANCEL_WINDOW, f, true)
    else Pick(s.listed, SkipTaken(s.listed, s.cursor), BUY_WINDOW, f, false)
  }

  function Moved(s: Shelf, own: bool): Shelf {
    if own then s else s.(cursor := SkipTaken(s.listed, s.cursor))
  }

  function TakeOffer(w: World, f: Wallet, own: bool): World {
    var s, r := Moved(w.shelf, own), Chosen(w.shelf, f, own);
    if r.Some? && r.value < |s.listed| then
      Sent(w, s.(listed := Marked(s.listed, r.value)), if own then Cancel else Buy, f, s.listed[r.value].id, 1)
    else w.(shelf := s)
  }

  function Next(w: World, e: Event): World {
    if !Enabled(w, e) then w
    else
      var s := w.shelf;
      match e
      case BuildMint(f, n) => Sent(w, s.(next := s.next + n), Mint, f, s.next, n)
      case FromOwned(f, op) => Sent(w, s.(owned := Shifted(s.owned, f)), op, f, s.owned[f][0], 1)
      case FromStaked(f) => Sent(w, s.(staked := Shifted(s.staked, f)), Unstake, f, s.staked[f][0], 1)
      case BuildBuy(f) => TakeOffer(w, f, false)
      case BuildCancel(f) => TakeOffer(w, f, true)
      case Mined(i, succeeds) =>
        var t := w.txs[i];
        w.(chain := if succeeds then Executed(w.chain, t) else w.chain,
           txs := w.txs[i := t.(fate := if succeeds then Credits.Succeeded else Credits.Reverted)])
      case Apply(i) =>
        w.(shelf := Recorded(s, w.txs[i]), txs := w.txs[i := w.txs[i].(applied := true)])
  }

  function Run(w: World, events: seq<Event>): World {
    if events == [] then w else Next(Run(w, events[..|events| - 1]), events[|events| - 1])
  }

  function Beginning(first: Id): World {
    World(Shelf(first, map[], map[], [], 0), map[], [])
  }

  // ---- where an id can be ----

  /** A position of a queue, an offer that is not taken, or a transaction that still has something to do. */
  datatype Place = InOwned(f: Wallet, p: nat) | InStaked(f: Wallet, p: nat) | InOffer(k: nat) | InTx(i: nat)

  predicate Open(t: Tx) {
    t.fate == Credits.Unmined || (t.fate == Credits.Succeeded && !t.applied
        && (t.op.Mint? || t.op.List? || t.op.Stake?))
  }

  predicate At(w: World, place: Place, id: Id) {
    match place
    case InOwned(f, p) => p < |Queue(w.shelf.owned, f)| && Queue(w.shelf.owned, f)[p] == id
    case InStaked(f, p) => p < |Queue(w.shelf.staked, f)| && Queue(w.shelf.staked, f)[p] == id
    case InOffer(k) => k < |w.shelf.listed| && w.shelf.listed[k].id == id && !w.shelf.listed[k].taken
    case InTx(i) => i < |w.txs| && Open(w.txs[i]) && Covers(w.txs[i], id)
  }

  function Rank(op: Op): nat {
    match op
    case Mint => 0
    case Transfer(_) => 1
    case List => 1
    case Stake => 1
    case _ => 2
  }

  function PlaceRank(w: World, place: Place): nat {
    match place
    case InOwned(_, _) => 0
    case InStaked(_, _) => 1
    case InOffer(_) => 1
    case InTx(i) => if i < |w.txs| then Rank(w.txs[i].op) else 0
  }

  /** What the chain must say about an id that is at a place. */
  predicate Backed(w: World, place: Place, id: Id)
    requires At(w, place, id)
  {
    match place
    case InOwned(f, _) => id in w.chain && w.chain[id] == Held(f)
    case InStaked(f, _) => id in w.chain && w.chain[id] == StakedBy(f)
    case InOffer(k) => id in w.chain && w.chain[id] == Escrow(w.shelf.listed[k].seller)
    case InTx(i) =>
      if w.txs[i].fate == Credits.Unmined then Accepts(w.chain, w.txs[i], id)
      else id in w.chain && w.chain[id] == Holds(w.txs[i])
  }

  ghost predicate Fresh(w: World) {
    && (forall i :: 0 <= i < |w.txs| ==> w.txs[i].id + w.txs[i].count <= w.shelf.next)
    && (forall i :: 0 <= i < |w.txs| && !w.txs[i].op.Mint? ==> w.txs[i].count == 1)
    && (forall id :: id in w.chain ==> id < w.shelf.next)
  }

  ghost predicate OnePlace(w: World) {
    forall p, q, id: Id :: At(w, p, id) && At(w, q, id) ==> p == q
  }

  ghost predicate AllBacked(w: World) {
    forall p, id: Id :: At(w, p, id) ==> Backed(w, p, id)
  }

  /** An id is minted, then moved by its owner, then taken out, each once; and it sits where no later
      one of these has been built. */
  ghost predicate Ranked(w: World) {
    && (forall i, j, id: Id :: 0 <= i < j < |w.txs| && Covers(w.txs[i], id) && Covers(w.txs[j], id) ==>
          Rank(w.txs[i].op) < Rank(w.txs[j].op))
    && (forall p, j, id: Id :: 0 <= j < |w.txs| && At(w, p, id) && Covers(w.txs[j], id) ==>
          Rank(w.txs[j].op) <= PlaceRank(w, p))
  }

  ghost predicate CursorPassedTaken(s: Shelf) {
    s.cursor <= |s.listed| && forall k :: 0 <= k < s.cursor ==> s.listed[k].taken
  }

  ghost predicate Inv(w: World) {
    Fresh(w) && OnePlace(w) && AllBacked(w) && Ranked(w) && CursorPassedTaken(w.shelf)
  }

  /** A step that moves ids from place to place. It is enough to say where each one was. */
  lemma CarriedKeeps(w: World, u: World, was: Place -> Place)
    requires OnePlace(w)
    requires forall p, id: Id :: At(u, p, id) ==> At(w, was(p), id)
    requires forall p, q, id: Id :: At(u, p, id) && At(u, q, id) && was(p) == was(q) ==> p == q
    ensures OnePlace(u)
  {
    hide At;
    forall p, q, id: Id | At(u, p, id) && At(u, q, id) ensures p == q {
      assert At(w, was(p), id) && At(w, was(q), id);
    }
  }

  /** Likewise for the ranks, when a new transaction is at the place it took its id from. */
  lemma SentKeepsRanks(w: World, u: World, t: Tx, was: Place -> Place)
    requires Ranked(w) && u.txs == w.txs + [t] && OnePlace(u)
    requires Open(t)
    requires forall p, id: Id :: At(u, p, id) ==>
               p == InTx(|w.txs|) || (At(w, was(p), id) && PlaceRank(w, was(p)) <= PlaceRank(u, p))
    requires forall id: Id, j :: Covers(t, id) && 0 <= j < |w.txs| && Covers(w.txs[j], id) ==>
        Rank(w.txs[j].op) < Rank(t.op)
    ensures Ranked(u)
  {
    var n := |w.txs|;
    forall p, j, id: Id | 0 <= j < |u.txs| && At(u, p, id) && Covers(u.txs[j], id)
      ensures Rank(u.txs[j].op) <= PlaceRank(u, p)
    {
      if j == n {
        assert At(u, InTx(n), id);
      } else if p != InTx(n) {
        assert At(w, was(p), id);
      }
    }
  }

  lemma BuildMintKeeps(w: World, f: Wallet, n: nat)
    requires Inv(w)
    ensures Inv(Next(w, BuildMint(f, n)))
  {
    var u, last := Next(w, BuildMint(f, n)), InTx(|w.txs|);
    forall p, id: Id | At(u, p, id)
      ensures Backed(u, p, id)
      ensures p != last ==> At(w, p, id) && id < w.shelf.next
    {
      if p != last { assert At(w, p, id) && Backed(w, p, id); }
    }
    assert OnePlace(u);
    SentKeepsRanks(w, u, u.txs[|w.txs|], p => p);
  }

  /** Where an id was before the head of a queue of owned ids went into a transaction. */
  function BeforeOwned(w: World, f: Wallet, p: Place): Place {
    if p == InTx(|w.txs|) then InOwned(f, 0) else if p.InOwned? && p.f == f then InOwned(f, p.p + 1) else p
  }

  lemma FromOwnedCarries(w: World, f: Wallet, op: Op, p: Place, id: Id)
    requires AllBacked(w) && Enabled(w, FromOwned(f, op)) && At(Next(w, FromOwned(f, op)), p, id)
    ensures At(w, BeforeOwned(w, f, p), id) && Backed(Next(w, FromOwned(f, op)), p, id)
  {
    assert At(w, BeforeOwned(w, f, p), id);
    assert Backed(w, BeforeOwned(w, f, p), id);
    hide AllBacked;
  }

  lemma FromOwnedKeeps(w: World, f: Wallet, op: Op)
    requires Inv(w) && Enabled(w, FromOwned(f, op))
    ensures Inv(Next(w, FromOwned(f, op)))
  {
    var u, id0 := Next(w, FromOwned(f, op)), Queue(w.shelf.owned, f)[0];
    assert At(w, InOwned(f, 0), id0) && Backed(w, InOwned(f, 0), id0);
    var was := p => BeforeOwned(w, f, p);
    assert Fresh(u) && CursorPassedTaken(u.shelf);
    hide Fresh;
    hide Backed;
    forall p, id: Id | At(u, p, id) ensures At(w, was(p), id) && Backed(u, p, id) {
      FromOwnedCarries(w, f, op, p, id);
    }
    CarriedKeeps(w, u, was);
    SentKeepsRanks(w, u, u.txs[|w.txs|], was);
  }

  /** ... or of a queue of staked ones. */
  function BeforeStaked(w: World, f: Wallet, p: Place): Place {
    if p == InTx(|w.txs|) then InStaked(f, 0) else if p.InStaked? && p.f == f then InStaked(f, p.p + 1) else p
  }

  lemma FromStakedCarries(w: World, f: Wallet, p: Place, id: Id)
    requires AllBacked(w) && Enabled(w, FromStaked(f)) && At(Next(w, FromStaked(f)), p, id)
    ensures At(w, BeforeStaked(w, f, p), id) && Backed(Next(w, FromStaked(f)), p, id)
  {
    assert At(w, BeforeStaked(w, f, p), id);
    assert Backed(w, BeforeStaked(w, f, p), id);
    hide AllBacked;
  }

  lemma FromStakedKeeps(w: World, f: Wallet)
    requires Inv(w) && Enabled(w, FromStaked(f))
    ensures Inv(Next(w, FromStaked(f)))
  {
    var u, id0 := Next(w, FromStaked(f)), Queue(w.shelf.staked, f)[0];
    assert At(w, InStaked(f, 0), id0) && Backed(w, InStaked(f, 0), id0);
    var was := p => BeforeStaked(w, f, p);
    assert Fresh(u) && CursorPassedTaken(u.shelf);
    hide Fresh;
    hide Backed;
    forall p, id: Id | At(u, p, id) ensures At(w, was(p), id) && Backed(u, p, id) {
      FromStakedCarries(w, f, p, id);
    }
    CarriedKeeps(w, u, was);
    SentKeepsRanks(w, u, u.txs[|w.txs|], was);
  }

  /** Offer `k` is taken by a purchase, or by a cancellation of its own seller. */
  function Taken(w: World, k: nat, f: Wallet, own: bool): World
    requires k < |w.shelf.listed|
  {
    var s := Moved(w.shelf, own);
    Sent(w, s.(listed := Marked(s.listed, k)), if own then Cancel else Buy, f, s.listed[k].id, 1)
  }

  lemma TakenCarries(w: World, k: nat, f: Wallet, own: bool, p: Place, id: Id)
    requires AllBacked(w) && k < |w.shelf.listed| && Wanted(w.shelf.listed[k], f, own) && At(Taken(w, k, f, own), p, id)
    ensures var q := if p == InTx(|w.txs|) then InOffer(k) else p;
            At(w, q, id) && Backed(Taken(w, k, f, own), p, id)
  {
    var q := if p == InTx(|w.txs|) then InOffer(k) else p;
    assert At(w, q, id);
    assert Backed(w, q, id);
  }

  lemma TakenKeeps(w: World, k: nat, f: Wallet, own: bool)
    requires Inv(w) && k < |w.shelf.listed| && Wanted(w.shelf.listed[k], f, own)
    requires CursorPassedTaken(Moved(w.shelf, own))
    ensures Inv(Taken(w, k, f, own))
  {
    var u, last, id0 := Taken(w, k, f, own), InTx(|w.txs|), w.shelf.listed[k].id;
    assert At(w, InOffer(k), id0) && Backed(w, InOffer(k), id0);
    var was := (p: Place) => if p == last then InOffer(k) else p;
    assert Fresh(u) && CursorPassedTaken(u.shelf);
    hide Fresh;
    hide Backed;
    forall p, id: Id | At(u, p, id) ensures At(w, was(p), id) && Backed(u, p, id) {
      TakenCarries(w, k, f, own, p, id);
    }
    assert forall p, q, id: Id :: At(u, p, id) && At(u, q, id) && was(p) == was(q) ==> p == q;
    CarriedKeeps(w, u, was);
    SentKeepsRanks(w, u, u.txs[|w.txs|], was);
  }

  lemma CursorOnlyKeeps(w: World, c: nat)
    requires Inv(w) && CursorPassedTaken(w.shelf.(cursor := c))
    ensures Inv(w.(shelf := w.shelf.(cursor := c)))
  {
    var u := w.(shelf := w.shelf.(cursor := c));
    forall p, id: Id | At(u, p, id) ensures At(w, p, id) && Backed(u, p, id) { assert Backed(w, p, id); }
  }

  lemma TakeOfferKeeps(w: World, f: Wallet, own: bool)
    requires Inv(w)
    ensures Inv(TakeOffer(w, f, own))
  {
    var u, last, s, r := TakeOffer(w, f, own), InTx(|w.txs|), Moved(w.shelf, own), Chosen(w.shelf, f, own);
    SkipTakenStops(w.shelf.listed, w.shelf.cursor);
    PickIsTheFirstWanted(s.listed, if own then 0 else s.cursor, if own then CANCEL_WINDOW else BUY_WINDOW, f, own);
    assert s.listed == w.shelf.listed && CursorPassedTaken(s);
    if r.None? {
      assert u == w.(shelf := w.shelf.(cursor := s.cursor));
      CursorOnlyKeeps(w, s.cursor);
    } else {
      hide Inv;
      TakenKeeps(w, r.value, f, own);
    }
  }

  lemma MinedCarries(w: World, i: nat, succeeds: bool, p: Place, id: Id)
    requires AllBacked(w) && OnePlace(w) && Enabled(w, Mined(i, succeeds)) && At(Next(w, Mined(i, succeeds)), p, id)
    ensures At(w, p, id) && Backed(Next(w, Mined(i, succeeds)), p, id)
  {
    assert At(w, p, id);
    assert Backed(w, p, id);
    hide AllBacked;
    if Covers(w.txs[i], id) { assert At(w, InTx(i), id); }
  }

  lemma FatesKeepRanks(w: World, u: World)
    requires Ranked(w) && |u.txs| == |w.txs|
    requires forall j :: 0 <= j < |w.txs| ==>
             u.txs[j].op == w.txs[j].op && u.txs[j].id == w.txs[j].id && u.txs[j].count == w.txs[j].count
    requires forall p, id: Id :: At(u, p, id) ==> At(w, p, id)
    ensures Ranked(u)
  {
    hide At;
    assert forall j, id: Id :: 0 <= j < |w.txs| ==> Covers(u.txs[j], id) == Covers(w.txs[j], id);
    assert forall p :: PlaceRank(u, p) == PlaceRank(w, p);
  }

  lemma MinedKeeps(w: World, i: nat, succeeds: bool)
    requires Inv(w) && Enabled(w, Mined(i, succeeds))
    ensures Inv(Next(w, Mined(i, succeeds)))
  {
    hide Ranked;
    var u := Next(w, Mined(i, succeeds));
    assert Fresh(u) && CursorPassedTaken(u.shelf);
    hide Fresh;
    hide Backed;
    forall p, id: Id | At(u, p, id) ensures At(w, p, id) && Backed(u, p, id) {
      MinedCarries(w, i, succeeds, p, id);
    }
    hide At;
    FatesKeepRanks(w, u);
  }

  function Undone(w: World, i: nat, p: Place): Place
    requires i < |w.txs|
  {
    var t := w.txs[i];
    if p.InOwned? && t.op.Mint? && p.f == t.w then
      var q := Queue(w.shelf.owned, t.w);
      var shift := if |q| + t.count > QCAP then 1 else 0;
      if p.p + shift < |q| then InOwned(p.f, p.p + shift) else InTx(i)
    else if p.InStaked? && t.op.Stake? && p.f == t.w then
      var q := Queue(w.shelf.staked, t.w);
      var shift := if |q| + 1 > QCAP then 1 else 0;
      if p.p + shift < |q| then InStaked(p.f, p.p + shift) else InTx(i)
    else if p.InOffer? && t.op.List? then
      var shift := if |w.shelf.listed| + 1 > LISTING_LIMIT then |w.shelf.listed| + 1 - LISTING_KEEP else 0;
      if p.k + shift < |w.shelf.listed| then InOffer(p.k + shift) else InTx(i)
    else p
  }

  lemma ApplyAt(w: World, i: nat, p: Place, id: Id)
    requires Enabled(w, Apply(i)) && (!w.txs[i].op.Mint? ==> w.txs[i].count == 1)
    requires At(Next(w, Apply(i)), p, id)
    ensures At(w, Undone(w, i, p), id)
  {
    var u, t := Next(w, Apply(i)), w.txs[i];
    assert Open(t) || u.shelf == w.shelf;
    assert u.txs[i].applied && u.txs[i].fate == Credits.Succeeded && u.shelf == Recorded(w.shelf, t);
    if p.InTx? {
      assert forall j :: 0 <= j < |w.txs| && j != i ==> u.txs[j] == w.txs[j];
    } else if p.InOwned? && t.op.Mint? && p.f == t.w {
      PushedFrom(w.shelf.owned, t.w, Range(t.id, t.count), p.p);
    } else if p.InStaked? && t.op.Stake? && p.f == t.w {
      PushedFrom(w.shelf.staked, t.w, [t.id], p.p);
    } else if p.InOffer? && t.op.List? {
      OfferedFrom(w.shelf, t.id, t.w, p.k);
    }
    hide Next;
    hide Enabled;
    hide Capped;
  }

  lemma ApplyCarries(w: World, i: nat, p: Place, id: Id)
    requires AllBacked(w) && Fresh(w) && Enabled(w, Apply(i)) && At(Next(w, Apply(i)), p, id)
    ensures var u := Next(w, Apply(i));
            At(w, Undone(w, i, p), id) && Backed(u, p, id) && PlaceRank(w, Undone(w, i, p)) == PlaceRank(u, p)
  {
    ApplyAt(w, i, p, id);
    assert Backed(w, Undone(w, i, p), id);
    hide AllBacked;
    hide Fresh;
  }

  lemma ApplyParts(w: World, i: nat, p: Place, q: Place, id: Id)
    requires Enabled(w, Apply(i)) && Undone(w, i, p) == Undone(w, i, q)
    requires At(Next(w, Apply(i)), p, id) && At(Next(w, Apply(i)), q, id)
    requires !w.txs[i].op.Mint? ==> w.txs[i].count == 1
    ensures p == q
  {
    var u, t := Next(w, Apply(i)), w.txs[i];
    assert u.shelf == Recorded(w.shelf, t);
    assert u.txs[i].applied && u.txs[i].fate == Credits.Succeeded;
    hide Next;
    hide Enabled;
  }

  lemma ApplyKeeps(w: World, i: nat)
    requires Inv(w) && Enabled(w, Apply(i))
    ensures Inv(Next(w, Apply(i)))
  {
    var u := Next(w, Apply(i));
    assert Fresh(u) && CursorPassedTaken(u.shelf);
    hide Enabled;
    hide Fresh;
    forall p, id: Id | At(u, p, id)
      ensures At(w, Undone(w, i, p), id) && Backed(u, p, id) && PlaceRank(w, Undone(w, i, p)) == PlaceRank(u, p)
    {
      ApplyCarries(w, i, p, id);
    }
    forall p, q, id: Id | At(u, p, id) && At(u, q, id) && Undone(w, i, p) == Undone(w, i, q) ensures p == q {
      ApplyParts(w, i, p, q, id);
    }
    CarriedKeeps(w, u, p => Undone(w, i, p));
    hide OnePlace;
    hide AllBacked;
    assert forall j :: 0 <= j < |w.txs| ==>
             u.txs[j].op == w.txs[j].op && u.txs[j].id == w.txs[j].id && u.txs[j].count == w.txs[j].count;
    hide Next;
    hide At;
    hide Undone;
  }

  lemma NextKeeps(w: World, e: Event)
    requires Inv(w)
    ensures Inv(Next(w, e))
  {
    hide Inv;
    if Enabled(w, e) {
      match e
      case BuildMint(f, n) => BuildMintKeeps(w, f, n);
      case FromOwned(f, op) => FromOwnedKeeps(w, f, op);
      case FromStaked(f) => FromStakedKeeps(w, f);
      case BuildBuy(f) => TakeOfferKeeps(w, f, false);
      case BuildCancel(f) => TakeOfferKeeps(w, f, true);
      case Mined(i, succeeds) => MinedKeeps(w, i, succeeds);
      case Apply(i) => ApplyKeeps(w, i);
    }
  }

  lemma {:induction false} EveryRunKeepsInv(first: Id, events: seq<Event>)
    ensures Inv(Run(Beginning(first), events))
  {
    if events != [] {
      EveryRunKeepsInv(first, events[..|events| - 1]);
      NextKeeps(Run(Beginning(first), events[..|events| - 1]), events[|events| - 1]);
    }
  }

  // ---- what one event does ----

  /** What is queued is used in order, and nothing is built but from it: a transfer, an offer or a stake takes
      the first owned id of its wallet, an unstaking the first staked one, a mint fresh ids. */
  lemma BuildingTakesTheFirst(w: World, f: Wallet, op: Op, n: nat)
    ensures var u := Next(w, BuildMint(f, n));
            && u.txs == w.txs + [Tx(Mint, f, w.shelf.next, n, Credits.Unmined, false)]
            && u.shelf == w.shelf.(next := w.shelf.next + n)
    ensures Queue(w.shelf.owned, f) != [] && (op.Transfer? || op.List? || op.Stake?) ==>
              var u := Next(w, FromOwned(f, op)); var id := Queue(w.shelf.owned, f)[0];
              && u.txs == w.txs + [Tx(op, f, id, 1, Credits.Unmined, false)]
              && Queue(w.shelf.owned, f) == [id] + Queue(u.shelf.owned, f)
              && forall g :: g != f ==> Queue(u.shelf.owned, g) == Queue(w.shelf.owned, g)
    ensures Queue(w.shelf.staked, f) != [] ==>
              var u := Next(w, FromStaked(f)); var id := Queue(w.shelf.staked, f)[0];
              && u.txs == w.txs + [Tx(Unstake, f, id, 1, Credits.Unmined, false)]
              && Queue(w.shelf.staked, f) == [id] + Queue(u.shelf.staked, f)
              && forall g :: g != f ==> Queue(u.shelf.staked, g) == Queue(w.shelf.staked, g)
  {}

  /** A transaction that goes through gives its tokens to whom it says, and touches no other; one that does
      not changes no token. */
  lemma MiningMoves(w: World, i: nat, succeeds: bool, id: Id)
    requires Enabled(w, Mined(i, succeeds))
    ensures var u, t := Next(w, Mined(i, succeeds)), w.txs[i];
            && (!succeeds || !Covers(t, id) ==>
                  (id in u.chain <==> id in w.chain) && (id in w.chain ==> u.chain[id] == w.chain[id]))
            && (succeeds && Covers(t, id) ==>
                  && id in u.chain
                  && (t.op.List? ==> u.chain[id] == Escrow(t.w))
                  && (t.op.Stake? ==> u.chain[id] == StakedBy(t.w))
                  && (t.op.Transfer? ==> u.chain[id] == Held(t.op.to))
                  && (t.op.Mint? || t.op.Buy? || t.op.Cancel? || t.op.Unstake? ==> u.chain[id] == Held(t.w)))
            && u.shelf == w.shelf
  {}

  /** What went through is recorded in full: minted ids are queued for their wallet, in order, a staked id for
      its, and an offer is appended; all that is ever given up is the head of a queue that grows past 300
      and the oldest offers once there are more than 6000. */
  lemma ApplyingRecords(w: World, i: nat, f: Wallet)
    requires Enabled(w, Apply(i))
    ensures var s, t, u := w.shelf, w.txs[i], Next(w, Apply(i)).shelf;
            && (if t.op.Mint? && f == t.w then
                  var q := Queue(s.owned, f) + Range(t.id, t.count);
                  Queue(u.owned, f) == if |q| <= 300 then q else q[1..]
                else Queue(u.owned, f) == Queue(s.owned, f))
            && (if t.op.Stake? && f == t.w then
                  var q := Queue(s.staked, f) + [t.id];
                  Queue(u.staked, f) == if |q| <= 300 then q else q[1..]
                else Queue(u.staked, f) == Queue(s.staked, f))
            && (if t.op.List? then
                  var all := s.listed + [Listing(t.id, t.w, false)];
                  && u.listed == (if |all| <= 6000 then all else all[|all| - 3000..])
                  && u.cursor == if |all| <= 6000 then s.cursor else 0
                else u.listed == s.listed && u.cursor == s.cursor)
  {}

  // ---- what it means for the harness ----

  /** No id is in two stages at once: two positions in queues, untaken offers and transactions that
      are still to be decided or applied never hold the same id. */
  lemma NoIdInTwoStages(w: World, first: Id, events: seq<Event>, p: Place, q: Place, id: Id)
    requires w == Run(Beginning(first), events) && At(w, p, id) && At(w, q, id)
    ensures p == q
  {
    EveryRunKeepsInv(first, events);
  }

  /** A queued id belongs on chain to the wallet of its queue, or is staked by it, and an offered id is
      in escrow for its seller; and nothing that would move it is on its way. */
  lemma QueuedIsOwned(w: World, first: Id, events: seq<Event>, p: Place, id: Id)
    requires w == Run(Beginning(first), events) && At(w, p, id)
    ensures p.InOwned? ==> id in w.chain && w.chain[id] == Held(p.f)
    ensures p.InStaked? ==> id in w.chain && w.chain[id] == StakedBy(p.f)
    ensures p.InOffer? ==> id in w.chain && w.chain[id] == Escrow(w.shelf.listed[p.k].seller)
    ensures !p.InTx? ==> forall i :: 0 <= i < |w.txs| && Covers(w.txs[i], id) ==> w.txs[i].fate != Credits.Unmined
  {
    EveryRunKeepsInv(first, events);
    assert Backed(w, p, id);
    forall i | 0 <= i < |w.txs| && Covers(w.txs[i], id) && w.txs[i].fate == Credits.Unmined ensures p == InTx(i) {
      assert At(w, InTx(i), id);
    }
  }

  /** Whenever a transaction executes, however late, the contract finds the token where the harness
      believed it to be: nothing reverts for the state of a token. */
  lemma EveryMoveIsAccepted(w: World, first: Id, events: seq<Event>, i: nat)
    requires w == Run(Beginning(first), events) && i < |w.txs| && w.txs[i].fate == Credits.Unmined
    ensures Accepted(w.chain, w.txs[i])
  {
    EveryRunKeepsInv(first, events);
    forall id: Id | id in Range(w.txs[i].id, w.txs[i].count) ensures Accepts(w.chain, w.txs[i], id) {
      assert At(w, InTx(i), id);
      assert Backed(w, InTx(i), id);
    }
  }

  /** Each offer is taken at most once, by a purchase or a cancellation; each id leaves a queue of
      owned ids at most once; none is minted twice. */
  lemma EachStepOnce(w: World, first: Id, events: seq<Event>, i: nat, j: nat, id: Id)
    requires w == Run(Beginning(first), events)
    requires i < |w.txs| && j < |w.txs| && Covers(w.txs[i], id) && Covers(w.txs[j], id)
    requires Rank(w.txs[i].op) == Rank(w.txs[j].op)
    ensures i == j
  {
    EveryRunKeepsInv(first, events);
  }

  /** A wallet that finds nothing to buy has seen every untaken offer of others that is at most a
      window behind the first untaken one: truncating the list never hides one behind the cursor. */
  lemma NothingToBuyMeansNoneNear(w: World, first: Id, events: seq<Event>, f: Wallet, k: nat)
    requires w == Run(Beginning(first), events)
    requires Next(w, BuildBuy(f)).txs == w.txs
    requires k < |w.shelf.listed| && k < SkipTaken(w.shelf.listed, w.shelf.cursor) + 400
    ensures !Wanted(w.shelf.listed[k], f, false)
  {
    EveryRunKeepsInv(first, events);
    var s := w.shelf;
    SkipTakenStops(s.listed, s.cursor);
    PickIsTheFirstWanted(s.listed, SkipTaken(s.listed, s.cursor), BUY_WINDOW, f, false);
    var r := Chosen(s, f, false);
    assert r.Some? ==> |Next(w, BuildBuy(f)).txs| == |w.txs| + 1;
  }
}
