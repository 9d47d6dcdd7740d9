/** The load harness and the chain together, in every interleaving of building, submitting, dropping,
    mining, scanning, answering, sweeping and resyncing. What the harness runs between two awaits is
    one step. Signing is injective, so a signed transaction is known by its wallet and nonce. */
module HarnessRun {
  import opened Wrappers
  import opened Nonces
  import opened Collector
  import opened Credits
  import opened Sums

  /** `cap` is the in-flight window of a wallet, `picked` the wallet that is to send next. */
  datatype World = World(
    nonces: NonceState, tracking: Tracking, credits: Ledgers, pending: map<Hash, Op>, sending: set<Hash>,
    balances: Ledgers, minedNonces: map<Wallet, nat>, txs: map<Hash, Tx>, cap: nat, picked: Option<Wallet>)

  datatype Event =
    | Pick(w: Wallet)
    | Fire(w: Wallet, op: Op)
    | Accepted(h: Hash, submitMs: int, now: int)
    | Dropped(h: Hash, read: Option<nat>)
    | Failed(h: Hash)
    | Mine(h: Hash, succeeds: bool)
    | Block(hashes: seq<Hash>)
    | Receipt(i: nat, status: Option<bool>)
    | SweepTurn(order: seq<Hash>, now: int)
    | Resynced(w: Wallet, count: nat)

  /** What can happen: sending only by a wallet that was picked while its window had room, replies only to
      what is being sent, execution once and in nonce order, blocks with what was executed, receipts that
      tell the truth. Nothing is said about when, nor about what a node answers when asked for a count. */
  predicate Enabled(w: World, e: Event) {
    match e
    case Pick(wallet) => CanSend(w.nonces, wallet, w.cap)
    case Fire(wallet, op) =>
      w.picked == Some(wallet) && (op.Withdraw? ==> At(w.credits, (op.l, wallet)) >= WithdrawAmount(op.l))
    case Accepted(h, submitMs, now) => h in w.sending && (submitMs != 0 || now >= 0)
    case Dropped(h, _) => h in w.sending
    case Failed(h) => h in w.sending
    case Mine(h, succeeds) =>
      && h in w.txs && w.txs[h].fate == Unmined && h.nonce == Get(w.minedNonces, h.wallet, 0)
      && (succeeds ==> Covered(w.balances, w.txs[h].op, h.wallet))
    case Block(hashes) => forall i :: 0 <= i < |hashes| && hashes[i] in w.txs ==> w.txs[hashes[i]].fate != Unmined
    case Receipt(i, status) =>
      && i < |w.tracking.receipts|
      && (status.Some? ==> var h := w.tracking.receipts[i].hash;
                           h in w.txs && status.value == (w.txs[h].fate == Succeeded))
    case SweepTurn(_, _) => true
    case Resynced(_, _) => true
  }

  function Resolved(w: World, h: Hash, ok: bool): World {
    if h !in w.pending then w
    else if !ok || h !in w.txs then w.(pending := w.pending - {h})
    else w.(pending := w.pending - {h}, credits := Applied(w.credits, w.pending[h], h.wallet),
            txs := w.txs[h := w.txs[h].(applied := true)])
  }

  function Next(w: World, e: Event, timeoutMs: nat): World {
    if !Enabled(w, e) then w
    else
      match e
      case Pick(wallet) => w.(picked := Some(wallet))
      case Fire(wallet, op) =>
        var h := Hash(wallet, Get(w.nonces.next, wallet, 0));
        w.(nonces := Nonces.Apply(w.nonces, Take(wallet)), credits := Built(w.credits, op, wallet),
           sending := w.sending + {h}, txs := w.txs[h := Tx(op, Unmined, false)], picked := None)
      case Accepted(h, submitMs, now) =>
        w.(tracking := Track(w.tracking, h, submitMs, true, now, timeoutMs), sending := w.sending - {h},
           pending := if h in w.txs && w.txs[h].op.Deposit? then w.pending[h := w.txs[h].op] else w.pending)
      case Dropped(h, read) =>
        w.(sending := w.sending - {h}, nonces := Nonces.Apply(Asked(w.nonces, h.wallet, read), Settle(h.wallet)))
      case Failed(h) => w.(sending := w.sending - {h}, nonces := Nonces.Apply(w.nonces, Settle(h.wallet)))
      case Mine(h, succeeds) =>
        w.(minedNonces := w.minedNonces[h.wallet := h.nonce + 1],
           txs := w.txs[h := w.txs[h].(fate := if succeeds then Succeeded else Reverted)],
           balances := if succeeds then Executed(w.balances, w.txs[h].op, h.wallet) else w.balances)
      case Block(hashes) =>
        w.(tracking := Scan(w.tracking, hashes), nonces := SettleAll(w.nonces, Seen(w.tracking, hashes)))
      case Receipt(i, status) =>
        var (c, ok) := Answer(w.tracking, i, status);
        var u := w.(tracking := c);
        if ok.Some? then Resolved(u, w.tracking.receipts[i].hash, ok.value) else u
      case SweepTurn(order, now) =>
        w.(tracking := Sweep(w.tracking, order, now, timeoutMs),
           pending := w.pending - Lost(w.tracking, order, now, timeoutMs),
           nonces := SettleAll(w.nonces, GivenUp(w.tracking, order, now, timeoutMs)))
      case Resynced(wallet, count) => w.(nonces := Nonces.Apply(w.nonces, Resync(wallet, count)))
  }

  /** A refused nonce: the node is asked for its count, and may not answer. */
  function Asked(s: NonceState, wallet: Wallet, read: Option<nat>): NonceState {
    if read.Some? then Nonces.Apply(s, Resync(wallet, read.value)) else s
  }

  /** One settling for each of the transactions. */
  function SettleAll(s: NonceState, hashes: seq<Hash>): NonceState {
    if hashes == [] then s
    else Nonces.Apply(SettleAll(s, hashes[..|hashes| - 1]), Settle(hashes[|hashes| - 1].wallet))
  }

  function Run(w: World, events: seq<Event>, timeoutMs: nat): World {
    if events == [] then w else Next(Run(w, events[..|events| - 1], timeoutMs), events[|events| - 1], timeoutMs)
  }

  /** What the counters were initialised to, where that did not fail; what is mined; what is held. */
  datatype Start = Start(next: map<Wallet, nat>, mined: map<Wallet, nat>, opening: Ledgers, cap: nat)

  function Beginning(start: Start): World {
    World(NonceState(start.next, map x | x in start.next ::
        0), EMPTY, map[], map[], {}, start.opening, start.mined, map[],
          start.cap, None)
  }

  // ---- the invariant ----

  /** Every signed nonce lies behind the wallet's counter. */
  ghost predicate NoncesBehind(w: World) {
    forall h :: h in w.txs ==> h.wallet in w.nonces.next && h.nonce < w.nonces.next[h.wallet]
  }

  /** What is being sent, in flight or settled is signed, and it is one of these at a time. */
  ghost predicate Stages(w: World) {
    && (forall h :: h in w.sending ==> h in w.txs && h !in w.tracking.inflight && h !in w.tracking.settled)
    && (forall h :: h in w.tracking.inflight ==> h in w.txs)
    && (forall h :: h in w.tracking.settled ==> h in w.txs)
  }

  function JobHashes(jobs: seq<Job>): set<Hash> {
    set j | j in jobs :: j.hash
  }

  /** A deferred effect belongs to a deposit, has not been applied, and will still be decided: its
      transaction is in flight or its receipt is being fetched. */
  ghost predicate PendingIsOpen(w: World) {
    forall h :: h in w.pending ==>
      && h in w.txs && w.txs[h].op == w.pending[h] && w.pending[h].Deposit? && !w.txs[h].applied
      && (h in w.tracking.inflight || h in JobHashes(w.tracking.receipts))
  }

  ghost predicate AppliedSucceeded(w: World) {
    forall h :: h in w.txs && w.txs[h].applied ==> w.txs[h].op.Deposit? && w.txs[h].fate == Succeeded
  }

  /** The books: per account, what is on chain is what was there at first, plus the local credit, plus
      what the harness still has to take out or to credit. */
  ghost predicate Balanced(w: World, opening: Ledgers) {
    forall a :: && At(w.credits, a) >= 0
                && At(w.balances, a) == At(opening, a) + At(w.credits, a) + Sum(Owed(w.txs, a))
  }

  /** An effect is applied only after its transaction has left the in-flight map. */
  ghost predicate AppliedSettled(w: World) {
    forall h :: h in w.txs && w.txs[h].applied ==> h in w.tracking.settled
  }

  ghost predicate Inv(w: World, opening: Ledgers, timeoutMs: nat) {
    && NoncesBehind(w) && Stages(w) && PendingIsOpen(w) && AppliedSucceeded(w) && AppliedSettled(w)
    && Balanced(w, opening) && Collector.Inv(w.tracking, timeoutMs)
  }

  // ---- what a turn of the collector moves ----

  /** Entries leave the in-flight map only for the settled ones, and nothing leaves those. */
  ghost predicate Moved(c: Tracking, d: Tracking) {
    && (forall h :: h in d.inflight ==> h in c.inflight)
    && (forall h :: h in c.settled ==> h in d.settled)
    && (forall h :: h in c.inflight ==> h in d.inflight || h in d.settled)
    && (forall h :: h in d.settled ==> h in c.settled || h in c.inflight)
  }

  lemma {:induction false} ScanMoves(c: Tracking, hashes: seq<Hash>)
    ensures Moved(c, Scan(c, hashes))
    ensures forall h :: h in JobHashes(c.receipts) || (h in c.inflight && h !in Scan(c, hashes).inflight) ==>
              h in JobHashes(Scan(c, hashes).receipts)
  {
    if hashes != [] {
      var p, h := Scan(c, hashes[..|hashes| - 1]), hashes[|hashes| - 1];
      assert Scan(c, hashes) == See(p, h);
      ScanMoves(c, hashes[..|hashes| - 1]);
      if h in p.inflight {
        var d := See(p, h);
        assert forall j :: j in d.receipts <==> j in p.receipts || j == Job(h, 0);
        assert d.inflight.Keys == p.inflight.Keys - {h} && d.settled.Keys == p.settled.Keys + {h};
      }
    }
  }

  lemma {:induction false} SweepMoves(c: Tracking, order: seq<Hash>, now: int, timeoutMs: nat)
    ensures Moved(c, Sweep(c, order, now, timeoutMs))
    ensures Sweep(c, order, now, timeoutMs).receipts == c.receipts
  {
    if order != [] {
      var p, h := Sweep(c, order[..|order| - 1], now, timeoutMs), order[|order| - 1];
      SweepMoves(c, order[..|order| - 1], now, timeoutMs);
      if h in p.inflight {
        var d := Miss(p, h, now, timeoutMs);
        assert d.inflight.Keys == p.inflight.Keys || d.inflight.Keys == p.inflight.Keys - {h};
        assert d.inflight.Keys != p.inflight.Keys ==> d.settled.Keys == p.settled.Keys + {h};
      }
    }
  }

  /** A job that decides nothing stays queued; the others stay queued anyway. */
  lemma AnswerMoves(c: Tracking, i: nat, status: Option<bool>)
    requires i < |c.receipts|
    ensures var (d, ok) := Answer(c, i, status);
            && d.inflight == c.inflight && d.settled == c.settled
            && JobHashes(d.receipts) >= JobHashes(c.receipts) - (if ok.Some? then {c.receipts[i].hash} else {})
  {
    var (d, ok) := Answer(c, i, status);
    var job := c.receipts[i];
    var rest := c.receipts[..i] + c.receipts[i + 1..];
    assert forall j :: j in c.receipts ==> j in rest || j == job;
    assert forall j :: j in rest ==> j in d.receipts;
    if ok.None? {
      assert Job(job.hash, job.tries + 1) in d.receipts;
    }
  }

  // ---- steps ----

  /** A fresh nonce makes a fresh hash. */
  lemma FireIsFresh(w: World, wallet: Wallet)
    requires NoncesBehind(w)
    ensures Hash(wallet, Get(w.nonces.next, wallet, 0)) !in w.txs
  {}

  /** A withdrawal leaves the credit and becomes outstanding in one step. */
  lemma FireBalances(w: World, wallet: Wallet, op: Op, opening: Ledgers, timeoutMs: nat)
    requires NoncesBehind(w) && Balanced(w, opening) && Enabled(w, Fire(wallet, op))
    ensures Balanced(Next(w, Fire(wallet, op), timeoutMs), opening)
  {
    hide Sum;
    hide Owed;
    var u := Next(w, Fire(wallet, op), timeoutMs);
    var h := Hash(wallet, Get(w.nonces.next, wallet, 0));
    FireIsFresh(w, wallet);
    forall a
      ensures At(u.credits, a) >= 0
      ensures At(u.balances, a) == At(opening, a) + At(u.credits, a) + Sum(Owed(u.txs, a))
    {
      OwedUpdate(w.txs, h, Tx(op, Unmined, false), a);
    }
  }

  lemma FireKeeps(w: World, wallet: Wallet, op: Op, opening: Ledgers, timeoutMs: nat)
    requires Inv(w, opening, timeoutMs) && Enabled(w, Fire(wallet, op))
    ensures Inv(Next(w, Fire(wallet, op), timeoutMs), opening, timeoutMs)
  {
    hide Collector.Inv;
    hide Balanced;
    hide JobHashes;
    FireIsFresh(w, wallet);
    FireBalances(w, wallet, op, opening, timeoutMs);
  }

  lemma TrackMoves(c: Tracking, h: Hash, submitMs: int, now: int, timeoutMs: nat)
    ensures var d := Track(c, h, submitMs, true, now, timeoutMs);
            && (forall k :: k in d.inflight <==> k in c.inflight || k == h)
            && d.receipts == c.receipts && d.settled == c.settled
  {}

  function Tracked(w: World, h: Hash, submitMs: int, now: int, timeoutMs: nat): World
    requires h in w.txs
  {
    w.(tracking := Track(w.tracking, h, submitMs, true, now, timeoutMs), sending := w.sending - {h},
       pending := if w.txs[h].op.Deposit? then w.pending[h := w.txs[h].op] else w.pending)
  }

  lemma TrackedIsListed(w: World, h: Hash, submitMs: int, now: int, timeoutMs: nat)
    requires Stages(w) && AppliedSettled(w) && PendingIsOpen(w) && h in w.sending
    ensures PendingIsOpen(Tracked(w, h, submitMs, now, timeoutMs)) && Stages(Tracked(w, h, submitMs, now, timeoutMs))
  {
    hide Track;
    hide JobHashes;
    TrackMoves(w.tracking, h, submitMs, now, timeoutMs);
    assert !w.txs[h].applied;
  }

  lemma AcceptedKeeps(w: World, h: Hash, submitMs: int, now: int, opening: Ledgers, timeoutMs: nat)
    requires Inv(w, opening, timeoutMs) && h in w.sending && (submitMs != 0 || now >= 0)
    ensures h in w.txs && Inv(Tracked(w, h, submitMs, now, timeoutMs), opening, timeoutMs)
  {
    hide Collector.Inv;
    hide Track;
    hide PendingIsOpen;
    TrackedIsListed(w, h, submitMs, now, timeoutMs);
    TrackKeepsInv(w.tracking, h, submitMs, true, now, timeoutMs);
    TrackMoves(w.tracking, h, submitMs, now, timeoutMs);
    assert Balanced(Tracked(w, h, submitMs, now, timeoutMs), opening);
  }

  lemma {:induction false} SettleAllKeepsNext(s: NonceState, hashes: seq<Hash>)
    ensures SettleAll(s, hashes).next == s.next
  {
    if hashes != [] { SettleAllKeepsNext(s, hashes[..|hashes| - 1]); }
  }

  /** A reply that is not tracked, and whatever only moves the counters forward. */
  lemma NonceKeeps(w: World, nonces: NonceState, sending: set<Hash>, picked: Option<Wallet>, opening: Ledgers,
      timeoutMs: nat)
    requires Inv(w, opening, timeoutMs)
    requires forall h :: h in sending ==> h in w.sending
    requires forall x :: x in w.nonces.next ==> x in nonces.next && nonces.next[x] >= w.nonces.next[x]
    ensures Inv(w.(nonces := nonces, sending := sending, picked := picked), opening, timeoutMs)
  {
    hide Collector.Inv;
    hide JobHashes;
    var u := w.(nonces := nonces, sending := sending, picked := picked);
    assert Balanced(u, opening) by { assert u.txs == w.txs; }
    hide Balanced;
  }

  /** A withdrawal that goes through is no longer outstanding, a deposit is uncredited from then on. */
  lemma MineBalances(w: World, h: Hash, succeeds: bool, opening: Ledgers, timeoutMs: nat)
    requires AppliedSucceeded(w) && Balanced(w, opening) && Enabled(w, Mine(h, succeeds))
    ensures Balanced(Next(w, Mine(h, succeeds), timeoutMs), opening)
  {
    hide Sum;
    hide Owed;
    var u := Next(w, Mine(h, succeeds), timeoutMs);
    assert !w.txs[h].applied;
    forall a
      ensures At(u.balances, a) == At(opening, a) + At(u.credits, a) + Sum(Owed(u.txs, a))
    {
      OwedUpdate(w.txs, h, u.txs[h], a);
    }
  }

  /** Everything but the books is about fates only where a transaction has been decided. */
  lemma FatesKeep(w: World, u: World)
    requires NoncesBehind(w) && Stages(w) && PendingIsOpen(w) && AppliedSucceeded(w) && AppliedSettled(w)
    requires u.tracking == w.tracking && u.pending == w.pending && u.sending == w.sending && u.nonces == w.nonces
    requires forall k :: k in u.txs <==> k in w.txs
    requires forall k :: k in w.txs ==> u.txs[k].op == w.txs[k].op && u.txs[k].applied == w.txs[k].applied
    requires forall k :: k in w.txs && w.txs[k].fate != Unmined ==> u.txs[k].fate == w.txs[k].fate
    ensures NoncesBehind(u) && Stages(u) && PendingIsOpen(u) && AppliedSucceeded(u) && AppliedSettled(u)
  {
    hide JobHashes;
  }

  lemma MineKeeps(w: World, h: Hash, succeeds: bool, opening: Ledgers, timeoutMs: nat)
    requires Inv(w, opening, timeoutMs) && Enabled(w, Mine(h, succeeds))
    ensures Inv(Next(w, Mine(h, succeeds), timeoutMs), opening, timeoutMs)
  {
    hide Collector.Inv;
    hide Balanced;
    hide NoncesBehind;
    hide Stages;
    hide PendingIsOpen;
    hide AppliedSucceeded;
    hide AppliedSettled;
    MineBalances(w, h, succeeds, opening, timeoutMs);
    FatesKeep(w, Next(w, Mine(h, succeeds), timeoutMs));
  }

  /** A turn that only moves entries forward keeps everything, as long as it gives up the deferred
      effects it leaves without a decision. */
  lemma MovingKeeps(w: World, d: Tracking, gone: set<Hash>, opening: Ledgers, timeoutMs: nat)
    requires Inv(w, opening, timeoutMs) && Collector.Inv(d, timeoutMs) && Moved(w.tracking, d)
    requires forall h :: h in w.tracking.inflight || h in JobHashes(w.tracking.receipts) ==>
               h in gone || h in d.inflight || h in JobHashes(d.receipts)
    ensures Inv(w.(tracking := d, pending := w.pending - gone), opening, timeoutMs)
  {
    hide Collector.Inv;
    hide JobHashes;
    var u := w.(tracking := d, pending := w.pending - gone);
    assert Balanced(u, opening);
    hide Balanced;
  }

  lemma Follows(w: World, opening: Ledgers, timeoutMs: nat)
    requires Inv(w, opening, timeoutMs)
    ensures Collector.Inv(w.tracking, timeoutMs)
  {}

  lemma BlockKeeps(w: World, hashes: seq<Hash>, opening: Ledgers, timeoutMs: nat)
    requires Inv(w, opening, timeoutMs)
    ensures Inv(w.(tracking := Scan(w.tracking, hashes)), opening, timeoutMs)
  {
    hide Inv;
    hide Collector.Inv;
    Follows(w, opening, timeoutMs);
    hide Scan;
    hide JobHashes;
    ScanKeepsInv(w.tracking, hashes, timeoutMs);
    ScanMoves(w.tracking, hashes);
    MovingKeeps(w, Scan(w.tracking, hashes), {}, opening, timeoutMs);
    assert w.pending - {} == w.pending;
  }

  lemma SweepTurnKeeps(w: World, order: seq<Hash>, now: int, opening: Ledgers, timeoutMs: nat)
    requires Inv(w, opening, timeoutMs)
    ensures Inv(w.(tracking := Sweep(w.tracking, order, now, timeoutMs),
                   pending := w.pending - Lost(w.tracking, order, now, timeoutMs)), opening, timeoutMs)
  {
    hide Inv;
    hide Collector.Inv;
    Follows(w, opening, timeoutMs);
    hide Sweep;
    hide JobHashes;
    SweepKeepsInv(w.tracking, order, now, timeoutMs);
    SweepMoves(w.tracking, order, now, timeoutMs);
    MovingKeeps(w, Sweep(w.tracking, order, now, timeoutMs), Lost(w.tracking, order, now, timeoutMs), opening,
        timeoutMs);
  }

  function WithEffect(w: World, h: Hash): World
    requires h in w.txs
  {
    w.(credits := Applied(w.credits, w.txs[h].op, h.wallet), txs := w.txs[h := w.txs[h].(applied := true)])
  }

  /** Applying the effect of a deposit that has succeeded moves it from uncredited to credit. */
  lemma ApplyingBalances(w: World, h: Hash, opening: Ledgers)
    requires Balanced(w, opening)
    requires h in w.txs && w.txs[h].op.Deposit? && w.txs[h].fate == Succeeded && !w.txs[h].applied
    ensures Balanced(WithEffect(w, h), opening)
  {
    hide Sum;
    hide Owed;
    var u := WithEffect(w, h);
    forall a
      ensures At(u.credits, a) >= 0
      ensures At(u.balances, a) == At(opening, a) + At(u.credits, a) + Sum(Owed(u.txs, a))
    {
      OwedUpdate(w.txs, h, u.txs[h], a);
    }
  }

  lemma ApplyingKeeps(w: World, h: Hash, opening: Ledgers, timeoutMs: nat)
    requires Inv(w, opening, timeoutMs) && h in w.tracking.settled && h !in w.pending
    requires h in w.txs && w.txs[h].op.Deposit? && w.txs[h].fate == Succeeded && !w.txs[h].applied
    ensures Inv(WithEffect(w, h), opening, timeoutMs)
  {
    hide Collector.Inv;
    hide Balanced;
    hide JobHashes;
    ApplyingBalances(w, h, opening);
    assert forall k :: k in WithEffect(w, h).txs <==> k in w.txs;
  }

  /** The queue of receipts moves on; if the receipt decides, the deferred effect is taken out. */
  function ReceiptTaken(w: World, i: nat, status: Option<bool>): World
    requires i < |w.tracking.receipts|
  {
    var (c, ok) := Answer(w.tracking, i, status);
    w.(tracking := c, pending := w.pending - (if ok.Some? then {w.tracking.receipts[i].hash} else {}))
  }

  lemma ReceiptTakenKeeps(w: World, i: nat, status: Option<bool>, opening: Ledgers, timeoutMs: nat)
    requires Inv(w, opening, timeoutMs) && i < |w.tracking.receipts|
    ensures Inv(ReceiptTaken(w, i, status), opening, timeoutMs)
  {
    assert Collector.Inv(w.tracking, timeoutMs);
    hide Inv;
    hide Collector.Inv;
    hide JobHashes;
    AnswerKeepsInv(w.tracking, i, status, timeoutMs);
    AnswerMoves(w.tracking, i, status);
    var (c, ok) := Answer(w.tracking, i, status);
    hide Answer;
    MovingKeeps(w, c, if ok.Some? then {w.tracking.receipts[i].hash} else {}, opening, timeoutMs);
  }

  /** What a deferred effect whose receipt is queued is known to be. */
  lemma ReceiptIsOfOpenDeposit(w: World, i: nat, opening: Ledgers, timeoutMs: nat)
    requires Inv(w, opening, timeoutMs) && i < |w.tracking.receipts| && w.tracking.receipts[i].hash in w.pending
    ensures var h := w.tracking.receipts[i].hash;
            && h in w.tracking.settled && h in w.txs && w.txs[h].op == w.pending[h]
            && w.pending[h].Deposit? && !w.txs[h].applied
  {
    hide Balanced;
  }

  lemma ReceiptKeeps(w: World, i: nat, status: Option<bool>, opening: Ledgers, timeoutMs: nat)
    requires Inv(w, opening, timeoutMs) && Enabled(w, Receipt(i, status))
    ensures Inv(Next(w, Receipt(i, status), timeoutMs), opening, timeoutMs)
  {
    hide Inv;
    hide Sum;
    var (c, ok) := Answer(w.tracking, i, status);
    var h, u := w.tracking.receipts[i].hash, ReceiptTaken(w, i, status);
    assert ok == Some(true) ==> status == ok;
    assert c.settled == w.tracking.settled;
    hide Answer;
    ReceiptTakenKeeps(w, i, status, opening, timeoutMs);
    assert w.pending - {} == w.pending;
    if h !in w.pending {
      assert w.pending - {h} == w.pending;
    } else {
      ReceiptIsOfOpenDeposit(w, i, opening, timeoutMs);
      if ok == Some(true) {
        ApplyingKeeps(u, h, opening, timeoutMs);
      }
    }
  }

  lemma NextKeeps(w: World, e: Event, opening: Ledgers, timeoutMs: nat)
    requires Inv(w, opening, timeoutMs)
    ensures Inv(Next(w, e, timeoutMs), opening, timeoutMs)
  {
    hide Inv;
    if Enabled(w, e) {
      match e
      case Pick(_) => NonceKeeps(w, w.nonces, w.sending, Next(w, e, timeoutMs).picked, opening, timeoutMs);
      case Fire(wallet, op) => FireKeeps(w, wallet, op, opening, timeoutMs);
      case Accepted(h, submitMs, now) =>
        AcceptedKeeps(w, h, submitMs, now, opening, timeoutMs);
      case Dropped(h, _) => NonceKeeps(w, Next(w, e, timeoutMs).nonces, w.sending - {h}, w.picked, opening, timeoutMs);
      case Failed(h) => NonceKeeps(w, Next(w, e, timeoutMs).nonces, w.sending - {h}, w.picked, opening, timeoutMs);
      case Mine(h, succeeds) => MineKeeps(w, h, succeeds, opening, timeoutMs);
      case Block(hashes) =>
        BlockKeeps(w, hashes, opening, timeoutMs);
        SettleAllKeepsNext(w.nonces, Seen(w.tracking, hashes));
        NonceKeeps(w.(tracking := Scan(w.tracking, hashes)), Next(w, e, timeoutMs).nonces, w.sending, w.picked,
            opening, timeoutMs);
      case Receipt(i, status) => ReceiptKeeps(w, i, status, opening, timeoutMs);
      case SweepTurn(order, now) =>
        var u := w.(tracking := Sweep(w.tracking, order, now, timeoutMs),
                    pending := w.pending - Lost(w.tracking, order, now, timeoutMs));
        SweepTurnKeeps(w, order, now, opening, timeoutMs);
        SettleAllKeepsNext(w.nonces, GivenUp(w.tracking, order, now, timeoutMs));
        NonceKeeps(u, Next(w, e, timeoutMs).nonces, w.sending, w.picked, opening, timeoutMs);
      case Resynced(_, _) => NonceKeeps(w, Next(w, e, timeoutMs).nonces, w.sending, w.picked, opening, timeoutMs);
    }
  }

  lemma NothingOwed(a: Account)
    ensures Sum(Owed(map[], a)) == 0
  {
    assert Owed(map[], a) == map[];
  }

  lemma BeginningHolds(start: Start, timeoutMs: nat)
    ensures Inv(Beginning(start), start.opening, timeoutMs)
  {
    hide Owed;
    hide Sum;
    hide Collector.Inv;
    NothingTracked(timeoutMs);
    var w := Beginning(start);
    assert w.txs == map[] && w.pending == map[] && w.sending == {} && w.tracking == Collector.EMPTY;
    forall a
      ensures At(w.credits, a) == 0
      ensures At(w.balances, a) == At(start.opening, a) + At(w.credits, a) + Sum(Owed(w.txs, a))
    {
      NothingOwed(a);
    }
    hide At;
  }

  lemma {:induction false} RunKeepsInv(w: World, events: seq<Event>, opening: Ledgers, timeoutMs: nat)
    requires Inv(w, opening, timeoutMs)
    ensures Inv(Run(w, events, timeoutMs), opening, timeoutMs)
  {
    hide Inv;
    hide Next;
    if events != [] {
      RunKeepsInv(w, events[..|events| - 1], opening, timeoutMs);
      NextKeeps(Run(w, events[..|events| - 1], timeoutMs), events[|events| - 1], opening, timeoutMs);
    }
  }

  lemma EveryRunKeepsInv(start: Start, events: seq<Event>, timeoutMs: nat)
    ensures Inv(Run(Beginning(start), events, timeoutMs), start.opening, timeoutMs)
  {
    hide Inv;
    BeginningHolds(start, timeoutMs);
    RunKeepsInv(Beginning(start), events, start.opening, timeoutMs);
  }

  // ---- what it means for the harness ----

  /** In every interleaving, an account holds on chain exactly its opening balance, the local credit,
      the withdrawals that have not gone through and the deposits that have not been credited. */
  lemma BalancesAreAccountedFor(w: World, start: Start, events: seq<Event>, timeoutMs: nat, a: Account)
    requires w == Run(Beginning(start), events, timeoutMs)
    ensures At(w.credits, a) >= 0
    ensures At(w.balances, a) == At(start.opening, a) + At(w.credits, a)
                                 + OutstandingWithdrawals(w.txs, a) + UncreditedDeposits(w.txs, a)
  {
    EveryRunKeepsInv(start, events, timeoutMs);
    OwedSplits(w.txs, a);
  }

  /** A withdrawal built from a confirmed credit finds its amount whenever it executes, in every
      interleaving: also if it was dropped, failed to submit, was lost or has timed out. */
  lemma WithdrawalsAreCovered(w: World, start: Start, events: seq<Event>, timeoutMs: nat, h: Hash)
    requires w == Run(Beginning(start), events, timeoutMs)
    requires h in w.txs && w.txs[h].fate == Unmined
    requires forall a :: At(start.opening, a) >= 0
    ensures Covered(w.balances, w.txs[h].op, h.wallet)
  {
    EveryRunKeepsInv(start, events, timeoutMs);
    var op := w.txs[h].op;
    if op.Withdraw? {
      var a := (op.l, h.wallet);
      SumAtLeast(Owed(w.txs, a), h);
    }
  }

  /** Each submitted transaction is in flight, mined or timed out and only one of them; each is
      settled at most once and sent again at most once; and one with a signed blob times out only
      after two full windows. */
  lemma EveryTransactionSettlesOnce(w: World, start: Start, events: seq<Event>, timeoutMs: nat)
    requires w == Run(Beginning(start), events, timeoutMs)
    ensures var c := w.tracking;
            && c.submitted == c.mined + c.timedOut + |c.inflight|
            && c.settleCalls == |c.settled| && c.settled.Keys !! c.inflight.Keys
            && c.rebroadcasts == |c.resent|
            && (forall h :: h in c.settled && c.settled[h].TimedOut? && c.settled[h].signed ==>
                  c.settled[h].at > c.settled[h].submitMs + 2 * timeoutMs)
  {
    EveryRunKeepsInv(start, events, timeoutMs);
  }

  /** Tracked before, and gone or on its last window. */
  ghost predicate Doomed(c: Tracking, h: Hash, until: int) {
    Expiring(c, h, until) && (h in c.inflight || h in c.settled)
  }

  function NextTracking(w: World, e: Event, timeoutMs: nat): Tracking
    requires Enabled(w, e)
  {
    match e
    case Accepted(h, submitMs, now) => Track(w.tracking, h, submitMs, true, now, timeoutMs)
    case Block(hashes) => Scan(w.tracking, hashes)
    case Receipt(i, status) => Answer(w.tracking, i, status).0
    case SweepTurn(order, now) => Sweep(w.tracking, order, now, timeoutMs)
    case _ => w.tracking
  }

  lemma NextTracks(w: World, e: Event, timeoutMs: nat)
    requires Enabled(w, e)
    ensures Next(w, e, timeoutMs).tracking == NextTracking(w, e, timeoutMs)
  {
    hide Scan;
    hide Sweep;
    hide Answer;
    hide Track;
  }

  lemma SweepKeepsDoomed(c: Tracking, order: seq<Hash>, now: int, timeoutMs: nat, h: Hash, until: int)
    requires Doomed(c, h, until)
    ensures var d := Sweep(c, order, now, timeoutMs);
            Doomed(d, h, until) && (h in order && now > until ==> h !in d.inflight)
  {
    SweepKeepsExpiring(c, order, now, timeoutMs, h, until);
    SweepMoves(c, order, now, timeoutMs);
    hide Sweep;
  }

  lemma ScanKeepsDoomed(c: Tracking, hashes: seq<Hash>, h: Hash, until: int)
    requires Doomed(c, h, until)
    ensures Doomed(Scan(c, hashes), h, until)
  {
    ScanKeepsExpiring(c, hashes, h, until);
    ScanMoves(c, hashes);
    hide Scan;
    hide JobHashes;
  }

  lemma NextKeepsDoomed(w: World, e: Event, h: Hash, until: int, opening: Ledgers, timeoutMs: nat)
    requires Inv(w, opening, timeoutMs) && Doomed(w.tracking, h, until)
    ensures Doomed(Next(w, e, timeoutMs).tracking, h, until)
  {
    assert h !in w.sending;
    hide Inv;
    if Enabled(w, e) {
      NextTracks(w, e, timeoutMs);
      hide Next;
      if e.Block? {
        ScanKeepsDoomed(w.tracking, e.hashes, h, until);
      } else if e.SweepTurn? {
        SweepKeepsDoomed(w.tracking, e.order, e.now, timeoutMs, h, until);
      } else if e.Receipt? {
        AnswerMoves(w.tracking, e.i, e.status);
        hide Answer;
      }
    }
  }

  lemma {:induction false} RunKeepsDoomed(w: World, events: seq<Event>, h: Hash, until: int, opening: Ledgers,
      timeoutMs: nat)
    requires Inv(w, opening, timeoutMs) && Doomed(w.tracking, h, until)
    ensures Doomed(Run(w, events, timeoutMs).tracking, h, until)
  {
    hide Inv;
    hide Next;
    hide Doomed;
    if events != [] {
      var before := events[..|events| - 1];
      RunKeepsDoomed(w, before, h, until, opening, timeoutMs);
      RunKeepsInv(w, before, opening, timeoutMs);
      NextKeepsDoomed(Run(w, before, timeoutMs), events[|events| - 1], h, until, opening, timeoutMs);
    }
  }

  lemma SweepDooms(w: World, order: seq<Hash>, now: int, h: Hash, timeoutMs: nat)
    requires h in w.tracking.inflight && h in order && now > w.tracking.inflight[h].deadline
    ensures Doomed(Next(w, SweepTurn(order, now), timeoutMs).tracking, h, now + timeoutMs)
  {
    NextTracks(w, SweepTurn(order, now), timeoutMs);
    hide Next;
    SweepStartsExpiring(w.tracking, order, now, timeoutMs, h);
    SweepMoves(w.tracking, order, now, timeoutMs);
    hide Sweep;
  }

  lemma SweepSettles(w: World, order: seq<Hash>, now: int, h: Hash, until: int, timeoutMs: nat)
    requires Doomed(w.tracking, h, until) && h in order && now > until
    ensures var c := Next(w, SweepTurn(order, now), timeoutMs).tracking; h !in c.inflight && h in c.settled
  {
    NextTracks(w, SweepTurn(order, now), timeoutMs);
    hide Next;
    SweepKeepsDoomed(w.tracking, order, now, timeoutMs, h, until);
    hide Sweep;
  }

  /** And it does settle. Once a sweep has met an entry past its window, and another sweep meets it more
      than a window later, the entry has left the map and is settled, by one call, whatever happened in
      between. */
  lemma OverdueSettles(w: World, start: Start, events: seq<Event>, timeoutMs: nat, h: Hash, order: seq<Hash>, now: int,
                       between: seq<Event>, order': seq<Hash>, now': int)
    requires w == Run(Beginning(start), events, timeoutMs) && h in w.tracking.inflight
    requires h in order && now > w.tracking.inflight[h].deadline
    requires h in order' && now' > now + timeoutMs
    ensures var u := Run(Next(w, SweepTurn(order, now), timeoutMs), between, timeoutMs);
            var c := Next(u, SweepTurn(order', now'), timeoutMs).tracking;
            h !in c.inflight && h in c.settled && c.settleCalls == |c.settled|
  {
    hide Inv;
    hide Next;
    hide Run;
    hide Doomed;
    var v := Next(w, SweepTurn(order, now), timeoutMs);
    var u := Run(v, between, timeoutMs);
    EveryRunKeepsInv(start, events, timeoutMs);
    NextKeeps(w, SweepTurn(order, now), start.opening, timeoutMs);
    SweepDooms(w, order, now, h, timeoutMs);
    RunKeepsInv(v, between, start.opening, timeoutMs);
    RunKeepsDoomed(v, between, h, now + timeoutMs, start.opening, timeoutMs);
    SweepSettles(u, order', now', h, now + timeoutMs, timeoutMs);
    NextKeeps(u, SweepTurn(order', now'), start.opening, timeoutMs);
    var x := Next(u, SweepTurn(order', now'), timeoutMs);
    Follows(x, start.opening, timeoutMs);
    assert Counts(x.tracking) && x.tracking.settleCalls == |x.tracking.settled|;
  }

  lemma FireSigns(w: World, wallet: Wallet, op: Op, timeoutMs: nat)
    requires Enabled(w, Fire(wallet, op))
    ensures var h := Hash(wallet, Get(w.nonces.next, wallet, 0));
            Next(w, Fire(wallet, op), timeoutMs).txs == w.txs[h := Tx(op, Unmined, false)]
  {}

  /** No two signed transactions share a wallet and a nonce: what is built next is none of them, even
      after resyncs that read an old count. */
  lemma NoNonceIsSignedTwice(w: World, start: Start, events: seq<Event>, timeoutMs: nat, wallet: Wallet, op: Op)
    requires w == Run(Beginning(start), events, timeoutMs)
    requires Enabled(w, Fire(wallet, op))
    ensures var u := Next(w, Fire(wallet, op), timeoutMs);
            exists h: Hash :: h.wallet == wallet && h !in w.txs && u.txs.Keys == w.txs.Keys + {h}
  {
    hide *;
    EveryRunKeepsInv(start, events, timeoutMs);
    NoncesAreBehind(w, start.opening, timeoutMs);
    FireIsFresh(w, wallet);
    FireSigns(w, wallet, op, timeoutMs);
    var h, u := Hash(wallet, Get(w.nonces.next, wallet, 0)), Next(w, Fire(wallet, op), timeoutMs);
    assert u.txs.Keys == w.txs.Keys + {h};
  }

  lemma NoncesAreBehind(w: World, opening: Ledgers, timeoutMs: nat)
    requires Inv(w, opening, timeoutMs)
    ensures NoncesBehind(w)
  {}

  // ---- every receipt counts, once and as it says ----

  /** The other half of PendingIsOpen: as long as a tracked deposit is undecided, its effect is deferred. */
  ghost predicate OpenIsPending(w: World) {
    forall h :: h in w.txs && w.txs[h].op.Deposit?
                && (h in w.tracking.inflight || h in JobHashes(w.tracking.receipts)) ==>
                  h in w.pending && w.pending[h] == w.txs[h].op
  }

  lemma MovingKeepsOpen(w: World, d: Tracking, gone: set<Hash>)
    requires OpenIsPending(w)
    requires forall h :: h in d.inflight || h in JobHashes(d.receipts) ==>
               h !in gone && (h in w.tracking.inflight || h in JobHashes(w.tracking.receipts))
    ensures OpenIsPending(w.(tracking := d, pending := w.pending - gone))
  {
    hide JobHashes;
  }

  lemma NewJobHashes(hashes: seq<Hash>)
    ensures forall h :: h in JobHashes(NewJobs(hashes)) ==> h in hashes
  {
    forall j | j in NewJobs(hashes) ensures j.hash in hashes {
      var k :| 0 <= k < |NewJobs(hashes)| && NewJobs(hashes)[k] == j;
      assert j == Job(hashes[k], 0);
    }
  }

  lemma BlockKeepsOpen(w: World, hashes: seq<Hash>)
    requires OpenIsPending(w)
    ensures OpenIsPending(w.(tracking := Scan(w.tracking, hashes)))
  {
    var c, d, seen := w.tracking, Scan(w.tracking, hashes), Seen(w.tracking, hashes);
    ScanTakes(c, hashes);
    NewJobHashes(seen);
    hide Scan;
    hide Seen;
    hide NewJobs;
    assert JobHashes(d.receipts) == JobHashes(c.receipts) + JobHashes(NewJobs(seen)) by { hide OpenIsPending; }
    MovingKeepsOpen(w, d, {});
    assert w.pending - {} == w.pending;
  }

  lemma JobsAreSettled(c: Tracking, timeoutMs: nat)
    requires Collector.Inv(c, timeoutMs)
    ensures forall h :: h in JobHashes(c.receipts) ==> h !in c.inflight && h in c.settled
  {
    hide Windows;
    forall j | j in c.receipts ensures j.hash in c.settled {
      var k :| 0 <= k < |c.receipts| && c.receipts[k] == j;
    }
  }

  lemma SweepTurnKeepsOpen(w: World, order: seq<Hash>, now: int, timeoutMs: nat)
    requires OpenIsPending(w) && Collector.Inv(w.tracking, timeoutMs)
    ensures OpenIsPending(w.(tracking := Sweep(w.tracking, order, now, timeoutMs),
                            pending := w.pending - Lost(w.tracking, order, now, timeoutMs)))
  {
    JobsAreSettled(w.tracking, timeoutMs);
    SweepMoves(w.tracking, order, now, timeoutMs);
    hide Sweep;
    hide JobHashes;
    hide Collector.Inv;
    MovingKeepsOpen(w, Sweep(w.tracking, order, now, timeoutMs), Lost(w.tracking, order, now, timeoutMs));
  }

  /** A job that is decided has left the queue, and nothing else has come in. */
  lemma AnswerLeaves(c: Tracking, i: nat, status: Option<bool>)
    requires i < |c.receipts| && Jobs(c)
    ensures var (d, ok) := Answer(c, i, status);
            JobHashes(d.receipts) == JobHashes(c.receipts) - (if ok.Some? then {c.receipts[i].hash} else {})
  {
    var (d, ok) := Answer(c, i, status);
    var job, others := c.receipts[i], c.receipts[..i] + c.receipts[i + 1..];
    AnswerMoves(c, i, status);
    forall j | j in others ensures j in c.receipts && j.hash != job.hash {
      var k :| 0 <= k < |others| && others[k] == j;
      assert j == c.receipts[if k < i then k else k + 1];
    }
    hide Jobs;
    assert job in c.receipts;
    assert forall j :: j in d.receipts ==> j in others || (ok.None? && j == Job(job.hash, job.tries + 1));
  }

  lemma ReceiptKeepsOpen(w: World, i: nat, status: Option<bool>, timeoutMs: nat)
    requires OpenIsPending(w) && Collector.Inv(w.tracking, timeoutMs) && i < |w.tracking.receipts|
    ensures OpenIsPending(ReceiptTaken(w, i, status))
  {
    var (d, ok) := Answer(w.tracking, i, status);
    JobsAreSettled(w.tracking, timeoutMs);
    AnswerLeaves(w.tracking, i, status);
    AnswerMoves(w.tracking, i, status);
    assert w.tracking.receipts[i] in w.tracking.receipts;
    assert w.tracking.receipts[i].hash in JobHashes(w.tracking.receipts);
    hide Answer;
    hide Collector.Inv;
    hide JobHashes;
    MovingKeepsOpen(w, d, if ok.Some? then {w.tracking.receipts[i].hash} else {});
  }

  lemma FireKeepsOpen(w: World, wallet: Wallet, op: Op, opening: Ledgers, timeoutMs: nat)
    requires Inv(w, opening, timeoutMs) && OpenIsPending(w) && Enabled(w, Fire(wallet, op))
    ensures OpenIsPending(Next(w, Fire(wallet, op), timeoutMs))
  {
    FireIsFresh(w, wallet);
    JobsAreSettled(w.tracking, timeoutMs);
    hide Collector.Inv;
    hide Balanced;
    hide JobHashes;
  }

  lemma AcceptedKeepsOpen(w: World, h: Hash, submitMs: int, now: int, timeoutMs: nat)
    requires OpenIsPending(w) && h in w.txs
    ensures OpenIsPending(Tracked(w, h, submitMs, now, timeoutMs))
  {
    TrackMoves(w.tracking, h, submitMs, now, timeoutMs);
    hide Track;
    hide JobHashes;
  }

  lemma ResolvedStep(w: World, h: Hash, ok: bool)
    ensures var v := Resolved(w, h, ok);
            && v == w.(pending := w.pending - {h}, credits := v.credits, txs := v.txs)
            && v.txs.Keys == w.txs.Keys && (forall k :: k in w.txs ==> v.txs[k].op == w.txs[k].op)
            && v.credits == if ok && h in w.pending && h in w.txs
                            then Applied(w.credits, w.pending[h], h.wallet) else w.credits
  {
    hide Applied;
    assert h !in w.pending ==> w.pending - {h} == w.pending;
  }

  /** A receipt moves the queue on; if it decides, the deferred effect is taken out, and applied if it
      says so. */
  lemma ReceiptStep(w: World, i: nat, status: Option<bool>, timeoutMs: nat)
    requires Enabled(w, Receipt(i, status))
    ensures var u, v := ReceiptTaken(w, i, status), Next(w, Receipt(i, status), timeoutMs);
            var h, ok := w.tracking.receipts[i].hash, Answer(w.tracking, i, status).1;
            && v == u.(credits := v.credits, txs := v.txs)
            && v.txs.Keys == w.txs.Keys && (forall k :: k in w.txs ==> v.txs[k].op == w.txs[k].op)
            && v.credits == if ok == Some(true) && h in w.pending && h in w.txs
                            then Applied(w.credits, w.pending[h], h.wallet) else w.credits
  {
    hide Answer;
    hide Resolved;
    var (c, ok) := Answer(w.tracking, i, status);
    assert w.pending - {} == w.pending;
    if ok.Some? { ResolvedStep(w.(tracking := c), w.tracking.receipts[i].hash, ok.value); }
  }

  lemma OpenBy(w: World, u: World)
    requires OpenIsPending(w) && u.tracking == w.tracking && u.pending == w.pending && u.txs.Keys == w.txs.Keys
    requires forall k :: k in w.txs ==> u.txs[k].op == w.txs[k].op
    ensures OpenIsPending(u)
  {
    hide JobHashes;
    assert forall k :: k in u.txs ==> k in u.txs.Keys;
  }

  lemma ReceiptNextKeepsOpen(w: World, i: nat, status: Option<bool>, timeoutMs: nat)
    requires Collector.Inv(w.tracking, timeoutMs) && OpenIsPending(w) && Enabled(w, Receipt(i, status))
    ensures OpenIsPending(Next(w, Receipt(i, status), timeoutMs))
  {
    hide OpenIsPending;
    hide Collector.Inv;
    ReceiptKeepsOpen(w, i, status, timeoutMs);
    ReceiptStep(w, i, status, timeoutMs);
    hide Next;
    hide Answer;
    OpenBy(ReceiptTaken(w, i, status), Next(w, Receipt(i, status), timeoutMs));
  }

  lemma MineKeepsOpen(w: World, h: Hash, succeeds: bool, timeoutMs: nat)
    requires OpenIsPending(w) && Enabled(w, Mine(h, succeeds))
    ensures OpenIsPending(Next(w, Mine(h, succeeds), timeoutMs))
  {
    var u := Next(w, Mine(h, succeeds), timeoutMs);
    assert u.txs.Keys == w.txs.Keys;
    OpenBy(w, u);
  }

  lemma NextKeepsOpen(w: World, e: Event, opening: Ledgers, timeoutMs: nat)
    requires Inv(w, opening, timeoutMs) && OpenIsPending(w)
    ensures OpenIsPending(Next(w, e, timeoutMs))
  {
    Follows(w, opening, timeoutMs);
    hide Collector.Inv;
    if Enabled(w, e) {
      if e.Fire? {
        hide OpenIsPending;
        FireKeepsOpen(w, e.w, e.op, opening, timeoutMs);
      } else if e.Accepted? {
        assert e.h in w.txs;
        hide Inv;
        hide OpenIsPending;
        hide Track;
        AcceptedKeepsOpen(w, e.h, e.submitMs, e.now, timeoutMs);
      } else if e.Receipt? {
        hide *;
        ReceiptNextKeepsOpen(w, e.i, e.status, timeoutMs);
      } else if e.Mine? {
        hide *;
        MineKeepsOpen(w, e.h, e.succeeds, timeoutMs);
      } else {
        ElseKeepsOpen(w, e, timeoutMs);
      }
    }
  }

  lemma ElseKeepsOpen(w: World, e: Event, timeoutMs: nat)
    requires Collector.Inv(w.tracking, timeoutMs) && OpenIsPending(w) && Enabled(w, e)
    requires !e.Fire? && !e.Accepted? && !e.Receipt? && !e.Mine?
    ensures OpenIsPending(Next(w, e, timeoutMs))
  {
    hide Collector.Inv;
    if e.Block? {
      hide OpenIsPending;
      BlockKeepsOpen(w, e.hashes);
      OpenBy(w.(tracking := Scan(w.tracking, e.hashes)), Next(w, e, timeoutMs));
    } else if e.SweepTurn? {
      hide OpenIsPending;
      SweepTurnKeepsOpen(w, e.order, e.now, timeoutMs);
      OpenBy(w.(tracking := Sweep(w.tracking, e.order, e.now, timeoutMs),
               pending := w.pending - Lost(w.tracking, e.order, e.now, timeoutMs)), Next(w, e, timeoutMs));
    } else {
      OpenBy(w, Next(w, e, timeoutMs));
    }
  }

  lemma {:induction false} EveryRunKeepsOpen(start: Start, events: seq<Event>, timeoutMs: nat)
    ensures OpenIsPending(Run(Beginning(start), events, timeoutMs))
  {
    hide Inv;
    hide Next;
    if events != [] {
      var before := events[..|events| - 1];
      EveryRunKeepsOpen(start, before, timeoutMs);
      EveryRunKeepsInv(start, before, timeoutMs);
      NextKeepsOpen(Run(Beginning(start), before, timeoutMs), events[|events| - 1], start.opening, timeoutMs);
    }
  }

  lemma AppliedAt(credits: Ledgers, op: Op, wallet: Wallet, a: Account)
    ensures At(Applied(credits, op, wallet), a)
         == At(credits, a) + if op.Deposit? && a == (op.l, wallet) then DepositAmount(a.0) else 0
  {}

  /** In every reachable state a receipt that is read counts as it says. If it says success, the deposit it
      belongs to raises its own account by exactly its amount; otherwise no credit changes. Nothing else
      changes either way, the deposit is decided and the job is done. */
  lemma ReceiptDecides(w: World, start: Start, events: seq<Event>, timeoutMs: nat, i: nat, ok: bool)
    requires w == Run(Beginning(start), events, timeoutMs) && Enabled(w, Receipt(i, Some(ok)))
    ensures var h, u := w.tracking.receipts[i].hash, Next(w, Receipt(i, Some(ok)), timeoutMs);
            && (h in w.pending <==> w.txs[h].op.Deposit?)
            && (h in w.pending ==> w.pending[h] == w.txs[h].op)
            && (forall a :: At(u.credits, a) == At(w.credits, a)
                  + if ok && w.txs[h].op.Deposit? && a == (w.txs[h].op.l, h.wallet) then DepositAmount(a.0) else 0)
            && u.pending == w.pending - {h}
            && u.tracking.receipts == w.tracking.receipts[..i] + w.tracking.receipts[i + 1..]
  {
    var h, u := w.tracking.receipts[i].hash, Next(w, Receipt(i, Some(ok)), timeoutMs);
    EveryRunKeepsInv(start, events, timeoutMs);
    EveryRunKeepsOpen(start, events, timeoutMs);
    hide Run;
    assert h in JobHashes(w.tracking.receipts) by { assert w.tracking.receipts[i] in w.tracking.receipts; }
    assert h in w.pending <==> w.txs[h].op.Deposit?;
    if h in w.pending { ReceiptIsOfOpenDeposit(w, i, start.opening, timeoutMs); }
    hide Inv;
    hide OpenIsPending;
    hide JobHashes;
    ReceiptStep(w, i, Some(ok), timeoutMs);
    AnswerDecides(w.tracking, i, Some(ok));
    hide Next;
    hide Answer;
    forall a
      ensures At(u.credits, a) == At(w.credits, a)
                  + if ok && w.txs[h].op.Deposit? && a == (w.txs[h].op.l, h.wallet) then DepositAmount(a.0) else 0
    {
      if h in w.pending { AppliedAt(w.credits, w.pending[h], h.wallet, a); }
    }
    hide Applied;
  }

  /** A receipt that cannot be read changes no credit. It is asked for up to four times more, and what it
      would decide stays open until then. */
  lemma UnreadReceiptWaits(w: World, i: nat, timeoutMs: nat)
    requires i < |w.tracking.receipts|
    ensures var (job, u) := (w.tracking.receipts[i], Next(w, Receipt(i, None), timeoutMs));
            var others := w.tracking.receipts[..i] + w.tracking.receipts[i + 1..];
            && u.credits == w.credits
            && (job.tries < 4 ==>
                  u.pending == w.pending && u.tracking.receipts == others + [Job(job.hash, job.tries + 1)])
            && (job.tries >= 4 ==> u.pending == w.pending - {job.hash} && u.tracking.receipts == others)
  {
    ReceiptStep(w, i, None, timeoutMs);
    AnswerDecides(w.tracking, i, None);
    hide Next;
    hide Answer;
    assert w.pending - {} == w.pending;
  }

  /** Credit comes from nowhere else, and goes nowhere but into withdrawals. */
  lemma CreditsMoveOnlySo(w: World, e: Event, timeoutMs: nat, a: Account)
    ensures var u := Next(w, e, timeoutMs);
            && (At(u.credits, a) > At(w.credits, a) ==>
                  && e.Receipt? && e.status == Some(true) && e.i < |w.tracking.receipts|
                  && var h := w.tracking.receipts[e.i].hash; h in w.txs && w.txs[h].fate == Succeeded && h in w.pending)
            && (At(u.credits, a) < At(w.credits, a) ==>
                  e.Fire? && e.op == Withdraw(a.0) && e.w == a.1 && u.credits[a] == w.credits[a] - WithdrawAmount(a.0))
  {
    if Enabled(w, e) {
      if e.Receipt? {
        ReceiptStep(w, e.i, e.status, timeoutMs);
        AnswerDecides(w.tracking, e.i, e.status);
        hide Next;
        var h := w.tracking.receipts[e.i].hash;
        if h in w.pending { AppliedAt(w.credits, w.pending[h], h.wallet, a); }
        hide Applied;
        hide Answer;
      }
    }
  }

  // ---- every transaction that leaves the map is settled once ----

  function OfWallet(hashes: set<Hash>, wallet: Wallet): set<Hash> {
    set h | h in hashes && h.wallet == wallet
  }

  lemma OneMore(hashes: seq<Hash>, h: Hash, wallet: Wallet)
    requires h !in hashes
    ensures |OfWallet(Elements(hashes + [h]), wallet)|
         == |OfWallet(Elements(hashes), wallet)| + if h.wallet == wallet then 1 else 0
  {
    ElementsSnoc(hashes, h);
    var was, now := OfWallet(Elements(hashes), wallet), OfWallet(Elements(hashes + [h]), wallet);
    assert now == if h.wallet == wallet then was + {h} else was;
  }

  lemma SettleAt(s: NonceState, x: Wallet, wallet: Wallet)
    ensures var before := Get(s.inflight, wallet, 0);
            Get(Nonces.Apply(s, Settle(x)).inflight, wallet, 0) == if x == wallet
                && before > 0 then before - 1 else before
  {}

  lemma {:induction false} SettleAllCounts(s: NonceState, hashes: seq<Hash>, wallet: Wallet)
    requires NoRepeat(hashes)
    ensures var before, n := Get(s.inflight, wallet, 0), |OfWallet(Elements(hashes), wallet)|;
            Get(SettleAll(s, hashes).inflight, wallet, 0) == if before > n then before - n else 0
  {
    if hashes == [] {
      assert OfWallet(Elements(hashes), wallet) == {};
    } else {
      hide Elements;
      hide OfWallet;
      hide Get;
      hide Nonces.Apply;
      var p, h := hashes[..|hashes| - 1], hashes[|hashes| - 1];
      SettleAllCounts(s, p, wallet);
      assert hashes == p + [h];
      OneMore(p, h, wallet);
      SettleAt(SettleAll(s, p), h.wallet, wallet);
    }
  }

  /** What leaves the map in a block or a sweep. */
  function Gone(c: Tracking, e: Event, timeoutMs: nat): seq<Hash> {
    if e.Block? then Seen(c, e.hashes) else if e.SweepTurn? then GivenUp(c, e.order, e.now, timeoutMs) else []
  }

  lemma GoneIsSettled(w: World, e: Event, timeoutMs: nat)
    requires (e.Block? || e.SweepTurn?) && Enabled(w, e)
    ensures var u, gone := Next(w, e, timeoutMs), Gone(w.tracking, e, timeoutMs);
            && u.nonces == SettleAll(w.nonces, gone) && NoRepeat(gone)
            && forall h :: h in gone <==> h in w.tracking.inflight && h !in u.tracking.inflight
  {
    if e.Block? { ScanTakes(w.tracking, e.hashes); } else { GivenUpOnce(w.tracking, e.order, e.now, timeoutMs); }
    hide Scan;
    hide Sweep;
    hide Seen;
    hide GivenUp;
    hide SettleAll;
    hide Lost;
  }

  /** A block and a sweep lower each wallet's in-flight count by its transactions that leave the map, and
      touch no counter; a block takes off the map what it contains, a sweep only what is overdue. */
  lemma LeavingSettles(w: World, e: Event, timeoutMs: nat, wallet: Wallet)
    requires e.Block? || e.SweepTurn?
    ensures var u := Next(w, e, timeoutMs);
            var left := set h | h in w.tracking.inflight && h !in u.tracking.inflight && h.wallet == wallet;
            var before := Get(w.nonces.inflight, wallet, 0);
            && Get(u.nonces.inflight, wallet, 0) == (if before > |left| then before - |left| else 0)
            && u.nonces.next == w.nonces.next
  {
    var c, u := w.tracking, Next(w, e, timeoutMs);
    var left := set h | h in w.tracking.inflight && h !in u.tracking.inflight && h.wallet == wallet;
    if !Enabled(w, e) {
      assert u == w && left == {};
    } else {
      var gone := Gone(c, e, timeoutMs);
      hide Enabled;
      hide Next;
      hide Gone;
      GoneIsSettled(w, e, timeoutMs);
      hide SettleAll;
      hide Get;
      SettleAllCounts(w.nonces, gone, wallet);
      SettleAllKeepsNext(w.nonces, gone);
      assert OfWallet(Elements(gone), wallet) == left;
    }
  }

  /** What a sending comes to: accepted, it is tracked and its deposit deferred; refused or failed, its
      wallet has one less in flight, or what the node's count leaves. */
  lemma SendingEnds(w: World, h: Hash, submitMs: int, now: int, timeoutMs: nat)
    requires h in w.sending && h in w.txs && (submitMs != 0 || now >= 0)
    ensures var u := Next(w, Accepted(h, submitMs, now), timeoutMs);
            && h !in u.sending && h in u.tracking.inflight
            && u.tracking.inflight[h].deadline == (if submitMs != 0 then submitMs else now) + timeoutMs
            && (w.txs[h].op.Deposit? ==> h in u.pending && u.pending[h] == w.txs[h].op)
            && u.nonces == w.nonces && u.credits == w.credits
    ensures var u, before := Next(w, Failed(h), timeoutMs), Get(w.nonces.inflight, h.wallet, 0);
            && u.sending == w.sending - {h} && u.nonces.next == w.nonces.next
            && u.nonces.inflight == w.nonces.inflight[h.wallet := if before > 0 then before - 1 else 0]
            && u.tracking == w.tracking && u.pending == w.pending && u.credits == w.credits
  {}
}
