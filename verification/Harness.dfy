/** The engine of the load harness: the nonce manager, the receipt collector and the workload, wired
    together. Each method is what runs between two awaits and follows one step of the combined machine. */
module Harness {
  import opened Wrappers
  import opened Nonces
  import opened Collector
  import opened Credits
  import opened HarnessRun

  class Engine {
    const nonces: NonceManager
    const collector: ReceiptCollector
    const workload: Workload
    const cap: nat
    var picked: Option<Wallet>

    /** What each running submit has built, by the hash of what it signed. */
    var requests: map<Hash, Op>

    constructor (timeoutMs: nat, cap: nat, ghost mined: map<Wallet, nat>, ghost opening: Ledgers)
      ensures fresh(nonces) && fresh(collector) && fresh(workload) && collector.timeoutMs == timeoutMs
      ensures Shows(HarnessRun.Beginning(Start(map[], mined, opening, cap)))
    {
      nonces := new NonceManager();
      collector := new ReceiptCollector(timeoutMs);
      workload := new Workload();
      this.cap, picked, requests := cap, None, map[];
      new;
      assert (map x: Wallet | x in nonces.next :: 0) == map[];
    }

    /** The engine is in the local part of `w`. */
    ghost predicate Shows(w: World)
      reads this, nonces, collector, workload
    {
      && nonces.View() == w.nonces && cap == w.cap && picked == w.picked
      && collector.View() == w.tracking
      && workload.credits == w.credits && workload.pendingByHash == w.pending
      && (forall h :: h in w.sending ==> h in requests && h in w.txs && requests[h] == w.txs[h].op)
    }

    /** The next wallet, if its window has room. */
    method NextSigner(wallet: Wallet, ghost w: World) returns (ok: bool)
      requires Shows(w)
      modifies this`picked
      ensures ok <==> Enabled(w, Pick(wallet))
      ensures Shows(Next(w, Pick(wallet), collector.timeoutMs))
    {
      ok := nonces.MaySend(wallet, cap);
      if ok { picked := Some(wallet); }
    }

    /** Builds an operation for the picked wallet and takes a nonce for it; nothing happens if the
        operation is not ready. */
    method Fire(wallet: Wallet, op: Op, ghost w: World) returns (signed: Option<Hash>)
      requires Shows(w) && picked == Some(wallet)
      modifies this, nonces, workload
      ensures signed.Some? <==> Enabled(w, HarnessRun.Fire(wallet, op))
      ensures signed.Some? ==> signed.value == Hash(wallet, Get(w.nonces.next, wallet, 0))
      ensures forall a :: At(workload.credits, a) == At(old(workload.credits), a)
                          - if signed.Some? && op.Withdraw? && a == (op.l, wallet) then WithdrawAmount(op.l) else 0
      ensures Shows(Next(w, HarnessRun.Fire(wallet, op), collector.timeoutMs))
    {
      var ready := workload.Build(op, wallet);
      if !ready { return None; }
      var n := nonces.TakeNonce(wallet);
      picked := None;
      requests := requests[Hash(wallet, n) := op];
      return Some(Hash(wallet, n));
    }

    /** The pool has the transaction. */
    method Accept(h: Hash, submitMs: int, now: int, ghost w: World)
      requires Shows(w) && Enabled(w, Accepted(h, submitMs, now))
      modifies this`requests, collector, workload`pendingByHash
      ensures Shows(Next(w, Accepted(h, submitMs, now), collector.timeoutMs))
      ensures h in collector.inflight && workload.credits == old(workload.credits)
      ensures w.txs[h].op.Deposit? ==> h in workload.pendingByHash && workload.pendingByHash[h] == w.txs[h].op
    {
      collector.TrackTx(h, submitMs, true, now);
      workload.Submitted(h, requests[h]);
      requests := requests - {h};
    }

    /** The node refused the nonce, and told its own count if `read` is set. */
    method Drop(h: Hash, read: Option<nat>, ghost w: World)
      requires Shows(w) && Enabled(w, Dropped(h, read))
      modifies this`requests, nonces
      ensures Shows(Next(w, Dropped(h, read), collector.timeoutMs))
      ensures read.None? ==> nonces.next == old(nonces.next)
      ensures read.Some? ==>
                var x := h.wallet;
                && x in nonces.next && nonces.next[x] >= read.value && x in nonces.inflight
                && nonces.inflight[x] == if nonces.next[x] > read.value then nonces.next[x] - read.value - 1 else 0
    {
      if read.Some? { var _ := nonces.ResyncTo(h.wallet, read.value); }
      nonces.SettleOne(h.wallet);
      requests := requests - {h};
    }

    method Fail(h: Hash, ghost w: World)
      requires Shows(w) && Enabled(w, Failed(h))
      modifies this`requests, nonces
      ensures Shows(Next(w, Failed(h), collector.timeoutMs))
      ensures nonces.next == old(nonces.next)
      ensures var before := Get(old(nonces.inflight), h.wallet, 0);
              nonces.inflight == old(nonces.inflight)[h.wallet := if before > 0 then before - 1 else 0]
    {
      nonces.SettleOne(h.wallet);
      requests := requests - {h};
    }

    /** The answer to the count that a timeout asked for. */
    method Resync(wallet: Wallet, count: nat, ghost w: World)
      requires Shows(w)
      modifies nonces
      ensures Shows(Next(w, Resynced(wallet, count), collector.timeoutMs))
      ensures wallet in nonces.next && nonces.next[wallet] >= count && wallet in nonces.inflight
              && nonces.inflight[wallet] == nonces.next[wallet] - count
    {
      var _ := nonces.ResyncTo(wallet, count);
    }

    method SettleEach(hashes: seq<Hash>)
      modifies nonces
      ensures nonces.View() == SettleAll(old(nonces.View()), hashes)
    {
      assert hashes[..0] == [];
      for i := 0 to |hashes|
        invariant nonces.View() == SettleAll(old(nonces.View()), hashes[..i])
      {
        assert hashes[..i + 1][..i] == hashes[..i];
        nonces.SettleOne(hashes[i].wallet);
      }
      assert hashes[..|hashes|] == hashes;
    }

    /** Settles the wallet of every tracked transaction in the block. */
    method SeeBlock(hashes: seq<Hash>, ghost w: World)
      requires Shows(w) && Enabled(w, Block(hashes))
      modifies nonces, collector
      ensures Shows(Next(w, Block(hashes), collector.timeoutMs))
    {
      var seen := collector.ScanBlock(hashes);
      SettleEach(seen);
    }

    method DiscardEach(hashes: seq<Hash>)
      modifies workload
      ensures workload.credits == old(workload.credits)
      ensures workload.pendingByHash == old(workload.pendingByHash) - Elements(hashes)
    {
      for i := 0 to |hashes|
        invariant workload.credits == old(workload.credits)
        invariant workload.pendingByHash == old(workload.pendingByHash) - Elements(hashes[..i])
      {
        assert hashes[..i + 1] == hashes[..i] + [hashes[i]];
        ElementsSnoc(hashes[..i], hashes[i]);
        workload.OnResolve(hashes[i], false);
      }
      assert hashes[..|hashes|] == hashes;
    }

    /** Gives up what has been missed twice: settles its wallet and discards its deferred effect. */
    method SweepOnce(order: seq<Hash>, now: int, ghost w: World)
      requires Shows(w)
      modifies nonces, collector, workload
      ensures Shows(Next(w, SweepTurn(order, now), collector.timeoutMs))
    {
      hide Sweep;
      hide GivenUp;
      hide SettleAll;
      hide Lost;
      hide Elements;
      var lost := collector.SweepAll(order, now);
      SettleEach(lost);
      DiscardEach(lost);
      GivenUpIsLost(w.tracking, order, now, collector.timeoutMs);
    }

    /** One turn of a receipt worker, and what its answer decides. */
    method FetchReceipt(status: Option<bool>, ghost w: World)
      requires Shows(w) && w.tracking.receipts != [] && Enabled(w, Receipt(0, status))
      requires forall h :: h in w.pending ==> h in w.txs
      modifies collector, workload
      ensures Shows(Next(w, Receipt(0, status), collector.timeoutMs))
      ensures status != Some(true) ==> workload.credits == old(workload.credits)
      ensures var h := old(collector.receipts)[0].hash;
              && (status.Some? ==> h !in workload.pendingByHash && collector.receipts == old(collector.receipts)[1..])
              && (status == Some(true) && h in old(workload.pendingByHash) ==>
                    forall a :: At(workload.credits, a) == At(old(workload.credits), a)
                      + var op := old(workload.pendingByHash)[h];
                        if op.Deposit? && a == (op.l, h.wallet) then DepositAmount(op.l) else 0)
    {
      ReceiptStep(w, 0, status, collector.timeoutMs);
      assert w.pending - {} == w.pending;
      hide Next;
      hide Answer;
      hide Applied;
      hide DepositAmount;
      var h := collector.receipts[0].hash;
      var ok := collector.ReceiptTurn(status);
      if ok.Some? {
        workload.OnResolve(h, ok.value);
      }
    }
  }
}
