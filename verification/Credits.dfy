/** Confirmation-gated balances of the load harness. A deposit is credited locally only once its
    receipt says that it succeeded; a withdrawal is debited locally when it is built. */
module Credits {
  import opened Nonces
  import opened Collector
  import opened Sums

  datatype Ledger = WrappedGmb | EcoBank | Staking | RewardStaking

  type Account = (Ledger, Wallet)

  function DepositAmount(l: Ledger): nat {
    match l
    case WrappedGmb => 1_000_000_000_000_000
    case EcoBank => 1_000_000_000
    case Staking => 1_000_000_000_000_000_000
    case RewardStaking => 1_000_000_000_000_000_000
  }

  function WithdrawAmount(l: Ledger): nat {
    match l
    case WrappedGmb => 100_000_000_000_000
    case EcoBank => 400_000_000
    case Staking => 400_000_000_000_000_000
    case RewardStaking => 400_000_000_000_000_000
  }

  /** Every other operation leaves these balances alone. */
  datatype Op = Deposit(l: Ledger) | Withdraw(l: Ledger) | Unrelated

  datatype Fate = Unmined | Succeeded | Reverted

  /** A signed transaction: what it does, what became of it on chain, and whether the harness has
      applied its local effect. */
  datatype Tx = Tx(op: Op, fate: Fate, applied: bool)

  type Ledgers = map<Account, int>

  function At(m: Ledgers, a: Account): int {
    if a in m then m[a] else 0
  }

  class Workload {
    var credits: Ledgers
    var pendingByHash: map<Hash, Op>

    constructor ()
      ensures credits == map[] && pendingByHash == map[]
    {
      credits, pendingByHash := map[], map[];
    }

    /** The builder of an operation; false means that it is not ready and another one is picked. */
    method Build(op: Op, w: Wallet) returns (ready: bool)
      modifies this`credits
      ensures ready == (op.Withdraw? ==> At(old(credits), (op.l, w)) >= WithdrawAmount(op.l))
      ensures credits == if ready then Built(old(credits), op, w) else old(credits)
      ensures forall a :: At(credits, a) == At(old(credits), a)
                          - if ready && op.Withdraw? && a == (op.l, w) then WithdrawAmount(op.l) else 0
    {
      if op.Withdraw? {
        var held := At(credits, (op.l, w));
        if held < WithdrawAmount(op.l) {
          return false;
        }
        credits := credits[(op.l, w) := held - WithdrawAmount(op.l)];
      }
      return true;
    }

    /** Only producers leave something to apply later. */
    method Submitted(h: Hash, op: Op)
      modifies this`pendingByHash
      ensures pendingByHash == if op.Deposit? then old(pendingByHash)[h := op] else old(pendingByHash)
    {
      if op.Deposit? {
        pendingByHash := pendingByHash[h := op];
      }
    }

    method OnResolve(h: Hash, ok: bool)
      modifies this
      ensures pendingByHash == old(pendingByHash) - {h}
      ensures credits == if ok && h in old(pendingByHash) then Applied(old(credits), old(pendingByHash)[h], h.wallet)
                         else old(credits)
      ensures forall a :: At(credits, a) == At(old(credits), a)
                          + (if !ok || h !in old(pendingByHash) || !old(pendingByHash)[h].Deposit? then 0
                             else if a == (old(pendingByHash)[h].l, h.wallet) then DepositAmount(a.0)
                             else 0)
    {
      if h in pendingByHash {
        var op := pendingByHash[h];
        pendingByHash := pendingByHash - {h};
        if ok {
          if op.Deposit? {
            credits := credits[(op.l, h.wallet) := At(credits, (op.l, h.wallet)) + DepositAmount(op.l)];
          }
        }
      }
    }
  }

  function Built(credits: Ledgers, op: Op, w: Wallet): Ledgers {
    if op.Withdraw? then credits[(op.l, w) := At(credits, (op.l, w)) - WithdrawAmount(op.l)] else credits
  }

  function Applied(credits: Ledgers, op: Op, w: Wallet): Ledgers {
    if op.Deposit? then credits[(op.l, w) := At(credits, (op.l, w)) + DepositAmount(op.l)] else credits
  }

  // ---- the chain's side ----

  /** A contract credits what it is sent and refuses a withdrawal it does not hold. */
  function Executed(balances: Ledgers, op: Op, w: Wallet): Ledgers {
    match op
    case Deposit(l) => balances[(l, w) := At(balances, (l, w)) + DepositAmount(l)]
    case Withdraw(l) => balances[(l, w) := At(balances, (l, w)) - WithdrawAmount(l)]
    case Unrelated => balances
  }

  predicate Covered(balances: Ledgers, op: Op, w: Wallet) {
    op.Withdraw? ==> At(balances, (op.l, w)) >= WithdrawAmount(op.l)
  }

  // ---- what the two sides owe each other ----

  /** What is still to leave the chain for account `a`: a withdrawal not executed so far. */
  function Outgoing(h: Hash, t: Tx, a: Account): int {
    if t.op.Withdraw? && (t.op.l, h.wallet) == a && t.fate != Succeeded then WithdrawAmount(t.op.l) else 0
  }

  /** What is on chain for account `a` but not in the local credit: a deposit not applied. */
  function Uncredited(h: Hash, t: Tx, a: Account): int {
    if t.op.Deposit? && (t.op.l, h.wallet) == a && t.fate == Succeeded && !t.applied then DepositAmount(t.op.l) else 0
  }

  function Owed(txs: map<Hash, Tx>, a: Account): map<Hash, int> {
    map h | h in txs :: Outgoing(h, txs[h], a) + Uncredited(h, txs[h], a)
  }

  ghost function OutstandingWithdrawals(txs: map<Hash, Tx>, a: Account): int {
    Sum(map h | h in txs :: Outgoing(h, txs[h], a))
  }

  ghost function UncreditedDeposits(txs: map<Hash, Tx>, a: Account): int {
    Sum(map h | h in txs :: Uncredited(h, txs[h], a))
  }

  lemma OwedUpdate(txs: map<Hash, Tx>, h: Hash, t: Tx, a: Account)
    ensures Sum(Owed(txs[h := t], a)) == Sum(Owed(txs, a)) + Outgoing(h, t, a) + Uncredited(h, t, a)
              - (if h in txs then Outgoing(h, txs[h], a) + Uncredited(h, txs[h], a) else 0)
  {
    var x := Outgoing(h, t, a) + Uncredited(h, t, a);
    assert Owed(txs[h := t], a) == Owed(txs, a)[h := x];
    SumUpdate(Owed(txs, a), h, x);
  }

  lemma OwedSplits(txs: map<Hash, Tx>, a: Account)
    ensures Sum(Owed(txs, a)) == OutstandingWithdrawals(txs, a) + UncreditedDeposits(txs, a)
  {
    SumSplit(Owed(txs, a), map h | h in txs :: Outgoing(h, txs[h], a), map h | h in txs :: Uncredited(h, txs[h], a));
  }
}
