/** The decorator that staking uses for its bank: a burn from one of the staking pools becomes a move
    to the faucet. */
module SlashFunds {
  import opened Wrappers
  import opened Sums
  import opened Bank

  const FAUCET: Account := "faucet"
  const BONDED_POOL: Account := "bonded_tokens_pool"
  const NOT_BONDED_POOL: Account := "not_bonded_tokens_pool"

  predicate Pool(a: Account) {
    a == BONDED_POOL || a == NOT_BONDED_POOL
  }

  class SlashBank {
    const inner: BankKeeper

    constructor (inner: BankKeeper)
      ensures this.inner == inner
    {
      this.inner := inner;
    }

    method BurnCoins(from: Account, amt: Coins) returns (ok: bool)
      modifies inner
      ensures ok == Apply(old(inner.balances), BurnOp(from, amt), true).Some?
      ensures inner.balances == Step(old(inner.balances), BurnOp(from, amt), true)
      ensures ok <==> forall d :: d in amt ==> amt[d] <= AmountOf(Held(old(inner.balances), from), d)
      ensures var redirected := from == "bonded_tokens_pool" || from == "not_bonded_tokens_pool";
              forall a, d :: AmountOf(Held(inner.balances, a), d) == AmountOf(Held(old(inner.balances), a), d)
                               + (if ok && a == FAUCET && redirected then AmountOf(amt, d) else 0)
                               - (if ok && a == from then AmountOf(amt, d) else 0)
    {
      if from == BONDED_POOL || from == NOT_BONDED_POOL {
        ok := inner.Send(from, FAUCET, amt);
      } else {
        ok := inner.BurnCoins(from, amt);
      }
    }
  }

  /** What may happen at the bank. Delegating and undelegating are moves as well. */
  datatype Op =
    | MoveOp(from: Account, to: Account, amt: Coins)
    | BurnOp(from: Account, amt: Coins)
    | FundOp(to: Account, amt: Coins)

  /** One operation, with the decorator in place or with the burning it replaces. */
  function Apply(b: Balances, op: Op, redirect: bool): Option<Balances> {
    match op
    case MoveOp(from, to, amt) => Move(b, from, to, amt)
    case BurnOp(from, amt) => if redirect && Pool(from) then Move(b, from, FAUCET, amt) else Burn(b, from, amt)
    case FundOp(to, amt) => Some(Fund(b, to, amt))
  }

  /** A refused operation leaves the bank as it was. */
  function Step(b: Balances, op: Op, redirect: bool): Balances {
    var r := Apply(b, op, redirect);
    if r.Some? then r.value else b
  }

  function Run(b: Balances, ops: seq<Op>, redirect: bool): Balances {
    if ops == [] then b else Step(Run(b, ops[..|ops| - 1], redirect), ops[|ops| - 1], redirect)
  }

  /** Which operations went through. */
  function Outcomes(b: Balances, ops: seq<Op>, redirect: bool): seq<bool> {
    if ops == [] then []
    else
      var before := ops[..|ops| - 1];
      Outcomes(b, before, redirect) + [Apply(Run(b, before, redirect), ops[|ops| - 1], redirect).Some?]
  }

  /** What the faucet was given in place of burning, in denomination `d`. */
  function Slashed(b: Balances, ops: seq<Op>, d: Denom): nat {
    if ops == [] then 0
    else
      var before, op := ops[..|ops| - 1], ops[|ops| - 1];
      Slashed(b, before, d) + SlashedBy(Run(b, before, true), op, d)
  }

  function SlashedBy(b: Balances, op: Op, d: Denom): nat {
    if op.BurnOp? && Pool(op.from) && Apply(b, op, true).Some? then AmountOf(op.amt, d) else 0
  }

  predicate DebitsFaucet(op: Op) {
    (op.MoveOp? || op.BurnOp?) && op.from == FAUCET
  }

  /** A payment out of the faucet that the faucet can make, but only with slashed stake. */
  predicate SpendsSlashed(b: Balances, before: seq<Op>, op: Op) {
    DebitsFaucet(op)
    && var f := Held(Run(b, before, true), FAUCET);
       Fits(op.amt, f) && exists d | d in op.amt :: op.amt[d] + Slashed(b, before, d) > AmountOf(f, d)
  }

  /** No payment needs slashed stake. */
  predicate PaysItsOwn(b: Balances, ops: seq<Op>) {
    ops == []
    || (var before, op := ops[..|ops| - 1], ops[|ops| - 1];
        PaysItsOwn(b, before) && !SpendsSlashed(b, before, op))
  }

  /** The two banks differ in the faucet alone, and there by `extra`. */
  ghost predicate Ahead(kept: Balances, burned: Balances, extra: Denom -> nat) {
    forall a, d :: AheadAt(kept, burned, extra, a, d)
  }

  ghost predicate AheadAt(kept: Balances, burned: Balances, extra: Denom -> nat, a: Account, d: Denom) {
    AmountOf(Held(kept, a), d) == AmountOf(Held(burned, a), d) + if a == FAUCET then extra(d) else 0
  }

  /** Two banks that differ in the faucet by `extra` decide alike, except about payments that need it. */
  lemma SameOutcomeIff(kept: Balances, burned: Balances, op: Op, extra: Denom -> nat)
    requires Ahead(kept, burned, extra)
    ensures Apply(kept, op, true).Some? == Apply(burned, op, false).Some? <==>
            !(DebitsFaucet(op) && Fits(op.amt, Held(kept, FAUCET))
              && exists d | d in op.amt :: op.amt[d] + extra(d) > AmountOf(Held(kept, FAUCET), d))
  {
    if !op.FundOp? {
      forall d
        ensures AmountOf(Held(kept, op.from), d)
                == AmountOf(Held(burned, op.from), d) + if op.from == FAUCET then extra(d) else 0
      {
        assert AheadAt(kept, burned, extra, op.from, d);
      }
      assert Apply(kept, op, true).Some? == Fits(op.amt, Held(kept, op.from));
      assert Apply(burned, op, false).Some? == Fits(op.amt, Held(burned, op.from));
      hide Apply;
    }
  }

  lemma StepStaysAhead(kept: Balances, burned: Balances, op: Op, extra: Denom -> nat, extra': Denom -> nat)
    requires Ahead(kept, burned, extra)
    requires Apply(kept, op, true).Some? == Apply(burned, op, false).Some?
    requires forall d :: extra'(d) == extra(d) + SlashedBy(kept, op, d)
    ensures Ahead(Step(kept, op, true), Step(burned, op, false), extra')
  {
    hide Fits;
    hide Plus;
    hide Minus;
    forall a, d ensures AheadAt(Step(kept, op, true), Step(burned, op, false), extra', a, d) {
      assert AheadAt(kept, burned, extra, a, d);
      StepBalance(kept, op, true, a, d);
      StepBalance(burned, op, false, a, d);
    }
  }

  /** What one operation adds to an account. */
  function Gained(b: Balances, op: Op, redirect: bool, a: Account, d: Denom): int {
    if Apply(b, op, redirect).None? then 0
    else
      match op
      case MoveOp(from, to, amt) => (if a == to then AmountOf(amt, d) else 0) - (if a
          == from then AmountOf(amt, d) else 0)
      case BurnOp(from, amt) =>
        (if redirect && Pool(from) && a == FAUCET then AmountOf(amt, d) else 0) - (if a
            == from then AmountOf(amt, d) else 0)
      case FundOp(to, amt) => if a == to then AmountOf(amt, d) else 0
  }

  lemma StepBalance(b: Balances, op: Op, redirect: bool, a: Account, d: Denom)
    ensures AmountOf(Held(Step(b, op, redirect), a), d) == AmountOf(Held(b, a), d) + Gained(b, op, redirect, a, d)
  {
    if Apply(b, op, redirect).Some? {
      if op.MoveOp? {
        MoveBalance(b, op.from, op.to, op.amt, a, d);
      } else if op.BurnOp? && redirect && Pool(op.from) {
        MoveBalance(b, op.from, FAUCET, op.amt, a, d);
      }
    }
  }

  /** Redirecting simulates burning, exactly as long as no payment needs slashed stake: then, and only
      then, every operation succeeds or is refused as if slashed stake had been burned. All balances are
      then as in the burning run, with the faucet ahead by what was slashed. */
  lemma {:induction false} RedirectSimulatesBurning(b: Balances, ops: seq<Op>)
    ensures Outcomes(b, ops, true) == Outcomes(b, ops, false) <==> PaysItsOwn(b, ops)
    ensures PaysItsOwn(b, ops) ==> Ahead(Run(b, ops, true), Run(b, ops, false), d => Slashed(b, ops, d))
  {
    if ops != [] {
      var before, op := ops[..|ops| - 1], ops[|ops| - 1];
      var kept, burned := Run(b, before, true), Run(b, before, false);
      RedirectSimulatesBurning(b, before);
      OutcomesUnfold(b, before, op);
      assert ops == before + [op];
      if PaysItsOwn(b, before) {
        SameOutcomeIff(kept, burned, op, d => Slashed(b, before, d));
        if Apply(kept, op, true).Some? == Apply(burned, op, false).Some? {
          StepStaysAhead(kept, burned, op, d => Slashed(b, before, d), d => Slashed(b, ops, d));
        }
      }
      hide Apply;
      hide Step;
      hide Ahead;
    }
  }

  lemma OutcomesUnfold(b: Balances, before: seq<Op>, op: Op)
    ensures Outcomes(b, before + [op], true) == Outcomes(b, before + [op], false) <==>
            Outcomes(b, before, true) == Outcomes(b, before, false)
            && Apply(Run(b, before, true), op, true).Some? == Apply(Run(b, before, false), op, false).Some?
  {
    var ops := before + [op];
    assert ops[..|ops| - 1] == before;
    hide Apply;
    var x, y := Outcomes(b, ops, true), Outcomes(b, ops, false);
    assert |Outcomes(b, before, true)| == |Outcomes(b, before, false)| == |before| by {
      OutcomesLength(b, before, true);
      OutcomesLength(b, before, false);
    }
    assert x[..|before|] == Outcomes(b, before, true) && y[..|before|] == Outcomes(b, before, false);
    assert x == y <==> x[..|before|] == y[..|before|] && x[|before|] == y[|before|];
  }

  lemma {:induction false} OutcomesLength(b: Balances, ops: seq<Op>, redirect: bool)
    ensures |Outcomes(b, ops, redirect)| == |ops|
  {
    if ops != [] { OutcomesLength(b, ops[..|ops| - 1], redirect); }
  }

  /** In particular over operations that never take from the faucet. */
  lemma {:induction false} UntouchedFaucetPaysItsOwn(b: Balances, ops: seq<Op>)
    requires forall i :: 0 <= i < |ops| ==> !DebitsFaucet(ops[i])
    ensures PaysItsOwn(b, ops)
  {
    if ops != [] {
      assert forall i :: 0 <= i < |ops| - 1 ==> ops[..|ops| - 1][i] == ops[i];
      UntouchedFaucetPaysItsOwn(b, ops[..|ops| - 1]);
    }
  }

  /** The supply is ahead by the same amount. */
  lemma {:induction false} SupplyExceedsBySlashed(b: Balances, ops: seq<Op>, d: Denom)
    requires PaysItsOwn(b, ops)
    ensures Supply(Run(b, ops, true), d) == Supply(Run(b, ops, false), d) + Slashed(b, ops, d)
  {
    if ops != [] {
      var before, op := ops[..|ops| - 1], ops[|ops| - 1];
      SupplyExceedsBySlashed(b, before, d);
      RedirectSimulatesBurning(b, ops);
      RedirectSimulatesBurning(b, before);
      OutcomesUnfold(b, before, op);
      assert ops == before + [op];
      StepSupply(Run(b, before, true), op, true, d);
      StepSupply(Run(b, before, false), op, false, d);
      hide Step;
      hide Move;
      hide Burn;
      hide Supply;
      hide Ahead;
    }
  }

  /** By how much an operation changes the supply. */
  function Created(b: Balances, op: Op, redirect: bool, d: Denom): int {
    if Apply(b, op, redirect).None? then 0
    else
      match op
      case MoveOp(_, _, _) => 0
      case BurnOp(from, amt) => if redirect && Pool(from) then 0 else 0 - AmountOf(amt, d)
      case FundOp(_, amt) => AmountOf(amt, d)
  }

  lemma StepSupply(b: Balances, op: Op, redirect: bool, d: Denom)
    ensures Supply(Step(b, op, redirect), d) == Supply(b, d) + Created(b, op, redirect, d)
  {
    if Apply(b, op, redirect).Some? {
      match op
      case MoveOp(from, to, amt) => MoveKeepsSupply(b, from, to, amt, d);
      case BurnOp(from, amt) =>
        if redirect && Pool(from) { MoveKeepsSupply(b, from, FAUCET, amt, d); }
            else { BurnLowersSupply(b, from, amt, d); }
      case FundOp(to, amt) => FundRaisesSupply(b, to, amt, d);
    }
  }

  /** As long as nothing is minted and only the staking pools are burned from, supply never changes. */
  lemma {:induction false} SlashingKeepsSupply(b: Balances, ops: seq<Op>, d: Denom)
    requires forall i :: 0 <= i < |ops| ==> ops[i].MoveOp? || (ops[i].BurnOp? && Pool(ops[i].from))
    ensures Supply(Run(b, ops, true), d) == Supply(b, d)
  {
    if ops != [] {
      SlashingKeepsSupply(b, ops[..|ops| - 1], d);
      StepSupply(Run(b, ops[..|ops| - 1], true), ops[|ops| - 1], true, d);
    }
  }

  /** A payment that is covered by slashed stake alone goes through in one world only. */
  lemma FaucetPaymentsTellThemApart()
    ensures var b: Balances := map[BONDED_POOL := map["agmb" := 5]];
            var ops := [BurnOp(BONDED_POOL, map["agmb" := 5]), MoveOp(FAUCET, "someone", map["agmb" := 5])];
            !PaysItsOwn(b, ops) && Outcomes(b, ops, true) == [true, true] && Outcomes(b, ops, false) == [true, false]
  {
    var b: Balances := map[BONDED_POOL := map["agmb" := 5]];
    var slash, pay := BurnOp(BONDED_POOL, map["agmb" := 5]), MoveOp(FAUCET, "someone", map["agmb" := 5]);
    var ops := [slash, pay];
    assert ops[..1] == [slash] && [slash][..0] == [];
    assert "agmb" in pay.amt && pay.amt["agmb"] == 5;
    var k, n := Step(b, slash, true), Step(b, slash, false);
    assert AmountOf(Held(n, FAUCET), "agmb") == 0;
    MoveBalance(b, BONDED_POOL, FAUCET, map["agmb" := 5], FAUCET, "agmb");
    assert AmountOf(Held(k, FAUCET), "agmb") == 5;
    assert Run(b, [slash], false) == n && Run(b, [slash], true) == k;
    assert Apply(k, pay, true).Some? && Apply(n, pay, false).None?;
    hide Apply;
    hide Step;
    hide Move;
    assert Outcomes(b, [], true) == [] == Outcomes(b, [], false);
    assert Outcomes(b, [slash], true) == [true] == Outcomes(b, [slash], false);
  }
}
