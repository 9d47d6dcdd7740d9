/** The bank: balances per account and denomination. Supply is what all accounts hold together. */
module Bank {
  import opened Wrappers
  import opened Sums

  type Denom = string
  type Account = string

  /** A denomination that is not listed counts as zero. */
  type Coins = map<Denom, nat>

  type Balances = map<Account, Coins>

  function AmountOf(c: Coins, d: Denom): nat {
    if d in c then c[d] else 0
  }

  function Held(b: Balances, a: Account): Coins {
    if a in b then b[a] else map[]
  }

  predicate Fits(amt: Coins, c: Coins) {
    forall d | d in amt :: amt[d] <= AmountOf(c, d)
  }

  function Plus(c: Coins, amt: Coins): Coins {
    map d | d in c.Keys + amt.Keys :: AmountOf(c, d) + AmountOf(amt, d)
  }

  function Minus(c: Coins, amt: Coins): Coins
    requires Fits(amt, c)
  {
    map d | d in c :: c[d] - AmountOf(amt, d)
  }

  /** None: refused, and nothing has moved. */
  function Move(b: Balances, from: Account, to: Account, amt: Coins): Option<Balances> {
    if !Fits(amt, Held(b, from)) then None
    else
      var taken := b[from := Minus(Held(b, from), amt)];
      Some(taken[to := Plus(Held(taken, to), amt)])
  }

  function Burn(b: Balances, from: Account, amt: Coins): Option<Balances> {
    if Fits(amt, Held(b, from)) then Some(b[from := Minus(Held(b, from), amt)]) else None
  }

  function Fund(b: Balances, to: Account, amt: Coins): Balances {
    b[to := Plus(Held(b, to), amt)]
  }

  function PerAccount(b: Balances, d: Denom): map<Account, int> {
    map a | a in b :: AmountOf(b[a], d)
  }

  ghost function Supply(b: Balances, d: Denom): int {
    Sum(PerAccount(b, d))
  }

  lemma SetChangesSupply(b: Balances, a: Account, c: Coins, d: Denom)
    ensures Supply(b[a := c], d) == Supply(b, d) + AmountOf(c, d) - AmountOf(Held(b, a), d)
  {
    assert PerAccount(b[a := c], d) == PerAccount(b, d)[a := AmountOf(c, d)];
    SumUpdate(PerAccount(b, d), a, AmountOf(c, d));
  }

  /** A move keeps the supply of every denomination, also from an account to itself. */
  lemma MoveKeepsSupply(b: Balances, from: Account, to: Account, amt: Coins, d: Denom)
    requires Move(b, from, to, amt).Some?
    ensures Supply(Move(b, from, to, amt).value, d) == Supply(b, d)
  {
    var taken := b[from := Minus(Held(b, from), amt)];
    SetChangesSupply(b, from, taken[from], d);
    SetChangesSupply(taken, to, Plus(Held(taken, to), amt), d);
  }

  lemma BurnLowersSupply(b: Balances, from: Account, amt: Coins, d: Denom)
    requires Burn(b, from, amt).Some?
    ensures Supply(Burn(b, from, amt).value, d) == Supply(b, d) - AmountOf(amt, d)
  {
    SetChangesSupply(b, from, Minus(Held(b, from), amt), d);
  }

  lemma FundRaisesSupply(b: Balances, to: Account, amt: Coins, d: Denom)
    ensures Supply(Fund(b, to, amt), d) == Supply(b, d) + AmountOf(amt, d)
  {
    SetChangesSupply(b, to, Plus(Held(b, to), amt), d);
  }

  /** What a move does to any account. */
  lemma MoveBalance(b: Balances, from: Account, to: Account, amt: Coins, a: Account, d: Denom)
    requires Move(b, from, to, amt).Some?
    ensures AmountOf(Held(Move(b, from, to, amt).value, a), d)
            == AmountOf(Held(b, a), d) - (if a == from then AmountOf(amt, d) else 0)
               + (if a == to then AmountOf(amt, d) else 0)
  {}

  /** From `b` to `u`, `amount` has gone from one account to the other, and nothing else has changed. */
  ghost predicate Transferred(b: Balances, u: Balances, from: Account, to: Account, d: Denom, amount: nat) {
    forall a, e :: AmountOf(Held(u, a), e) == AmountOf(Held(b, a), e)
                     + if e == d then (if a == to then amount else 0) - (if a == from then amount else 0) else 0
  }

  lemma MoveTransfers(b: Balances, from: Account, to: Account, d: Denom, amount: nat)
    ensures var r := Move(b, from, to, map[d := amount]);
            && (r.Some? <==> amount <= AmountOf(Held(b, from), d))
            && (r.Some? ==> Transferred(b, r.value, from, to, d, amount))
  {
    var amt, r := map[d := amount], Move(b, from, to, map[d := amount]);
    if r.Some? {
      forall a, e
        ensures AmountOf(Held(r.value, a), e) == AmountOf(Held(b, a), e)
                     + if e == d then (if a == to then amount else 0) - (if a == from then amount else 0) else 0
      {
        MoveBalance(b, from, to, amt, a, e);
      }
    }
  }

  class BankKeeper {
    var balances: Balances

    constructor ()
      ensures balances == map[]
    {
      balances := map[];
    }

    method FundModule(to: Account, amt: Coins)
      modifies this
      ensures balances == Fund(old(balances), to, amt)
    {
      balances := balances[to := Plus(Held(balances, to), amt)];
    }

    method Send(from: Account, to: Account, amt: Coins) returns (ok: bool)
      modifies this
      ensures ok == Move(old(balances), from, to, amt).Some?
      ensures balances == if ok then Move(old(balances), from, to, amt).value else old(balances)
      ensures ok <==> forall d :: d in amt ==> amt[d] <= AmountOf(Held(old(balances), from), d)
    {
      if !Fits(amt, Held(balances, from)) {
        return false;
      }
      balances := balances[from := Minus(Held(balances, from), amt)];
      balances := balances[to := Plus(Held(balances, to), amt)];
      return true;
    }

    method BurnCoins(from: Account, amt: Coins) returns (ok: bool)
      modifies this
      ensures ok == Burn(old(balances), from, amt).Some?
      ensures balances == if ok then Burn(old(balances), from, amt).value else old(balances)
    {
      if !Fits(amt, Held(balances, from)) {
        return false;
      }
      balances := balances[from := Minus(Held(balances, from), amt)];
      return true;
    }

    /** In whatever order the accounts come. */
    method GetSupply(d: Denom) returns (total: int)
      ensures total == Supply(balances, d)
    {
      total := 0;
      var rest := balances;
      while rest != map[]
        invariant total + Supply(rest, d) == Supply(balances, d)
        decreases |rest|
      {
        var a :| a in rest;
        SumWithout(PerAccount(rest, d), a);
        assert PerAccount(rest - {a}, d) == PerAccount(rest, d) - {a};
        total := total + AmountOf(rest[a], d);
        rest := rest - {a};
      }
    }
  }
}
