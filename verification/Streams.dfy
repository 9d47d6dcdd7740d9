/** The three begin-block money flows: the fee split, the validator reward and the tail reward. Each
    fails softly: an error or a panic of the bank is swallowed and the block goes on. */
module Streams {
  import opened Wrappers
  import opened Bank
  import opened Formula
  import SlashFunds

  const FAUCET := SlashFunds.FAUCET
  const FEE_COLLECTOR: Account := "fee_collector"
  const RESERVE: Account := "rewardstreamer"
  const BUFFER: Account := "tailreward"
  const DISTRIBUTION: Account := "distribution"

  /** The ratio in units of 10^-18. */
  datatype SplitParams = SplitParams(enabled: bool, faucetFeeRatio: nat, faucetAccount: Account)
  {
    predicate Valid() {
      faucetFeeRatio <= ONE && (enabled ==> faucetAccount == FAUCET)
    }
  }

  /** Of the legacy reward stream and of the tail stream. */
  datatype StreamParams = StreamParams(enabled: bool, rewardDenom: Denom, annualReward: nat, blocksPerYear: nat)
  {
    function PerBlockReward(): nat {
      if blocksPerYear == 0 then 0 else annualReward / blocksPerYear
    }
  }

  // ---- fee split ----

  function FaucetShare(ratio: nat, amount: nat): nat {
    ratio * amount / ONE
  }

  function FaucetCoins(ratio: nat, pot: Coins): Coins {
    map d | d in pot && FaucetShare(ratio, pot[d]) > 0 :: FaucetShare(ratio, pot[d])
  }

  /** None: the bank refused or panicked. */
  function SplitFees(b: Balances, p: SplitParams, blocked: bool): Option<Balances> {
    var coins := FaucetCoins(p.faucetFeeRatio, Held(b, FEE_COLLECTOR));
    if !p.enabled || coins == map[] then Some(b)
    else if blocked then None
    else Move(b, FEE_COLLECTOR, p.faucetAccount, coins)
  }

  /** What stays after a swallowed failure. */
  function Soft(b: Balances, r: Option<Balances>): Balances {
    if r.Some? then r.value else b
  }

  lemma ShareFits(ratio: nat, amount: nat)
    requires ratio <= ONE
    ensures FaucetShare(ratio, amount) <= amount
  {
    MulMonotone(ratio, ONE, amount);
    DivMonotone(ratio * amount, amount * ONE, ONE);
    DivMul(amount, ONE);
  }

  /** A valid ratio never overdraws: only the bank's own refusal stops a split. Per denomination the
      faucet gets the share rounded down and the rest, with the dust, stays for the validators; no other
      account is touched. */
  lemma SplitDivides(b: Balances, p: SplitParams, blocked: bool, a: Account, d: Denom)
    requires p.Valid() && p.enabled
    ensures SplitFees(b, p, blocked).None? ==> blocked
    ensures SplitFees(b, p, blocked).Some? ==>
              var u := SplitFees(b, p, blocked).value; var pot := AmountOf(Held(b, FEE_COLLECTOR), d);
              var share := p.faucetFeeRatio * pot / 1_000_000_000_000_000_000;
              AmountOf(Held(u, a), d) == AmountOf(Held(b, a), d)
                + (if a == FAUCET then share else 0) - (if a == FEE_COLLECTOR then share else 0)
  {
    var pot := Held(b, FEE_COLLECTOR);
    var coins := FaucetCoins(p.faucetFeeRatio, pot);
    assert FaucetShare(p.faucetFeeRatio, 0) == 0;
    assert FaucetShare(p.faucetFeeRatio, AmountOf(pot, d))
        == p.faucetFeeRatio * AmountOf(pot, d) / 1_000_000_000_000_000_000;
    hide FaucetShare;
    forall e | e in coins ensures coins[e] <= AmountOf(pot, e) { ShareFits(p.faucetFeeRatio, pot[e]); }
    assert AmountOf(coins, d) == FaucetShare(p.faucetFeeRatio, AmountOf(pot, d));
    if coins != map[] && !blocked {
      MoveBalance(b, FEE_COLLECTOR, FAUCET, coins, a, d);
    }
  }

  class FeeSplit {
    const bank: BankKeeper
    var params: SplitParams

    constructor (bank: BankKeeper, params: SplitParams)
      ensures this.bank == bank && this.params == params
    {
      this.bank, this.params := bank, params;
    }

    /** Refuses what does not validate. */
    method SetParams(p: SplitParams) returns (ok: bool)
      modifies this
      ensures ok == p.Valid() && params == if ok then p else old(params)
    {
      ok := p.Valid();
      if ok { params := p; }
    }

    method SplitFeesOnce(blocked: bool) returns (moved: Result<Coins, string>)
      modifies bank
      ensures moved.Ok? == SplitFees(old(bank.balances), params, blocked).Some?
      ensures bank.balances == Soft(old(bank.balances), SplitFees(old(bank.balances), params, blocked))
    {
      if !params.enabled || params.faucetFeeRatio == 0 {
        NothingOfNothing(Held(bank.balances, FEE_COLLECTOR));
        return Ok(map[]);
      }
      var pot := Held(bank.balances, FEE_COLLECTOR);
      var coins: Coins, rest := map[], pot;
      while rest != map[]
        invariant forall d :: d in rest ==> d in pot && rest[d] == pot[d]
        invariant coins == map d | d in pot && d !in rest && FaucetShare(params.faucetFeeRatio, pot[d]) > 0 ::
            FaucetShare(params.faucetFeeRatio, pot[d])
        decreases |rest|
      {
        var d :| d in rest;
        var share := FaucetShare(params.faucetFeeRatio, rest[d]);
        if share > 0 {
          coins := coins[d := share];
        }
        rest := rest - {d};
      }
      assert coins == FaucetCoins(params.faucetFeeRatio, pot);
      if coins == map[] {
        return Ok(map[]);
      }
      var ok := false;
      if !blocked {
        ok := bank.Send(FEE_COLLECTOR, params.faucetAccount, coins);
      }
      return if ok then Ok(coins) else Err("feesplit: send to faucet failed");
    }

    method BeginBlock(blocked: bool)
      modifies bank
      ensures bank.balances == Soft(old(bank.balances), SplitFees(old(bank.balances), params, blocked))
    {
      var _ := SplitFeesOnce(blocked);
    }
  }

  lemma NothingOfNothing(pot: Coins)
    ensures FaucetCoins(0, pot) == map[]
  {
    forall d | d in pot ensures FaucetShare(0, pot[d]) == 0 { assert 0 * pot[d] == 0; }
  }

  // ---- streams of a fixed amount per block ----

  function StreamAmount(p: StreamParams, available: nat): nat {
    if p.PerBlockReward() < available then p.PerBlockReward() else available
  }

  /** The legacy reward from its reserve, and the tail reward from its buffer. */
  function Stream(b: Balances, p: StreamParams, height: nat, from: Account, blocked: bool): Option<Balances> {
    var amount := StreamAmount(p, AmountOf(Held(b, from), p.rewardDenom));
    if !p.enabled || height <= 1 || amount == 0 then Some(b)
    else if blocked then None
    else Move(b, from, FEE_COLLECTOR, map[p.rewardDenom := amount])
  }

  /** What a stream pays in one block. */
  function Due(b: Balances, p: StreamParams, height: nat, from: Account): nat {
    var perBlock := if p.blocksPerYear == 0 then 0 else p.annualReward / p.blocksPerYear;
    var available := AmountOf(Held(b, from), p.rewardDenom);
    if !p.enabled || height <= 1 then 0 else if perBlock < available then perBlock else available
  }

  /** A stream pays what is due to the fee collector and changes nothing else; only the bank stops it. */
  lemma StreamPays(b: Balances, p: StreamParams, height: nat, from: Account, blocked: bool)
    ensures var r, due := Stream(b, p, height, from, blocked), Due(b, p, height, from);
            && (r.None? <==> blocked && due > 0)
            && Transferred(b, Soft(b, r), from, FEE_COLLECTOR, p.rewardDenom, if blocked then 0 else due)
  {
    var due := Due(b, p, height, from);
    if due > 0 && !blocked { MoveTransfers(b, from, FEE_COLLECTOR, p.rewardDenom, due); }
  }

  method StreamOnce(bank: BankKeeper, p: StreamParams, height: nat, from: Account, blocked: bool)
    returns (moved: Result<nat, string>)
    modifies bank
    ensures moved.Ok? == Stream(old(bank.balances), p, height, from, blocked).Some?
    ensures bank.balances == Soft(old(bank.balances), Stream(old(bank.balances), p, height, from, blocked))
    ensures var due := Due(old(bank.balances), p, height, from);
            && moved.Ok? == (due == 0 || !blocked) && (moved.Ok? ==> moved.value == due)
            && (!p.enabled || height <= 1 || p.blocksPerYear == 0 ==> due == 0)
            && (p.enabled && height > 1 && p.blocksPerYear > 0 ==>
                  var slice, held := p.annualReward / p.blocksPerYear, AmountOf(Held(old(bank.balances), from),
                      p.rewardDenom);
                  due == if slice < held then slice else held)
            && Transferred(old(bank.balances), bank.balances, from, FEE_COLLECTOR, p.rewardDenom, if blocked then 0
                else due)
  {
    StreamPays(bank.balances, p, height, from, blocked);
    hide Transferred;
    if !p.enabled { return Ok(0); }
    if height <= 1 { return Ok(0); }
    var perBlock := p.PerBlockReward();
    if perBlock == 0 { return Ok(0); }
    var available := AmountOf(Held(bank.balances, from), p.rewardDenom);
    if available == 0 { return Ok(0); }
    var amount := if perBlock < available then perBlock else available;
    var ok := false;
    if !blocked {
      ok := bank.Send(from, FEE_COLLECTOR, map[p.rewardDenom := amount]);
    }
    return if ok then Ok(amount) else Err("stream to fee collector failed");
  }

  class TailReward {
    const bank: BankKeeper
    var params: StreamParams

    constructor (bank: BankKeeper, params: StreamParams)
      ensures this.bank == bank && this.params == params
    {
      this.bank, this.params := bank, params;
    }

    method BeginBlock(height: nat, blocked: bool)
      modifies bank
      ensures bank.balances == Soft(old(bank.balances), Stream(old(bank.balances), params, height, BUFFER, blocked))
      ensures var due := Due(old(bank.balances), params, height, BUFFER);
              Transferred(old(bank.balances), bank.balances, BUFFER, FEE_COLLECTOR, params.rewardDenom,
                   if blocked then 0 else due)
    {
      var _ := StreamOnce(bank, params, height, BUFFER, blocked);
    }
  }

  // ---- the formula stream ----

  type Credits = map<(Validator, Denom), nat>

  /** `credited` is what distribution has credited to validators from the formula stream. */
  datatype Money = Money(balances: Balances, credited: Credits)

  function CreditOf(c: Credits, v: Validator, d: Denom): nat {
    if (v, d) in c then c[(v, d)] else 0
  }

  /** Allocates in order until distribution refuses a validator; also says whether it got through. */
  function Credit(c: Credits, allocs: seq<Alloc>, d: Denom, refused: set<Validator>): (Credits, bool)
    decreases |allocs|
  {
    if allocs == [] then (c, true)
    else
      var a := allocs[0];
      if a.amt == 0 then Credit(c, allocs[1..], d, refused)
      else if a.val in refused then (c, false)
      else Credit(c[(a.val, d) := CreditOf(c, a.val, d) + a.amt], allocs[1..], d, refused)
  }

  /** What comes from outside the module in one block: the validators (None if they cannot be
      listed), whether the bank refuses, and which validators distribution refuses. */
  datatype RoundEnv = RoundEnv(height: nat, bonded: Option<seq<Bonded>>, blocked: bool, refused: set<Validator>)

  function RoundTotal(b: Balances, p: FormulaParams, env: RoundEnv): nat {
    var reserve := AmountOf(Held(b, RESERVE), p.rewardDenom);
    if !p.enabled || env.height <= 1 || reserve == 0 || env.bonded.None? then 0
    else Total(Round(p, reserve, env.bonded.value))
  }

  /** One round; the flag says that nothing failed. A failed allocation leaves what was done before it. */
  function FormulaStream(m: Money, p: FormulaParams, env: RoundEnv): (Money, bool) {
    var reserve, total := AmountOf(Held(m.balances, RESERVE), p.rewardDenom), RoundTotal(m.balances, p, env);
    if total == 0 then (m, !(p.enabled && env.height > 1 && reserve > 0 && env.bonded.None?))
    else if env.blocked then (m, false)
    else
      var moved := Move(m.balances, RESERVE, DISTRIBUTION, map[p.rewardDenom := total]);
      if moved.None? then (m, false)
      else
        var (credited, done) := Credit(m.credited, Round(p, reserve, env.bonded.value), p.rewardDenom, env.refused);
        (Money(moved.value, credited), done)
  }

  /** A round moves its total from the reserve to distribution and changes no other balance. */
  lemma FormulaPays(m: Money, p: FormulaParams, env: RoundEnv)
    ensures Transferred(m.balances, FormulaStream(m, p, env).0.balances, RESERVE, DISTRIBUTION, p.rewardDenom,
                 if env.blocked then 0 else RoundTotal(m.balances, p, env))
  {
    var total := RoundTotal(m.balances, p, env);
    if env.bonded.Some? { RoundFits(p, AmountOf(Held(m.balances, RESERVE), p.rewardDenom), env.bonded.value); }
    MoveTransfers(m.balances, RESERVE, DISTRIBUTION, p.rewardDenom, total);
    hide Round;
    hide Move;
    hide Credit;
    if total == 0 || env.blocked { assert FormulaStream(m, p, env).0 == m; }
  }

  class RewardStreamer {
    const bank: BankKeeper
    const wired: bool
    var params: StreamParams
    var formula: FormulaParams
    var credited: Credits

    ghost function View(): Money
      reads this, bank
    {
      Money(bank.balances, credited)
    }

    constructor (bank: BankKeeper, wired: bool, params: StreamParams, formula: FormulaParams)
      ensures this.bank == bank && this.wired == wired && this.params == params && this.formula == formula
      ensures View() == Money(bank.balances, map[])
    {
      this.bank, this.wired, this.params, this.formula, credited := bank, wired, params, formula, map[];
    }

    /** Refuses what does not validate. */
    method SetFormulaParams(p: FormulaParams) returns (ok: bool)
      modifies this`formula
      ensures ok == p.Valid() && formula == if ok then p else old(formula)
    {
      ok := p.Valid();
      if ok { formula := p; }
    }

    method CreditAll(allocs: seq<Alloc>, denom: Denom, refused: set<Validator>) returns (all: bool)
      modifies this`credited
      ensures (credited, all) == Credit(old(credited), allocs, denom, refused)
    {
      for i := 0 to |allocs|
        invariant Credit(credited, allocs[i..], denom, refused) == Credit(old(credited), allocs, denom, refused)
      {
        var a := allocs[i];
        assert allocs[i..][0] == a && allocs[i..][1..] == allocs[i + 1..];
        if a.amt > 0 {
          if a.val in refused { return false; }
          credited := credited[(a.val, denom) := CreditOf(credited, a.val, denom) + a.amt];
        }
      }
      return true;
    }

    method StreamFormulaRewards(env: RoundEnv) returns (done: Result<nat, string>)
      modifies this`credited, bank
      ensures (View(), done.Ok?) == if wired then FormulaStream(old(View()), formula, env) else (old(View()), true)
      ensures !wired || !formula.enabled || env.height <= 1 || env.bonded.None? || env.blocked ==> View() == old(View())
      ensures wired && formula.enabled && env.height > 1 && env.bonded.Some? && !env.blocked ==>
                var reserve := AmountOf(Held(old(bank.balances), RESERVE), formula.rewardDenom);
                Transferred(old(bank.balances), bank.balances, RESERVE, DISTRIBUTION, formula.rewardDenom,
                     Total(Round(formula, reserve, env.bonded.value)))
    {
      FormulaPays(View(), formula, env);
      if env.bonded.Some? {
        RoundFits(formula, AmountOf(Held(bank.balances, RESERVE), formula.rewardDenom), env.bonded.value);
      }
      hide Transferred;
      hide Round;
      hide Move;
      if !formula.enabled || !wired { return Ok(0); }
      if env.height <= 1 { return Ok(0); }
      var denom := formula.rewardDenom;
      var reserve := AmountOf(Held(bank.balances, RESERVE), denom);
      if reserve == 0 { return Ok(0); }
      if env.bonded.None? { return Err("iterating the bonded validators failed"); }
      var allocs, total := BuildRound(formula, reserve, env.bonded.value);
      if total == 0 { return Ok(0); }
      var ok := false;
      if !env.blocked {
        ok := bank.Send(RESERVE, DISTRIBUTION, map[denom := total]);
      }
      if !ok { return Err("move reserve->distribution failed"); }
      var all := CreditAll(allocs, denom, env.refused);
      return if all then Ok(total) else Err("allocate to validator failed");
    }

    method BeginBlock(env: RoundEnv)
      modifies this`credited, bank
      ensures View() == Reward(old(View()), params, formula, wired, env)
      ensures var b := old(bank.balances);
              if wired && formula.enabled then
                Transferred(b, bank.balances, RESERVE, DISTRIBUTION, formula.rewardDenom,
                     if env.blocked then 0 else RoundTotal(b, formula, env))
              else
                && credited == old(credited)
                && Transferred(b, bank.balances, RESERVE, FEE_COLLECTOR, params.rewardDenom,
                        if env.blocked then 0 else Due(b, params, env.height, RESERVE))
    {
      FormulaPays(View(), formula, env);
      hide Transferred;
      if wired && formula.enabled {
        var _ := StreamFormulaRewards(env);
      } else {
        var _ := StreamOnce(bank, params, env.height, RESERVE, env.blocked);
      }
    }
  }

  /** The reward module's begin block: the formula if it is active, else the legacy stream. */
  function Reward(m: Money, params: StreamParams, formula: FormulaParams, wired: bool, env: RoundEnv): Money {
    if wired && formula.enabled then FormulaStream(m, formula, env).0
    else m.(balances := Soft(m.balances, Stream(m.balances, params, env.height, RESERVE, env.blocked)))
  }
}
