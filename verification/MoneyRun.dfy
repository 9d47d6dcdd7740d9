/** Whole blocks and whole runs: begin blocks in some order of modules, fees, slashes, transfers and
    parameter updates. Modules other than the four of the money chain do not touch their accounts. */
module MoneyRun {
  import opened Wrappers
  import opened Sums
  import opened Bank
  import opened Formula
  import opened Streams
  import SlashFunds

  const FEESPLIT := "feesplit"
  const REWARDSTREAMER := "rewardstreamer"
  const TAILREWARD := "tailreward"
  const DISTR := "distribution"

  /** What governance may set, and whether the keepers of the formula are wired in. */
  datatype Config = Config(split: SplitParams, reward: StreamParams, formula: FormulaParams, tail: StreamParams,
      wired: bool)

  /** What comes from outside in one block. */
  datatype Env = Env(splitBlocked: bool, round: RoundEnv, tailBlocked: bool)

  /** From height 2 on distribution pays out the whole fee collector. */
  function Distribute(b: Balances, height: nat): Balances {
    if height <= 1 then b else Soft(b, Move(b, FEE_COLLECTOR, DISTRIBUTION, Held(b, FEE_COLLECTOR)))
  }

  function RunModule(m: Money, name: string, c: Config, e: Env): Money {
    if name == FEESPLIT then m.(balances := Soft(m.balances, SplitFees(m.balances, c.split, e.splitBlocked)))
    else if name == REWARDSTREAMER then Reward(m, c.reward, c.formula, c.wired, e.round)
    else if name == TAILREWARD then
      m.(balances := Soft(m.balances, Stream(m.balances, c.tail, e.round.height, BUFFER, e.tailBlocked)))
    else if name == DISTR then m.(balances := Distribute(m.balances, e.round.height))
    else m
  }

  function BeginBlock(m: Money, order: seq<string>, c: Config, e: Env): Money {
    if order == [] then m
    else RunModule(BeginBlock(m, order[..|order| - 1], c, e), order[|order| - 1], c, e)
  }

  datatype Event =
    | Block(order: seq<string>, env: Env)
    | Slash(pool: Account, amt: Coins)
    | Transfer(from: Account, to: Account, amt: Coins)
    | SetConfig(config: Config)

  datatype World = World(money: Money, config: Config)

  function Next(w: World, e: Event): World {
    match e
    case Block(order, env) => w.(money := BeginBlock(w.money, order, w.config, env))
    case Slash(pool, amt) =>
      if SlashFunds.Pool(pool) then
        w.(money := w.money.(balances := SlashFunds.Step(w.money.balances, SlashFunds.BurnOp(pool, amt), true)))
      else w
    case Transfer(from, to, amt) => w.(money := w.money.(balances :=
        Soft(w.money.balances, Move(w.money.balances, from, to, amt))))
    case SetConfig(config) => w.(config := config)
  }

  function Run(w: World, events: seq<Event>): World {
    if events == [] then w else Next(Run(w, events[..|events| - 1]), events[|events| - 1])
  }

  // ---- supply ----

  lemma SoftMoveKeepsSupply(b: Balances, from: Account, to: Account, amt: Coins, d: Denom)
    ensures Supply(Soft(b, Move(b, from, to, amt)), d) == Supply(b, d)
  {
    if Move(b, from, to, amt).Some? { MoveKeepsSupply(b, from, to, amt, d); }
  }

  lemma RunModuleKeepsSupply(m: Money, name: string, c: Config, e: Env, d: Denom)
    ensures Supply(RunModule(m, name, c, e).balances, d) == Supply(m.balances, d)
  {
    hide Supply;
    hide Move;
    var b := m.balances;
    if name == FEESPLIT {
      SoftMoveKeepsSupply(b, FEE_COLLECTOR, c.split.faucetAccount, FaucetCoins(c.split.faucetFeeRatio, Held(b,
          FEE_COLLECTOR)), d);
    } else if name == REWARDSTREAMER {
      if c.wired && c.formula.enabled {
        SoftMoveKeepsSupply(b, RESERVE, DISTRIBUTION,
          map[c.formula.rewardDenom := RoundTotal(b, c.formula, e.round)], d);
      } else {
        SoftMoveKeepsSupply(b, RESERVE, FEE_COLLECTOR,
          map[c.reward.rewardDenom := StreamAmount(c.reward, AmountOf(Held(b, RESERVE), c.reward.rewardDenom))], d);
      }
    } else if name == TAILREWARD {
      SoftMoveKeepsSupply(b, BUFFER, FEE_COLLECTOR,
        map[c.tail.rewardDenom := StreamAmount(c.tail, AmountOf(Held(b, BUFFER), c.tail.rewardDenom))], d);
    } else if name == DISTR {
      SoftMoveKeepsSupply(b, FEE_COLLECTOR, DISTRIBUTION, Held(b, FEE_COLLECTOR), d);
    }
  }

  lemma {:induction false} BeginBlockKeepsSupply(m: Money, order: seq<string>, c: Config, e: Env, d: Denom)
    ensures Supply(BeginBlock(m, order, c, e).balances, d) == Supply(m.balances, d)
  {
    if order != [] {
      BeginBlockKeepsSupply(m, order[..|order| - 1], c, e, d);
      RunModuleKeepsSupply(BeginBlock(m, order[..|order| - 1], c, e), order[|order| - 1], c, e, d);
    }
  }

  /** The supply of every denomination is the same after any run: of blocks in any order of modules,
      with any failure swallowed, of slashes, transfers and parameter changes. */
  lemma {:induction false} SupplyIsConstant(w: World, events: seq<Event>, d: Denom)
    ensures Supply(Run(w, events).money.balances, d) == Supply(w.money.balances, d)
  {
    if events != [] {
      var u, e := Run(w, events[..|events| - 1]), events[|events| - 1];
      SupplyIsConstant(w, events[..|events| - 1], d);
      match e
      case Block(order, env) => BeginBlockKeepsSupply(u.money, order, u.config, env, d);
      case Slash(pool, amt) => SlashFunds.StepSupply(u.money.balances, SlashFunds.BurnOp(pool, amt), true, d);
      case Transfer(from, to, amt) => SoftMoveKeepsSupply(u.money.balances, from, to, amt, d);
      case SetConfig(_) =>
    }
  }

  // ---- what validators are credited is there ----

  function InDenom(c: Credits, d: Denom): map<(Validator, Denom), int> {
    map k | k in c :: if k.1 == d then c[k] else 0
  }

  ghost function CreditedTotal(c: Credits, d: Denom): int {
    Sum(InDenom(c, d))
  }

  lemma CreditOne(c: Credits, v: Validator, d: Denom, x: nat, e: Denom)
    ensures CreditedTotal(c[(v, d) := x], e) == CreditedTotal(c, e) + if d == e then x - CreditOf(c, v, d) else 0
  {
    var y := if d == e then x else 0;
    assert InDenom(c[(v, d) := x], e) == InDenom(c, e)[(v, d) := y];
    SumUpdate(InDenom(c, e), (v, d), y);
  }

  /** A round credits at most what was moved for it, and all of it if no allocation fails. */
  lemma {:induction false} CreditAtMostTotal(c: Credits, allocs: seq<Alloc>, d: Denom, refused: set<Validator>,
      e: Denom)
    ensures var (u, done) := Credit(c, allocs, d, refused);
            var gain := CreditedTotal(u, e) - CreditedTotal(c, e);
            && 0 <= gain <= (if d == e then Total(allocs) else 0)
            && (done ==> gain == if d == e then Total(allocs) else 0)
            && (refused == {} ==> done)
    decreases |allocs|
  {
    if allocs != [] {
      var a := allocs[0];
      if a.amt == 0 {
        CreditAtMostTotal(c, allocs[1..], d, refused, e);
      } else if a.val !in refused {
        CreditOne(c, a.val, d, CreditOf(c, a.val, d) + a.amt, e);
        CreditAtMostTotal(c[(a.val, d) := CreditOf(c, a.val, d) + a.amt], allocs[1..], d, refused, e);
      }
    }
  }

  /** Without refusals every validator gets what the round holds for it, and nobody ever gets more. */
  lemma {:induction false} CreditGoesToEach(c: Credits, allocs: seq<Alloc>, d: Denom, refused: set<Validator>,
      v: Validator)
    ensures var (u, done) := Credit(c, allocs, d, refused);
            && CreditOf(c, v, d) <= CreditOf(u, v, d) <= CreditOf(c, v, d) + Paid(allocs, v)
            && (done ==> CreditOf(u, v, d) == CreditOf(c, v, d) + Paid(allocs, v))
            && (forall e :: e != d ==> CreditOf(u, v, e) == CreditOf(c, v, e))
    decreases |allocs|
  {
    if allocs != [] {
      var a := allocs[0];
      if a.amt == 0 {
        CreditGoesToEach(c, allocs[1..], d, refused, v);
      } else if a.val !in refused {
        CreditGoesToEach(c[(a.val, d) := CreditOf(c, a.val, d) + a.amt], allocs[1..], d, refused, v);
      }
    }
  }

  function Balance(m: Money, a: Account, d: Denom): nat {
    AmountOf(Held(m.balances, a), d)
  }

  /** A round raises the balance of distribution by what it takes from the reserve, leaves every other
      account as it was, and credits no more than that; exactly that if no validator is refused. */
  lemma RoundReachesDistribution(m: Money, p: FormulaParams, env: RoundEnv)
    ensures var u, d := FormulaStream(m, p, env).0, p.rewardDenom;
            var gain := Balance(u, DISTRIBUTION, d) - Balance(m, DISTRIBUTION, d);
            && Balance(u, RESERVE, d) == Balance(m, RESERVE, d) - gain
            && (forall a, e :: e != d || (a != RESERVE && a != DISTRIBUTION) ==> Balance(u, a, e) == Balance(m, a, e))
            && (forall e :: CreditedTotal(m.credited, e) <= CreditedTotal(u.credited, e)
                            <= CreditedTotal(m.credited, e) + if e == d then gain else 0)
            && (env.refused == {} ==> CreditedTotal(u.credited, d) == CreditedTotal(m.credited, d) + gain)
  {
    FormulaPays(m, p, env);
    var u, d, total := FormulaStream(m, p, env).0, p.rewardDenom, RoundTotal(m.balances, p, env);
    var reserve := AmountOf(Held(m.balances, RESERVE), d);
    hide Round;
    hide CreditedTotal;
    if total > 0 && !env.blocked {
      RoundFits(p, reserve, env.bonded.value);
      MoveTransfers(m.balances, RESERVE, DISTRIBUTION, d, total);
      forall e
        ensures CreditedTotal(m.credited, e) <= CreditedTotal(u.credited, e)
                <= CreditedTotal(m.credited, e) + if e == d then total else 0
        ensures env.refused == {} && e == d ==> CreditedTotal(u.credited, e) == CreditedTotal(m.credited, e) + total
      {
        CreditAtMostTotal(m.credited, Round(p, reserve, env.bonded.value), d, env.refused, e);
      }
    }
    hide Move;
    hide Credit;
  }

  /** What the account of distribution gained while the reward module ran, over a block... */
  function GainedInBlock(m: Money, order: seq<string>, c: Config, e: Env, d: Denom): int {
    if order == [] then 0
    else
      var before, name := order[..|order| - 1], order[|order| - 1];
      var t := BeginBlock(m, before, c, e);
      var u := RunModule(t, name, c, e);
      GainedInBlock(m, before, c, e, d)
      + if name == REWARDSTREAMER then Balance(u, DISTRIBUTION, d) - Balance(t, DISTRIBUTION, d) else 0
  }

  /** ... and over a run. */
  function Gained(w: World, events: seq<Event>, d: Denom): int {
    if events == [] then 0
    else
      var before, e := events[..|events| - 1], events[|events| - 1];
      var u := Run(w, before);
      Gained(w, before, d) + if e.Block? then GainedInBlock(u.money, e.order, u.config, e.env, d) else 0
  }

  lemma ModuleCredits(m: Money, name: string, c: Config, e: Env, d: Denom)
    ensures var u := RunModule(m, name, c, e);
            var gain := if name == REWARDSTREAMER then Balance(u, DISTRIBUTION, d) - Balance(m, DISTRIBUTION, d)
                        else 0;
            && CreditedTotal(u.credited, d) - CreditedTotal(m.credited, d) <= gain
            && (e.round.refused == {} ==> CreditedTotal(u.credited, d) - CreditedTotal(m.credited, d) == gain)
  {
    if name == REWARDSTREAMER {
      if c.wired && c.formula.enabled {
        RoundReachesDistribution(m, c.formula, e.round);
      } else {
        StreamPays(m.balances, c.reward, e.round.height, RESERVE, e.round.blocked);
      }
      hide Stream;
      hide FormulaStream;
    }
    hide CreditedTotal;
  }

  lemma {:induction false} BlockCredits(m: Money, order: seq<string>, c: Config, e: Env, d: Denom)
    ensures var gain, got := GainedInBlock(m, order, c, e, d),
                             CreditedTotal(BeginBlock(m, order, c, e).credited, d) - CreditedTotal(m.credited, d);
            got <= gain && (e.round.refused == {} ==> got == gain)
  {
    hide CreditedTotal;
    hide RunModule;
    if order != [] {
      BlockCredits(m, order[..|order| - 1], c, e, d);
      ModuleCredits(BeginBlock(m, order[..|order| - 1], c, e), order[|order| - 1], c, e, d);
    }
  }

  /** Over every run validators are credited at most what the account of distribution itself gained while
      the reward module ran, and exactly that if no allocation failed. */
  lemma {:induction false} CreditsAreCovered(w: World, events: seq<Event>, d: Denom)
    ensures var got := CreditedTotal(Run(w, events).money.credited, d) - CreditedTotal(w.money.credited, d);
            && got <= Gained(w, events, d)
            && ((forall i :: 0 <= i < |events| && events[i].Block? ==> events[i].env.round.refused == {}) ==>
                  got == Gained(w, events, d))
  {
    hide CreditedTotal;
    hide BeginBlock;
    hide GainedInBlock;
    if events != [] {
      var before, e := events[..|events| - 1], events[|events| - 1];
      var u := Run(w, before);
      CreditsAreCovered(w, before, d);
      if e.Block? { BlockCredits(u.money, e.order, u.config, e.env, d); }
      assert forall i :: 0 <= i < |before| ==> before[i] == events[i];
    }
  }

  /** From height 2 on distribution takes all there is in the fee collector, and nothing else. */
  lemma DistributeTakesAll(b: Balances, height: nat, a: Account, d: Denom)
    ensures var u := Distribute(b, height); var fees := if height <= 1 then 0 else AmountOf(Held(b, FEE_COLLECTOR), d);
            AmountOf(Held(u, a), d) == AmountOf(Held(b, a), d)
              + (if a == DISTRIBUTION then fees else 0) - (if a == FEE_COLLECTOR then fees else 0)
  {
    if height > 1 { MoveBalance(b, FEE_COLLECTOR, DISTRIBUTION, Held(b, FEE_COLLECTOR), a, d); }
  }

  lemma SoftMoveSpares(b: Balances, from: Account, to: Account, amt: Coins, a: Account, d: Denom)
    ensures AmountOf(Held(Soft(b, Move(b, from, to, amt)), a), d)
            >= AmountOf(Held(b, a), d) - if a == from && Move(b, from, to, amt).Some? then AmountOf(amt, d) else 0
  {
    if Move(b, from, to, amt).Some? { MoveBalance(b, from, to, amt, a, d); }
  }

  lemma ModuleFillsDistribution(m: Money, name: string, c: Config, e: Env, d: Denom)
    ensures var u := RunModule(m, name, c, e);
            Balance(u, DISTRIBUTION, d) - Balance(m, DISTRIBUTION, d)
            >= CreditedTotal(u.credited, d) - CreditedTotal(m.credited, d)
  {
    ModuleCredits(m, name, c, e, d);
    hide CreditedTotal;
    var b := m.balances;
    if name == FEESPLIT {
      SoftMoveSpares(b, FEE_COLLECTOR, c.split.faucetAccount, FaucetCoins(c.split.faucetFeeRatio,
          Held(b, FEE_COLLECTOR)), DISTRIBUTION, d);
    } else if name == TAILREWARD {
      StreamPays(b, c.tail, e.round.height, BUFFER, e.tailBlocked);
      hide Stream;
    } else if name == DISTR {
      DistributeTakesAll(b, e.round.height, DISTRIBUTION, d);
      hide Distribute;
    }
    hide Move;
    hide Reward;
  }

  lemma {:induction false} BlockFillsDistribution(m: Money, order: seq<string>, c: Config, e: Env, d: Denom)
    ensures var u := BeginBlock(m, order, c, e);
            Balance(u, DISTRIBUTION, d) - Balance(m, DISTRIBUTION, d)
            >= CreditedTotal(u.credited, d) - CreditedTotal(m.credited, d)
  {
    hide CreditedTotal;
    hide RunModule;
    if order != [] {
      BlockFillsDistribution(m, order[..|order| - 1], c, e, d);
      ModuleFillsDistribution(BeginBlock(m, order[..|order| - 1], c, e), order[|order| - 1], c, e, d);
    }
  }

  /** What has been paid out of distribution. */
  function PaidOut(w: World, events: seq<Event>, d: Denom): nat {
    if events == [] then 0
    else
      var before, e := events[..|events| - 1], events[|events| - 1];
      PaidOut(w, before, d)
      + if e.Transfer? && e.from == DISTRIBUTION && Move(Run(w, before).money.balances, e.from, e.to, e.amt).Some?
        then AmountOf(e.amt, d) else 0
  }

  lemma EventFillsDistribution(w: World, e: Event, d: Denom)
    ensures var u := Next(w, e);
            var out := if e.Transfer? && e.from == DISTRIBUTION && Move(w.money.balances, e.from, e.to, e.amt).Some?
                       then AmountOf(e.amt, d) else 0;
            Balance(u.money, DISTRIBUTION, d) + out - Balance(w.money, DISTRIBUTION, d)
            >= CreditedTotal(u.money.credited, d) - CreditedTotal(w.money.credited, d)
  {
    hide CreditedTotal;
    var b := w.money.balances;
    match e
    case Block(order, env) =>
      BlockFillsDistribution(w.money, order, w.config, env, d);
      hide BeginBlock;
    case Slash(pool, amt) =>
      SoftMoveSpares(b, pool, FAUCET, amt, DISTRIBUTION, d);
      hide Move;
    case Transfer(from, to, amt) =>
      SoftMoveSpares(b, from, to, amt, DISTRIBUTION, d);
      hide Move;
    case SetConfig(_) =>
  }

  /** So over every run distribution holds, or has paid out, at least what it has credited to validators on
      top of what it held at first. */
  lemma {:induction false} DistributionHoldsCredits(w: World, events: seq<Event>, d: Denom)
    ensures var u := Run(w, events);
            Balance(u.money, DISTRIBUTION, d) + PaidOut(w, events, d)
            >= Balance(w.money, DISTRIBUTION, d)
               + CreditedTotal(u.money.credited, d) - CreditedTotal(w.money.credited, d)
  {
    hide CreditedTotal;
    hide Next;
    hide Move;
    hide Balance;
    if events != [] {
      var before := events[..|events| - 1];
      DistributionHoldsCredits(w, before, d);
      EventFillsDistribution(Run(w, before), events[|events| - 1], d);
    }
  }
}
