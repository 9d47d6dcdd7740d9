/** How long the reserve lasts. */
module Runway {
  import opened Wrappers
  import opened Bank
  import opened Formula
  import opened Streams
  import opened MoneyRun
  import opened Wiring

  /** Everything but the reward leaves the reserve alone. */
  lemma OthersSpareTheReserve(m: Money, name: string, c: Config, e: Env, d: Denom)
    requires name != REWARDSTREAMER && c.split.Valid()
    ensures Balance(RunModule(m, name, c, e), RESERVE, d) == Balance(m, RESERVE, d)
  {
    hide Move;
    var b := m.balances;
    if name == FEESPLIT {
      SoftMoveBalance(b, FEE_COLLECTOR, c.split.faucetAccount, FaucetCoins(c.split.faucetFeeRatio, Held(b,
          FEE_COLLECTOR)), RESERVE, d);
    } else if name == TAILREWARD {
      SoftMoveBalance(b, BUFFER, FEE_COLLECTOR,
        map[c.tail.rewardDenom := StreamAmount(c.tail, AmountOf(Held(b, BUFFER), c.tail.rewardDenom))], RESERVE, d);
    } else if name == DISTR {
      SoftMoveBalance(b, FEE_COLLECTOR, DISTRIBUTION, Held(b, FEE_COLLECTOR), RESERVE, d);
    }
  }

  /** The state in which the reward module runs. */
  function AfterSplit(m: Money, h: Height): Money {
    RunModule(m, FEESPLIT, h.config, h.env)
  }

  /** So a height drains the reserve by what the reward module takes. */
  lemma StepDrains(m: Money, order: seq<string>, h: Height, d: Denom)
    requires Accepted(order) && h.config.split.Valid() && h.payer != RESERVE
    ensures Balance(AfterSplit(m, h), RESERVE, d) == Balance(m, RESERVE, d)
    ensures Balance(Step(m, order, h), RESERVE, d)
            == Balance(Reward(AfterSplit(m, h), h.config.reward, h.config.formula, h.config.wired, h.env.round),
                RESERVE, d)
  {
    var c, e := h.config, h.env;
    AcceptedOrdersAgree(m, order, c, e);
    var s := RunModule(m, FEESPLIT, c, e);
    var r := RunModule(s, REWARDSTREAMER, c, e);
    var t := RunModule(r, TAILREWARD, c, e);
    OthersSpareTheReserve(m, FEESPLIT, c, e, d);
    OthersSpareTheReserve(r, TAILREWARD, c, e, d);
    OthersSpareTheReserve(t, DISTR, c, e, d);
    assert r == Reward(s, c.reward, c.formula, c.wired, e.round);
    hide RunModule;
    hide Reward;
    SoftMoveBalance(BlockUnder(m, c, e).balances, h.payer, FEE_COLLECTOR, h.fees, RESERVE, d);
    hide Move;
  }

  /** What a formula round takes from the reserve. */
  lemma FormulaDrains(s: Money, reward: StreamParams, p: FormulaParams, env: RoundEnv)
    requires p.enabled
    ensures var u := Reward(s, reward, p, true, env); var d := p.rewardDenom;
            Balance(u, RESERVE, d) == Balance(s, RESERVE, d)
            || Balance(u, RESERVE, d) == Balance(s, RESERVE, d) - RoundTotal(s.balances, p, env)
    ensures p.MaxTotalPerBlock() > 0 ==> RoundTotal(s.balances, p, env) <= p.MaxTotalPerBlock()
  {
    if env.bonded.Some? { RoundFits(p, AmountOf(Held(s.balances, RESERVE), p.rewardDenom), env.bonded.value); }
    hide Round;
    hide FormulaParams.MaxTotalPerBlock;
    var d, total := p.rewardDenom, RoundTotal(s.balances, p, env);
    if total > 0 && Move(s.balances, RESERVE, DISTRIBUTION, map[d := total]).Some? {
      MoveBalance(s.balances, RESERVE, DISTRIBUTION, map[d := total], RESERVE, d);
    }
    hide RoundTotal;
  }

  ghost predicate UnderFormula(heights: seq<Height>, p: FormulaParams) {
    forall i :: 0 <= i < |heights| ==>
      && heights[i].config.split.Valid() && heights[i].payer != RESERVE
      && heights[i].config.formula == p && heights[i].config.wired
  }

  /** Whatever validators there are and whatever fails, a block takes at most the budget of a block. */
  lemma {:induction false} ReserveLasts(m: Money, order: seq<string>, heights: seq<Height>, p: FormulaParams)
    requires Accepted(order) && UnderFormula(heights, p)
    requires p.enabled && p.MaxTotalPerBlock() > 0
    ensures Balance(RunHeights(m, order, heights), RESERVE, p.rewardDenom) + |heights| * p.MaxTotalPerBlock()
            >= Balance(m, RESERVE, p.rewardDenom)
  {
    hide FormulaParams.MaxTotalPerBlock;
    if heights != [] {
      var before, h := heights[..|heights| - 1], heights[|heights| - 1];
      ReserveLasts(m, order, before, p);
      var u := RunHeights(m, order, before);
      StepDrains(u, order, h, p.rewardDenom);
      FormulaDrains(AfterSplit(u, h), h.config.reward, p, h.env.round);
      hide Step;
      hide Reward;
      hide RoundTotal;
      hide AfterSplit;
      hide Balance;
      OneMore(|before|, p.MaxTotalPerBlock());
    }
  }

  lemma OneMore(n: nat, b: nat)
    ensures (n + 1) * b == n * b + b
  {}

  /** Any day's worth of blocks takes at most the budget of a day, if that is at least one unit a block. */
  lemma DayDrainsAtMostBudget(m: Money, order: seq<string>, heights: seq<Height>, p: FormulaParams)
    requires Accepted(order) && UnderFormula(heights, p) && p.Valid() && p.enabled
    requires p.maxTotalPerDay >= p.blocksPerDay && |heights| <= p.blocksPerDay
    ensures Balance(RunHeights(m, order, heights), RESERVE, p.rewardDenom) + p.maxTotalPerDay
        >= Balance(m, RESERVE, p.rewardDenom)
  {
    DayOfBudgets(p, |heights|);
    hide FormulaParams.MaxTotalPerBlock;
    ReserveLasts(m, order, heights, p);
  }

  /** With the default parameters a reserve of 20,000,000 GMB is not empty after 3650 days of blocks. */
  lemma DefaultsLastTenYears(m: Money, order: seq<string>, heights: seq<Height>)
    requires Accepted(order) && UnderFormula(heights, Formula.DEFAULT)
    requires Balance(m, RESERVE, "agmb") >= 20_000_000 * ONE && |heights| <= 3650 * 28_800
    ensures Balance(RunHeights(m, order, heights), RESERVE, "agmb") > 0
  {
    var p := Formula.DEFAULT;
    ReserveLasts(m, order, heights, p);
    MulMonotone(|heights|, 3650 * 28_800, p.MaxTotalPerBlock());
  }

  // ---- the legacy stream ----

  /** The legacy stream is active: enabled, past height 1, not refused, and the formula is off. */
  predicate LegacyActive(h: Height, p: StreamParams) {
    && h.config.split.Valid() && h.payer != RESERVE
    && h.config.reward == p && p.enabled && !(h.config.wired && h.config.formula.enabled)
    && h.env.round.height > 1 && !h.env.round.blocked
  }

  lemma LegacyDrains(s: Money, p: StreamParams, formula: FormulaParams, wired: bool, env: RoundEnv)
    requires p.enabled && !(wired && formula.enabled) && env.height > 1 && !env.blocked
    ensures var have := Balance(s, RESERVE, p.rewardDenom);
            Balance(Reward(s, p, formula, wired, env), RESERVE, p.rewardDenom)
            == if have >= p.PerBlockReward() then have - p.PerBlockReward() else 0
  {
    hide StreamParams.PerBlockReward;
    var amount := StreamAmount(p, Balance(s, RESERVE, p.rewardDenom));
    if amount > 0 {
      MoveBalance(s.balances, RESERVE, FEE_COLLECTOR, map[p.rewardDenom := amount], RESERVE, p.rewardDenom);
    }
  }

  /** After k active blocks exactly max(0, R - k * perBlock) is left. */
  lemma {:induction false} LegacyLeavesExactly(m: Money, order: seq<string>, heights: seq<Height>, p: StreamParams)
    requires Accepted(order) && forall i :: 0 <= i < |heights| ==> LegacyActive(heights[i], p)
    ensures var rest := Balance(m, RESERVE, p.rewardDenom) - |heights| * p.PerBlockReward();
            Balance(RunHeights(m, order, heights), RESERVE, p.rewardDenom) == if rest >= 0 then rest else 0
  {
    hide StreamParams.PerBlockReward;
    if heights != [] {
      var before, h := heights[..|heights| - 1], heights[|heights| - 1];
      assert forall i :: 0 <= i < |before| ==> before[i] == heights[i];
      LegacyLeavesExactly(m, order, before, p);
      var u, d := RunHeights(m, order, before), p.rewardDenom;
      StepDrains(u, order, h, d);
      LegacyDrains(AfterSplit(u, h), p, h.config.formula, h.config.wired, h.env.round);
      hide Step;
      hide Reward;
      hide AfterSplit;
      hide Balance;
      OneMore(|before|, p.PerBlockReward());
    }
  }
}
