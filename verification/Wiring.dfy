/** The check of the begin-block order at start-up, and what every accepted order guarantees: the
    faucet lives on fees alone, and the reserve lasts. */
module Wiring {
  import opened Wrappers
  import opened Bank
  import opened Formula
  import opened Streams
  import opened MoneyRun

  const REQUIRED: seq<string> := [FEESPLIT, REWARDSTREAMER, TAILREWARD, DISTR]

  /** A violation says which link of the chain is broken, and where its two modules stand. */
  datatype OrderError =
    | Twice(name: string, first: nat, second: nat)
    | Missing(name: string)
    | Violation(k: nat, at: nat, next: nat)

  /** The modules of the money chain, as they stand in the list. */
  function Chain(order: seq<string>): seq<string> {
    if order == [] then []
    else Chain(order[..|order| - 1]) + if order[|order| - 1] in REQUIRED then [order[|order| - 1]] else []
  }

  ghost predicate Accepted(order: seq<string>) {
    Chain(order) == REQUIRED
  }

  /** By name. */
  lemma AcceptedIs(order: seq<string>)
    ensures Accepted(order) <==> Chain(order) == ["feesplit", "rewardstreamer", "tailreward", "distribution"]
  {}

  /** Where the chain's modules have been seen in the first `i` names, each at most once. */
  ghost predicate Seen(order: seq<string>, i: nat, pos: map<string, nat>) {
    && i <= |order|
    && (forall n :: n in pos ==> n in REQUIRED && pos[n] < i && order[pos[n]] == n)
    && (forall k :: 0 <= k < i && order[k] in REQUIRED ==> order[k] in pos && pos[order[k]] == k)
  }

  method ValidateBeginBlockOrder(order: seq<string>) returns (r: Option<OrderError>)
    ensures r.None? <==> Accepted(order)
    ensures r.Some? ==>
              match r.value
              case Twice(name, first, second) => first < second < |order| && order[first] == order[second] == name
                  && name in REQUIRED
              case Missing(name) => name in REQUIRED && name !in order
              case Violation(k, at, next) =>
                k < 3 && next < at < |order| && order[at] == REQUIRED[k] && order[next] == REQUIRED[k + 1]
  {
    hide Chain;
    var pos: map<string, nat> := map[];
    for i := 0 to |order|
      invariant Seen(order, i, pos)
    {
      var name := order[i];
      if name in REQUIRED {
        if name in pos {
          TwiceIsRefused(order, pos[name], i);
          return Some(Twice(name, pos[name], i));
        }
        pos := pos[name := i];
      }
    }
    for k := 0 to |REQUIRED|
      invariant forall n :: 0 <= n < k ==> REQUIRED[n] in pos
    {
      if REQUIRED[k] !in pos {
        ChainHas(order, REQUIRED[k]);
        return Some(Missing(REQUIRED[k]));
      }
    }
    for k := 1 to |REQUIRED|
      invariant forall n :: 0 <= n < k - 1 ==> pos[REQUIRED[n]] < pos[REQUIRED[n + 1]]
    {
      var prev, cur := REQUIRED[k - 1], REQUIRED[k];
      if pos[prev] >= pos[cur] {
        assert prev != cur;
        LaterIsRefused(order, pos[prev], pos[cur], k - 1);
        return Some(Violation(k - 1, pos[prev], pos[cur]));
      }
    }
    assert REQUIRED[0] == FEESPLIT && REQUIRED[1] == REWARDSTREAMER && REQUIRED[2] == TAILREWARD
        && REQUIRED[3] == DISTR;
    InOrderIsAccepted(order, pos);
    return None;
  }

  lemma {:induction false} ChainHas(order: seq<string>, n: string)
    ensures n in Chain(order) <==> n in order && n in REQUIRED
  {
    if order != [] { ChainHas(order[..|order| - 1], n); }
  }

  /** How many chain modules stand before index `i`: the place of the one at `i`. */
  function Before(order: seq<string>, i: nat): nat
    requires i <= |order|
  {
    |Chain(order[..i])|
  }

  lemma {:induction false} ChainAt(order: seq<string>, i: nat)
    requires i < |order| && order[i] in REQUIRED
    ensures Before(order, i) < |Chain(order)| && Chain(order)[Before(order, i)] == order[i]
  {
    var n := |order| - 1;
    if i == n {
      assert order[..i] == order[..n];
    } else {
      ChainAt(order[..n], i);
      assert order[..n][..i] == order[..i];
    }
  }

  lemma ChainAtBefore(order: seq<string>, i: nat, j: nat)
    requires i < j < |order| && order[i] in REQUIRED
    ensures Before(order, i) < Before(order, j)
  {
    ChainAt(order[..j], i);
    assert order[..j][..i] == order[..i];
  }

  lemma TwiceIsRefused(order: seq<string>, i: nat, j: nat)
    requires i < j < |order| && order[i] == order[j] && order[i] in REQUIRED
    ensures !Accepted(order)
  {
    ChainAt(order, i);
    ChainAt(order, j);
    ChainAtBefore(order, i, j);
  }

  lemma LaterIsRefused(order: seq<string>, i: nat, j: nat, k: nat)
    requires k < 3 && j < i < |order| && order[i] == REQUIRED[k] && order[j] == REQUIRED[k + 1]
    ensures !Accepted(order)
  {
    ChainAt(order, i);
    ChainAt(order, j);
    ChainAtBefore(order, j, i);
  }

  ghost predicate InOrder(pos: map<string, nat>) {
    && FEESPLIT in pos && REWARDSTREAMER in pos && TAILREWARD in pos && DISTR in pos
    && pos[FEESPLIT] < pos[REWARDSTREAMER] < pos[TAILREWARD] < pos[DISTR]
  }

  function Reached(pos: map<string, nat>, i: nat): nat
    requires FEESPLIT in pos && REWARDSTREAMER in pos && TAILREWARD in pos && DISTR in pos
  {
    if pos[DISTR] < i then 4 else if pos[TAILREWARD] < i then 3
    else if pos[REWARDSTREAMER] < i then 2 else if pos[FEESPLIT] < i then 1 else 0
  }

  lemma {:induction false} ChainUpTo(order: seq<string>, pos: map<string, nat>, i: nat)
    requires Seen(order, |order|, pos) && InOrder(pos) && i <= |order|
    ensures Chain(order[..i]) == REQUIRED[..Reached(pos, i)]
  {
    if i > 0 {
      ChainUpTo(order, pos, i - 1);
      assert order[..i][..i - 1] == order[..i - 1];
      var n, name := Reached(pos, i - 1), order[i - 1];
      if name in REQUIRED {
        assert pos[name] == i - 1;
        assert n < 4 && name == REQUIRED[n] && Reached(pos, i) == n + 1;
      } else {
        assert forall m :: m in REQUIRED ==> pos[m] != i - 1;
        assert FEESPLIT == REQUIRED[0] && REWARDSTREAMER == REQUIRED[1] && TAILREWARD == REQUIRED[2]
            && DISTR == REQUIRED[3];
        assert Reached(pos, i) == n;
      }
    }
  }

  lemma InOrderIsAccepted(order: seq<string>, pos: map<string, nat>)
    requires Seen(order, |order|, pos) && InOrder(pos)
    ensures Accepted(order)
  {
    ChainUpTo(order, pos, |order|);
    assert order[..|order|] == order;
  }

  // ---- what every accepted order does ----

  lemma {:induction false} OnlyTheChainMatters(m: Money, order: seq<string>, c: Config, e: Env)
    ensures BeginBlock(m, order, c, e) == BeginBlock(m, Chain(order), c, e)
  {
    if order != [] {
      var before, name := order[..|order| - 1], order[|order| - 1];
      OnlyTheChainMatters(m, before, c, e);
      if name in REQUIRED {
        assert Chain(order)[..|Chain(order)| - 1] == Chain(before);
      } else {
        assert FEESPLIT == REQUIRED[0] && REWARDSTREAMER == REQUIRED[1] && TAILREWARD == REQUIRED[2]
            && DISTR == REQUIRED[3];
        assert RunModule(BeginBlock(m, before, c, e), name, c, e) == BeginBlock(m, before, c, e);
        assert Chain(order) == Chain(before);
      }
    }
  }

  /** A block under any accepted order: split, then the reward, then the tail, then distribution. */
  function BlockUnder(m: Money, c: Config, e: Env): Money {
    RunModule(RunModule(RunModule(RunModule(m, FEESPLIT, c, e), REWARDSTREAMER, c, e), TAILREWARD, c, e), DISTR, c, e)
  }

  lemma AcceptedOrdersAgree(m: Money, order: seq<string>, c: Config, e: Env)
    requires Accepted(order)
    ensures BeginBlock(m, order, c, e) == BlockUnder(m, c, e)
  {
    OnlyTheChainMatters(m, order, c, e);
    hide RunModule;
    assert REQUIRED[..3] == [FEESPLIT, REWARDSTREAMER, TAILREWARD];
    assert REQUIRED[..3][..2] == [FEESPLIT, REWARDSTREAMER];
    assert [FEESPLIT, REWARDSTREAMER][..1] == [FEESPLIT];
    assert [FEESPLIT][..0] == [];
    assert BeginBlock(m, [FEESPLIT], c, e) == RunModule(m, FEESPLIT, c, e);
    assert BeginBlock(m, REQUIRED[..3][..2], c, e) == RunModule(RunModule(m, FEESPLIT, c, e), REWARDSTREAMER, c, e);
  }

  // ---- the faucet ----

  /** One height: the configuration and the surroundings of its begin block, then the fees it collects. */
  datatype Height = Height(config: Config, env: Env, payer: Account, fees: Coins)

  /** The split's parameters were validated, and neither faucet nor fee collector pays fees. */
  predicate Ordinary(h: Height) {
    h.config.split.Valid() && h.payer != FAUCET && h.payer != FEE_COLLECTOR
  }

  function Step(m: Money, order: seq<string>, h: Height): Money {
    var u := BeginBlock(m, order, h.config, h.env);
    u.(balances := Soft(u.balances, Move(u.balances, h.payer, FEE_COLLECTOR, h.fees)))
  }

  function RunHeights(m: Money, order: seq<string>, heights: seq<Height>): Money {
    if heights == [] then m
    else Step(RunHeights(m, order, heights[..|heights| - 1]), order, heights[|heights| - 1])
  }

  /** What the faucet may depend on: the split's parameters, whether the bank refused it, and the fees. */
  datatype Entry = Entry(split: SplitParams, blocked: bool, height: nat, collected: Coins)

  function EntryOf(m: Money, order: seq<string>, h: Height): Entry {
    var u := BeginBlock(m, order, h.config, h.env);
    Entry(h.config.split, h.env.splitBlocked, h.env.round.height,
          if Move(u.balances, h.payer, FEE_COLLECTOR, h.fees).Some? then h.fees else map[])
  }

  function Entries(m: Money, order: seq<string>, heights: seq<Height>): seq<Entry> {
    if heights == [] then []
    else
      var before := heights[..|heights| - 1];
      Entries(m, order, before) + [EntryOf(RunHeights(m, order, before), order, heights[|heights| - 1])]
  }

  datatype Flow = Flow(faucet: nat, pot: nat)

  /** The faucet and the fee collector from the entries alone: no reserve, buffer, stake or reward
      setting occurs here. */
  function Flows(start: Flow, entries: seq<Entry>, d: Denom): Flow {
    if entries == [] then start
    else
      var f, e := Flows(start, entries[..|entries| - 1], d), entries[|entries| - 1];
      var share := if e.split.enabled && !e.blocked then FaucetShare(e.split.faucetFeeRatio, f.pot) else 0;
      Flow(f.faucet + share, (if e.height <= 1 && share <= f.pot then f.pot - share else 0) + AmountOf(e.collected, d))
  }

  lemma SplitFlow(m: Money, c: Config, e: Env, d: Denom)
    requires c.split.Valid()
    ensures var u := RunModule(m, FEESPLIT, c, e); var pot := Balance(m, FEE_COLLECTOR, d);
            var share := if c.split.enabled && !e.splitBlocked then FaucetShare(c.split.faucetFeeRatio, pot) else 0;
            && share <= pot && Balance(u, FAUCET, d) == Balance(m, FAUCET, d) + share
            && Balance(u, FEE_COLLECTOR, d) == pot - share
  {
    ShareFits(c.split.faucetFeeRatio, Balance(m, FEE_COLLECTOR, d));
    assert FaucetShare(c.split.faucetFeeRatio, Balance(m, FEE_COLLECTOR, d))
        == c.split.faucetFeeRatio * Balance(m, FEE_COLLECTOR, d) / 1_000_000_000_000_000_000;
    hide FaucetShare;
    if c.split.enabled {
      SplitDivides(m.balances, c.split, e.splitBlocked, FAUCET, d);
      SplitDivides(m.balances, c.split, e.splitBlocked, FEE_COLLECTOR, d);
    }
  }

  lemma SoftMoveBalance(b: Balances, from: Account, to: Account, amt: Coins, a: Account, d: Denom)
    requires a != from
    ensures AmountOf(Held(Soft(b, Move(b, from, to, amt)), a), d) >= AmountOf(Held(b, a), d)
    ensures a != to ==> AmountOf(Held(Soft(b, Move(b, from, to, amt)), a), d) == AmountOf(Held(b, a), d)
  {
    if Move(b, from, to, amt).Some? { MoveBalance(b, from, to, amt, a, d); }
  }

  /** The reward and the tail only ever pay the fee collector and distribution, and nothing at height 1. */
  lemma StreamsPassTheFaucet(m: Money, name: string, c: Config, e: Env, d: Denom)
    requires name == REWARDSTREAMER || name == TAILREWARD
    ensures Balance(RunModule(m, name, c, e), FAUCET, d) == Balance(m, FAUCET, d)
    ensures e.round.height <= 1 ==> RunModule(m, name, c, e).balances == m.balances
  {
    hide Move;
    var b := m.balances;
    if name == REWARDSTREAMER {
      if c.wired && c.formula.enabled {
        SoftMoveBalance(b, RESERVE, DISTRIBUTION,
          map[c.formula.rewardDenom := RoundTotal(b, c.formula, e.round)], FAUCET, d);
      } else {
        SoftMoveBalance(b, RESERVE, FEE_COLLECTOR,
          map[c.reward.rewardDenom := StreamAmount(c.reward, AmountOf(Held(b, RESERVE), c.reward.rewardDenom))],
          FAUCET, d);
      }
    } else {
      SoftMoveBalance(b, BUFFER, FEE_COLLECTOR,
        map[c.tail.rewardDenom := StreamAmount(c.tail, AmountOf(Held(b, BUFFER), c.tail.rewardDenom))], FAUCET, d);
    }
  }

  lemma DistributionEmpties(b: Balances, height: nat, d: Denom)
    ensures AmountOf(Held(Distribute(b, height), FAUCET), d) == AmountOf(Held(b, FAUCET), d)
    ensures AmountOf(Held(Distribute(b, height), FEE_COLLECTOR), d)
        == if height <= 1 then AmountOf(Held(b, FEE_COLLECTOR), d) else 0
  {
    DistributeTakesAll(b, height, FAUCET, d);
    DistributeTakesAll(b, height, FEE_COLLECTOR, d);
    hide Distribute;
  }

  lemma BlockFlow(m: Money, c: Config, e: Env, d: Denom)
    requires c.split.Valid()
    ensures var u := BlockUnder(m, c, e); var pot := Balance(m, FEE_COLLECTOR, d);
            var share := if c.split.enabled && !e.splitBlocked then FaucetShare(c.split.faucetFeeRatio, pot) else 0;
            && share <= pot && Balance(u, FAUCET, d) == Balance(m, FAUCET, d) + share
            && Balance(u, FEE_COLLECTOR, d) == if e.round.height <= 1 then pot - share else 0
  {
    var s := RunModule(m, FEESPLIT, c, e);
    var r := RunModule(s, REWARDSTREAMER, c, e);
    var t := RunModule(r, TAILREWARD, c, e);
    SplitFlow(m, c, e, d);
    StreamsPassTheFaucet(s, REWARDSTREAMER, c, e, d);
    StreamsPassTheFaucet(r, TAILREWARD, c, e, d);
    DistributionEmpties(t.balances, e.round.height, d);
    assert RunModule(t, DISTR, c, e).balances == Distribute(t.balances, e.round.height);
    hide RunModule;
    hide Distribute;
    hide FaucetShare;
  }

  lemma StepFlow(m: Money, order: seq<string>, h: Height, d: Denom)
    requires Accepted(order) && Ordinary(h)
    ensures var u := Step(m, order, h); var e := EntryOf(m, order, h); var pot := Balance(m, FEE_COLLECTOR, d);
            var share := if e.split.enabled && !e.blocked then FaucetShare(e.split.faucetFeeRatio, pot) else 0;
            && share <= pot && Balance(u, FAUCET, d) == Balance(m, FAUCET, d) + share
            && Balance(u, FEE_COLLECTOR, d) == (if e.height <= 1 then pot - share else 0) + AmountOf(e.collected, d)
  {
    AcceptedOrdersAgree(m, order, h.config, h.env);
    BlockFlow(m, h.config, h.env, d);
    var v := BlockUnder(m, h.config, h.env);
    hide BlockUnder;
    hide FaucetShare;
    if Move(v.balances, h.payer, FEE_COLLECTOR, h.fees).Some? {
      MoveBalance(v.balances, h.payer, FEE_COLLECTOR, h.fees, FAUCET, d);
      MoveBalance(v.balances, h.payer, FEE_COLLECTOR, h.fees, FEE_COLLECTOR, d);
    }
    hide Move;
  }

  /** Under every accepted order the faucet depends on fees and on the split's parameters alone: it is
      what the flow computes from them, whatever the reserve, the tail buffer, the validators and the
      reward settings are and whichever streams fail. */
  lemma {:induction false} FaucetLivesOnFees(m: Money, order: seq<string>, heights: seq<Height>, d: Denom)
    requires Accepted(order)
    requires forall i :: 0 <= i < |heights| ==> Ordinary(heights[i])
    ensures var u := RunHeights(m, order, heights);
            Flow(Balance(u, FAUCET, d), Balance(u, FEE_COLLECTOR, d))
            == Flows(Flow(Balance(m, FAUCET, d), Balance(m, FEE_COLLECTOR, d)), Entries(m, order, heights), d)
  {
    if heights != [] {
      var before, h := heights[..|heights| - 1], heights[|heights| - 1];
      FaucetLivesOnFees(m, order, before, d);
      StepFlow(RunHeights(m, order, before), order, h, d);
      var es := Entries(m, order, heights);
      assert es[..|es| - 1] == Entries(m, order, before);
      hide Step;
      hide EntryOf;
      hide FaucetShare;
    }
  }

  /** So two chains with the same fees and splits feed the faucet alike, however they pay rewards. */
  lemma RewardsNeverReachTheFaucet(m: Money, n: Money, order: seq<string>, other: seq<string>, hs: seq<Height>,
      ks: seq<Height>, d: Denom)
    requires Accepted(order) && Accepted(other)
    requires forall i :: 0 <= i < |hs| ==> Ordinary(hs[i])
    requires forall i :: 0 <= i < |ks| ==> Ordinary(ks[i])
    requires Balance(m, FAUCET, d) == Balance(n, FAUCET, d)
        && Balance(m, FEE_COLLECTOR, d) == Balance(n, FEE_COLLECTOR, d)
    requires Entries(m, order, hs) == Entries(n, other, ks)
    ensures Balance(RunHeights(m, order, hs), FAUCET, d) == Balance(RunHeights(n, other, ks), FAUCET, d)
  {
    FaucetLivesOnFees(m, order, hs, d);
    FaucetLivesOnFees(n, other, ks, d);
  }
}
