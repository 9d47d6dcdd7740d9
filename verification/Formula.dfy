/** The reward formula: what a validator earns per day and per block, and how a round that exceeds its
    limit is scaled down. Decimals are integers in units of 10^-18. */
module Formula {
  type Validator = string

  const ONE: nat := 1_000_000_000_000_000_000

  /** Validation rejects what is negative. */
  datatype FormulaParams = FormulaParams(
    enabled: bool, ratePerDay: nat, floorPerDay: nat, capPerDay: nat, blocksPerDay: nat, rewardDenom: string,
        maxTotalPerDay: nat)
  {
    predicate Valid() {
      (capPerDay != 0 ==> capPerDay >= floorPerDay) && blocksPerDay > 0
    }

    function DailyReward(stake: int): nat {
      if stake <= 0 then 0
      else
        var r := stake * ratePerDay / ONE;
        var r := if r < floorPerDay then floorPerDay else r;
        if r > capPerDay then capPerDay else r
    }

    function PerBlockReward(stake: int): nat {
      if blocksPerDay == 0 then 0 else DailyReward(stake) / blocksPerDay
    }

    /** Zero stands for no aggregate cap. */
    function MaxTotalPerBlock(): nat {
      if maxTotalPerDay == 0 || blocksPerDay == 0 then 0 else maxTotalPerDay / blocksPerDay
    }

    /** The formula as the documentation of the type has it. */
    function Documented(stake: int): nat
      requires stake > 0
    {
      var x := stake * ratePerDay / ONE;
      var capped := if x < capPerDay then x else capPerDay;
      if capped < floorPerDay then floorPerDay else capped
    }
  }

  const DEFAULT := FormulaParams(true, ONE / 100, 10 * ONE, 100 * ONE, 28_800, "agmb", 5_479 * ONE)

  /** The floor is applied before the cap, so the two agree exactly if the cap is not below the floor. */
  lemma DocumentedIff(p: FormulaParams, stake: int)
    requires stake > 0
    ensures p.DailyReward(stake) == p.Documented(stake) <==> p.capPerDay >= p.floorPerDay
  {}

  /** For parameters that pass validation the one exception is a cap of zero: nothing is paid, where
      the documentation promises the floor. */
  lemma ValidDocumentedIff(p: FormulaParams, stake: int)
    requires p.Valid() && stake > 0
    ensures p.DailyReward(stake) == p.Documented(stake) <==> p.capPerDay != 0 || p.floorPerDay == 0
    ensures p.capPerDay == 0 ==> p.DailyReward(stake) == 0
  {}

  // ---- products and quotients ----

  lemma MulMonotone(a: int, b: int, n: int)
    requires a <= b && n >= 0
    ensures a * n <= b * n
  {}

  lemma DivIs(a: int, n: int, q: int, r: int)
    requires n > 0 && a == q * n + r && 0 <= r < n
    ensures a / n == q
  {
    var p, s := a / n, a % n;
    assert a == p * n + s;
    if p < q {
      MulMonotone(p + 1, q, n);
    } else if p > q {
      MulMonotone(q + 1, p, n);
    }
  }

  lemma DivMonotone(a: int, b: int, n: int)
    requires a <= b && n > 0
    ensures a / n <= b / n
  {
    var p, q := a / n, b / n;
    if p > q { MulMonotone(q + 1, p, n); }
  }

  lemma DivMul(b: int, t: int)
    requires t > 0
    ensures (b * t) / t == b
  {
    DivIs(b * t, t, b, 0);
  }

  lemma MoreStakeEarnsNoLess(p: FormulaParams, low: int, high: int)
    requires low <= high
    ensures p.DailyReward(low) <= p.DailyReward(high) <= p.capPerDay
    ensures p.PerBlockReward(low) <= p.PerBlockReward(high)
    ensures p.blocksPerDay > 0 ==> p.PerBlockReward(high) <= p.capPerDay / p.blocksPerDay
  {
    if low > 0 {
      MulMonotone(low, high, p.ratePerDay);
      DivMonotone(low * p.ratePerDay, high * p.ratePerDay, ONE);
    }
    if p.blocksPerDay > 0 {
      DivMonotone(p.DailyReward(low), p.DailyReward(high), p.blocksPerDay);
      DivMonotone(p.DailyReward(high), p.capPerDay, p.blocksPerDay);
    }
  }

  // ---- one round ----

  datatype Alloc = Alloc(val: Validator, amt: nat)

  datatype Bonded = Bonded(val: Validator, tokens: int)

  function Gross(p: FormulaParams, bonded: seq<Bonded>): seq<Alloc> {
    if bonded == [] then []
    else
      var pay := p.PerBlockReward(bonded[0].tokens);
      (if pay > 0 then [Alloc(bonded[0].val, pay)] else []) + Gross(p, bonded[1..])
  }

  function Total(allocs: seq<Alloc>): nat {
    if allocs == [] then 0 else allocs[0].amt + Total(allocs[1..])
  }

  function Share(amt: nat, limit: nat, total: nat): nat
    requires total > 0
  {
    amt * limit / total
  }

  function Scaled(allocs: seq<Alloc>, limit: nat, total: nat): seq<Alloc>
    requires total > 0
  {
    if allocs == [] then []
    else [Alloc(allocs[0].val, Share(allocs[0].amt, limit, total))] + Scaled(allocs[1..], limit, total)
  }

  function Limit(p: FormulaParams, reserve: nat): nat {
    var budget := p.MaxTotalPerBlock();
    if budget > 0 && budget < reserve then budget else reserve
  }

  /** What a round wants to pay to whom. */
  function Round(p: FormulaParams, reserve: nat, bonded: seq<Bonded>): seq<Alloc> {
    var gross := Gross(p, bonded);
    if Total(gross) > Limit(p, reserve) then Scaled(gross, Limit(p, reserve), Total(gross)) else gross
  }

  /** Rescales the allocations where they stand. */
  method Rescale(gross: seq<Alloc>, limit: nat, total: nat) returns (allocs: seq<Alloc>, scaled: nat)
    requires total > 0
    ensures allocs == Scaled(gross, limit, total) && scaled == Total(allocs)
  {
    ghost var s := Scaled(gross, limit, total);
    ScaledShape(gross, limit, total);
    hide Scaled;
    hide Share;
    allocs, scaled := gross, 0;
    for i := 0 to |gross|
      invariant |allocs| == |gross|
      invariant forall k :: 0 <= k < i ==> allocs[k] == s[k]
      invariant forall k :: i <= k < |gross| ==> allocs[k] == gross[k]
      invariant scaled + Total(s[i..]) == Total(s)
    {
      assert s[i..][0] == s[i] && s[i..][1..] == s[i + 1..];
      allocs := allocs[i := Alloc(allocs[i].val, Share(allocs[i].amt, limit, total))];
      scaled := scaled + allocs[i].amt;
    }
  }

  /** Everybody's unscaled reward. */
  method BuildGross(p: FormulaParams, bonded: seq<Bonded>) returns (allocs: seq<Alloc>, total: nat)
    ensures allocs == Gross(p, bonded) && total == Total(allocs)
  {
    hide FormulaParams.PerBlockReward;
    allocs, total := [], 0;
    for i := 0 to |bonded|
      invariant allocs + Gross(p, bonded[i..]) == Gross(p, bonded)
      invariant total == Total(allocs)
    {
      var pay := p.PerBlockReward(bonded[i].tokens);
      assert bonded[i..][0] == bonded[i] && bonded[i..][1..] == bonded[i + 1..];
      if pay > 0 {
        TotalAppend(allocs, [Alloc(bonded[i].val, pay)]);
        allocs := allocs + [Alloc(bonded[i].val, pay)];
        total := total + pay;
      }
    }
  }

  method BuildRound(p: FormulaParams, reserve: nat, bonded: seq<Bonded>) returns (allocs: seq<Alloc>, total: nat)
    ensures allocs == Round(p, reserve, bonded) && total == Total(allocs)
  {
    allocs, total := BuildGross(p, bonded);
    var limit := reserve;
    var budget := p.MaxTotalPerBlock();
    if budget > 0 && budget < limit {
      limit := budget;
    }
    if total > limit {
      allocs, total := Rescale(allocs, limit, total);
    }
  }

  lemma {:induction false} TotalAppend(a: seq<Alloc>, b: seq<Alloc>)
    ensures Total(a + b) == Total(a) + Total(b)
  {
    if a == [] {
      assert a + b == b;
    } else {
      assert (a + b)[1..] == a[1..] + b;
      TotalAppend(a[1..], b);
    }
  }

  lemma FloorNear(a: int, t: int)
    requires t > 0
    ensures a - (t - 1) <= (a / t) * t <= a
  {}

  /** Rounding down loses less than one unit per allocation. */
  lemma {:induction false} ScaledTotalNear(allocs: seq<Alloc>, limit: nat, total: nat)
    requires total > 0
    ensures var s := Total(Scaled(allocs, limit, total));
            Total(allocs) * limit - |allocs| * (total - 1) <= s * total <= Total(allocs) * limit
  {
    if allocs != [] {
      ScaledTotalNear(allocs[1..], limit, total);
      FloorNear(allocs[0].amt * limit, total);
      assert Scaled(allocs, limit, total)[1..] == Scaled(allocs[1..], limit, total);
      NearAdds(allocs[0].amt, Total(allocs[1..]), allocs[0].amt * limit / total,
               Total(Scaled(allocs[1..], limit, total)), limit, |allocs| - 1, total);
    }
  }

  lemma NearAdds(a: int, b: int, q: int, s: int, limit: int, n: int, total: int)
    requires a * limit - (total - 1) <= q * total <= a * limit
    requires b * limit - n * (total - 1) <= s * total <= b * limit
    ensures (a + b) * limit - (n + 1) * (total - 1) <= (q + s) * total <= (a + b) * limit
  {
    assert (a + b) * limit == a * limit + b * limit;
    assert (q + s) * total == q * total + s * total;
    assert (n + 1) * (total - 1) == n * (total - 1) + (total - 1);
  }

  lemma Tight(t: int, l: int, n: int, s: int)
    requires t > 0 && n > 0 && t * l - n * (t - 1) <= s * t <= t * l
    ensures l - n < s <= l
  {
    assert (l - n) * t == t * l - n * t;
    assert n * (t - 1) == n * t - n;
    if s > l {
      MulMonotone(l + 1, s, t);
    } else if s <= l - n {
      MulMonotone(s, l - n, t);
    }
  }

  /** A round over its limit L with n allocations comes out in (L - n, L]. */
  lemma ScaledRoundIsTight(p: FormulaParams, reserve: nat, bonded: seq<Bonded>)
    requires Total(Gross(p, bonded)) > Limit(p, reserve)
    ensures var n := |Round(p, reserve, bonded)|; var l := Limit(p, reserve);
            l - n < Total(Round(p, reserve, bonded)) <= l
  {
    var g, l := Gross(p, bonded), Limit(p, reserve);
    ScaledTotalNear(g, l, Total(g));
    ScaledShape(g, l, Total(g));
    Tight(Total(g), l, |g|, Total(Scaled(g, l, Total(g))));
  }

  lemma {:induction false} ScaledShape(allocs: seq<Alloc>, limit: nat, total: nat)
    requires total > 0
    ensures var s := Scaled(allocs, limit, total);
            |s| == |allocs| && forall i :: 0 <= i < |s| ==>
                s[i] == Alloc(allocs[i].val, Share(allocs[i].amt, limit, total))
  {
    if allocs != [] { ScaledShape(allocs[1..], limit, total); }
  }

  /** In every case a round never exceeds the reserve, nor a budget that is set. */
  lemma RoundFits(p: FormulaParams, reserve: nat, bonded: seq<Bonded>)
    ensures Total(Round(p, reserve, bonded)) <= Limit(p, reserve) <= reserve
    ensures p.MaxTotalPerBlock() > 0 ==> Total(Round(p, reserve, bonded)) <= p.MaxTotalPerBlock()
  {
    if Total(Gross(p, bonded)) > Limit(p, reserve) {
      ScaledRoundIsTight(p, reserve, bonded);
    }
  }

  /** What a round pays to a validator. */
  function Paid(allocs: seq<Alloc>, v: Validator): nat {
    if allocs == [] then 0 else (if allocs[0].val == v then allocs[0].amt else 0) + Paid(allocs[1..], v)
  }

  predicate DistinctValidators(bonded: seq<Bonded>) {
    forall i, j | 0 <= i < j < |bonded| :: bonded[i].val != bonded[j].val
  }

  lemma {:induction false} PaidNobodyElse(p: FormulaParams, bonded: seq<Bonded>, v: Validator)
    requires forall i :: 0 <= i < |bonded| ==> bonded[i].val != v
    ensures Paid(Gross(p, bonded), v) == 0
  {
    if bonded != [] {
      PaidNobodyElse(p, bonded[1..], v);
      GrossHead(p, bonded, v);
    }
  }

  lemma GrossHead(p: FormulaParams, bonded: seq<Bonded>, v: Validator)
    requires bonded != []
    ensures Paid(Gross(p, bonded), v) == (if bonded[0].val == v then p.PerBlockReward(bonded[0].tokens) else 0)
                                         + Paid(Gross(p, bonded[1..]), v)
  {
    var pay, rest := p.PerBlockReward(bonded[0].tokens), Gross(p, bonded[1..]);
    if pay > 0 {
      assert Gross(p, bonded)[1..] == rest;
    } else {
      assert Gross(p, bonded) == rest;
    }
  }

  lemma {:induction false} GrossPays(p: FormulaParams, bonded: seq<Bonded>, k: nat)
    requires DistinctValidators(bonded) && k < |bonded|
    ensures Paid(Gross(p, bonded), bonded[k].val) == p.PerBlockReward(bonded[k].tokens)
  {
    GrossHead(p, bonded, bonded[k].val);
    if k == 0 {
      PaidNobodyElse(p, bonded[1..], bonded[0].val);
    } else {
      GrossPays(p, bonded[1..], k - 1);
    }
  }

  /** With one allocation per validator, scaling scales what each is paid. */
  lemma {:induction false} ScaledPays(p: FormulaParams, bonded: seq<Bonded>, limit: nat, total: nat, v: Validator)
    requires DistinctValidators(bonded) && total > 0
    ensures Paid(Scaled(Gross(p, bonded), limit, total), v) == Paid(Gross(p, bonded), v) * limit / total
  {
    if bonded != [] {
      var g, rest := Gross(p, bonded), Gross(p, bonded[1..]);
      ScaledPays(p, bonded[1..], limit, total, v);
      GrossHead(p, bonded, v);
      if g == rest {
        assert p.PerBlockReward(bonded[0].tokens) == 0;
      } else {
        assert g[1..] == rest && g[0].val == bonded[0].val;
        assert Scaled(g, limit, total)[1..] == Scaled(rest, limit, total);
        if g[0].val == v { PaidNobodyElse(p, bonded[1..], v); }
      }
    }
  }

  /** To the unit: a validator is paid its daily reward divided by the blocks of a day; and if the round
      asks for more than there is in the reserve, or in the budget of a block, its part of that. */
  lemma RoundPays(p: FormulaParams, reserve: nat, bonded: seq<Bonded>, k: nat)
    requires DistinctValidators(bonded) && k < |bonded|
    ensures var asked, wanted := Total(Gross(p, bonded)), p.PerBlockReward(bonded[k].tokens);
            var budget := if p.maxTotalPerDay == 0 || p.blocksPerDay == 0 then 0 else p.maxTotalPerDay / p.blocksPerDay;
            var limit := if 0 < budget < reserve then budget else reserve;
            && (p.blocksPerDay > 0 ==> wanted == p.DailyReward(bonded[k].tokens) / p.blocksPerDay)
            && Paid(Round(p, reserve, bonded), bonded[k].val)
                == if asked <= limit then wanted else wanted * limit / asked
  {
    GrossPays(p, bonded, k);
    var t, l := Total(Gross(p, bonded)), Limit(p, reserve);
    if t > l { ScaledPays(p, bonded, l, t, bonded[k].val); }
  }

  /** Nobody is paid more than the per-block reward of the own stake, nor more than the daily cap
      divided by the blocks of a day; and whoever has more stake is never paid less. */
  lemma RoundIsFair(p: FormulaParams, reserve: nat, bonded: seq<Bonded>, i: nat, j: nat)
    requires DistinctValidators(bonded) && i < |bonded| && j < |bonded| && bonded[i].tokens <= bonded[j].tokens
    ensures var r := Round(p, reserve, bonded);
            && Paid(r, bonded[i].val) <= Paid(r, bonded[j].val) <= p.PerBlockReward(bonded[j].tokens)
            && (p.blocksPerDay > 0 ==> Paid(r, bonded[j].val) <= p.capPerDay / p.blocksPerDay)
  {
    MoreStakeEarnsNoLess(p, bonded[i].tokens, bonded[j].tokens);
    GrossPays(p, bonded, i);
    GrossPays(p, bonded, j);
    var g, l := Gross(p, bonded), Limit(p, reserve);
    var t, a, b := Total(g), Paid(g, bonded[i].val), Paid(g, bonded[j].val);
    if t > l {
      ScaledPays(p, bonded, l, t, bonded[i].val);
      ScaledPays(p, bonded, l, t, bonded[j].val);
      MulMonotone(a, b, l);
      DivMonotone(a * l, b * l, t);
      assert b * l <= b * t by { MulMonotone(l, t, b); }
      DivMonotone(b * l, b * t, t);
      assert (b * t) / t == b by { DivMul(b, t); }
    }
  }

  // ---- the aggregate budget over a day ----

  /** The most that any round can pay: unbounded, unless the budget or the rewards are cut to zero. */
  predicate PaysNobody(p: FormulaParams) {
    p.blocksPerDay == 0 || p.capPerDay < p.blocksPerDay || (p.ratePerDay == 0 && p.floorPerDay < p.blocksPerDay)
  }

  lemma PaysNobodyMeans(p: FormulaParams, stake: int)
    requires PaysNobody(p)
    ensures p.PerBlockReward(stake) == 0
  {
    if p.blocksPerDay > 0 && stake > 0 {
      if p.ratePerDay == 0 { assert stake * p.ratePerDay == 0; }
      assert p.DailyReward(stake) < p.blocksPerDay;
    }
  }

  lemma {:induction false} NobodyIsPaid(p: FormulaParams, bonded: seq<Bonded>)
    requires PaysNobody(p)
    ensures Gross(p, bonded) == []
  {
    if bonded != [] {
      PaysNobodyMeans(p, bonded[0].tokens);
      NobodyIsPaid(p, bonded[1..]);
    }
  }

  /** A stake that is paid something every block. */
  lemma SomebodyIsPaid(p: FormulaParams, stake: int)
    requires !PaysNobody(p) && stake == ONE * p.capPerDay
    ensures p.PerBlockReward(stake) > 0
  {
    var x := stake * p.ratePerDay / ONE;
    if p.ratePerDay > 0 {
      assert stake * p.ratePerDay == (p.capPerDay * p.ratePerDay) * ONE;
      DivMul(p.capPerDay * p.ratePerDay, ONE);
      MulMonotone(1, p.ratePerDay, p.capPerDay);
      assert x >= p.capPerDay;
    }
    assert p.DailyReward(stake) >= p.blocksPerDay;
    DivMonotone(p.blocksPerDay, p.DailyReward(stake), p.blocksPerDay);
  }

  datatype Block = Block(reserve: nat, bonded: seq<Bonded>)

  /** What the rounds of some blocks pay out, whatever the reserve and the validators of each. */
  function Drain(p: FormulaParams, blocks: seq<Block>): nat {
    if blocks == [] then 0 else Total(Round(p, blocks[0].reserve, blocks[0].bonded)) + Drain(p, blocks[1..])
  }

  lemma {:induction false} DrainWithinBudgets(p: FormulaParams, blocks: seq<Block>)
    requires p.MaxTotalPerBlock() > 0
    ensures Drain(p, blocks) <= |blocks| * p.MaxTotalPerBlock()
  {
    hide Round;
    if blocks != [] {
      var n, b := |blocks| - 1, p.MaxTotalPerBlock();
      RoundFits(p, blocks[0].reserve, blocks[0].bonded);
      DrainWithinBudgets(p, blocks[1..]);
      hide FormulaParams.MaxTotalPerBlock;
      assert (n + 1) * b == n * b + b;
    }
  }

  /** The budgets of at most a day of blocks stay within the budget of a day. */
  lemma DayOfBudgets(p: FormulaParams, n: nat)
    requires p.maxTotalPerDay >= p.blocksPerDay > 0 && n <= p.blocksPerDay
    ensures p.MaxTotalPerBlock() > 0 && n * p.MaxTotalPerBlock() <= p.maxTotalPerDay
  {
    var b, m := p.blocksPerDay, p.maxTotalPerDay;
    DivMonotone(b, m, b);
    DivMul(1, b);
    FloorNear(m, b);
    MulMonotone(n, b, m / b);
  }

  lemma {:induction false} NobodyDrains(p: FormulaParams, blocks: seq<Block>)
    requires PaysNobody(p)
    ensures Drain(p, blocks) == 0
  {
    if blocks != [] {
      NobodyIsPaid(p, blocks[0].bonded);
      NobodyDrains(p, blocks[1..]);
    }
  }

  /** So many validators with the same stake. */
  function Crowd(n: nat, stake: int): seq<Bonded> {
    if n == 0 then [] else [Bonded(seq(n, i => 'v'), stake)] + Crowd(n - 1, stake)
  }

  lemma {:induction false} CrowdIsPaid(p: FormulaParams, n: nat, stake: int)
    requires p.PerBlockReward(stake) > 0
    ensures Total(Gross(p, Crowd(n, stake))) >= n
  {
    if n > 0 {
      var crowd, pay := Crowd(n, stake), p.PerBlockReward(stake);
      CrowdIsPaid(p, n - 1, stake);
      assert crowd[1..] == Crowd(n - 1, stake);
      assert Gross(p, crowd) == [Alloc(crowd[0].val, pay)] + Gross(p, crowd[1..]);
      assert Gross(p, crowd)[1..] == Gross(p, crowd[1..]);
    }
  }

  lemma {:induction false} CrowdIsDistinct(n: nat, stake: int)
    ensures DistinctValidators(Crowd(n, stake))
    ensures forall i :: 0 <= i < |Crowd(n, stake)| ==> |Crowd(n, stake)[i].val| <= n
  {
    if n > 0 { CrowdIsDistinct(n - 1, stake); }
  }

  ghost predicate KeepsDailyBudget(p: FormulaParams) {
    forall blocks: seq<Block> ::
      |blocks| <= p.blocksPerDay && (forall i :: 0 <= i < |blocks| ==> DistinctValidators(blocks[i].bonded)) ==>
        Drain(p, blocks) <= p.maxTotalPerDay
  }

  /** The aggregate budget of a day holds over any blocks of a day exactly if it is at least one unit
      per block, or nobody is ever paid anything. Below that its share of a block rounds down to zero,
      which stands for no budget at all. */
  lemma DailyBudgetIff(p: FormulaParams)
    requires p.Valid() && p.maxTotalPerDay > 0
    ensures KeepsDailyBudget(p) <==> p.maxTotalPerDay >= p.blocksPerDay || PaysNobody(p)
  {
    var m, b := p.maxTotalPerDay, p.blocksPerDay;
    if m >= b {
      forall blocks: seq<Block> | |blocks| <= b ensures Drain(p, blocks) <= m {
        DayOfBudgets(p, |blocks|);
        DrainWithinBudgets(p, blocks);
      }
    } else if PaysNobody(p) {
      forall blocks: seq<Block> ensures Drain(p, blocks) <= m { NobodyDrains(p, blocks); }
    } else {
      var stake := ONE * p.capPerDay;
      var crowd := Crowd(m + 1, stake);
      SomebodyIsPaid(p, stake);
      CrowdIsPaid(p, m + 1, stake);
      CrowdIsDistinct(m + 1, stake);
      DivIs(m, b, 0, m);
      var total := Total(Gross(p, crowd));
      var blocks := [Block(total, crowd)];
      assert blocks[1..] == [];
      assert Drain(p, blocks) == Total(Round(p, total, crowd)) == total > m;
      assert !KeepsDailyBudget(p);
    }
  }

  /** Nothing exotic is needed for that: under the default rates, with any budget below 28,800 units a
      day, one validator with 1,000 GMB is paid more than the budget of a day in a single block. */
  lemma TinyBudgetIsNoBudget(budget: nat)
    requires 0 < budget < 28_800
    ensures var p := DEFAULT.(maxTotalPerDay := budget);
            p.Valid() && Total(Round(p, 20_000_000 * ONE, [Bonded("v", 1_000 * ONE)])) > budget
  {
    var p, bonded := DEFAULT.(maxTotalPerDay := budget), [Bonded("v", 1_000 * ONE)];
    var pay := 347_222_222_222_222;
    assert p.PerBlockReward(1_000 * ONE) == pay;
    assert bonded[1..] == [] && [Alloc("v", pay)][1..] == [];
    assert Gross(p, bonded) == [Alloc("v", pay)];
    assert Total([Alloc("v", pay)]) == pay + Total([]);
    assert p.MaxTotalPerBlock() == 0;
    assert Round(p, 20_000_000 * ONE, bonded) == [Alloc("v", pay)];
  }
}
