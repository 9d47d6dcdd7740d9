/** The x/valgate keeper: governance params, the per-validator daily counter, and the one place where
    the daily bond cap is decided. The block day is an argument of every call, as it is a property of
    the context the program passes in. */
module DailyBond {
  import opened Wrappers
  import opened MessageTree

  const ONE_GMB: int := 1_000_000_000_000_000_000
  const DEFAULT_MIN_SELF_BOND: int := 1000 * ONE_GMB
  const DEFAULT_MAX_SELF_BOND: int := 10000 * ONE_GMB
  const DEFAULT_MAX_DAILY_BOND: int := 50 * ONE_GMB
  const NO_CAP_REMAINING: int := 0xFFFF_FFFF_FFFF_FFFF

  /** None stands for a nil integer: a field the stored bytes do not carry. */
  datatype Params = Params(minSelfBond: Option<int>, maxSelfBond: Option<int>, maxDaily: Option<int>)

  datatype Counter = Counter(day: nat, used: int)

  datatype Error = OverDailyCap(limit: int, used: int) | BadParams

  const DEFAULT_PARAMS: Params :=
    Params(Some(DEFAULT_MIN_SELF_BOND), Some(DEFAULT_MAX_SELF_BOND), Some(DEFAULT_MAX_DAILY_BOND))

  /** What is read back: the launch params if nothing was stored, and a default for each cap that is
      missing from what was stored. */
  function Effective(stored: Option<Params>): Params {
    if stored.None? then DEFAULT_PARAMS
    else stored.value.(
         maxSelfBond := if stored.value.maxSelfBond.None? then Some(DEFAULT_MAX_SELF_BOND)
             else stored.value.maxSelfBond,
         maxDaily := if stored.value.maxDaily.None? then Some(DEFAULT_MAX_DAILY_BOND) else stored.value.maxDaily)
  }

  /** The daily cap in force; zero or less means that there is none. */
  function Limit(stored: Option<Params>): int {
    var p := Effective(stored);
    p.maxDaily.value
  }

  predicate ValidParams(p: Params) {
    && p.minSelfBond.Some? && p.minSelfBond.value >= 0
    && (p.maxSelfBond.Some? ==>
          p.maxSelfBond.value >= 0 && (p.maxSelfBond.value > 0 ==> p.maxSelfBond.value >= p.minSelfBond.value))
    && (p.maxDaily.Some? ==> p.maxDaily.value >= 0)
  }

  function Used(counters: map<Val, Counter>, v: Val, day: nat): int {
    if v in counters && counters[v].day == day then counters[v].used else 0
  }

  predicate WithinCap(limit: int, counters: map<Val, Counter>, v: Val, amount: int, day: nat) {
    limit <= 0 || Used(counters, v, day) + amount <= limit
  }

  function Charged(limit: int, counters: map<Val, Counter>, v: Val, amount: int, day: nat): map<Val, Counter> {
    if limit <= 0 then counters else counters[v := Counter(day, Used(counters, v, day) + amount)]
  }

  /** All of `incs`, one after the other; None if one of them does not fit. */
  function ChargeAll(limit: int, counters: map<Val, Counter>, incs: seq<Increase>, day: nat): Option<map<Val, Counter>>
    decreases |incs|
  {
    if incs == [] then Some(counters)
    else if !WithinCap(limit, counters, incs[0].val, incs[0].amount, day) then None
    else ChargeAll(limit, Charged(limit, counters, incs[0].val, incs[0].amount, day), incs[1..], day)
  }

  function Remaining(limit: int, counters: map<Val, Counter>, v: Val, day: nat): int {
    if limit <= 0 then NO_CAP_REMAINING
    else if limit - Used(counters, v, day) < 0 then 0
    else limit - Used(counters, v, day)
  }

  class Keeper {
    var stored: Option<Params>
    var counters: map<Val, Counter>

    constructor ()
      ensures stored == None && counters == map[]
    {
      stored, counters := None, map[];
    }

    method SetParams(p: Params) returns (ok: bool)
      modifies this`stored
      ensures ok == ValidParams(p)
      ensures stored == if ok then Some(p) else old(stored)
    {
      if p.minSelfBond.None? || p.minSelfBond.value < 0 {
        return false;
      }
      if p.maxSelfBond.Some? {
        if p.maxSelfBond.value < 0 {
          return false;
        }
        if p.maxSelfBond.value > 0 && p.maxSelfBond.value < p.minSelfBond.value {
          return false;
        }
      }
      if p.maxDaily.Some? && p.maxDaily.value < 0 {
        return false;
      }
      stored := Some(p);
      return true;
    }

    method Inspect(v: Val, amount: int, day: nat) returns (r: Result<(int, int), Error>)
      ensures r.Ok? <==> WithinCap(Limit(stored), counters, v, amount, day)
      ensures r.Ok? ==> r.value.0 == Limit(stored)
                        && r.value.1 == if r.value.0 <= 0 then 0 else Used(counters, v, day)
      ensures r.Err? ==> r.error == OverDailyCap(Limit(stored), Used(counters, v, day))
    {
      var limit := Limit(stored);
      if limit <= 0 {
        return Ok((limit, 0));
      }
      var used := Used(counters, v, day);
      if used + amount > limit {
        return Err(OverDailyCap(limit, used));
      }
      return Ok((limit, used));
    }

    method CheckAndRecordDailyBond(v: Val, amount: int, day: nat) returns (ok: bool)
      modifies this`counters
      ensures ok == WithinCap(Limit(stored), old(counters), v, amount, day)
      ensures counters == if ok then Charged(Limit(stored), old(counters), v, amount, day) else old(counters)
    {
      var r := Inspect(v, amount, day);
      if r.Err? {
        return false;
      }
      var (limit, used) := r.value;
      if limit <= 0 {
        return true;
      }
      counters := counters[v := Counter(day, used + amount)];
      return true;
    }

    method CheckDailyBond(v: Val, amount: int, day: nat) returns (ok: bool)
      ensures ok == WithinCap(Limit(stored), counters, v, amount, day)
    {
      var r := Inspect(v, amount, day);
      return r.Ok?;
    }

    method RemainingDailyBond(v: Val, day: nat) returns (r: int)
      ensures r == Remaining(Limit(stored), counters, v, day)
      ensures Limit(stored) <= 0 ==> r == 0xFFFF_FFFF_FFFF_FFFF
      ensures Limit(stored) > 0 ==>
                forall amount :: amount > 0 ==> (WithinCap(Limit(stored), counters, v, amount, day) <==> amount <= r)
    {
      var limit := Limit(stored);
      if limit <= 0 {
        return NO_CAP_REMAINING;
      }
      var rem := limit - Used(counters, v, day);
      if rem < 0 {
        return 0;
      }
      return rem;
    }
  }

  // ---- what the counter guarantees ----

  /** A charge is seen only by its own validator, only on its own day. */
  lemma ChargeIsLocal(limit: int, counters: map<Val, Counter>, v: Val, amount: int, day: nat)
    requires limit > 0
    ensures Used(Charged(limit, counters, v, amount, day), v, day) == Used(counters, v, day) + amount
    ensures forall w, d :: w != v ==>
              Used(Charged(limit, counters, v, amount, day), w, d) == Used(counters, w, d)
    ensures forall d :: d != day ==> Used(Charged(limit, counters, v, amount, day), v, d) == 0
  {}

  /** The ante and the post-handler agree. The ante asks about every entry against the state before
      any is charged, the post-handler charges them in turn; on a list holding each validator once
      the one passes if and only if the other does. */
  lemma {:induction false} AnteAgreesWithPost(limit: int, counters: map<Val, Counter>, incs: seq<Increase>, day: nat)
    requires Distinct(incs)
    ensures ChargeAll(limit, counters, incs, day).Some? <==>
            forall i :: 0 <= i < |incs| ==> WithinCap(limit, counters, incs[i].val, incs[i].amount, day)
    decreases |incs|
  {
    if incs != [] && WithinCap(limit, counters, incs[0].val, incs[0].amount, day) {
      var c, rest := Charged(limit, counters, incs[0].val, incs[0].amount, day), incs[1..];
      AnteAgreesWithPost(limit, c, rest, day);
      assert forall i :: 0 <= i < |rest| ==> rest[i] == incs[i + 1] && rest[i].val != incs[0].val;
      if forall i :: 0 <= i < |rest| ==> WithinCap(limit, c, rest[i].val, rest[i].amount, day) {
        forall i | 0 <= i < |incs|
          ensures WithinCap(limit, counters, incs[i].val, incs[i].amount, day)
        {
          assert i > 0 ==> incs[i] == rest[i - 1];
        }
      }
    }
  }

  /** Without the merge the two would disagree: two thirty-GMB entries for one validator each fit
      the default cap of fifty on their own, but not one after the other. */
  lemma UnmergedListSplitsTheTwo(v: Val, day: nat)
    ensures var incs := [Increase(v, 30 * ONE_GMB), Increase(v, 30 * ONE_GMB)];
            && (forall i :: 0 <= i < |incs| ==> WithinCap(Limit(None), map[], v, incs[i].amount, day))
            && ChargeAll(Limit(None), map[], incs, day).None?
  {
    var incs := [Increase(v, 30 * ONE_GMB), Increase(v, 30 * ONE_GMB)];
    var c := Charged(Limit(None), map[], v, 30 * ONE_GMB, day);
    assert incs[1..] == [Increase(v, 30 * ONE_GMB)];
    assert !WithinCap(Limit(None), c, v, 30 * ONE_GMB, day);
  }

  /** An auto-compound that clamps to the remaining allowance is refused exactly when it asks for
      more, provided there is a cap. Without one everything passes while the reported allowance
      stays at 2^64 - 1 base units, so the report is exact only up to there. */
  lemma RemainingIsExactIff(limit: int, counters: map<Val, Counter>, v: Val, amount: int, day: nat)
    requires amount > 0
    ensures (WithinCap(limit, counters, v, amount, day) <==> amount <= Remaining(limit, counters, v, day))
            <==> (limit > 0 || amount <= NO_CAP_REMAINING)
  {}

  /** 2^64 - 1 base units is under nineteen GMB: with the cap lifted the reported allowance is
      smaller than under the default cap of fifty. */
  lemma NoCapReportsLessThanDefault(counters: map<Val, Counter>, v: Val, day: nat)
    requires Used(counters, v, day) == 0
    ensures Remaining(0, counters, v, day) < 19 * ONE_GMB < Remaining(DEFAULT_MAX_DAILY_BOND, counters, v, day)
    ensures WithinCap(0, counters, v, 19 * ONE_GMB, day)
  {}
}
