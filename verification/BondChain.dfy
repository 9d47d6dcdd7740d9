/** The same transactions as the node runs them: handlers writing to the keeper's store, in a branch
    that is saved first and put back when anything in it fails. */
module BondChain {
  import opened Wrappers
  import opened MessageTree
  import opened DailyBond
  import BondRun

  class Chain {
    const keeper: Keeper
    var log: seq<BondRun.Bond>
    var day: nat

    ghost function Store(): BondRun.Store
      reads this, keeper
    {
      BondRun.Store(keeper.stored, keeper.counters, log)
    }

    ghost function View(): BondRun.World
      reads this, keeper
    {
      BondRun.World(Store(), day)
    }

    constructor (day: nat)
      ensures View() == BondRun.Genesis(day) && fresh(keeper)
    {
      keeper := new Keeper();
      this.day := day;
      log := [];
    }

    /** The wrapper around the staking message server. A refusal by the inner server leaves the charge
        behind; undoing it is the caller's business. */
    method PrecompileStake(dst: Option<Val>, amount: Option<int>, accepted: bool) returns (ok: bool)
      modifies this`log, keeper`counters
      ensures var step := Stake(dst, amount, accepted);
              ok ==> Store() == BondRun.RunStake(old(Store()), step, day) != old(Store())
      ensures !ok ==> log == old(log)
                      && BondRun.RunStake(old(Store()), Stake(dst, amount, accepted), day) == old(Store())
      ensures ok <==> && accepted && dst.Some? && amount.Some? && amount.value > 0
                      && (Limit(keeper.stored) <= 0
                          || Used(old(keeper.counters), dst.value, day) + amount.value <= Limit(keeper.stored))
      ensures ok ==> && log == old(log) + [BondRun.Bond(day, dst.value, amount.value, Limit(keeper.stored))]
                     && (Limit(keeper.stored) > 0 ==>
                           Used(keeper.counters, dst.value, day) <= Limit(keeper.stored)
                           && Used(keeper.counters, dst.value, day)
                              == Used(old(keeper.counters), dst.value, day) + amount.value)
    {
      if dst.Some? && amount.Some? {
        var charged := keeper.CheckAndRecordDailyBond(dst.value, amount.value, day);
        if !charged {
          return false;
        }
      }
      if dst.None? || amount.None? || amount.value <= 0 || !accepted {
        return false;
      }
      log := log + [BondRun.Bond(day, dst.value, amount.value, Limit(keeper.stored))];
      assert |log| > |old(log)|;
      return true;
    }

    method RunFrame(f: Frame)
      modifies this`log, keeper`counters
      ensures Store() == BondRun.RunFrame(old(Store()), f, day)
      ensures f.reverts ==> Store() == old(Store())
      decreases f
    {
      var savedLog, savedCounters := log, keeper.counters;
      for i := 0 to |f.steps|
        invariant keeper.stored == old(keeper.stored)
        invariant BondRun.RunSteps(Store(), f.steps[i..], day) == BondRun.RunSteps(old(Store()), f.steps, day)
      {
        var step := f.steps[i];
        assert f.steps[i..][0] == step && f.steps[i..][1..] == f.steps[i + 1..];
        match step {
          case Call(callee) =>
            assert callee < step;
            RunFrame(callee);
          case Stake(dst, amount, accepted) =>
            var counters := keeper.counters;
            var ok := PrecompileStake(dst, amount, accepted);
            if !ok {
              keeper.counters := counters;
            }
        }
      }
      if f.reverts {
        log, keeper.counters := savedLog, savedCounters;
      }
    }

    /** Runs messages until one fails. What was written up to there is left for the caller to drop. */
    method RunMsgs(msgs: seq<Msg>) returns (ok: bool)
      modifies this`log, keeper`counters
      ensures ok == BondRun.Stakeable(msgs)
      ensures ok ==> Store() == BondRun.RunMsgs(old(Store()), msgs, day)
      decreases msgs
    {
      for i := 0 to |msgs|
        invariant keeper.stored == old(keeper.stored)
        invariant BondRun.Stakeable(msgs) == BondRun.Stakeable(msgs[i..])
        invariant BondRun.RunMsgs(Store(), msgs[i..], day) == BondRun.RunMsgs(old(Store()), msgs, day)
      {
        var m := msgs[i];
        assert msgs[i..][0] == m && msgs[i..][1..] == msgs[i + 1..];
        if m.Delegate? || m.BeginRedelegate? {
          if m.dst.None? || m.amount.None? || m.amount.value <= 0 {
            return false;
          }
          log := log + [BondRun.Bond(day, m.dst.value, m.amount.value, Limit(keeper.stored))];
        } else if m.UndecodableExec? {
          return false;
        } else if m.Exec? {
          var sub := RunMsgs(m.inner);
          if !sub {
            return false;
          }
        } else if m.Evm? {
          RunFrame(m.frame);
        }
      }
      return true;
    }

    method AnteHandle(msgs: seq<Msg>, simulate: bool) returns (ok: bool)
      ensures ok == BondRun.AntePasses(Store(), msgs, simulate, day)
    {
      var p := Effective(keeper.stored);
      if p.minSelfBond.None? {
        return false;
      }
      var fault := CheckMsgs(msgs, p.minSelfBond.value, p.maxSelfBond.value, 0);
      if fault.Some? {
        return false;
      }
      if !simulate {
        AcceptedIsCollectable(msgs, Bounds(p.minSelfBond.value, p.maxSelfBond.value), 0);
        var incs := CollectBondIncreases(msgs, [], 0);
        if incs.Err? {
          return false;
        }
        for i := 0 to |incs.value|
          invariant forall k :: 0 <= k < i ==>
                      WithinCap(Limit(keeper.stored), keeper.counters, incs.value[k].val, incs.value[k].amount, day)
        {
          var fits := keeper.CheckDailyBond(incs.value[i].val, incs.value[i].amount, day);
          if !fits {
            assert incs.value[i] == BondRun.Increases(msgs)[i];
            return false;
          }
        }
      }
      return true;
    }

    /** The authoritative charge. When it fails, some of the increases may already be charged. */
    method PostHandle(msgs: seq<Msg>, simulate: bool, success: bool) returns (ok: bool)
      modifies keeper`counters
      ensures simulate || !success ==> ok && keeper.counters == old(keeper.counters)
      ensures !simulate && success ==>
                var c := ChargeAll(Limit(keeper.stored), old(keeper.counters), BondRun.Increases(msgs), day);
                && ok == (Verdict(msgs, None, 0).None? && c.Some?)
                && (ok ==> keeper.counters == c.value)
    {
      if !simulate && success {
        var incs := CollectBondIncreases(msgs, [], 0);
        if incs.Err? {
          return false;
        }
        var limit := Limit(keeper.stored);
        for i := 0 to |incs.value|
          invariant ChargeAll(limit, keeper.counters, incs.value[i..], day)
                 == ChargeAll(limit, old(keeper.counters), incs.value, day)
        {
          assert incs.value[i..][1..] == incs.value[i + 1..];
          var charged := keeper.CheckAndRecordDailyBond(incs.value[i].val, incs.value[i].amount, day);
          if !charged {
            return false;
          }
        }
      }
      return true;
    }

    /** A delivered transaction: all of it, or nothing. */
    method DeliverTx(msgs: seq<Msg>, execOk: bool) returns (ok: bool)
      modifies this`log, keeper`counters
      ensures View() == BondRun.Next(old(View()), BondRun.Deliver(msgs, execOk))
      ensures ok == BondRun.Committed(old(Store()), msgs, execOk, day).Some?
      ensures !ok ==> View() == old(View())
      ensures !execOk || !BondRun.Stakeable(msgs) ==> !ok && View() == old(View())
    {
      var passed := AnteHandle(msgs, false);
      if !passed {
        return false;
      }
      var savedLog, savedCounters := log, keeper.counters;
      var ran := RunMsgs(msgs);
      if execOk && ran {
        ghost var p := Effective(keeper.stored);
        AcceptedIsCollectable(msgs, Bounds(p.minSelfBond.value, p.maxSelfBond.value), 0);
        ghost var t := Store();
        BondRun.MsgsEffect(old(Store()), msgs, day);
        ok := PostHandle(msgs, false, true);
        if ok {
          return true;
        }
      }
      log, keeper.counters := savedLog, savedCounters;
      return false;
    }

    /** A simulation skips the cap in the ante and the charge in the post-handler, and keeps nothing. */
    method Simulate(msgs: seq<Msg>, execOk: bool) returns (ok: bool)
      modifies this`log, keeper`counters
      ensures View() == old(View()) == BondRun.Next(old(View()), BondRun.Simulate(msgs, execOk))
      ensures ok == (BondRun.AntePasses(Store(), msgs, true, day) && execOk && BondRun.Stakeable(msgs))
    {
      ok := AnteHandle(msgs, true);
      if ok {
        var savedLog, savedCounters := log, keeper.counters;
        ok := RunMsgs(msgs);
        ok := ok && execOk;
        var charged := PostHandle(msgs, true, ok);
        log, keeper.counters := savedLog, savedCounters;
      }
    }

    method EthCall(frame: Frame)
      modifies this`log, keeper`counters
      ensures View() == old(View()) == BondRun.Next(old(View()), BondRun.EthCall(frame))
    {
      var savedLog, savedCounters := log, keeper.counters;
      RunFrame(frame);
      log, keeper.counters := savedLog, savedCounters;
    }

    method Govern(p: Params) returns (ok: bool)
      modifies keeper`stored
      ensures View() == BondRun.Next(old(View()), BondRun.Govern(p)) && ok == ValidParams(p)
    {
      ok := keeper.SetParams(p);
    }

    method BeginBlock(daysPassed: nat)
      modifies this`day
      ensures View() == BondRun.Next(old(View()), BondRun.NewBlock(daysPassed))
    {
      day := day + daysPassed;
    }
  }
}
