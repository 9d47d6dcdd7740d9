/** The modules of the money chain on one bank, and the begin block that runs them in a given order. */
module App {
  import opened Wrappers
  import opened Bank
  import opened Formula
  import opened Streams
  import MoneyRun
  import Wiring

  class Modules {
    const bank: BankKeeper
    const split: FeeSplit
    const rewards: RewardStreamer
    const tail: TailReward

    constructor (bank: BankKeeper, split: SplitParams, reward: StreamParams, formula: FormulaParams,
        tail: StreamParams, wired: bool)
      ensures Valid() && this.bank == bank && fresh(this.split) && fresh(rewards) && fresh(this.tail)
      ensures View() == Money(bank.balances, map[])
      ensures Config() == MoneyRun.Config(split, reward, formula, tail, wired)
    {
      this.bank := bank;
      this.split := new FeeSplit(bank, split);
      rewards := new RewardStreamer(bank, wired, reward, formula);
      this.tail := new TailReward(bank, tail);
    }

    /** All modules work on the same bank. */
    ghost predicate Valid() {
      split.bank == bank && rewards.bank == bank && tail.bank == bank
    }

    ghost function View(): Money
      reads rewards, rewards.bank
    {
      rewards.View()
    }

    ghost function Config(): MoneyRun.Config
      reads split, rewards, tail
    {
      MoneyRun.Config(split.params, rewards.params, rewards.formula, tail.params, rewards.wired)
    }

    /** Refuses to start with an order that is not accepted. */
    method Start(order: seq<string>) returns (refusal: Option<Wiring.OrderError>)
      ensures refusal.None? <==> Wiring.Accepted(order)
    {
      refusal := Wiring.ValidateBeginBlockOrder(order);
    }

    /** Runs every module of the list; those outside the money chain do nothing here. */
    method BeginBlock(order: seq<string>, env: MoneyRun.Env)
      requires Valid()
      modifies bank, rewards`credited
      ensures View() == MoneyRun.BeginBlock(old(View()), order, Config(), env)
    {
      hide Reward;
      hide SplitFees;
      hide Stream;
      assert order[..0] == [];
      for i := 0 to |order|
        invariant View() == MoneyRun.BeginBlock(old(View()), order[..i], Config(), env)
      {
        assert order[..i + 1][..i] == order[..i];
        RunOne(order[i], env);
      }
      assert order[..|order|] == order;
    }

    method RunOne(name: string, env: MoneyRun.Env)
      requires Valid()
      modifies bank, rewards`credited
      ensures View() == MoneyRun.RunModule(old(View()), name, Config(), env)
    {
      hide Reward;
      hide SplitFees;
      hide Stream;
      hide Move;
      if name == MoneyRun.FEESPLIT {
        split.BeginBlock(env.splitBlocked);
      } else if name == MoneyRun.REWARDSTREAMER {
        rewards.BeginBlock(env.round);
      } else if name == MoneyRun.TAILREWARD {
        tail.BeginBlock(env.round.height, env.tailBlocked);
      } else if name == MoneyRun.DISTR {
        if env.round.height > 1 {
          var _ := bank.Send(FEE_COLLECTOR, DISTRIBUTION, Held(bank.balances, FEE_COLLECTOR));
        }
      }
    }
  }
}
