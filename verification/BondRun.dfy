/** Transactions over the daily bond cap: the ante, the messages and the post-handler share a branch
    of the store that is kept or dropped as a whole, and the staking precompile charges on its own
    from inside EVM frames that may revert. */
module BondRun {
  import opened Wrappers
  import opened MessageTree
  import opened DailyBond

  /** One committed stake increase, stamped with the day and the cap in force when it happened. */
  datatype Bond = Bond(day: nat, val: Val, amount: int, cap: int)

  datatype Store = Store(stored: Option<Params>, counters: map<Val, Counter>, log: seq<Bond>)

  datatype World = World(store: Store, day: nat)

  datatype Event =
    | Deliver(msgs: seq<Msg>, execOk: bool)
    | CheckTx(msgs: seq<Msg>)
    | Simulate(msgs: seq<Msg>, execOk: bool)
    | EthCall(frame: Frame)
    | Govern(params: Params)
    | NewBlock(daysPassed: nat)

  /** What was bonded to `v` on `day` while a cap was in force... */
  function Capped(log: seq<Bond>, day: nat, v: Val): int {
    if log == [] then 0
    else
      var e := log[|log| - 1];
      Capped(log[..|log| - 1], day, v) + (if e.day == day && e.val == v && e.cap > 0 then e.amount else 0)
  }

  /** ... and in all. */
  function Total(log: seq<Bond>, day: nat, v: Val): int {
    if log == [] then 0
    else
      var e := log[|log| - 1];
      Total(log[..|log| - 1], day, v) + (if e.day == day && e.val == v then e.amount else 0)
  }

  // ---- execution ----

  /** Staking refuses an address that does not parse and an amount that is nil or not positive. */
  predicate Stakeable(msgs: seq<Msg>)
    decreases msgs
  {
    msgs == []
    || (var m := msgs[0];
        && (m.Delegate? || m.BeginRedelegate? ==> m.dst.Some? && m.amount.Some? && m.amount.value > 0)
        && !m.UndecodableExec?
        && (m.Exec? ==> Stakeable(m.inner))
        && Stakeable(msgs[1..]))
  }

  function Bonded(s: Store, v: Val, amount: int, day: nat): Store {
    s.(log := s.log + [Bond(day, v, amount, Limit(s.stored))])
  }

  /** A precompile call: charge first, then delegate; the journal undoes the charge if that fails. */
  function RunStake(s: Store, step: EvmStep, day: nat): Store
    requires step.Stake?
  {
    if step.dst.None? || step.amount.None? || step.amount.value <= 0 || !step.accepted then s
    else if !WithinCap(Limit(s.stored), s.counters, step.dst.value, step.amount.value, day) then s
    else
      var c := Charged(Limit(s.stored), s.counters, step.dst.value, step.amount.value, day);
      Bonded(s.(counters := c), step.dst.value, step.amount.value, day)
  }

  function RunFrame(s: Store, f: Frame, day: nat): Store
    decreases f
  {
    if f.reverts then s else RunSteps(s, f.steps, day)
  }

  function RunSteps(s: Store, steps: seq<EvmStep>, day: nat): Store
    decreases steps
  {
    if steps == [] then s
    else if steps[0].Call? then
      assert steps[0].callee < steps[0];
      RunSteps(RunFrame(s, steps[0].callee, day), steps[1..], day)
    else RunSteps(RunStake(s, steps[0], day), steps[1..], day)
  }

  function RunMsgs(s: Store, msgs: seq<Msg>, day: nat): Store
    decreases msgs
  {
    if msgs == [] then s
    else if msgs[0].Exec? then RunMsgs(RunMsgs(s, msgs[0].inner, day), msgs[1..], day)
    else RunMsgs(RunSingle(s, msgs[0], day), msgs[1..], day)
  }

  /** A message that carries no other messages. */
  function RunSingle(s: Store, m: Msg, day: nat): Store {
    if m.Evm? then RunFrame(s, m.frame, day)
    else if Own(m) == [] then s
    else Bonded(s, Own(m)[0].val, Own(m)[0].amount, day)
  }

  function Increases(msgs: seq<Msg>): seq<Increase> {
    Merge([], Flatten(msgs))
  }

  predicate AntePasses(s: Store, msgs: seq<Msg>, simulate: bool, day: nat) {
    var p := Effective(s.stored);
    && p.minSelfBond.Some?
    && Verdict(msgs, Some(Bounds(p.minSelfBond.value, p.maxSelfBond.value)), 0).None?
    && (simulate || forall i :: 0 <= i < |Increases(msgs)| ==>
          WithinCap(Limit(s.stored), s.counters, Increases(msgs)[i].val, Increases(msgs)[i].amount, day))
  }

  /** The store a delivered transaction commits, or None if it commits nothing. */
  function Committed(s: Store, msgs: seq<Msg>, execOk: bool, day: nat): Option<Store> {
    if !AntePasses(s, msgs, false, day) || !execOk || !Stakeable(msgs) then None
    else
      var t := RunMsgs(s, msgs, day);
      var c := ChargeAll(Limit(t.stored), t.counters, Increases(msgs), day);
      if c.None? then None else Some(t.(counters := c.value))
  }

  function Next(w: World, e: Event): World {
    match e
    case Deliver(msgs, execOk) =>
      var t := Committed(w.store, msgs, execOk, w.day);
      if t.Some? then w.(store := t.value) else w
    case Govern(p) => if ValidParams(p) then w.(store := w.store.(stored := Some(p))) else w
    case NewBlock(d) => w.(day := w.day + d)
    case _ => w
  }

  function Run(w: World, events: seq<Event>): World {
    if events == [] then w else Next(Run(w, events[..|events| - 1]), events[|events| - 1])
  }

  function Genesis(day: nat): World {
    World(Store(None, map[], []), day)
  }

  // ---- what running messages does to counters and ledger ----

  /** From `s` to `t` the ledger only grew; on every validator it outgrew the counter by exactly the
      increases `incs`, still to be charged; and whoever gained stake is either among those or has a
      counter within the cap. */
  ghost predicate Effect(s: Store, t: Store, incs: seq<Increase>, day: nat) {
    var cap := Limit(s.stored);
    && t.stored == s.stored
    && |s.log| <= |t.log| && t.log[..|s.log|] == s.log
    && (forall k :: |s.log| <= k < |t.log| ==>
          t.log[k].day == day && t.log[k].amount > 0 && t.log[k].cap == cap)
    && (forall v :: Capped(t.log, day, v) - Used(t.counters, v, day)
                    == Capped(s.log, day, v) - Used(s.counters, v, day) + (if cap > 0 then SumFor(incs, v) else 0))
    && (forall v :: Used(t.counters, v, day) == Used(s.counters, v, day) || Used(t.counters, v, day) <= cap)
    && (cap > 0 ==> forall k :: |s.log| <= k < |t.log| ==>
          t.log[k].val in Vals(incs) || Used(t.counters, t.log[k].val, day) <= cap)
    && (forall v :: v in t.counters ==>
          t.counters[v].day == day || (v in s.counters && t.counters[v] == s.counters[v]))
  }

  lemma SumsAdd(a: seq<Increase>, b: seq<Increase>)
    ensures forall v :: SumFor(a + b, v) == SumFor(a, v) + SumFor(b, v)
    ensures Vals(a + b) == Vals(a) + Vals(b)
  {
    forall v ensures SumFor(a + b, v) == SumFor(a, v) + SumFor(b, v) { SumAppend(a, b, v); }
  }

  lemma LogsExtend(s: seq<Bond>, t: seq<Bond>, u: seq<Bond>)
    requires |s| <= |t| <= |u| && t[..|s|] == s && u[..|t|] == t
    ensures u[..|s|] == s && forall k :: 0 <= k < |t| ==> u[k] == t[k]
  {
    assert u[..|s|] == u[..|t|][..|s|];
    forall k | 0 <= k < |t| ensures u[k] == t[k] { assert u[k] == u[..|t|][k]; }
  }

  lemma EffectCompose(s: Store, t: Store, u: Store, a: seq<Increase>, b: seq<Increase>, day: nat)
    requires Effect(s, t, a, day) && Effect(t, u, b, day)
    ensures Effect(s, u, a + b, day)
  {
    hide Capped;
    hide SumFor;
    hide Limit;
    hide Vals;
    hide Used;
    SumsAdd(a, b);
    LogsExtend(s.log, t.log, u.log);
  }

  lemma BondedEffect(s: Store, v: Val, amount: int, day: nat)
    requires amount > 0
    ensures Effect(s, Bonded(s, v, amount, day), [Increase(v, amount)], day)
  {
    var t, incs := Bonded(s, v, amount, day), [Increase(v, amount)];
    assert t.log[..|s.log|] == s.log;
    assert incs[1..] == [];
    assert forall w :: SumFor(incs, w) == SumFor([], w) + (if w == v then amount else 0);
    assert Vals(incs) == [v];
  }

  lemma CappedSnoc(log: seq<Bond>, e: Bond, day: nat, v: Val)
    ensures Capped(log + [e], day, v) == Capped(log, day, v) + (if e.day == day && e.val == v
        && e.cap > 0 then e.amount else 0)
  {
    assert (log + [e])[..|log + [e]| - 1] == log;
  }

  lemma NothingRan(s: Store, day: nat)
    ensures Effect(s, s, [], day)
  {}

  lemma StakeEffect(s: Store, step: EvmStep, day: nat)
    requires step.Stake?
    ensures Effect(s, RunStake(s, step, day), [], day)
  {
    var t := RunStake(s, step, day);
    if t == s {
      NothingRan(s, day);
    } else {
      var e := Bond(day, step.dst.value, step.amount.value, Limit(s.stored));
      assert t.log == s.log + [e];
      assert t.log[..|s.log|] == s.log;
      forall v ensures Capped(t.log, day, v) == Capped(s.log, day, v) + (if e.val == v
          && e.cap > 0 then e.amount else 0) {
        CappedSnoc(s.log, e, day, v);
      }
      assert forall v :: SumFor([], v) == 0;
      hide Capped;
      hide SumFor;
    }
  }

  lemma {:induction false} FrameEffect(s: Store, f: Frame, day: nat)
    ensures Effect(s, RunFrame(s, f, day), [], day)
    decreases f
  {
    if !f.reverts {
      StepsEffect(s, f.steps, day);
    }
  }

  lemma {:induction false} StepsEffect(s: Store, steps: seq<EvmStep>, day: nat)
    ensures Effect(s, RunSteps(s, steps, day), [], day)
    decreases steps
  {
    if steps != [] {
      var t := if steps[0].Call? then RunFrame(s, steps[0].callee, day) else RunStake(s, steps[0], day);
      if steps[0].Call? {
        assert steps[0].callee < steps[0];
        FrameEffect(s, steps[0].callee, day);
      } else {
        StakeEffect(s, steps[0], day);
      }
      StepsEffect(t, steps[1..], day);
      var none: seq<Increase> := [];
      EffectCompose(s, t, RunSteps(t, steps[1..], day), none, none, day);
      assert none + none == none;
    }
  }

  lemma SingleEffect(s: Store, m: Msg, day: nat)
    requires !m.Exec? && Stakeable([m])
    ensures Effect(s, RunSingle(s, m, day), Own(m), day)
  {
    assert [m][0] == m;
    if m.Evm? {
      FrameEffect(s, m.frame, day);
    } else if Own(m) != [] {
      BondedEffect(s, Own(m)[0].val, Own(m)[0].amount, day);
      assert Own(m) == [Own(m)[0]];
    }
  }

  lemma {:induction false} MsgsEffect(s: Store, msgs: seq<Msg>, day: nat)
    requires Stakeable(msgs)
    ensures Effect(s, RunMsgs(s, msgs, day), Flatten(msgs), day)
    decreases msgs
  {
    if msgs == [] {
      assert Flatten(msgs) == [];
    } else {
      var m := msgs[0];
      if m.Exec? {
        MsgsEffect(s, m.inner, day);
        MsgsEffect(RunMsgs(s, m.inner, day), msgs[1..], day);
        EffectCompose(s, RunMsgs(s, m.inner, day), RunMsgs(s, msgs, day), Flatten(m.inner), Flatten(msgs[1..]), day);
      } else {
        assert Stakeable([m]) by { assert [m][1..] == []; }
        SingleEffect(s, m, day);
        MsgsEffect(RunSingle(s, m, day), msgs[1..], day);
        EffectCompose(s, RunSingle(s, m, day), RunMsgs(s, msgs, day), Own(m), Flatten(msgs[1..]), day);
      }
    }
  }

  /** The post-handler's loop adds each validator's increase to its counter and leaves it within the cap. */
  lemma {:induction false} ChargeAllEffect(limit: int, counters: map<Val, Counter>, incs: seq<Increase>, day: nat)
    requires limit > 0 && Distinct(incs) && ChargeAll(limit, counters, incs, day).Some?
    ensures var c := ChargeAll(limit, counters, incs, day).value;
            && (forall v :: Used(c, v, day) == Used(counters, v, day) + SumFor(incs, v))
            && (forall i :: 0 <= i < |incs| ==> Used(c, incs[i].val, day) <= limit)
            && (forall v :: v in c ==> c[v].day == day || (v in counters && c[v] == counters[v]))
    decreases |incs|
  {
    if incs != [] {
      var c1 := Charged(limit, counters, incs[0].val, incs[0].amount, day);
      var rest := incs[1..];
      ChargeAllEffect(limit, c1, rest, day);
      NotThere(rest, incs[0].val);
      forall i | 0 <= i < |incs|
        ensures Used(ChargeAll(limit, counters, incs, day).value, incs[i].val, day) <= limit
      {
        if i > 0 {
          assert incs[i] == rest[i - 1];
        }
      }
    }
  }

  // ---- the invariant of every run ----

  ghost predicate Inv(w: World) {
    var s := w.store;
    && (forall v :: Used(s.counters, v, w.day) == Capped(s.log, w.day, v))
    && (forall k :: 0 <= k < |s.log| ==> s.log[k].amount > 0 && s.log[k].day <= w.day)
    && (forall v :: v in s.counters ==> s.counters[v].day <= w.day)
    && (forall k :: 0 <= k < |s.log| && s.log[k].cap > 0 ==>
          Capped(s.log[..k + 1], s.log[k].day, s.log[k].val) <= s.log[k].cap)
  }

  lemma {:induction false} CappedGrows(log: seq<Bond>, k: nat, day: nat, v: Val)
    requires k <= |log| && forall i :: 0 <= i < |log| ==> log[i].amount > 0
    ensures Capped(log[..k], day, v) <= Capped(log, day, v)
    decreases |log|
  {
    if k == |log| {
      assert log[..k] == log;
    } else {
      CappedGrows(log[..|log| - 1], k, day, v);
      assert log[..|log| - 1][..k] == log[..k];
    }
  }

  lemma {:induction false} NothingYet(log: seq<Bond>, day: nat, v: Val)
    requires forall i :: 0 <= i < |log| ==> log[i].day < day
    ensures Capped(log, day, v) == 0
  {
    if log != [] {
      NothingYet(log[..|log| - 1], day, v);
    }
  }

  lemma InVals(incs: seq<Increase>, v: Val)
    ensures v in Vals(incs) <==> exists i :: 0 <= i < |incs| && incs[i].val == v
  {
    hide Vals;
    if v in Vals(incs) {
      var i :| 0 <= i < |incs| && Vals(incs)[i] == v;
    }
    if i :| 0 <= i < |incs| && incs[i].val == v {
      assert Vals(incs)[i] == v;
    }
  }

  lemma {:induction false} FirstsMembers(incs: seq<Increase>, v: Val)
    ensures v in Firsts(incs) <==> v in Vals(incs)
  {
    hide Vals;
    InVals(incs, v);
    if incs != [] {
      var p := incs[..|incs| - 1];
      FirstsMembers(p, v);
      InVals(p, v);
      assert forall i :: 0 <= i < |p| ==> p[i] == incs[i];
    }
  }

  /** A validator is either part of the merged list, or none of its increases is. */
  lemma MergedOrAbsent(msgs: seq<Msg>, v: Val)
    ensures v in Vals(Flatten(msgs)) ==> v in Vals(Increases(msgs))
    ensures v !in Vals(Flatten(msgs)) ==> SumFor(Increases(msgs), v) == 0
  {
    MergedIsDistinctInOrder(Flatten(msgs));
    FirstsMembers(Flatten(msgs), v);
    if v !in Vals(Flatten(msgs)) {
      MergeKeepsSums(Flatten(msgs), v);
      forall i | 0 <= i < |Flatten(msgs)|
        ensures Flatten(msgs)[i].val != v
      {
        assert Vals(Flatten(msgs))[i] == Flatten(msgs)[i].val;
      }
      NotThere(Flatten(msgs), v);
    }
  }

  /** Counters level with the ledger, and every new entry's validator within the cap. */
  ghost predicate Level(s: Store, t: Store, day: nat) {
    && t.stored == s.stored
    && |s.log| <= |t.log| && t.log[..|s.log|] == s.log
    && (forall v :: Used(t.counters, v, day) == Capped(t.log, day, v))
    && (forall v :: v in t.counters ==> t.counters[v].day <= day)
    && (forall k :: |s.log| <= k < |t.log| ==>
          && t.log[k].day == day && t.log[k].amount > 0 && t.log[k].cap == Limit(s.stored)
          && (t.log[k].cap > 0 ==> Used(t.counters, t.log[k].val, day) <= t.log[k].cap))
  }

  /** After the post-handler the counters are level with the ledger again. */
  lemma CommitIsLevel(w: World, msgs: seq<Msg>, execOk: bool)
    requires Inv(w) && Committed(w.store, msgs, execOk, w.day).Some?
    ensures Level(w.store, Committed(w.store, msgs, execOk, w.day).value, w.day)
  {
    var s, day, cap, incs := w.store, w.day, Limit(w.store.stored), Increases(msgs);
    var u, t := RunMsgs(s, msgs, day), Committed(s, msgs, execOk, day).value;
    MsgsEffect(s, msgs, day);
    if cap <= 0 {
      ChargeNothing(cap, u.counters, incs, day);
    } else {
      MergedIsDistinctInOrder(Flatten(msgs));
      ChargeAllEffect(cap, u.counters, incs, day);
      forall v
        ensures Used(t.counters, v, day) == Capped(t.log, day, v)
      {
        MergeKeepsSums(Flatten(msgs), v);
      }
      forall k | |s.log| <= k < |t.log|
        ensures Used(t.counters, t.log[k].val, day) <= cap
      {
        var v := t.log[k].val;
        MergedOrAbsent(msgs, v);
        if v in Vals(incs) {
          var i :| 0 <= i < |incs| && Vals(incs)[i] == v;
        }
      }
    }
  }

  lemma {:induction false} ChargeNothing(limit: int, counters: map<Val, Counter>, incs: seq<Increase>, day: nat)
    requires limit <= 0
    ensures ChargeAll(limit, counters, incs, day) == Some(counters)
    decreases |incs|
  {
    if incs != [] {
      ChargeNothing(limit, counters, incs[1..], day);
    }
  }

  lemma DeliverKeepsInv(w: World, msgs: seq<Msg>, execOk: bool)
    requires Inv(w)
    ensures Inv(Next(w, Deliver(msgs, execOk)))
  {
    var c := Committed(w.store, msgs, execOk, w.day);
    if c.Some? {
      CommitIsLevel(w, msgs, execOk);
      var s, t := w.store, c.value;
      forall k | 0 <= k < |t.log|
        ensures t.log[k].amount > 0 && t.log[k].day <= w.day
      {
        assert k < |s.log| ==> t.log[k] == t.log[..|s.log|][k] == s.log[k];
      }
      forall k | 0 <= k < |t.log| && t.log[k].cap > 0
        ensures Capped(t.log[..k + 1], t.log[k].day, t.log[k].val) <= t.log[k].cap
      {
        if k < |s.log| {
          assert t.log[..k + 1] == t.log[..|s.log|][..k + 1];
          assert t.log[k] == s.log[k];
        } else {
          CappedGrows(t.log, k + 1, w.day, t.log[k].val);
        }
      }
    }
  }

  lemma NextKeepsInv(w: World, e: Event)
    requires Inv(w)
    ensures Inv(Next(w, e))
  {
    if e.Deliver? {
      DeliverKeepsInv(w, e.msgs, e.execOk);
    } else if e.NewBlock? && e.daysPassed > 0 {
      var day := w.day + e.daysPassed;
      forall v
        ensures Used(w.store.counters, v, day) == Capped(w.store.log, day, v)
      {
        NothingYet(w.store.log, day, v);
      }
    }
  }

  /** Every run from genesis keeps the counter of the current day equal to what was committed under a
      cap that day, for every validator, and every increase made under a cap left its validator's
      day, up to and including that increase, within the cap in force at that moment. */
  lemma {:induction false} EveryRunIsCapped(day: nat, events: seq<Event>)
    ensures Inv(Run(Genesis(day), events))
    decreases |events|
  {
    if events != [] {
      EveryRunIsCapped(day, events[..|events| - 1]);
      NextKeepsInv(Run(Genesis(day), events[..|events| - 1]), events[|events| - 1]);
    }
  }

  /** So over any run, on any day and for any validator, what was bonded under caps not above
      `largest` does not exceed `largest`. */
  lemma DayNeverExceedsLargestCap(start: nat, events: seq<Event>, log: seq<Bond>, day: nat, v: Val, largest: int)
    requires largest >= 0 && log == Run(Genesis(start), events).store.log
    requires forall k :: 0 <= k < |log| && log[k].day == day && log[k].val == v ==> log[k].cap <= largest
    ensures Capped(log, day, v) <= largest
  {
    EveryRunIsCapped(start, events);
    PrefixWithinLargest(log, day, v, largest);
  }

  lemma {:induction false} PrefixWithinLargest(log: seq<Bond>, day: nat, v: Val, largest: int)
    requires largest >= 0
    requires forall k :: 0 <= k < |log| && log[k].cap > 0 ==>
               Capped(log[..k + 1], log[k].day, log[k].val) <= log[k].cap
    requires forall k :: 0 <= k < |log| && log[k].day == day && log[k].val == v ==> log[k].cap <= largest
    ensures Capped(log, day, v) <= largest
  {
    if log != [] {
      var n := |log| - 1;
      var p := log[..n];
      if log[n].day == day && log[n].val == v && log[n].cap > 0 {
        assert log[..n + 1] == log;
      } else {
        forall k | 0 <= k < |p| && p[k].cap > 0
          ensures Capped(p[..k + 1], p[k].day, p[k].val) <= p[k].cap
        {
          assert p[..k + 1] == log[..k + 1];
        }
        PrefixWithinLargest(p, day, v, largest);
      }
    }
  }

  /** The counter equals everything bonded today exactly when nothing was bonded while the cap was
      lifted: an uncapped delegation leaves no trace in the counter. */
  lemma CounterIsTotalIff(start: nat, events: seq<Event>, w: World, v: Val)
    requires w == Run(Genesis(start), events)
    ensures Used(w.store.counters, v, w.day) == Total(w.store.log, w.day, v)
            <==> forall k :: 0 <= k < |w.store.log| && w.store.log[k].day == w.day && w.store.log[k].val == v ==>
                   w.store.log[k].cap > 0
  {
    EveryRunIsCapped(start, events);
    TotalIsCappedIff(w.store.log, w.day, v);
  }

  lemma {:induction false} TotalIsCappedIff(log: seq<Bond>, day: nat, v: Val)
    requires forall k :: 0 <= k < |log| ==> log[k].amount > 0
    ensures Capped(log, day, v) <= Total(log, day, v)
    ensures Capped(log, day, v) == Total(log, day, v)
            <==> forall k :: 0 <= k < |log| && log[k].day == day && log[k].val == v ==> log[k].cap > 0
  {
    if log != [] {
      var n := |log| - 1;
      TotalIsCappedIff(log[..n], day, v);
      assert forall k :: 0 <= k < n ==> log[..n][k] == log[k];
    }
  }

  /** A run in which the counter misses a delegation: with the cap lifted a thousand GMB go in, the
      cap comes back the same day, and a further fifty pass the check. */
  lemma LiftedCapLeavesNoTrace(v: Val, w: World)
    requires w == Run(Genesis(0), [Govern(Params(Some(0), None, Some(0))), Deliver(DelegateTo(v, 1000 * ONE_GMB), true),
                                   Govern(DEFAULT_PARAMS), Deliver(DelegateTo(v, 50 * ONE_GMB), true)])
    ensures Total(w.store.log, 0, v) == 1050 * ONE_GMB && Used(w.store.counters, v, 0) == DEFAULT_MAX_DAILY_BOND
  {
    var lifted := Params(Some(0), None, Some(0));
    var lift, d1 := Govern(lifted), Deliver(DelegateTo(v, 1000 * ONE_GMB), true);
    var restore, d2 := Govern(DEFAULT_PARAMS), Deliver(DelegateTo(v, 50 * ONE_GMB), true);
    var b1, b2 := Bond(0, v, 1000 * ONE_GMB, 0), Bond(0, v, 50 * ONE_GMB, DEFAULT_MAX_DAILY_BOND);
    var s0 := Store(Some(lifted), map[], []);
    var s1, s2 := Store(Some(lifted), map[], [b1]), Store(Some(DEFAULT_PARAMS), map[], [b1]);
    var s3 := Store(Some(DEFAULT_PARAMS), map[v := Counter(0, 50 * ONE_GMB)], [b1, b2]);
    assert Next(Genesis(0), lift) == World(s0, 0) && Next(World(s1, 0), restore) == World(s2, 0);
    OneDelegation(s0, v, 1000 * ONE_GMB, 0);
    OneDelegation(s2, v, 50 * ONE_GMB, 0);
    assert [b1] + [b2] == [b1, b2];
    assert Next(World(s0, 0), d1) == World(s1, 0);
    assert Next(World(s2, 0), d2) == World(s3, 0);
    hide Next;
    hide Committed;
    hide Bonded;
    FourSteps(Genesis(0), lift, d1, restore, d2);
    hide Run;
    TwoBonds(b1, b2, v);
  }

  lemma TwoBonds(a: Bond, b: Bond, v: Val)
    requires a.day == b.day == 0 && a.val == b.val == v
    ensures Total([a, b], 0, v) == a.amount + b.amount
  {
    TotalSnoc([], a, 0, v);
    TotalSnoc([a], b, 0, v);
    assert [] + [a] == [a] && [a] + [b] == [a, b];
  }

  lemma FourSteps(w: World, a: Event, b: Event, c: Event, d: Event)
    ensures Run(w, [a, b, c, d]) == Next(Next(Next(Next(w, a), b), c), d)
  {
    hide Next;
    RunSnoc(w, [], a);
    RunSnoc(w, [a], b);
    RunSnoc(w, [a, b], c);
    RunSnoc(w, [a, b, c], d);
    assert [] + [a] == [a] && [a] + [b] == [a, b] && [a, b] + [c] == [a, b, c] && [a, b, c] + [d] == [a, b, c, d];
  }

  function DelegateTo(v: Val, amount: int): seq<Msg> {
    [Delegate(Some(v), Some(amount))]
  }

  lemma RunSnoc(w: World, events: seq<Event>, e: Event)
    ensures Run(w, events + [e]) == Next(Run(w, events), e)
  {
    assert (events + [e])[..|events + [e]| - 1] == events;
  }

  lemma TotalSnoc(log: seq<Bond>, e: Bond, day: nat, v: Val)
    ensures Total(log + [e], day, v) == Total(log, day, v) + (if e.day == day && e.val == v then e.amount else 0)
  {
    assert (log + [e])[..|log + [e]| - 1] == log;
  }

  lemma OneDelegation(s: Store, v: Val, amount: int, day: nat)
    requires amount > 0 && WithinCap(Limit(s.stored), s.counters, v, amount, day)
    requires Effective(s.stored).minSelfBond.Some?
    ensures Committed(s, DelegateTo(v, amount), true, day)
         == Some(Bonded(s.(counters := Charged(Limit(s.stored), s.counters, v, amount, day)), v, amount, day))
  {
    var m, x := Delegate(Some(v), Some(amount)), Increase(v, amount);
    var msgs, incs := [m], [x];
    assert msgs[1..] == [] && incs[1..] == [] && incs[..|incs| - 1] == [];
    assert Flatten(msgs) == Own(m) + Flatten(msgs[1..]) == incs;
    assert Increases(msgs) == AddTo(Merge([], incs[..|incs| - 1]), x) == incs;
    var p := Effective(s.stored);
    VerdictUnfold(msgs, 0, Some(Bounds(p.minSelfBond.value, p.maxSelfBond.value)));
    assert Stakeable(msgs) && AntePasses(s, msgs, false, day);
    var t, c := Bonded(s, v, amount, day), Charged(Limit(s.stored), s.counters, v, amount, day);
    assert RunMsgs(s, msgs, day) == RunMsgs(RunSingle(s, m, day), msgs[1..], day) == t;
    assert ChargeAll(Limit(s.stored), s.counters, incs, day) == ChargeAll(Limit(s.stored), c, incs[1..], day)
        == Some(c);
  }

  // ---- what one event does ----

  /** A transaction that the ante refuses, whose execution fails or whose messages staking refuses leaves
      ledger and counters as they were; so do a mempool check, a simulation and a call of the EVM. */
  lemma FailuresChargeNothing(w: World, msgs: seq<Msg>, execOk: bool, frame: Frame)
    ensures !execOk || !Stakeable(msgs) || !AntePasses(w.store, msgs, false, w.day) ==>
              Next(w, Deliver(msgs, execOk)) == w
    ensures Next(w, CheckTx(msgs)) == Next(w, Simulate(msgs, execOk)) == Next(w, EthCall(frame)) == w
  {}

  lemma {:induction false} RunMsgsAppend(s: Store, a: seq<Msg>, b: seq<Msg>, day: nat)
    ensures RunMsgs(s, a + b, day) == RunMsgs(RunMsgs(s, a, day), b, day)
    decreases |a|
  {
    if a == [] {
      assert a + b == b;
    } else {
      assert (a + b)[0] == a[0] && (a + b)[1..] == a[1..] + b;
      var t := if a[0].Exec? then RunMsgs(s, a[0].inner, day) else RunSingle(s, a[0], day);
      RunMsgsAppend(t, a[1..], b, day);
    }
  }

  /** A delegation and a redelegation each bond their amount to their validator, wherever they stand;
      a reverted frame does nothing, and neither does any other message. */
  lemma WhatIsBonded(s: Store, before: seq<Msg>, m: Msg, after: seq<Msg>, day: nat)
    ensures RunMsgs(s, before + [m] + after, day)
         == RunMsgs(RunMsgs(RunMsgs(s, before, day), [m], day), after, day)
    ensures m.Exec? ==> RunMsgs(s, [m], day) == RunMsgs(s, m.inner, day)
    ensures forall v, x :: m == Delegate(Some(v), Some(x)) || m == BeginRedelegate(Some(v), Some(x)) ==>
              RunMsgs(s, [m], day) == s.(log := s.log + [Bond(day, v, x, Limit(s.stored))])
    ensures m.Evm? ==> RunMsgs(s, [m], day) == if m.frame.reverts then s else RunSteps(s, m.frame.steps, day)
    ensures m.CreateValidator? || m.Other? ==> RunMsgs(s, [m], day) == s
  {
    RunMsgsAppend(s, before + [m], after, day);
    RunMsgsAppend(s, before, [m], day);
    assert [m][1..] == [];
  }

  lemma {:induction false} RunStepsAppend(s: Store, a: seq<EvmStep>, b: seq<EvmStep>, day: nat)
    ensures RunSteps(s, a + b, day) == RunSteps(RunSteps(s, a, day), b, day)
    decreases |a|
  {
    if a == [] {
      assert a + b == b;
    } else {
      assert (a + b)[0] == a[0] && (a + b)[1..] == a[1..] + b;
      var t := if a[0].Call? then RunFrame(s, a[0].callee, day) else RunStake(s, a[0], day);
      RunStepsAppend(t, a[1..], b, day);
    }
  }

  /** A call of the staking precompile bonds and charges its amount at once, if staking takes it and it fits
      under the cap, and otherwise nothing; a nested frame runs in its place unless it reverts. */
  lemma WhatAFrameDoes(s: Store, before: seq<EvmStep>, step: EvmStep, after: seq<EvmStep>, day: nat)
    ensures RunSteps(s, before + [step] + after, day)
         == RunSteps(RunSteps(RunSteps(s, before, day), [step], day), after, day)
    ensures step.Call? ==>
              RunSteps(s, [step], day) == if step.callee.reverts then s else RunSteps(s, step.callee.steps, day)
    ensures step.Stake? ==>
              var t, cap := RunSteps(s, [step], day), Limit(s.stored);
              if step.accepted && step.dst.Some? && step.amount.Some? && step.amount.value > 0
                 && (cap <= 0 || Used(s.counters, step.dst.value, day) + step.amount.value <= cap)
              then
                && t.log == s.log + [Bond(day, step.dst.value, step.amount.value, cap)]
                && (cap > 0 ==> Used(t.counters, step.dst.value, day)
                                == Used(s.counters, step.dst.value, day) + step.amount.value)
                && (cap <= 0 ==> t.counters == s.counters)
              else t == s
  {
    RunStepsAppend(s, before + [step], after, day);
    RunStepsAppend(s, before, [step], day);
    assert [step][1..] == [];
  }

  lemma SumsFit(limit: int, counters: map<Val, Counter>, msgs: seq<Msg>, day: nat)
    ensures (forall i :: 0 <= i < |Increases(msgs)| ==>
               WithinCap(limit, counters, Increases(msgs)[i].val, Increases(msgs)[i].amount, day))
            <==> forall v :: v in Vals(Flatten(msgs)) ==>
                   limit <= 0 || Used(counters, v, day) + SumFor(Flatten(msgs), v) <= limit
  {
    var incs := Increases(msgs);
    MergedIsDistinctInOrder(Flatten(msgs));
    hide Firsts;
    forall i | 0 <= i < |incs|
      ensures incs[i].val in Vals(Flatten(msgs)) && SumFor(Flatten(msgs), incs[i].val) == incs[i].amount
    {
      EntryIsSum(incs, i);
      MergeKeepsSums(Flatten(msgs), incs[i].val);
      FirstsMembers(Flatten(msgs), incs[i].val);
      assert Vals(incs)[i] in Vals(incs);
    }
    forall v | v in Vals(Flatten(msgs))
      ensures exists i :: 0 <= i < |incs| && incs[i].val == v
    {
      MergedOrAbsent(msgs, v);
      var i :| 0 <= i < |incs| && Vals(incs)[i] == v;
    }
  }

  /** The ante lets a transaction through if and only if everything in it decodes and nests at most six deep,
      every creation is within the bounds of the entry and, outside of a simulation, what each validator would
      gain in all fits under the cap now. */
  lemma AnteIff(s: Store, msgs: seq<Msg>, simulate: bool, day: nat)
    ensures var p, cap := Effective(s.stored), Limit(s.stored);
            AntePasses(s, msgs, simulate, day) <==>
            && p.minSelfBond.Some?
            && (forall n :: n in Nodes(msgs, 0) ==>
                  && !n.0.UndecodableExec?
                  && (n.0.Exec? ==> n.1 < 6)
                  && (n.0.CreateValidator? ==>
                        && n.0.selfBond >= p.minSelfBond.value && n.0.minSelfDelegation >= p.minSelfBond.value
                        && (p.maxSelfBond.value <= 0 || n.0.selfBond <= p.maxSelfBond.value)))
            && (simulate || forall v :: v in Vals(Flatten(msgs)) ==>
                  cap <= 0 || Used(s.counters, v, day) + SumFor(Flatten(msgs), v) <= cap)
  {
    var p := Effective(s.stored);
    if p.minSelfBond.Some? {
      AcceptedIff(msgs, p.minSelfBond.value, p.maxSelfBond.value, 0);
    }
    SumsFit(Limit(s.stored), s.counters, msgs, day);
    hide Increases;
    hide Flatten;
    hide Nodes;
    hide Verdict;
  }

  /** A transaction commits if and only if the ante lets it through, it executes, and what each validator
      would gain still fits under the cap after the messages have run. */
  lemma CommitsIff(s: Store, msgs: seq<Msg>, execOk: bool, day: nat)
    ensures var cap, t := Limit(s.stored), RunMsgs(s, msgs, day);
            Committed(s, msgs, execOk, day).Some? <==>
            && AntePasses(s, msgs, false, day) && execOk && Stakeable(msgs)
            && forall v :: v in Vals(Flatten(msgs)) ==>
                 cap <= 0 || Used(t.counters, v, day) + SumFor(Flatten(msgs), v) <= cap
  {
    var t := RunMsgs(s, msgs, day);
    if AntePasses(s, msgs, false, day) && Stakeable(msgs) {
      MsgsEffect(s, msgs, day);
      SumsFit(Limit(s.stored), t.counters, msgs, day);
      PostHandlerKeepsIff(s, msgs, day);
    }
    hide RunMsgs;
    hide Increases;
    hide Flatten;
    hide AntePasses;
  }

  /** Under the launch parameters a validator enters exactly with 1,000 to 10,000 GMB, and only if it
      commits itself to keep 1,000. */
  lemma LaunchEntry(bond: int, self: int, day: nat)
    ensures var gmb, w := 1_000_000_000_000_000_000, Genesis(day);
            AntePasses(w.store, [CreateValidator(bond, self)], false, day)
            <==> 1_000 * gmb <= bond <= 10_000 * gmb && self >= 1_000 * gmb
  {
    var m := CreateValidator(bond, self);
    var p := Effective(None);
    assert [m][1..] == [];
    VerdictUnfold([m], 0, Some(Bounds(p.minSelfBond.value, p.maxSelfBond.value)));
    assert Flatten([m]) == [];
  }

  /** And on its first day takes up to 50 GMB more. */
  lemma LaunchIncrease(v: Val, amount: int, redelegates: bool, day: nat)
    ensures var m := if redelegates then BeginRedelegate(Some(v), Some(amount)) else Delegate(Some(v), Some(amount));
            AntePasses(Genesis(day).store, [m], false, day) <==> amount <= 50_000_000_000_000_000_000
  {
    var m := if redelegates then BeginRedelegate(Some(v), Some(amount)) else Delegate(Some(v), Some(amount));
    var s, incs := Genesis(day).store, [Increase(v, amount)];
    WhatIsCollected([], m, []);
    OneIncrease(v, amount);
    assert [m][1..] == [] && Nodes([m], 0) == [(m, 0)];
    assert Effective(None).minSelfBond.Some? && Limit(None) == 50_000_000_000_000_000_000 && Used(map[], v, day) == 0;
    AnteIff(s, [m], false, day);
    hide AntePasses;
    hide Flatten;
    hide Vals;
    hide SumFor;
    hide Nodes;
    assert v in Vals(incs);
  }

  lemma OneIncrease(v: Val, amount: int)
    ensures Vals([Increase(v, amount)]) == [v] && SumFor([Increase(v, amount)], v) == amount
  {
    assert [Increase(v, amount)][1..] == [];
  }

  // ---- ante and post-handler across one transaction ----

  ghost predicate HasEvm(msgs: seq<Msg>) {
    exists n :: n in Nodes(msgs, 0) && n.0.Evm?
  }

  lemma {:induction false} NoEvmNoCharge(s: Store, msgs: seq<Msg>, depth: nat, day: nat)
    requires forall n :: n in Nodes(msgs, depth) ==> !n.0.Evm?
    ensures RunMsgs(s, msgs, day).counters == s.counters && RunMsgs(s, msgs, day).stored == s.stored
    decreases msgs
  {
    if msgs != [] {
      var m := msgs[0];
      assert (m, depth) in Nodes(msgs, depth);
      if m.Exec? {
        NoEvmNoCharge(s, m.inner, depth + 1, day);
        NoEvmNoCharge(RunMsgs(s, m.inner, day), msgs[1..], depth, day);
      } else {
        NoEvmNoCharge(RunSingle(s, m, day), msgs[1..], depth, day);
      }
    }
  }

  /** Whenever the ante lets a transaction without EVM messages through and its messages succeed, the
      post-handler does not undo it: the early answer is the final one. */
  lemma AnteIsFinalWithoutEvm(s: Store, msgs: seq<Msg>, day: nat)
    requires AntePasses(s, msgs, false, day) && Stakeable(msgs) && !HasEvm(msgs)
    ensures Committed(s, msgs, true, day).Some?
  {
    NoEvmNoCharge(s, msgs, 0, day);
    MergedIsDistinctInOrder(Flatten(msgs));
    AnteAgreesWithPost(Limit(s.stored), s.counters, Increases(msgs), day);
  }

  /** In general the post-handler decides on the counters that the EVM frames have left: a transaction
      that passed the ante and executed is kept if and only if each validator's merged increase still
      fits there. */
  lemma PostHandlerKeepsIff(s: Store, msgs: seq<Msg>, day: nat)
    requires AntePasses(s, msgs, false, day) && Stakeable(msgs)
    ensures var t, incs := RunMsgs(s, msgs, day), Increases(msgs);
            Committed(s, msgs, true, day).Some? <==>
            forall i :: 0 <= i < |incs| ==> WithinCap(Limit(t.stored), t.counters, incs[i].val, incs[i].amount, day)
  {
    MergedIsDistinctInOrder(Flatten(msgs));
    var t := RunMsgs(s, msgs, day);
    AnteAgreesWithPost(Limit(t.stored), t.counters, Increases(msgs), day);
  }

  function Thirty(v: Val): EvmStep {
    Stake(Some(v), Some(30 * ONE_GMB), true)
  }

  function FrameAndDelegation(v: Val): seq<Msg> {
    [Evm(Frame([Thirty(v)], false)), Delegate(Some(v), Some(30 * ONE_GMB))]
  }

  lemma FrameAndDelegationIncreases(v: Val)
    ensures Increases(FrameAndDelegation(v)) == [Increase(v, 30 * ONE_GMB)]
  {
    var msgs, incs := FrameAndDelegation(v), [Increase(v, 30 * ONE_GMB)];
    assert msgs[1..] == [msgs[1]] && [msgs[1]][1..] == [] && incs[..|incs| - 1] == [];
    assert Flatten([msgs[1]]) == Own(msgs[1]) + Flatten([]) == incs;
    assert Flatten(msgs) == Own(msgs[0]) + Flatten([msgs[1]]) == incs;
    assert Increases(msgs) == AddTo(Merge([], incs[..|incs| - 1]), incs[0]) == incs;
  }

  lemma FrameAndDelegationPass(v: Val, day: nat)
    ensures AntePasses(Genesis(day).store, FrameAndDelegation(v), false, day) && Stakeable(FrameAndDelegation(v))
  {
    var msgs, p := FrameAndDelegation(v), Effective(None);
    var bounds := Some(Bounds(p.minSelfBond.value, p.maxSelfBond.value));
    FrameAndDelegationIncreases(v);
    hide Increases;
    assert msgs[1..] == [msgs[1]] && [msgs[1]][1..] == [];
    VerdictUnfold(msgs, 0, bounds);
    VerdictUnfold([msgs[1]], 0, bounds);
    assert Stakeable([msgs[1]]);
  }

  lemma FrameAndDelegationRun(s: Store, v: Val, day: nat)
    ensures var t := RunStake(s, Thirty(v), day);
            RunMsgs(s, FrameAndDelegation(v), day) == Bonded(t, v, 30 * ONE_GMB, day)
  {
    hide RunStake;
    hide Bonded;
    var msgs, step := FrameAndDelegation(v), Thirty(v);
    var t := RunStake(s, step, day);
    assert msgs[1..] == [msgs[1]] && [msgs[1]][1..] == [] && [step][1..] == [];
    assert RunSteps(s, [step], day) == RunSteps(t, [], day) == t;
    assert RunMsgs(s, msgs, day) == RunMsgs(t, [msgs[1]], day);
    assert RunMsgs(t, [msgs[1]], day) == RunMsgs(RunSingle(t, msgs[1], day), [], day);
  }

  /** And the ante's answer need not be final: 30 GMB pass it, a frame of the same transaction bonds
      another 30 to the same validator, and the post-handler undoes both. */
  lemma FrameOvertakesAnte(v: Val, day: nat)
    ensures var s, msgs := Genesis(day).store, FrameAndDelegation(v);
            AntePasses(s, msgs, false, day) && Stakeable(msgs) && Committed(s, msgs, true, day).None?
  {
    var s, msgs, x := Genesis(day).store, FrameAndDelegation(v), 30 * ONE_GMB;
    FrameAndDelegationPass(v, day);
    FrameAndDelegationIncreases(v);
    FrameAndDelegationRun(s, v, day);
    PostHandlerKeepsIff(s, msgs, day);
    var t := RunStake(s, Thirty(v), day);
    assert Used(t.counters, v, day) == x && t.stored == None;
    hide AntePasses;
    hide Committed;
    hide Increases;
    hide RunMsgs;
    assert Increases(msgs)[0] == Increase(v, x) && !WithinCap(Limit(t.stored), t.counters, v, x, day);
  }
}
