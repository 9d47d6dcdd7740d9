/** The message tree a transaction carries, and the two walks x/valgate makes over it before and
    after execution: the gate on validator creation and the per-validator sum of stake increases. */
module MessageTree {
  import opened Wrappers

  /** A decoded operator address. */
  type Val = string

  const MAX_AUTHZ_DEPTH: nat := 6

  /** One call frame of an EVM transaction. A frame that reverts leaves no trace of what ran in it. */
  datatype Frame = Frame(steps: seq<EvmStep>, reverts: bool)

  /** Inside a frame: a nested call, or a delegate/redelegate call into the staking precompile.
      `accepted` is whatever else the staking module has to say about the operation. */
  datatype EvmStep =
    | Call(callee: Frame)
    | Stake(dst: Option<Val>, amount: Option<int>, accepted: bool)

  /** `dst` is None when the address does not parse, `amount` is None when it is nil. */
  datatype Msg =
    | Delegate(dst: Option<Val>, amount: Option<int>)
    | BeginRedelegate(dst: Option<Val>, amount: Option<int>)
    | CreateValidator(selfBond: int, minSelfDelegation: int)
    | Exec(inner: seq<Msg>)
    | UndecodableExec
    | Evm(frame: Frame)
    | Other

  datatype WalkError =
    | TooDeep
    | Undecodable
    | BondBelowMinimum
    | SelfDelegationBelowMinimum
    | BondAboveMaximum

  datatype Bounds = Bounds(min: int, max: int)

  datatype Increase = Increase(val: Val, amount: int)

  // ---- what the two walks look at ----

  /** Every message of the tree in the order the walk meets it, with its nesting depth. */
  function Nodes(msgs: seq<Msg>, depth: nat): seq<(Msg, nat)>
    decreases msgs
  {
    if msgs == [] then []
    else
      [(msgs[0], depth)]
      + (if msgs[0].Exec? then Nodes(msgs[0].inner, depth + 1) else [])
      + Nodes(msgs[1..], depth)
  }

  /** What is wrong with one message on its own; without `bounds` only the nesting is judged. */
  function Fault(m: Msg, depth: nat, bounds: Option<Bounds>): Option<WalkError> {
    match m
    case CreateValidator(bond, self) =>
      if bounds.None? then None
      else if bond < bounds.value.min then Some(BondBelowMinimum)
      else if self < bounds.value.min then Some(SelfDelegationBelowMinimum)
      else if bounds.value.max > 0 && bond > bounds.value.max then Some(BondAboveMaximum)
      else None
    case UndecodableExec => Some(Undecodable)
    case Exec(_) => if depth + 1 > MAX_AUTHZ_DEPTH then Some(TooDeep) else None
    case _ => None
  }

  /** The message that a path of positions leads to, through the messages nested on the way. */
  function At(msgs: seq<Msg>, path: seq<nat>): Option<Msg> {
    if path == [] || path[0] >= |msgs| then None
    else if |path| == 1 then Some(msgs[path[0]])
    else if msgs[path[0]].Exec? then At(msgs[path[0]].inner, path[1..])
    else None
  }

  function FirstFault(nodes: seq<(Msg, nat)>, bounds: Option<Bounds>): Option<WalkError> {
    if nodes == [] then None
    else
      var f := Fault(nodes[0].0, nodes[0].1, bounds);
      if f.Some? then f else FirstFault(nodes[1..], bounds)
  }

  /** The verdict on a whole list entered at `depth`. */
  function Verdict(msgs: seq<Msg>, bounds: Option<Bounds>, depth: nat): Option<WalkError> {
    if depth > MAX_AUTHZ_DEPTH then Some(TooDeep) else FirstFault(Nodes(msgs, depth), bounds)
  }

  /** The stake increase one message asks for; nested messages are not its own. */
  function Own(m: Msg): seq<Increase> {
    if (m.Delegate? || m.BeginRedelegate?) && m.dst.Some? && m.amount.Some?
    then [Increase(m.dst.value, m.amount.value)] else []
  }

  function Flatten(msgs: seq<Msg>): seq<Increase>
    decreases msgs
  {
    if msgs == [] then []
    else (if msgs[0].Exec? then Flatten(msgs[0].inner) else Own(msgs[0])) + Flatten(msgs[1..])
  }

  function SumFor(incs: seq<Increase>, v: Val): int {
    if incs == [] then 0
    else (if incs[0].val == v then incs[0].amount else 0) + SumFor(incs[1..], v)
  }

  /** Validators in the order of their first appearance, each once. */
  function Firsts(incs: seq<Increase>): seq<Val> {
    if incs == [] then []
    else
      var p := Firsts(incs[..|incs| - 1]);
      if incs[|incs| - 1].val in p then p else p + [incs[|incs| - 1].val]
  }

  function Vals(incs: seq<Increase>): (r: seq<Val>)
    ensures |r| == |incs| && forall i :: 0 <= i < |r| ==> r[i] == incs[i].val
  {
    if incs == [] then [] else [incs[0].val] + Vals(incs[1..])
  }

  ghost predicate Distinct(incs: seq<Increase>) {
    forall i, j :: 0 <= i < j < |incs| ==> incs[i].val != incs[j].val
  }

  // ---- the accumulator ----

  function AddTo(acc: seq<Increase>, x: Increase): seq<Increase> {
    if acc == [] then [x]
    else if acc[0].val == x.val then [Increase(x.val, acc[0].amount + x.amount)] + acc[1..]
    else [acc[0]] + AddTo(acc[1..], x)
  }

  function Merge(acc: seq<Increase>, incs: seq<Increase>): seq<Increase> {
    if incs == [] then acc else AddTo(Merge(acc, incs[..|incs| - 1]), incs[|incs| - 1])
  }

  lemma {:induction false} AddToAt(acc: seq<Increase>, x: Increase, k: nat)
    requires k <= |acc| && forall j :: 0 <= j < k ==> acc[j].val != x.val
    requires k < |acc| ==> acc[k].val == x.val
    ensures AddTo(acc, x)
         == if k < |acc| then acc[k := Increase(x.val, acc[k].amount + x.amount)] else acc + [x]
  {
    if k > 0 {
      AddToAt(acc[1..], x, k - 1);
      assert acc == [acc[0]] + acc[1..];
    }
  }

  /** The closure that grows the accumulator. */
  method Add(acc: seq<Increase>, x: Increase) returns (r: seq<Increase>)
    ensures r == AddTo(acc, x)
  {
    for i := 0 to |acc|
      invariant forall j :: 0 <= j < i ==> acc[j].val != x.val
    {
      if acc[i].val == x.val {
        AddToAt(acc, x, i);
        return acc[i := Increase(x.val, acc[i].amount + x.amount)];
      }
    }
    AddToAt(acc, x, |acc|);
    return acc + [x];
  }

  lemma {:induction false} MergeAppend(acc: seq<Increase>, a: seq<Increase>, b: seq<Increase>)
    ensures Merge(acc, a + b) == Merge(Merge(acc, a), b)
    decreases |b|
  {
    if b == [] {
      assert a + b == a;
    } else {
      assert (a + b)[..|a + b| - 1] == a + b[..|b| - 1];
      MergeAppend(acc, a, b[..|b| - 1]);
    }
  }

  lemma {:induction false} SumAppend(a: seq<Increase>, b: seq<Increase>, v: Val)
    ensures SumFor(a + b, v) == SumFor(a, v) + SumFor(b, v)
  {
    if a == [] {
      assert a + b == b;
    } else {
      assert (a + b)[1..] == a[1..] + b;
      SumAppend(a[1..], b, v);
    }
  }

  lemma {:induction false} SumAddTo(acc: seq<Increase>, x: Increase, v: Val)
    ensures SumFor(AddTo(acc, x), v) == SumFor(acc, v) + (if x.val == v then x.amount else 0)
  {
    if acc == [] {
    } else if acc[0].val == x.val {
      var r := AddTo(acc, x);
      assert r[1..] == acc[1..];
    } else {
      SumAddTo(acc[1..], x, v);
      assert AddTo(acc, x)[1..] == AddTo(acc[1..], x);
    }
  }

  lemma {:induction false} AddToVals(acc: seq<Increase>, x: Increase)
    ensures Vals(AddTo(acc, x)) == if x.val in Vals(acc) then Vals(acc) else Vals(acc) + [x.val]
  {
    if acc != [] {
      var r := AddTo(acc, x);
      if acc[0].val == x.val {
        assert r[1..] == acc[1..];
      } else {
        AddToVals(acc[1..], x);
        assert r[1..] == AddTo(acc[1..], x);
        assert Vals(r) == [acc[0].val] + Vals(AddTo(acc[1..], x));
      }
    }
  }

  ghost predicate NoRepeat(vals: seq<Val>) {
    forall i, j :: 0 <= i < j < |vals| ==> vals[i] != vals[j]
  }

  lemma DistinctByVals(incs: seq<Increase>)
    ensures Distinct(incs) <==> NoRepeat(Vals(incs))
  {
    if Distinct(incs) {
      forall i, j | 0 <= i < j < |incs|
        ensures Vals(incs)[i] != Vals(incs)[j]
      {
        assert incs[i].val != incs[j].val;
      }
    }
    if NoRepeat(Vals(incs)) {
      forall i, j | 0 <= i < j < |incs|
        ensures incs[i].val != incs[j].val
      {
        assert Vals(incs)[i] != Vals(incs)[j];
      }
    }
  }

  lemma {:induction false} FirstsNoRepeat(incs: seq<Increase>)
    ensures NoRepeat(Firsts(incs))
  {
    if incs != [] {
      FirstsNoRepeat(incs[..|incs| - 1]);
    }
  }

  lemma {:induction false} MergedVals(incs: seq<Increase>)
    ensures Vals(Merge([], incs)) == Firsts(incs)
  {
    if incs != [] {
      MergedVals(incs[..|incs| - 1]);
      AddToVals(Merge([], incs[..|incs| - 1]), incs[|incs| - 1]);
    }
  }

  /** The merged list has each validator once, in order of first appearance... */
  lemma MergedIsDistinctInOrder(incs: seq<Increase>)
    ensures Distinct(Merge([], incs))
    ensures Vals(Merge([], incs)) == Firsts(incs)
  {
    MergedVals(incs);
    FirstsNoRepeat(incs);
    DistinctByVals(Merge([], incs));
  }

  /** ... and carries, for every validator, exactly the sum the flattened list carries. */
  lemma {:induction false} MergeKeepsSums(incs: seq<Increase>, v: Val)
    ensures SumFor(Merge([], incs), v) == SumFor(incs, v)
  {
    if incs != [] {
      var p, x := incs[..|incs| - 1], incs[|incs| - 1];
      MergeKeepsSums(p, v);
      SumAddTo(Merge([], p), x, v);
      SumAppend(p, [x], v);
      assert incs == p + [x];
    }
  }

  /** With each validator once, an entry of the merged list is that validator's whole sum. */
  lemma {:induction false} EntryIsSum(incs: seq<Increase>, k: nat)
    requires Distinct(incs) && k < |incs|
    ensures SumFor(incs, incs[k].val) == incs[k].amount
  {
    if k == 0 {
      NotThere(incs[1..], incs[0].val);
    } else {
      EntryIsSum(incs[1..], k - 1);
    }
  }

  lemma {:induction false} NotThere(incs: seq<Increase>, v: Val)
    requires forall i :: 0 <= i < |incs| ==> incs[i].val != v
    ensures SumFor(incs, v) == 0
  {
    if incs != [] {
      NotThere(incs[1..], v);
    }
  }

  lemma {:induction false} FirstFaultAppend(a: seq<(Msg, nat)>, b: seq<(Msg, nat)>, bounds: Option<Bounds>)
    ensures FirstFault(a + b, bounds)
         == if FirstFault(a, bounds).Some? then FirstFault(a, bounds) else FirstFault(b, bounds)
  {
    if a == [] {
      assert a + b == b;
    } else {
      assert (a + b)[1..] == a[1..] + b;
      FirstFaultAppend(a[1..], b, bounds);
    }
  }

  /** One turn of either walk: the head of the list, then what is nested in it, then the rest. */
  lemma VerdictUnfold(msgs: seq<Msg>, depth: nat, bounds: Option<Bounds>)
    requires msgs != [] && depth <= MAX_AUTHZ_DEPTH
    ensures var f := if msgs[0].Exec? then Verdict(msgs[0].inner, bounds, depth + 1)
                     else Fault(msgs[0], depth, bounds);
            Verdict(msgs, bounds, depth) == if f.Some? then f else Verdict(msgs[1..], bounds, depth)
  {
    var head := [(msgs[0], depth)];
    var inner := if msgs[0].Exec? then Nodes(msgs[0].inner, depth + 1) else [];
    FirstFaultAppend(head + inner, Nodes(msgs[1..], depth), bounds);
    FirstFaultAppend(head, inner, bounds);
    assert head[1..] == [];
  }

  /** checkMsgs accepts exactly the trees in which no message, at any depth, has a fault. */
  lemma AcceptsIff(msgs: seq<Msg>, bounds: Option<Bounds>, depth: nat)
    ensures Verdict(msgs, bounds, depth).None? <==>
            depth <= MAX_AUTHZ_DEPTH
            && forall n :: n in Nodes(msgs, depth) ==> Fault(n.0, n.1, bounds).None?
  {
    NoFaultIff(Nodes(msgs, depth), bounds);
  }

  lemma {:induction false} NoFaultIff(nodes: seq<(Msg, nat)>, bounds: Option<Bounds>)
    ensures FirstFault(nodes, bounds).None? <==> forall n :: n in nodes ==> Fault(n.0, n.1, bounds).None?
  {
    if nodes != [] {
      NoFaultIff(nodes[1..], bounds);
      assert nodes == [nodes[0]] + nodes[1..];
    }
  }

  /** In full: a tree is accepted if and only if everything in it decodes, nothing nests deeper than six
      levels, and every creation, at any level, bonds and commits itself to at least the minimum and bonds
      no more than the maximum, if there is one. */
  lemma AcceptedIff(msgs: seq<Msg>, min: int, max: int, depth: nat)
    ensures Verdict(msgs, Some(Bounds(min, max)), depth).None? <==>
            depth <= 6
            && forall n :: n in Nodes(msgs, depth) ==>
                 && !n.0.UndecodableExec?
                 && (n.0.Exec? ==> n.1 < 6)
                 && (n.0.CreateValidator? ==>
                       n.0.selfBond >= min && n.0.minSelfDelegation >= min && (max <= 0 || n.0.selfBond <= max))
  {
    AcceptsIff(msgs, Some(Bounds(min, max)), depth);
  }

  lemma CollectableIff(msgs: seq<Msg>, depth: nat)
    ensures Verdict(msgs, None, depth).None? <==>
            depth <= 6 && forall n :: n in Nodes(msgs, depth) ==> !n.0.UndecodableExec? && (n.0.Exec? ==> n.1 < 6)
  {
    AcceptsIff(msgs, None, depth);
  }

  lemma {:induction false} FirstFaultAt(nodes: seq<(Msg, nat)>, bounds: Option<Bounds>, k: nat)
    requires k < |nodes| && forall j :: 0 <= j < k ==> Fault(nodes[j].0, nodes[j].1, bounds).None?
    ensures var f := Fault(nodes[k].0, nodes[k].1, bounds); f.Some? ==> FirstFault(nodes, bounds) == f
  {
    if k > 0 { FirstFaultAt(nodes[1..], bounds, k - 1); }
  }

  /** And what a refusal names is what is wrong with the first message that breaks any of this. */
  lemma RefusalNamesTheFirst(msgs: seq<Msg>, min: int, max: int, depth: nat, k: nat)
    requires depth <= 6 && k < |Nodes(msgs, depth)|
    requires forall j :: 0 <= j < k ==>
               var (m, d) := Nodes(msgs, depth)[j];
               && !m.UndecodableExec?
               && (m.Exec? ==> d < 6)
               && (m.CreateValidator? ==>
                     m.selfBond >= min && m.minSelfDelegation >= min && (max <= 0 || m.selfBond <= max))
    ensures var (m, d) := Nodes(msgs, depth)[k]; var r := Verdict(msgs, Some(Bounds(min, max)), depth);
            && (m.UndecodableExec? ==> r == Some(Undecodable))
            && (m.Exec? && d >= 6 ==> r == Some(TooDeep))
            && (m.CreateValidator? ==>
                  && (m.selfBond < min ==> r == Some(BondBelowMinimum))
                  && (m.selfBond >= min > m.minSelfDelegation ==> r == Some(SelfDelegationBelowMinimum))
                  && (m.selfBond >= min && m.minSelfDelegation >= min && 0 < max < m.selfBond ==>
                        r == Some(BondAboveMaximum)))
  {
    FirstFaultAt(Nodes(msgs, depth), Some(Bounds(min, max)), k);
  }

  lemma PathSteps(msgs: seq<Msg>, path: seq<nat>)
    requires msgs != [] && path != []
    ensures At(msgs, [0] + path) == if msgs[0].Exec? then At(msgs[0].inner, path) else None
    ensures At(msgs, path[0 := path[0] + 1]) == At(msgs[1..], path)
  {
    assert ([0] + path)[1..] == path && path[0 := path[0] + 1][1..] == path[1..];
  }

  lemma {:induction false} PathToNode(msgs: seq<Msg>, depth: nat, k: nat) returns (path: seq<nat>)
    requires k < |Nodes(msgs, depth)|
    ensures At(msgs, path) == Some(Nodes(msgs, depth)[k].0) && Nodes(msgs, depth)[k].1 == depth + |path| - 1
    decreases msgs
  {
    var inner := if msgs[0].Exec? then Nodes(msgs[0].inner, depth + 1) else [];
    if k == 0 {
      path := [0];
    } else if k < 1 + |inner| {
      var below := PathToNode(msgs[0].inner, depth + 1, k - 1);
      path := [0] + below;
      PathSteps(msgs, below);
    } else {
      var later := PathToNode(msgs[1..], depth, k - 1 - |inner|);
      path := later[0 := later[0] + 1];
      PathSteps(msgs, later);
    }
  }

  lemma {:induction false} NodeOnPath(msgs: seq<Msg>, depth: nat, path: seq<nat>)
    requires At(msgs, path).Some?
    ensures (At(msgs, path).value, depth + |path| - 1) in Nodes(msgs, depth)
    decreases msgs
  {
    if path[0] > 0 {
      var later := path[0 := path[0] - 1];
      PathSteps(msgs, later);
      assert later[0 := later[0] + 1] == path;
      NodeOnPath(msgs[1..], depth, later);
    } else if |path| > 1 {
      NodeOnPath(msgs[0].inner, depth + 1, path[1..]);
    }
  }

  /** The nodes are the messages that paths lead to, each as deep as its path is long. */
  lemma NodesArePaths(msgs: seq<Msg>, depth: nat, m: Msg, d: nat)
    ensures (m, d) in Nodes(msgs, depth) <==>
            exists path: seq<nat> :: At(msgs, path) == Some(m) && d == depth + |path| - 1
  {
    if (m, d) in Nodes(msgs, depth) {
      var k :| 0 <= k < |Nodes(msgs, depth)| && Nodes(msgs, depth)[k] == (m, d);
      var path := PathToNode(msgs, depth, k);
    }
    if path: seq<nat> :| At(msgs, path) == Some(m) && d == depth + |path| - 1 {
      NodeOnPath(msgs, depth, path);
    }
  }

  // ---- what is collected ----

  lemma {:induction false} FlattenAppend(a: seq<Msg>, b: seq<Msg>)
    ensures Flatten(a + b) == Flatten(a) + Flatten(b)
    decreases |a|
  {
    if a == [] {
      assert a + b == b;
    } else {
      assert (a + b)[0] == a[0] && (a + b)[1..] == a[1..] + b;
      FlattenAppend(a[1..], b);
    }
  }

  /** A delegation and the destination of a redelegation count in full, wherever they stand; what is
      nested counts as if it were not; and nothing else counts. */
  lemma WhatIsCollected(before: seq<Msg>, m: Msg, after: seq<Msg>)
    ensures Flatten(before + [m] + after) == Flatten(before) + Flatten([m]) + Flatten(after)
    ensures m.Exec? ==> Flatten([m]) == Flatten(m.inner)
    ensures forall v, x :: m == Delegate(Some(v), Some(x)) || m == BeginRedelegate(Some(v), Some(x)) ==>
              Flatten([m]) == [Increase(v, x)]
    ensures !m.Exec? && (m.Delegate? || m.BeginRedelegate? ==> m.dst.None? || m.amount.None?) ==> Flatten([m]) == []
  {
    FlattenAppend(before + [m], after);
    FlattenAppend(before, [m]);
    assert [m][1..] == [];
  }

  lemma NothingToJudge(depth: nat, bounds: Option<Bounds>)
    ensures Verdict([], bounds, depth) == if depth > MAX_AUTHZ_DEPTH then Some(TooDeep) else None
  {}

  /** One turn of the sum: the head of the list, or what is nested in it, then the rest. */
  lemma MergeUnfold(acc: seq<Increase>, msgs: seq<Msg>)
    requires msgs != []
    ensures Merge(acc, Flatten(msgs))
         == Merge(Merge(acc, if msgs[0].Exec? then Flatten(msgs[0].inner) else Own(msgs[0])), Flatten(msgs[1..]))
  {
    MergeAppend(acc, if msgs[0].Exec? then Flatten(msgs[0].inner) else Own(msgs[0]), Flatten(msgs[1..]));
  }

  lemma MergeFew(acc: seq<Increase>, x: Increase)
    ensures Merge(acc, Flatten([])) == Merge(acc, []) == acc && Merge(acc, [x]) == AddTo(acc, x)
  {
    assert [x][..0] == [];
  }

  // ---- the walks as the program runs them ----

  method CheckMsgs(msgs: seq<Msg>, min: int, max: int, depth: nat) returns (r: Option<WalkError>)
    ensures r == Verdict(msgs, Some(Bounds(min, max)), depth)
    ensures r.None? <==>
            depth <= 6
            && forall n :: n in Nodes(msgs, depth) ==>
                 && !n.0.UndecodableExec?
                 && (n.0.Exec? ==> n.1 < 6)
                 && (n.0.CreateValidator? ==>
                       n.0.selfBond >= min && n.0.minSelfDelegation >= min && (max <= 0 || n.0.selfBond <= max))
    decreases msgs
  {
    hide Nodes;
    hide FirstFault;
    AcceptedIff(msgs, min, max, depth);
    NothingToJudge(depth, Some(Bounds(min, max)));
    ghost var bounds := Some(Bounds(min, max));
    if depth > MAX_AUTHZ_DEPTH {
      return Some(TooDeep);
    }
    var capped := max > 0;
    for i := 0 to |msgs|
      invariant Verdict(msgs, bounds, depth) == Verdict(msgs[i..], bounds, depth)
    {
      var m := msgs[i];
      VerdictUnfold(msgs[i..], depth, bounds);
      assert msgs[i..][1..] == msgs[i + 1..];
      if m.CreateValidator? {
        if m.selfBond < min {
          return Some(BondBelowMinimum);
        }
        if m.minSelfDelegation < min {
          return Some(SelfDelegationBelowMinimum);
        }
        if capped && m.selfBond > max {
          return Some(BondAboveMaximum);
        }
      }
      if m.UndecodableExec? {
        return Some(Undecodable);
      }
      if m.Exec? {
        var e := CheckMsgs(m.inner, min, max, depth + 1);
        if e.Some? {
          return e;
        }
      }
    }
    return None;
  }

  method CollectBondIncreases(msgs: seq<Msg>, acc: seq<Increase>, depth: nat)
    returns (r: Result<seq<Increase>, WalkError>)
    ensures r == var f := Verdict(msgs, None, depth);
                 if f.Some? then Err(f.value) else Ok(Merge(acc, Flatten(msgs)))
    ensures r.Ok? <==>
            depth <= 6 && forall n :: n in Nodes(msgs, depth) ==> !n.0.UndecodableExec? && (n.0.Exec? ==> n.1 < 6)
    decreases msgs
  {
    hide Nodes;
    hide Merge;
    hide Flatten;
    hide AddTo;
    hide FirstFault;
    CollectableIff(msgs, depth);
    NothingToJudge(depth, None);
    if depth > MAX_AUTHZ_DEPTH {
      return Err(TooDeep);
    }
    var grown := acc;
    for i := 0 to |msgs|
      invariant Verdict(msgs, None, depth) == Verdict(msgs[i..], None, depth)
      invariant Merge(grown, Flatten(msgs[i..])) == Merge(acc, Flatten(msgs))
    {
      var m := msgs[i];
      var rest := msgs[i + 1..];
      VerdictUnfold(msgs[i..], depth, None);
      assert msgs[i..][1..] == rest;
      MergeUnfold(grown, msgs[i..]);
      MergeFew(grown, if Own(m) != [] then Own(m)[0] else Increase("", 0));
      match m {
        case Delegate(dst, amount) =>
          if dst.Some? && amount.Some? {
            grown := Add(grown, Increase(dst.value, amount.value));
          }
        case BeginRedelegate(dst, amount) =>
          if dst.Some? && amount.Some? {
            grown := Add(grown, Increase(dst.value, amount.value));
          }
        case UndecodableExec =>
          return Err(Undecodable);
        case Exec(nested) =>
          var sub := CollectBondIncreases(nested, grown, depth + 1);
          if sub.Err? {
            return sub;
          }
          grown := sub.value;
        case _ =>
      }
    }
    MergeFew(grown, Increase("", 0));
    assert msgs[|msgs|..] == [];
    return Ok(grown);
  }

  // ---- what the two walks have to do with each other ----

  /** Once checkMsgs accepts a transaction, collecting its increases cannot fail. */
  lemma AcceptedIsCollectable(msgs: seq<Msg>, bounds: Bounds, depth: nat)
    requires Verdict(msgs, Some(bounds), depth).None?
    ensures Verdict(msgs, None, depth).None?
  {
    AcceptsIff(msgs, Some(bounds), depth);
    AcceptsIff(msgs, None, depth);
  }
}
