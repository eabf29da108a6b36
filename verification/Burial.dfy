/** The depth limit over whole runs: which steps a buried block survives. */
module Burial {
  import opened Bits
  import opened Compact
  import opened Work
  import opened Primitives
  import opened Validation
  import opened BlockTree
  import opened TreeGrowth
  import opened ActiveChain
  import opened Selector
  import opened Chainstate
  import opened Activation
  import opened Submission
  import opened Invalidation
  import opened Runs

  /** The block at height k has at least the limit less one blocks above it. */
  ghost predicate Buried(e: Env, s: State, k: nat)
  {
    k + e.params.suspiciousReorgDepth <= |s.chain|
  }

  ghost predicate StaysAt(s: State, k: nat, h: Hash)
  {
    k < |s.chain| && s.chain[k] == h
  }

  /** The operation spares block h: it invalidates neither h nor an ancestor, and it reloads only descendants of h. */
  ghost predicate Spares(s: State, op: Op, h: Hash)
  {
    && Linked(s.index) && h in s.index
    && match op
       case Submit(_, _, _) => true
       case Activate => true
       case Invalidate(x) => x in s.index && s.index[x].prev.Some? ==> !IsAncestor(s.index, x, h)
       case Reload(t) => t in s.index && IsAncestor(s.index, h, t)
  }

  lemma OnThePath(e: Env, s: State, k: nat)
    requires Inv(e, s) && k < |s.chain|
    ensures Linked(s.index) && s.chain[k] in s.index && s.index[s.chain[k]].height == k
    ensures Path(s.index, s.chain[k]) == s.chain[..k + 1]
  {
    hide EntryOk, Rooted, Closed, AcceptedPaths, AllTree, Path;
    PathPrefix(s.index, Tip(s), k);
  }

  /** An activation does not touch a buried block. */
  lemma BuriedStays(e: Env, s: State, k: nat)
    requires Inv(e, s) && Ready(s) && e.params.suspiciousReorgDepth > 0 && Buried(e, s, k)
    ensures StaysAt(s, k, s.chain[k]) && StaysAt(Activated(e, s), k, s.chain[k])
  {
    hide Shape, IndexInv, Linked, Activated, CommonLength;
    ActivatedMoves(e, s);
    SameEntryIfDeep(s.chain, Activated(e, s).chain, k, e.params.suspiciousReorgDepth);
  }

  lemma InvalidationSpares(e: Env, s: State, x: Hash, k: nat)
    requires Inv(e, s) && k < |s.chain| && Invalidatable(s, x)
    ensures s.chain[k] in s.index
    ensures StaysAt(s.(chain := ChainAfter(s, x)), k, s.chain[k]) <==> !IsAncestor(s.index, x, s.chain[k])
  {
    hide Inv, Linked, Path;
    OnThePath(e, s, k);
    ChainSteps(e, s, x);
    var c := s.chain[..k + 1];
    if x in s.chain && s.index[x].height <= k {
      assert c[s.index[x].height] == x;
    }
    if x in c {
      var i :| 0 <= i < |c| && c[i] == x;
      OnThePath(e, s, i);
    }
  }

  lemma ReloadSpares(e: Env, s: State, t: Hash, k: nat)
    requires Inv(e, s) && k < |s.chain| && Linked(s.index) && t in s.index
    ensures StaysAt(Reloaded(s, t), k, s.chain[k]) <==> IsAncestor(s.index, s.chain[k], t)
  {
    hide Inv, Linked, Path;
    OnThePath(e, s, k);
    AncestorAtHeight(s.index, s.chain[k], t);
  }

  /** One step leaves a block at its height exactly if it spares it, provided it is buried when the step activates. */
  lemma StepSpares(e: Env, s: State, op: Op, s': State, k: nat)
    requires Inv(e, s) && e.params.suspiciousReorgDepth > 0 && Next(e, s, op, s') && k < |s.chain|
    requires op.Activate? ==> Buried(e, s, k)
    ensures StaysAt(s', k, s.chain[k]) <==> Spares(s, op, s.chain[k])
  {
    hide Inv, Activated, Buried, IsAncestor, Path;
    OnThePath(e, s, k);
    match op
    case Submit(hs, h, now) =>
    case Activate => BuriedStays(e, s, k);
    case Invalidate(x) =>
      if Invalidatable(s, x) {
        InvalidationSpares(e, s, x, k);
      }
    case Reload(t) => ReloadSpares(e, s, t, k);
  }

  /** Wherever an activation happens the block at height k is buried. */
  ghost predicate BuriedWhenActivated(e: Env, states: seq<State>, ops: seq<Op>, i: nat, k: nat)
    requires |states| == |ops| + 1
  {
    forall j :: i <= j < |ops| && ops[j].Activate? ==> Buried(e, states[j], k)
  }

  ghost predicate StaysFrom(states: seq<State>, i: nat, k: nat, h: Hash)
  {
    forall j :: i <= j < |states| ==> StaysAt(states[j], k, h)
  }

  ghost predicate SparedFrom(states: seq<State>, ops: seq<Op>, i: nat, h: Hash)
    requires |states| == |ops| + 1
  {
    forall j :: i <= j < |ops| ==> Spares(states[j], ops[j], h)
  }

  /**
   * Over every run of submissions, activations, invalidations and reloads, under a depth limit: a block that is buried
   * whenever the chain is activated stays at its height in every later state if and only if every step spares it.
   */
  lemma BuriedExactly(e: Env, states: seq<State>, ops: seq<Op>, i: nat, k: nat)
    requires IsRun(e, states, ops) && AlwaysConnects(e) && e.params.suspiciousReorgDepth > 0
    requires i < |states| && k < |states[i].chain| && BuriedWhenActivated(e, states, ops, i, k)
    ensures StaysFrom(states, i, k, states[i].chain[k]) <==> SparedFrom(states, ops, i, states[i].chain[k])
  {
    hide Inv, Next, Initial, Spares, Buried, StaysAt;
    var h := states[i].chain[k];
    if StaysFrom(states, i, k, h) {
      forall j | i <= j < |ops|
        ensures Spares(states[j], ops[j], h)
      {
        assert StaysAt(states[j], k, h) && StaysAt(states[j + 1], k, h);
        RunStep(e, states, ops, i, j, k, h);
      }
    }
    if SparedFrom(states, ops, i, h) {
      forall j | i <= j < |states|
        ensures StaysAt(states[j], k, h)
      {
        SparedStays(e, states, ops, i, j, k);
      }
    }
  }

  lemma RunStep(e: Env, states: seq<State>, ops: seq<Op>, i: nat, j: nat, k: nat, h: Hash)
    requires IsRun(e, states, ops) && AlwaysConnects(e) && e.params.suspiciousReorgDepth > 0
    requires i <= j < |ops| && BuriedWhenActivated(e, states, ops, i, k) && StaysAt(states[j], k, h)
    ensures StaysAt(states[j + 1], k, h) <==> Spares(states[j], ops[j], h)
  {
    hide Inv, Next, Initial, Spares, Buried;
    RunInv(e, states, ops, j);
    assert Next(e, states[j], ops[j], states[j + 1]);
    StepSpares(e, states[j], ops[j], states[j + 1], k);
  }

  lemma {:induction false} SparedStays(e: Env, states: seq<State>, ops: seq<Op>, i: nat, j: nat, k: nat)
    requires IsRun(e, states, ops) && AlwaysConnects(e) && e.params.suspiciousReorgDepth > 0
    requires i <= j < |states| && k < |states[i].chain| && BuriedWhenActivated(e, states, ops, i, k)
    requires SparedFrom(states, ops, i, states[i].chain[k])
    ensures StaysAt(states[j], k, states[i].chain[k])
    decreases j
  {
    hide Inv, Next, Initial, Spares, Buried, BuriedWhenActivated;
    if i < j {
      SparedStays(e, states, ops, i, j - 1, k);
      RunStep(e, states, ops, i, j - 1, k, states[i].chain[k]);
    }
  }

  // ---- One difficulty ----

  ghost predicate UniformBits(idx: Index, bits: nat)
  {
    forall h {:trigger idx[h].header} :: h in idx ==> idx[h].header.bits == bits
  }

  /** With one difficulty throughout, work counts blocks. */
  lemma {:induction false} UniformWork(e: Env, idx: Index, bits: nat, h: Hash)
    requires TreeInv(e.oracle, e.genesis, idx) && NoWrap(idx) && UniformBits(idx, bits) && h in idx
    ensures idx[h].work == (idx[h].height + 1) * BlockProof(bits)
    decreases idx[h].height
  {
    hide BlockProof, NoWrap, Path, AddWork;
    assert EntryOk(e.oracle, idx, h);
    if idx[h].prev.Some? {
      var p := idx[h].prev.value;
      WorkGrows(e.oracle, e.genesis, idx, h);
      UniformWork(e, idx, bits, p);
      Distrib(idx[p].height + 1, 1, BlockProof(bits));
    }
  }

  lemma SameEntryIfDeep(p: seq<Hash>, q: seq<Hash>, k: nat, d: int)
    requires |p| - CommonLength(p, q) < d && k + d <= |p|
    ensures k < |q| && p[k] == q[k]
  {
    hide CommonLength;
    SameEntry(p, q, CommonLength(p, q), k);
  }

  lemma HeavierIsTaller(e: Env, s: State, s': State, bits: nat)
    requires Inv(e, s) && Inv(e, s') && s'.index == s.index && NoWrap(s.index) && UniformBits(s.index, bits)
    requires s.index[Tip(s')].work > s.index[Tip(s)].work
    ensures |s'.chain| > |s.chain|
  {
    hide EntryOk, Rooted, Closed, AcceptedPaths, AllTree, NoWrap, UniformBits, BlockProof, Linked;
    UniformWork(e, s.index, bits, Tip(s));
    UniformWork(e, s.index, bits, Tip(s'));
    LessFactor(|s.chain|, |s'.chain|, BlockProof(bits));
  }

  lemma LessFactor(a: nat, b: nat, w: nat)
    requires a * w < b * w
    ensures a < b
  {
    if b <= a {
      MulMono(b, a, w);
    }
  }

  ghost predicate NothingInvalidated(ops: seq<Op>)
  {
    forall k :: 0 <= k < |ops| ==> !ops[k].Invalidate?
  }

  /** The chain does not get shorter. */
  lemma NoShorter(e: Env, s: State, op: Op, s': State, bits: nat)
    requires Inv(e, s) && Inv(e, s') && AlwaysConnects(e) && Next(e, s, op, s') && !op.Invalidate?
    requires NoWrap(s.index) && UniformBits(s.index, bits)
    ensures |s'.chain| >= |s.chain|
  {
    hide Shape, IndexInv, Linked, NoWrap, UniformBits, Submittable, Activated, MostWork;
    match op
    case Submit(_, _, _) =>
    case Activate =>
      ActivatedMoves(e, s);
      ActivatedKeeps(e, s);
      if s'.chain != s.chain {
        HeavierIsTaller(e, s, s', bits);
      }
    case Reload(t) =>
      MostIsMost(e, s, t);
      HeavyIsTall(e, s, s', bits);
  }

  lemma MostIsMost(e: Env, s: State, t: Hash)
    requires Inv(e, s) && MostWork(s.index, t) && Linked(s.index)
    ensures s.chain != [] && Tip(s) in s.index && s.index[Tip(s)].work <= s.index[t].work
    ensures Path(s.index, t) != [] && Path(s.index, t)[|Path(s.index, t)| - 1] == t
  {
    hide EntryOk, Rooted, Closed, AcceptedPaths, AllTree;
  }

  lemma HeavyIsTall(e: Env, s: State, s': State, bits: nat)
    requires Inv(e, s) && Inv(e, s') && s'.index == s.index && NoWrap(s.index) && UniformBits(s.index, bits)
    requires s.index[Tip(s')].work >= s.index[Tip(s)].work
    ensures |s'.chain| >= |s.chain|
  {
    hide EntryOk, Rooted, Closed, AcceptedPaths, NoWrap, BlockProof, Linked, ValidBits;
    UniformWork(e, s.index, bits, Tip(s));
    UniformWork(e, s.index, bits, Tip(s'));
    UniformPositive(e, s.index, bits, Tip(s));
    if |s'.chain| < |s.chain| {
      MoreFactor(|s'.chain|, |s.chain|, BlockProof(bits));
    }
  }

  lemma UniformPositive(e: Env, idx: Index, bits: nat, h: Hash)
    requires AllTree(idx) && UniformBits(idx, bits) && h in idx
    ensures bits < 0x1_0000_0000 && BlockProof(bits) > 0
  {
    assert ValidBits(idx[h].header.bits);
  }

  lemma MoreFactor(a: nat, b: nat, w: nat)
    requires a < b && w > 0
    ensures a * w < b * w
  {
    Distrib(a, b - a, w);
    MulMono(1, b - a, w);
  }

  lemma {:induction false} StaysBuried(e: Env, states: seq<State>, ops: seq<Op>, bits: nat, i: nat, j: nat, k: nat)
    requires IsRun(e, states, ops) && AlwaysConnects(e) && NothingInvalidated(ops)
    requires NeverWraps(states) && forall n :: 0 <= n < |states| ==> UniformBits(states[n].index, bits)
    requires i <= j < |states| && Buried(e, states[i], k)
    ensures Buried(e, states[j], k)
    decreases j
  {
    hide Inv, Next, Initial, NoWrap, UniformBits, Linked;
    if i < j {
      StaysBuried(e, states, ops, bits, i, j - 1, k);
      RunInv(e, states, ops, j - 1);
      RunInv(e, states, ops, j);
      assert Next(e, states[j - 1], ops[j - 1], states[j]);
      NoShorter(e, states[j - 1], ops[j - 1], states[j], bits);
    }
  }

  ghost predicate ReloadsAbove(states: seq<State>, ops: seq<Op>, i: nat, h: Hash)
    requires |states| == |ops| + 1
  {
    forall j :: i <= j < |ops| && ops[j].Reload? ==> Spares(states[j], ops[j], h)
  }

  /**
   * With depth limit D > 0, one difficulty throughout and nothing invalidated, a block with D - 1 blocks above it on
   * the active chain has at least as many above it in every later state, and it stays at its height in all of them
   * if and only if every reload takes a tip that descends from it.
   */
  lemma BuriedForever(e: Env, states: seq<State>, ops: seq<Op>, bits: nat, i: nat, k: nat)
    requires IsRun(e, states, ops) && AlwaysConnects(e) && e.params.suspiciousReorgDepth > 0 && NothingInvalidated(ops)
    requires NeverWraps(states) && forall n :: 0 <= n < |states| ==> UniformBits(states[n].index, bits)
    requires i < |states| && Buried(e, states[i], k)
    ensures forall j :: i <= j < |states| ==> Buried(e, states[j], k)
    ensures StaysFrom(states, i, k, states[i].chain[k]) <==> ReloadsAbove(states, ops, i, states[i].chain[k])
  {
    hide Inv, Next, Initial, NoWrap, UniformBits, Linked, Spares;
    forall j | i <= j < |states|
      ensures Buried(e, states[j], k)
    {
      StaysBuried(e, states, ops, bits, i, j, k);
    }
    BuriedExactly(e, states, ops, i, k);
    if ReloadsAbove(states, ops, i, states[i].chain[k]) {
      ReloadsOnly(e, states, ops, i, |ops|, k);
    }
  }

  /** Submissions and activations spare every block on the chain. */
  lemma {:induction false} ReloadsOnly(e: Env, states: seq<State>, ops: seq<Op>, i: nat, j: nat, k: nat)
    requires IsRun(e, states, ops) && AlwaysConnects(e) && e.params.suspiciousReorgDepth > 0 && NothingInvalidated(ops)
    requires i <= j <= |ops| && k < |states[i].chain| && BuriedWhenActivated(e, states, ops, i, k)
    requires ReloadsAbove(states, ops, i, states[i].chain[k])
    ensures forall n :: i <= n < j ==> Spares(states[n], ops[n], states[i].chain[k])
    ensures StaysAt(states[j], k, states[i].chain[k])
    decreases j
  {
    hide Inv, Next, Initial, Buried, Spares;
    if i < j {
      ReloadsOnly(e, states, ops, i, j - 1, k);
      var h := states[i].chain[k];
      RunInv(e, states, ops, j - 1);
      if !ops[j - 1].Reload? {
        Unharmed(e, states[j - 1], ops[j - 1], k, h);
      }
      RunStep(e, states, ops, i, j - 1, k, h);
    }
  }

  lemma Unharmed(e: Env, s: State, op: Op, k: nat, h: Hash)
    requires Inv(e, s) && StaysAt(s, k, h) && (op.Submit? || op.Activate?)
    ensures Spares(s, op, h)
  {
    hide Inv;
    OnThePath(e, s, k);
  }

  /** If no other valid block weighs as much as the tip, a reload keeps the whole chain. */
  lemma ReloadKeepsBest(e: Env, s: State, t: Hash, s': State)
    requires Inv(e, s) && Ready(s) && Next(e, s, Reload(t), s')
    requires forall b :: Valid(s.index, b) && b != Tip(s) ==> s.index[b].work < s.index[Tip(s)].work
    ensures t == Tip(s) && s'.chain == s.chain
  {
    hide EntryOk, Rooted, Closed, AcceptedPaths, AllTree, Linked;
  }
}
