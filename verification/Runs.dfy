/** Whole runs of the chain state: what holds in every reachable state. */
module Runs {
  import opened Bits
  import opened Work
  import opened Primitives
  import opened Validation
  import opened BlockTree
  import opened TreeGrowth
  import opened ActiveChain
  import opened Selector
  import opened Chainstate
  import opened Activation
  import opened Submission
  import opened Invalidation

  datatype Op =
    | Submit(headers: seq<Header>, hash: Hash, now: int)
    | Activate
    | Invalidate(hash: Hash)
    | Reload(tip: Hash)

  ghost predicate MostWork(idx: Index, t: Hash)
  {
    Valid(idx, t) && forall b :: Valid(idx, b) ==> idx[b].work <= idx[t].work
  }

  /** Load after Save: the index survives, the tip is a valid block of most work, candidates are the valid leaves. */
  ghost function Reloaded(s: State, t: Hash): (r: State)
    requires Linked(s.index) && t in s.index
  {
    State(s.index, Path(s.index, t), Leaves(s.index, 0), {})
  }

  ghost predicate CanStepBack(s: State, x: Hash)
    requires x in s.index
  {
    var c := ChainAfter(s, x);
    c != [] && c[|c| - 1] in s.index
  }

  ghost predicate Next(e: Env, s: State, op: Op, s': State)
  {
    && Ready(s)
    && match op
       case Submit(hs, h, now) => Submittable(e, s, hs, h, now) && s' == Submitted(e, s, hs, h, now)
       case Activate => s' == Activated(e, s)
       case Invalidate(x) =>
         if Invalidatable(s, x) then CanStepBack(s, x) && s' == Invalidated(s, x) else s' == s
       case Reload(t) => MostWork(s.index, t) && s' == Reloaded(s, t)
  }

  /** The state after Initialize. */
  ghost predicate Initial(e: Env, s: State)
  {
    exists header: Header ::
      && e.oracle.hash(header) == e.genesis && header.prev == NULL_HASH && ValidBits(header.bits)
      && s == GenesisState(e.genesis, header)
  }

  function GenesisState(g: Hash, header: Header): (s: State)
  {
    State(map[g := GenesisBlock(header)], [g], {g}, {})
  }

  function GenesisBlock(header: Header): (b: Block)
  {
    Block(header, None, None, 0, BlockProof(header.bits), header.time, Status(VALID_TREE, false, false))
  }

  ghost predicate IsRun(e: Env, states: seq<State>, ops: seq<Op>)
  {
    && |states| == |ops| + 1 && Initial(e, states[0])
    && forall i :: 0 <= i < |ops| ==> Next(e, states[i], ops[i], states[i + 1])
  }

  // ---- The invariant holds in every reachable state ----

  lemma InitialInv(e: Env, s: State)
    requires Initial(e, s)
    ensures Inv(e, s) && Ready(s) && TipIsBest(s) && Listed(s)
  {
    hide IndexInv, BlockProof, ValidBits, AddWork;
    var header: Header :| e.oracle.hash(header) == e.genesis && header.prev == NULL_HASH && ValidBits(header.bits)
      && s == GenesisState(e.genesis, header);
    InitialIndex(e, header);
  }

  lemma InitialIndex(e: Env, header: Header)
    requires e.oracle.hash(header) == e.genesis && header.prev == NULL_HASH && ValidBits(header.bits)
    ensures IndexInv(e, GenesisState(e.genesis, header).index)
  {
    hide BlockProof, ValidBits, AddWork, NextWorkRequired;
    assert Headers(GenesisState(e.genesis, header).index, e.genesis) == [header];
  }

  lemma ReloadedInv(e: Env, s: State, t: Hash)
    requires Inv(e, s) && AlwaysConnects(e) && MostWork(s.index, t)
    ensures Inv(e, Reloaded(s, t)) && Ready(Reloaded(s, t)) && TipIsBest(Reloaded(s, t))
  {
    hide EntryOk, Rooted, Closed, AcceptedPaths, AllTree, HasChild, Linked;
  }

  lemma NextInv(e: Env, s: State, op: Op, s': State)
    requires Inv(e, s) && AlwaysConnects(e) && Next(e, s, op, s')
    ensures Inv(e, s')
  {
    hide Shape, IndexInv, Submitted, Activated, Invalidated, Reloaded, Submittable, Invalidatable, MostWork, AlwaysConnects;
    match op
    case Submit(hs, h, now) => SubmittedInv(e, s, hs, h, now);
    case Activate => ActivatedInv(e, s);
    case Invalidate(x) =>
      if Invalidatable(s, x) {
        InvalidatedInv(e, s, x);
      }
    case Reload(t) => ReloadedInv(e, s, t);
  }

  /**
   * In every state of every run: the tree is rooted and correct, every path was accepted, failure is
   * closed under descendants, the chain is the path to a valid tip and all candidates are valid.
   */
  lemma {:induction false} RunInv(e: Env, states: seq<State>, ops: seq<Op>, i: nat)
    requires IsRun(e, states, ops) && AlwaysConnects(e) && i < |states|
    ensures Inv(e, states[i])
  {
    hide Inv, Next, Initial;
    if i == 0 {
      InitialInv(e, states[0]);
    } else {
      RunInv(e, states, ops, i - 1);
      NextInv(e, states[i - 1], ops[i - 1], states[i]);
    }
  }

  lemma NextVetted(e: Env, s: State, op: Op, s': State)
    requires Inv(e, s) && Vetted(e, s.index) && Next(e, s, op, s')
    ensures Vetted(e, s'.index)
  {
    hide Shape, IndexInv, Linked, Vetted, Activated, Insertable, InsertAll, Failing, Descendants, Leaves, Unwound, ChainAfter, Offered, SameButStatus;
    match op
    case Submit(hs, h, now) => InsertAllVetted(e, s.index, hs, now);
    case Activate =>
      ActivatedShape(e, s);
      RestatusVetted(e, s.index, s'.index);
    case Invalidate(x) =>
      if Invalidatable(s, x) {
        RestatusVetted(e, s.index, s'.index);
      }
    case Reload(_) =>
  }

  /**
   * In every state of every run every block but the genesis has both proofs of work, a version of at least one and a
   * height below the expiry of the network.
   */
  lemma {:induction false} RunVetted(e: Env, states: seq<State>, ops: seq<Op>, i: nat, h: Hash)
    requires IsRun(e, states, ops) && AlwaysConnects(e) && i < |states| && h in states[i].index && h != e.genesis
    ensures e.oracle.commitmentOk(states[i].index[h].header) && e.oracle.randomxOk(states[i].index[h].header)
    ensures states[i].index[h].header.version >= 1
    ensures !(0 < e.params.expirationInterval <= states[i].index[h].height)
  {
    hide IsRun;
    AllVetted(e, states, ops, i);
    assert VettedAt(e, states[i].index, h);
  }

  lemma {:induction false} AllVetted(e: Env, states: seq<State>, ops: seq<Op>, i: nat)
    requires IsRun(e, states, ops) && AlwaysConnects(e) && i < |states|
    ensures Vetted(e, states[i].index)
  {
    hide Inv, Next, Vetted;
    if i == 0 {
      InitialVetted(e, states[0]);
    } else {
      AllVetted(e, states, ops, i - 1);
      RunInv(e, states, ops, i - 1);
      assert Next(e, states[i - 1], ops[i - 1], states[i]);
      NextVetted(e, states[i - 1], ops[i - 1], states[i]);
    }
  }

  lemma InitialVetted(e: Env, s: State)
    requires Initial(e, s)
    ensures Vetted(e, s.index)
  {
    hide BlockProof, ValidBits;
  }

  /** So in every reachable state the difficulty code is total for the child of any block. */
  lemma ReachableDifficulty(e: Env, states: seq<State>, ops: seq<Op>, i: nat, h: Hash)
    requires IsRun(e, states, ops) && AlwaysConnects(e) && i < |states| && SaneParams(e.params)
    requires h in states[i].index && states[i].index[h].height < 0x8000_0000
    ensures Linked(states[i].index)
    ensures var hs := Headers(states[i].index, h);
            && (UsesAsert(e.params, hs) ==> AsertAsserts(e.params, hs))
            && NextWorkRequired(e.params, hs).Some? && NextWorkRequired(e.params, hs).value < 0x1_0000_0000
            && ValidBits(NextWorkRequired(e.params, hs).value)
  {
    hide IsRun, SaneParams, NextWorkRequired, UsesAsert, AsertAsserts, ValidBits, EntryOk, Rooted, Closed, AllTree, AcceptedChain;
    RunInv(e, states, ops, i);
    DifficultyIsTotal(e.params, Headers(states[i].index, h));
  }

  // ---- Maximal work over whole runs ----

  ghost predicate NeverWraps(states: seq<State>)
  {
    forall k :: 0 <= k < |states| ==> Linked(states[k].index) && NoWrap(states[k].index)
  }

  /**
   * The step does not cost coverage: a submission promotes no orphan or the candidates match all it inserts, an
   * invalidation names a block of the active chain or leaves a heaviest block that is a candidate or a leaf, and at an
   * activation the guard lets a heaviest candidate pass.
   */
  ghost predicate Safe(e: Env, s: State, op: Op)
    requires Ready(s)
  {
    match op
    case Submit(hs, _, _) => |hs| <= 1 || Matched(e, s, hs)
    case Invalidate(x) => Invalidatable(s, x) ==> Kept(s, x)
    case Activate => Passable(e, s)
    case Reload(_) => true
  }

  /** From a covered state a step leads to a covered state exactly if it is safe. */
  lemma StepExact(e: Env, s: State, op: Op, s': State)
    requires Inv(e, s) && AlwaysConnects(e)
    requires Ready(s) && Covered(s) && Next(e, s, op, s') && NoWrap(s.index) && Linked(s'.index) && NoWrap(s'.index)
    ensures Ready(s') && (Covered(s') <==> Safe(e, s, op))
    ensures (op.Activate? && Safe(e, s, op)) || op.Reload? ==> TipIsBest(s')
  {
    hide Inv, NoWrap, Linked, Covered, Submittable, Activated, Invalidated, Invalidatable, ChainAfter, Kept, Matched, Reloaded, TipIsBest, Ready, MostWork, Passable;
    match op
    case Submit(hs, h, now) =>
      GrownBy(e, s, hs, h, now);
      SubmittedExact(e, s, hs, h, now);
    case Activate => ActivateFinds(e, s, op, s');
    case Invalidate(x) =>
      if Invalidatable(s, x) {
        InvalidatedExact(e, s, x);
      }
    case Reload(_) => ReloadFinds(e, s, op, s');
  }

  lemma GrownBy(e: Env, s: State, hs: seq<Header>, h: Hash, now: int)
    requires Submittable(e, s, hs, h, now)
    ensures Submitted(e, s, hs, h, now).index == InsertAll(e, s.index, hs, now)
  {
    hide Linked, Insertable, Offered;
  }

  lemma ActivateFinds(e: Env, s: State, op: Op, s': State)
    requires Inv(e, s) && AlwaysConnects(e) && Ready(s) && Covered(s) && Next(e, s, op, s') && op.Activate?
    ensures Ready(s') && (Covered(s') <==> Passable(e, s)) && (TipIsBest(s') <==> Passable(e, s)) && (Passable(e, s) ==> Listed(s'))
  {
    hide Shape, IndexInv, Linked, Activated, Covered, TipIsBest, Listed, Passable;
    ActivationExact(e, s);
  }

  /**
   * Over every run with total work below 2^256, as long as the steps so far were safe, every valid block heavier than
   * the tip is covered by a candidate, and right after an activation or a reload the tip has at least as much work as
   * every valid block of the whole index.
   */
  lemma {:induction false} MaximalWork(e: Env, states: seq<State>, ops: seq<Op>, i: nat)
    requires IsRun(e, states, ops) && AlwaysConnects(e) && NeverWraps(states) && i < |states|
    requires forall k :: 0 <= k < i ==> Ready(states[k]) && Safe(e, states[k], ops[k])
    ensures Ready(states[i]) && Covered(states[i])
    ensures i > 0 && (ops[i - 1].Activate? || ops[i - 1].Reload?) ==> TipIsBest(states[i])
  {
    hide Inv, Next, Initial, Ready, NoWrap, Covered, TipIsBest, Linked, Safe;
    if i == 0 {
      InitialInv(e, states[0]);
      ListedIsCovered(states[0]);
    } else {
      MaximalWork(e, states, ops, i - 1);
      RunInv(e, states, ops, i - 1);
      assert Next(e, states[i - 1], ops[i - 1], states[i]);
      StepExact(e, states[i - 1], ops[i - 1], states[i]);
    }
  }

  lemma {:induction false} RunReady(e: Env, states: seq<State>, ops: seq<Op>, i: nat)
    requires IsRun(e, states, ops) && AlwaysConnects(e) && i < |states|
    ensures Inv(e, states[i]) && Ready(states[i])
  {
    hide Shape, IndexInv, IsRun, Ready;
    RunInv(e, states, ops, i);
    ShapeReady(e, states[i]);
  }

  /** An activation from this state would make the tip the best valid block of the index. */
  ghost predicate WouldBeBest(e: Env, s: State)
  {
    Ready(s) && Ready(Activated(e, s)) && TipIsBest(Activated(e, s))
  }

  ghost predicate SafeAt(e: Env, states: seq<State>, ops: seq<Op>, k: nat)
    requires k < |ops| && |states| == |ops| + 1
  {
    Ready(states[k]) && Safe(e, states[k], ops[k])
  }

  ghost predicate CoveredAt(states: seq<State>, i: nat)
    requires i < |states|
  {
    Ready(states[i]) && Covered(states[i])
  }

  /**
   * The exact condition: in every state of a run the candidates cover every heavier valid block of the whole index, if
   * and only if every step of the run is safe.
   */
  lemma CoveredExact(e: Env, states: seq<State>, ops: seq<Op>)
    requires IsRun(e, states, ops) && AlwaysConnects(e) && NeverWraps(states)
    ensures (forall i :: 0 <= i < |states| ==> CoveredAt(states, i))
            <==> (forall k :: 0 <= k < |ops| ==> SafeAt(e, states, ops, k))
  {
    hide Inv, Next, Initial, NoWrap, Linked, Safe, Covered, Ready;
    if forall k :: 0 <= k < |ops| ==> SafeAt(e, states, ops, k) {
      forall i | 0 <= i < |states|
        ensures CoveredAt(states, i)
      {
        forall k | 0 <= k < i
          ensures Ready(states[k]) && Safe(e, states[k], ops[k])
        {
          assert SafeAt(e, states, ops, k);
        }
        MaximalWork(e, states, ops, i);
      }
    }
    if forall i :: 0 <= i < |states| ==> CoveredAt(states, i) {
      forall k | 0 <= k < |ops|
        ensures SafeAt(e, states, ops, k)
      {
        assert CoveredAt(states, k) && CoveredAt(states, k + 1);
        assert Next(e, states[k], ops[k], states[k + 1]);
        RunInv(e, states, ops, k);
        StepExact(e, states[k], ops[k], states[k + 1]);
      }
    }
  }

  /** The guard lets a heaviest candidate of the state pass. */
  ghost predicate PassableAt(e: Env, states: seq<State>, i: nat)
    requires i < |states|
  {
    Ready(states[i]) && Passable(e, states[i])
  }

  /**
   * In every state of a run an activation would find the best valid block of the whole index, if and only if every
   * step of the run is safe and in every state the guard lets a heaviest candidate pass. With the guard off the
   * second half always holds.
   */
  lemma MaximalWorkExact(e: Env, states: seq<State>, ops: seq<Op>)
    requires IsRun(e, states, ops) && AlwaysConnects(e) && NeverWraps(states)
    ensures (forall i :: 0 <= i < |states| ==> WouldBeBest(e, states[i]))
            <==> (forall k :: 0 <= k < |ops| ==> SafeAt(e, states, ops, k)) && (forall i :: 0 <= i < |states| ==> PassableAt(e, states, i))
    ensures e.params.suspiciousReorgDepth <= 0 ==> forall i :: 0 <= i < |states| ==> PassableAt(e, states, i)
  {
    hide Inv, Next, Initial, NoWrap, Linked, Safe, WouldBeBest, Covered, Passable, Ready, NeverWraps, SafeAt;
    forall i | 0 <= i < |states|
      ensures WouldBeBest(e, states[i]) <==> CoveredAt(states, i) && PassableAt(e, states, i)
      ensures e.params.suspiciousReorgDepth <= 0 ==> PassableAt(e, states, i)
    {
      RunReady(e, states, ops, i);
      BestIfCovered(e, states[i]);
    }
    CoveredExact(e, states, ops);
  }

  lemma BestIfCovered(e: Env, s: State)
    requires Inv(e, s) && AlwaysConnects(e) && Ready(s)
    ensures WouldBeBest(e, s) <==> Covered(s) && Passable(e, s)
    ensures e.params.suspiciousReorgDepth <= 0 ==> Passable(e, s)
  {
    hide Shape, IndexInv, Activated, Covered, Linked, TipIsBest, Passable, Ready;
    ActivationExact(e, s);
    if e.params.suspiciousReorgDepth <= 0 {
      UnguardedPasses(e, s);
    }
  }

  // ---- Runs that activate before they invalidate ----

  /** A header was submitted since the chain was last activated or loaded. */
  ghost predicate Pending(ops: seq<Op>, i: nat)
    requires i <= |ops|
  {
    i > 0 && (ops[i - 1].Submit? || (ops[i - 1].Invalidate? && Pending(ops, i - 1)))
  }

  ghost predicate NoPromotion(ops: seq<Op>)
  {
    forall k :: 0 <= k < |ops| && ops[k].Submit? ==> |ops[k].headers| <= 1
  }

  /** Blocks are invalidated only in states whose submissions have been activated. */
  ghost predicate InvalidatesSettled(ops: seq<Op>)
  {
    forall k :: 0 <= k < |ops| && ops[k].Invalidate? ==> !Pending(ops, k)
  }

  /** Unless a submission is pending, every valid block heavier than the tip is itself a candidate. */
  lemma ListedStep(e: Env, s: State, op: Op, s': State)
    requires Inv(e, s) && AlwaysConnects(e)
    requires Ready(s) && Covered(s) && Next(e, s, op, s') && NoWrap(s.index) && !op.Submit?
    requires (op.Invalidate? ==> Listed(s)) && (op.Activate? ==> Passable(e, s))
    ensures Ready(s') && Listed(s')
  {
    hide Inv, Linked, NoWrap, Invalidated, ChainAfter, Covered, Activated, Reloaded, TipIsBest, Passable;
    match op
    case Activate => ActivateFinds(e, s, op, s');
    case Invalidate(x) =>
      if Invalidatable(s, x) {
        InvalidatedListed(e, s, x);
      }
    case Reload(_) => ReloadFinds(e, s, op, s');
  }

  /** No activation meets only guarded candidates among the heaviest. */
  ghost predicate NothingRefused(e: Env, states: seq<State>, ops: seq<Op>)
    requires |states| == |ops| + 1
  {
    forall k :: 0 <= k < |ops| && ops[k].Activate? ==> PassableAt(e, states, k)
  }

  /**
   * If nothing is invalidated while a submission is pending, no orphan is promoted and the guard refuses nothing, every
   * step is safe.
   */
  lemma {:induction false} SettledRunsAreSafe(e: Env, states: seq<State>, ops: seq<Op>, i: nat)
    requires IsRun(e, states, ops) && AlwaysConnects(e) && NothingRefused(e, states, ops)
    requires NoPromotion(ops) && InvalidatesSettled(ops) && NeverWraps(states) && i < |states|
    ensures Ready(states[i]) && Covered(states[i]) && (!Pending(ops, i) ==> Listed(states[i]))
    ensures forall k :: 0 <= k < i ==> Ready(states[k]) && Safe(e, states[k], ops[k])
  {
    hide Inv, Next, Initial, Ready, NoWrap, Covered, Listed, Linked, Kept, Matched, Invalidatable, Passable;
    if i == 0 {
      InitialInv(e, states[0]);
      ListedIsCovered(states[0]);
    } else {
      SettledRunsAreSafe(e, states, ops, i - 1);
      RunInv(e, states, ops, i - 1);
      var s, op, s' := states[i - 1], ops[i - 1], states[i];
      assert Next(e, s, op, s');
      if op.Invalidate? {
        ListedIsKept(s, op.hash);
      } else if op.Activate? {
        assert PassableAt(e, states, i - 1);
      }
      StepExact(e, s, op, s');
      if !op.Submit? {
        ListedStep(e, s, op, s');
      }
    }
  }

  lemma ReloadFinds(e: Env, s: State, op: Op, s': State)
    requires Inv(e, s) && AlwaysConnects(e) && Next(e, s, op, s') && op.Reload?
    ensures Ready(s') && TipIsBest(s') && Listed(s') && Covered(s')
  {
    hide Inv, Linked, Reloaded;
    ReloadedInv(e, s, op.tip);
    ListedIsCovered(s');
  }
}
