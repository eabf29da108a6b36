/** A run in which a buried block is lost: the guard refuses a heavier branch, and the next start takes it. */
module Refused {
  import opened Bits
  import opened Compact
  import opened Work
  import opened Primitives
  import opened MedianTime
  import opened Validation
  import opened BlockTree
  import opened TreeGrowth
  import opened ActiveChain
  import opened Chainstate
  import opened Activation
  import opened Submission
  import opened Selector
  import opened Runs
  import opened Burial
  import opened SyncSpec
  import opened CatchUp
  import opened Witness

  /** The world of the other runs, with a guard against every reorganization. */
  function Strict(): (e: Env)
  {
    World().(params := World().params.(suspiciousReorgDepth := 1))
  }

  /** The branch beside block 1. */
  function Rival(n: nat): (h: Header)
    requires n < 2
  {
    Header(1, if n == 0 then 1 else 11, 0, 10 * n + 10, LimitBits(), 10 + n, 0)
  }

  lemma StrictIs()
    ensures AlwaysConnects(Strict()) && Strict().params.suspiciousReorgDepth == 1 && Strict().oracle == World().oracle
    ensures Strict().oracle.hash(Rival(0)) == 11 && Strict().oracle.hash(Rival(1)) == 12
    ensures Strict().oracle.hash(BlockAt(1)) == 2
  {
    hide LimitBits;
  }

  lemma StrictStart()
    ensures Initial(Strict(), Start()) && Inv(Strict(), Start()) && Ready(Start())
  {
    hide Encode, ValidBits, BlockProof;
    var g := BlockAt(0);
    assert Strict().oracle.hash(g) == Strict().genesis;
    assert Initial(Strict(), Start());
    InitialInv(Strict(), Start());
  }

  lemma Fits(hs: seq<Header>, h: Header)
    requires hs != [] && h.bits == LimitBits() && h.version == 1 && h.time <= MAX_FUTURE_BLOCK_TIME
    requires forall i :: 0 <= i < |hs| ==> hs[i].time < h.time
    ensures ContextualCheck(Strict().params, hs, h, 0) == None
  {
    hide Encode, ValidBits, AsertAsserts, NextTarget, MedianTimePast, Window;
    assert NextWorkRequired(Strict().params, hs) == Some(LimitBits());
    MedianRank(Times(hs), h.time);
    WindowBelow(Times(hs), h.time);
  }

  lemma NonceHash(h: Header)
    ensures World().oracle.hash(h) == h.nonce + 1
  {
  }

  /** A header after those of its parent's path is accepted, offered, and weighs one more than its parent. */
  lemma Extended(s: State, header: Header, h: Hash, hs: seq<Header>)
    requires Inv(Strict(), s) && Ready(s) && h == header.nonce + 1 && h !in s.index
    requires header.bits == LimitBits() && header.version == 1 && header.time <= MAX_FUTURE_BLOCK_TIME
    requires Valid(s.index, header.prev) && header.prev != NULL_HASH && Headers(s.index, header.prev) == hs && hs != []
    requires forall i :: 0 <= i < |hs| ==> hs[i].time < header.time
    ensures Submittable(Strict(), s, [header], h, 0)
    ensures var r := Submitted(Strict(), s, [header], h, 0);
            && r.chain == s.chain && r.index == Inserted(World().oracle, s.index, header) && Inv(Strict(), r) && Ready(r)
            && r.candidates == s.candidates - {header.prev} + {h}
  {
    hide LimitBits, Linked, ContextualCheck, FullPow, Check, Headers, Submittable, Submitted, Inserted, World, Inv, Ready;
    Fits(hs, header);
    PowPasses(header);
    StrictIs();
    NonceHash(header);
    ReadyFacts(s);
    FreshIf(Strict(), s.index, header, 0);
    Offers(Strict(), s, header, h, 0);
  }

  lemma Entry(idx: Index, header: Header, h: Hash)
    requires Linked(idx) && header.prev in idx && h == header.nonce + 1 && h !in idx
    requires header.bits == LimitBits() && idx[header.prev].work < 100
    ensures var idx' := Inserted(World().oracle, idx, header);
            && Linked(idx') && Extends(idx, idx') && idx'.Keys == idx.Keys + {h} && Valid(idx', h) && idx'[h].header == header
            && idx'[h].prev == Some(header.prev) && idx'[h].work == idx[header.prev].work + 1
  {
    hide LimitBits, BlockProof, Path, Linked;
    UnitProof();
    OneNew(World().oracle, idx, header);
    FreshEntry(World().oracle, idx, header);
  }

  // ---- The indexes of the run ----

  ghost predicate One(idx: Index)
  {
    && Linked(idx) && idx.Keys == {1, 2} && Valid(idx, 1) && Valid(idx, 2) && idx[1].prev == None && idx[2].prev == Some(1)
    && idx[1].header == BlockAt(0) && idx[2].header == BlockAt(1) && idx[1].work == 1 && idx[2].work == 2
  }

  ghost predicate Fork(idx: Index)
  {
    && Linked(idx) && idx.Keys == {1, 2, 11} && Valid(idx, 11) && idx[1].prev == None && idx[2].prev == Some(1) && idx[11].prev == Some(1)
    && idx[1].header == BlockAt(0) && idx[2].header == BlockAt(1) && idx[11].header == Rival(0)
    && idx[1].work == 1 && idx[2].work == 2 && idx[11].work == 2
  }

  ghost predicate Both(idx: Index)
  {
    && Linked(idx) && idx.Keys == {1, 2, 11, 12} && Valid(idx, 12) && idx[1].prev == None && idx[11].prev == Some(1) && idx[12].prev == Some(11)
    && idx[2].prev == Some(1)
    && idx[1].work == 1 && idx[2].work == 2 && idx[11].work == 2 && idx[12].work == 3
  }

  lemma StartEntry()
    ensures Linked(Start().index) && Start().index.Keys == {1} && Valid(Start().index, 1) && Start().index[1].prev == None
    ensures Start().index[1].header == BlockAt(0) && Start().index[1].work == 1
  {
    hide LimitBits, BlockProof, Encode, ValidBits;
    UnitProof();
  }

  lemma StepOne()
    ensures Submittable(Strict(), Start(), [BlockAt(1)], 2, 0)
    ensures var r := Submitted(Strict(), Start(), [BlockAt(1)], 2, 0);
            r.chain == [1] && One(r.index) && Inv(Strict(), r) && Ready(r) && r.candidates == {2}
  {
    hide LimitBits, Inv, Linked, Start, Headers, Submittable, Submitted, Inserted, Extends;
    StrictStart();
    StartEntry();
    StartParts();
    RootPath(Start().index, 1);
    Extended(Start(), BlockAt(1), 2, [BlockAt(0)]);
    Entry(Start().index, BlockAt(1), 2);
    OneKept(Start().index, Inserted(World().oracle, Start().index, BlockAt(1)));
  }

  lemma OneKept(idx: Index, idx': Index)
    requires Extends(idx, idx') && 1 in idx
    ensures 1 in idx' && idx'[1] == idx[1]
  {
  }

  /** Activation moves to block 1. */
  lemma StepTwo(s: State)
    requires Inv(Strict(), s) && Ready(s) && One(s.index) && s.chain == [1] && s.candidates == {2}
    ensures var r := Activated(Strict(), s);
            r.chain == [1, 2] && r.index == s.index && Inv(Strict(), r) && Ready(r)
  {
    hide LimitBits, Linked, Shape, IndexInv, Activated, Strict, BlockAt, Ready;
    StrictIs();
    TwoPath(s.index);
    OnlyFirst(s);
    TakesFirst(Strict(), s, 2);
    ActivatedKeeps(Strict(), s);
    ActivatedInv(Strict(), s);
    ShapeAfter(Strict(), s);
  }

  lemma OnlyFirst(s: State)
    requires One(s.index) && s.candidates == {2}
    ensures Indexed(s.index, s.candidates) && IsFirst(s.index, s.candidates, 2)
  {
    hide Linked, BlockAt;
  }

  lemma StepThree(s: State)
    requires Inv(Strict(), s) && Ready(s) && One(s.index) && s.chain == [1, 2]
    ensures Submittable(Strict(), s, [Rival(0)], 11, 0)
    ensures var r := Submitted(Strict(), s, [Rival(0)], 11, 0);
            r.chain == [1, 2] && Fork(r.index) && Inv(Strict(), r) && Ready(r)
  {
    hide LimitBits, Inv, Linked, Headers, Submittable, Submitted, Inserted, Ready;
    RootPath(s.index, 1);
    Extended(s, Rival(0), 11, [BlockAt(0)]);
    Entry(s.index, Rival(0), 11);
  }

  lemma StepFour(s: State)
    requires Inv(Strict(), s) && Ready(s) && Fork(s.index) && s.chain == [1, 2]
    ensures Submittable(Strict(), s, [Rival(1)], 12, 0)
    ensures var r := Submitted(Strict(), s, [Rival(1)], 12, 0);
            r.chain == [1, 2] && Both(r.index) && Inv(Strict(), r) && Ready(r)
  {
    hide LimitBits, Inv, Linked, Headers, Submittable, Submitted, Inserted, Ready;
    RootPath(s.index, 1);
    ChildPath(s.index, 11, 1);
    Extended(s, Rival(1), 12, [BlockAt(0), Rival(0)]);
    Entry(s.index, Rival(1), 12);
  }

  /** The guard leaves block 1 where it is, but the branch stays in the index as its heaviest. */
  lemma StepFive(s: State)
    requires Inv(Strict(), s) && Ready(s) && Both(s.index) && s.chain == [1, 2]
    ensures var r := Activated(Strict(), s);
            StaysAt(r, 1, 2) && r.index == s.index && Inv(Strict(), r) && Ready(r) && MostWork(r.index, 12)
  {
    hide LimitBits, Linked, Shape, IndexInv, Activated, Strict, Ready;
    StrictIs();
    BuriedStays(Strict(), s, 1);
    ActivatedKeeps(Strict(), s);
    ActivatedInv(Strict(), s);
    ShapeAfter(Strict(), s);
  }

  lemma RivalPath(idx: Index)
    requires Both(idx)
    ensures Path(idx, 12) == [1, 11, 12]
  {
    hide Linked, Path, Headers;
    RootPath(idx, 1);
    ChildPath(idx, 11, 1);
    ChildPath(idx, 12, 11);
  }

  /**
   * Block 1 is the tip, a heavier branch beside it is refused, and the node is restarted: block 1 was buried under the
   * limit and is gone.
   */
  lemma BuriedThenLost() returns (states: seq<State>, ops: seq<Op>)
    ensures ops == [Submit([BlockAt(1)], 2, 0), Activate, Submit([Rival(0)], 11, 0), Submit([Rival(1)], 12, 0), Activate, Reload(12)]
    ensures IsRun(Strict(), states, ops) && AlwaysConnects(Strict())
    ensures Buried(Strict(), states[2], 1) && StaysAt(states[2], 1, 2) && StaysAt(states[5], 1, 2) && StaysAt(states[6], 1, 11)
  {
    hide LimitBits, Strict, Linked, Start, Inv, Submittable, Submitted, Ready, One, Fork, Both, Activated, BlockAt, Rival, Initial, MostWork, Path;
    StrictStart();
    StrictIs();
    StepOne();
    var s1 := Submitted(Strict(), Start(), [BlockAt(1)], 2, 0);
    StepTwo(s1);
    var s2 := Activated(Strict(), s1);
    StepThree(s2);
    var s3 := Submitted(Strict(), s2, [Rival(0)], 11, 0);
    StepFour(s3);
    var s4 := Submitted(Strict(), s3, [Rival(1)], 12, 0);
    StepFive(s4);
    var s5 := Activated(Strict(), s4);
    RivalThere(s5.index);
    RivalPath(s5.index);
    var s6 := Reloaded(s5, 12);
    states := [Start(), s1, s2, s3, s4, s5, s6];
    ops := [Submit([BlockAt(1)], 2, 0), Activate, Submit([Rival(0)], 11, 0), Submit([Rival(1)], 12, 0), Activate, Reload(12)];
    assert Next(Strict(), states[0], ops[0], states[1]);
    assert Next(Strict(), states[1], ops[1], states[2]);
    assert Next(Strict(), states[2], ops[2], states[3]);
    assert Next(Strict(), states[3], ops[3], states[4]);
    assert Next(Strict(), states[4], ops[4], states[5]);
    assert Next(Strict(), states[5], ops[5], states[6]);
  }

  lemma RivalThere(idx: Index)
    requires Both(idx)
    ensures Linked(idx) && 12 in idx
  {
    hide Linked;
  }
}
