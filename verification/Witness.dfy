/** Concrete runs in which the node misses the best block, one for each exact condition. */
module Witness {
  import opened Bits
  import opened Compact
  import opened Work
  import opened Primitives
  import opened MedianTime
  import opened Validation
  import opened BlockTree
  import opened TreeGrowth
  import opened ActiveChain
  import opened Chainstate
  import opened Activation
  import opened Submission
  import opened Runs
  import opened Selector
  import opened Invalidation
  import opened Orphans
  import opened Promotion
  import opened SyncSpec
  import opened CatchUp
  import opened Rounds
  import opened Chainman
  import opened Blocks
  import opened HeaderSync

  const LIMIT: U256 := TWO_256 - 1

  function LimitBits(): (w: Word)
    ensures w == Encode(LIMIT) && ValidBits(w)
  {
    CompactRoundTrip(LIMIT);
    Encode(LIMIT)
  }

  /** Block hashes are nonces plus one; every proof of work holds; no difficulty adjustment. */
  function World(): (e: Env)
  {
    Env(Oracle((h: Header) => h.nonce + 1, (h: Header) => true, (h: Header) => true),
        Params(Regtest, LIMIT, 120, 3600, 1, 1, 0, 0, 600, 0, 0), 1, (h: Hash) => true)
  }

  function BlockAt(n: nat): (h: Header)
    requires n < 10_000
  {
    Header(1, n, 0, 10 * n, LimitBits(), n, 0)
  }

  function Start(): (s: State)
  {
    GenesisState(1, BlockAt(0))
  }

  lemma StartIsInitial()
    ensures Initial(World(), Start()) && Inv(World(), Start()) && Ready(Start()) && TipIsBest(Start())
    ensures AlwaysConnects(World())
  {
    hide Encode, ValidBits, BlockProof;
    var g := BlockAt(0);
    assert World().oracle.hash(g) == World().genesis;
    assert Initial(World(), Start());
    InitialInv(World(), Start());
  }

  function FirstBlocks(n: nat): (hs: seq<Header>)
    requires n < 10_000
    ensures |hs| == n
  {
    seq(n, i requires 0 <= i < n => BlockAt(i))
  }

  lemma FirstMore(n: nat)
    requires n + 1 < 10_000
    ensures FirstBlocks(n + 1) == FirstBlocks(n) + [BlockAt(n)] && FirstBlocks(n + 1)[..n] == FirstBlocks(n)
  {
    hide BlockAt;
  }

  lemma ContextPasses(n: nat, now: int)
    requires 1 <= n < 10_000 && 10 * n <= now + MAX_FUTURE_BLOCK_TIME
    ensures ContextualCheck(World().params, FirstBlocks(n), BlockAt(n), now) == None
  {
    hide Encode, ValidBits, AsertAsserts, NextTarget, MedianTimePast, Window;
    var hs := FirstBlocks(n);
    assert NextWorkRequired(World().params, hs) == Some(LimitBits());
    MedianRank(Times(hs), 10 * n);
    WindowBelow(Times(hs), 10 * n);
  }

  lemma WindowBelow(times: seq<nat>, v: nat)
    requires |times| > 0 && forall i :: 0 <= i < |times| ==> times[i] < v
    ensures CountBelow(Window(times), v) == |Window(times)| > |Window(times)| / 2
  {
    AllBelow(Window(times), v);
  }

  lemma {:induction false} AllBelow(s: seq<nat>, v: nat)
    requires forall i :: 0 <= i < |s| ==> s[i] < v
    ensures CountBelow(s, v) == |s|
  {
    if |s| > 0 {
      AllBelow(s[1..], v);
    }
  }

  lemma OneIsFresh()
    ensures Linked(Start().index) && Check(World(), Start().index, BlockAt(1), 0, true) == Fresh
    ensures Headers(Start().index, 1) == FirstBlocks(1)
  {
    hide Encode, ValidBits, BlockProof, ContextualCheck;
    StartIsInitial();
    assert Headers(Start().index, 1) == FirstBlocks(1);
    ContextPasses(1, 0);
    FreshIf(World(), Start().index, BlockAt(1), 0);
  }

  ghost function Second(): (idx: Index)
    ensures Linked(idx)
  {
    OneIsFresh();
    Inserted(World().oracle, Start().index, BlockAt(1))
  }

  lemma PowPasses(h: Header)
    requires h.bits == LimitBits()
    ensures FullPow(World().oracle, h)
  {
    hide LimitBits, ValidBits;
  }

  lemma TwoIsFresh()
    ensures Check(World(), Second(), BlockAt(2), 0, true) == Fresh
  {
    hide LimitBits, ValidBits, ContextualCheck, Check, Headers, Inserted, Linked, Inv, FullPow, World, BlockAt, Start, FirstBlocks, Second;
    StartIsInitial();
    OneIsFresh();
    SecondUnfolds();
    HashOf(1);
    HashOf(2);
    StartKeys();
    InsertedPath(World().oracle, Start().index, BlockAt(1));
    FirstMore(1);
    GrownEntry(World(), Start(), BlockAt(1), 0);
    OneNew(World().oracle, Start().index, BlockAt(1));
    ContextPasses(2, 0);
    PowPasses(BlockAt(2));
    FreshIf(World(), Second(), BlockAt(2), 0);
  }

  lemma BothInsert()
    ensures Submittable(World(), Start(), [BlockAt(1), BlockAt(2)], 2, 0)
    ensures InsertAll(World(), Start().index, [BlockAt(1), BlockAt(2)], 0) == Inserted(World().oracle, Second(), BlockAt(2))
  {
    hide Check, Inserted, LimitBits, Linked;
    OneIsFresh();
    TwoIsFresh();
    var hs := [BlockAt(1), BlockAt(2)];
    var rest := [BlockAt(2)];
    assert hs[1..] == rest && rest[1..] == [];
    NoneInsertable(World(), Inserted(World().oracle, Second(), BlockAt(2)), 0);
  }

  lemma UnitProof()
    ensures BlockProof(LimitBits()) == 1
  {
    hide Encode, TrueValue, Negative, Overflow;
    CompactRoundTrip(LIMIT);
    var t := TrueValue(LimitBits());
    assert t < TWO_256 < 2 * (t + 1);
    QuotientIsOne(TWO_256, t + 1);
  }

  lemma QuotientIsOne(a: nat, b: nat)
    requires b <= a < 2 * b
    ensures a / b == 1
  {
    DivModUnique(a, b, 1, a - b);
  }

  /**
   * A header with one pooled child: both become indexed and valid, the child has three times the work of the
   * tip, and activation leaves the tip where it was.
   */
  lemma PromotedOrphanIsIgnored()
    ensures Initial(World(), Start()) && Submittable(World(), Start(), [BlockAt(1), BlockAt(2)], 2, 0)
    ensures var m := Submitted(World(), Start(), [BlockAt(1), BlockAt(2)], 2, 0);
            && Ready(m) && Ready(Activated(World(), m)) && Activated(World(), m).chain == [1]
            && Valid(Activated(World(), m).index, 3) && Activated(World(), m).index[3].work == 3
            && !TipIsBest(Activated(World(), m))
  {
    hide Check, Inserted, LimitBits, Linked, Activated, Insertable, InsertAll, Inv, Submitted, Weigh, TipIsBest;
    StartIsInitial();
    BothInsert();
    var hs := [BlockAt(1), BlockAt(2)];
    PromotionExact(World(), Start(), hs, 2, 0);
    ChildWork();
    SubmittedKeeps();
    assert hs[1] == BlockAt(2) && World().oracle.hash(hs[1]) == 3;
    assert 3 in Hashes(World(), hs);
    InsertAllWeighs(World(), Start().index, hs, 0);
    assert WorksOf(InsertAll(World(), Start().index, hs, 0))[3] == 3;
    assert 3 in Outweighing(World(), Start().index, hs, 1);
  }

  lemma SubmittedKeeps()
    requires Submittable(World(), Start(), [BlockAt(1), BlockAt(2)], 2, 0)
    requires Ready(Submitted(World(), Start(), [BlockAt(1), BlockAt(2)], 2, 0))
    ensures Activated(World(), Submitted(World(), Start(), [BlockAt(1), BlockAt(2)], 2, 0)).index
            == InsertAll(World(), Start().index, [BlockAt(1), BlockAt(2)], 0)
  {
    hide Check, Inserted, LimitBits, Linked, Activated, Insertable, InsertAll, Shape, IndexInv;
    StartIsInitial();
    var hs := [BlockAt(1), BlockAt(2)];
    SubmittedInv(World(), Start(), hs, 2, 0);
    ActivatedKeeps(World(), Submitted(World(), Start(), hs, 2, 0));
  }

  lemma ChildWork()
    requires Submittable(World(), Start(), [BlockAt(1), BlockAt(2)], 2, 0)
    ensures var idx := InsertAll(World(), Start().index, [BlockAt(1), BlockAt(2)], 0);
            3 in idx && 1 in Start().index && idx[3].work == 3 && Start().index[1].work == 1 && Valid(idx, 3)
  {
    hide Check, LimitBits, Insertable, InsertAll, BlockProof, Path, Encode, ValidBits;
    BothInsert();
    UnitProof();
    OneIsFresh();
    TwoIsFresh();
    assert Second()[2].work == 2;
  }

  // ---- Invalidating a block before its branch was activated ----

  lemma OneSubmittable(e: Env, s: State, header: Header, now: int)
    requires Linked(s.index) && Check(e, s.index, header, now, true) == Fresh
    ensures Submittable(e, s, [header], e.oracle.hash(header), now)
  {
    hide Check, Linked, Inserted;
    var one := [header];
    assert one[1..] == [];
    NoneInsertable(e, Inserted(e.oracle, s.index, header), now);
  }

  /** The state after a fresh header without orphans was accepted and offered. */
  lemma Offers(e: Env, s: State, header: Header, h: Hash, now: int)
    requires Inv(e, s) && Ready(s) && Linked(s.index) && Check(e, s.index, header, now, true) == Fresh && h == e.oracle.hash(header)
    ensures header.prev in s.index && h !in s.index && Submittable(e, s, [header], h, now)
    ensures var r := Submitted(e, s, [header], h, now);
            && r.index == Inserted(e.oracle, s.index, header) && r.chain == s.chain
            && r.candidates == s.candidates - {header.prev} + {h} && r.failed == s.failed && Inv(e, r) && Ready(r)
  {
    hide Shape, IndexInv, Check, Inserted, Insertable, InsertAll, Linked, HasChild;
    OneSubmittable(e, s, header, now);
    var hs := [header];
    InsertOne(e, s.index, hs, now);
    GrownEntry(e, s, header, now);
    SubmittedInv(e, s, hs, h, now);
  }

  lemma HashOf(n: nat)
    requires n < 10_000
    ensures World().oracle.hash(BlockAt(n)) == n + 1 && BlockAt(n).prev == n && BlockAt(n).bits == LimitBits()
  {
    hide LimitBits;
  }

  lemma StartParts()
    ensures Start().chain == [1] && Start().candidates == {1} && Start().failed == {}
  {
    hide LimitBits, GenesisBlock;
  }

  lemma AfterOne()
    ensures Submittable(World(), Start(), [BlockAt(1)], 2, 0)
    ensures var s := Submitted(World(), Start(), [BlockAt(1)], 2, 0);
            s == State(Second(), [1], {2}, {}) && Inv(World(), s) && Ready(s)
  {
    hide Check, Inserted, LimitBits, Linked, Submittable, Inv, Submitted, World, BlockAt, Start, Ready;
    StartIsInitial();
    StartParts();
    OneIsFresh();
    HashOf(1);
    Offers(World(), Start(), BlockAt(1), 2, 0);
  }

  ghost function Third(): (idx: Index)
    ensures Linked(idx)
  {
    TwoIsFresh();
    Inserted(World().oracle, Second(), BlockAt(2))
  }

  lemma AfterTwo(s: State)
    requires s == State(Second(), [1], {2}, {}) && Inv(World(), s) && Ready(s)
    ensures Submittable(World(), s, [BlockAt(2)], 3, 0)
    ensures var r := Submitted(World(), s, [BlockAt(2)], 3, 0);
            r == State(Third(), [1], {3}, {}) && Inv(World(), r) && Ready(r)
  {
    hide Check, Inserted, LimitBits, Linked, Submittable, Inv, Submitted, World, BlockAt, Second, Ready;
    TwoIsFresh();
    HashOf(2);
    Offers(World(), s, BlockAt(2), 3, 0);
  }

  /** Block 2 below block 3, with works one, two and three. */
  ghost predicate ThreeBlocks(idx: Index)
  {
    && Linked(idx) && NoWrap(idx) && idx.Keys == {1, 2, 3} && idx[1].work == 1 && idx[2].work == 2 && idx[3].work == 3
    && idx[1].prev == None && idx[2].prev == Some(1) && idx[3].prev == Some(2)
    && idx[2].status.IsValid() && idx[3].status.IsValid()
  }

  lemma SecondIs()
    ensures var idx := Second();
            && idx.Keys == {1, 2} && idx[1].work == 1 && idx[2].work == 2 && idx[1].prev == None && idx[2].prev == Some(1)
            && idx[1].header == BlockAt(0) && idx[2].header == BlockAt(1) && idx[1].height == 0 && idx[2].height == 1
            && idx[2].status.IsValid() && NoWrap(idx)
  {
    hide Check, LimitBits, BlockProof, Path, Encode, ValidBits;
    UnitProof();
    OneIsFresh();
  }

  lemma ThirdIs()
    ensures ThreeBlocks(Third())
  {
    hide Check, LimitBits, BlockProof, Path, Second, Linked, Encode, ValidBits;
    UnitProof();
    SecondIs();
    TwoIsFresh();
    HashOf(2);
    OneNew(World().oracle, Second(), BlockAt(2));
    GrownNoWrap(Second(), BlockAt(2));
  }

  lemma GrownNoWrap(idx: Index, header: Header)
    requires Linked(idx) && NoWrap(idx) && header.prev in idx && World().oracle.hash(header) !in idx
    requires idx[header.prev].work + BlockProof(header.bits) < TWO_256
    ensures NoWrap(Inserted(World().oracle, idx, header))
  {
    hide BlockProof, Path, World, AddWork;
    var idx' := Inserted(World().oracle, idx, header);
    forall h | h in idx' && idx'[h].prev.Some?
      ensures idx'[idx'[h].prev.value].work + BlockProof(idx'[h].header.bits) < TWO_256
    {
      if h in idx {
        assert idx[h].prev.Some?;
      }
    }
  }

  /** Block 3 stands alone above block 2, which it replaced among the candidates. */
  lemma OnlyChild(s: State)
    requires Ready(s) && ThreeBlocks(s.index) && s.chain == [1] && s.candidates == {3}
    ensures Invalidatable(s, 3) && Spared(s, 3, 2) && !Kept(s, 3)
  {
    hide NoWrap, Linked, Path;
    TwoSteps(s.index);
    SelfAncestor(s.index, 3);
    assert HasChild(s.index, 2);
    forall c | Spared(s, 3, c) && s.index[c].work >= 2
      ensures c !in s.candidates && HasChild(s.index, c)
    {
      assert c in {1, 2, 3};
    }
  }

  lemma TwoSteps(idx: Index)
    requires Linked(idx) && 1 in idx && 2 in idx && idx[1].prev == None && idx[2].prev == Some(1)
    ensures !IsAncestor(idx, 3, 2)
  {
    assert Path(idx, 1) == [1];
    assert Path(idx, 2) == [1, 2];
  }

  /** Invalidating x and activating leaves y valid in the index and the tip not the best. */
  ghost predicate Hides(e: Env, s: State, x: Hash, y: Hash)
  {
    && Invalidatable(s, x) && CanStepBack(s, x)
    && var m := Invalidated(s, x);
       && Ready(m) && NoWrap(m.index) && Ready(Activated(e, m)) && !TipIsBest(Activated(e, m))
       && Activated(e, m).index == m.index && Valid(m.index, y)
  }

  /** So invalidating block 3 hides block 2 from activation. */
  lemma ChildHidesParent(e: Env, s: State)
    requires Inv(e, s) && AlwaysConnects(e) && e.params.suspiciousReorgDepth <= 0
    requires Ready(s) && ThreeBlocks(s.index) && s.chain == [1] && s.candidates == {3}
    ensures Hides(e, s, 3, 2)
  {
    hide Linked, Activated, Kept, Shape, IndexInv, Invalidated, NoWrap, Covered, HasChild, ThreeBlocks, Spared, TipIsBest;
    OnlyChild(s);
    ThreeFacts(s);
    InvalidatedExact(e, s, 3);
    InvalidatedInv(e, s, 3);
    var m := Invalidated(s, 3);
    ActivationExact(e, m);
    ActivatedKeeps(e, m);
    OffChainCandidates(e, s, 3, 2);
    Restatus(s, m);
    SameWorkNoWrap(s.index, m.index);
  }

  lemma ThreeFacts(s: State)
    requires ThreeBlocks(s.index) && s.chain == [1]
    ensures NoWrap(s.index) && 3 !in s.chain
  {
    hide NoWrap, Linked;
  }

  lemma Restatus(s: State, m: State)
    requires Invalidatable(s, 3) && CanStepBack(s, 3) && m == Invalidated(s, 3)
    ensures SameButStatus(s.index, m.index)
  {
    hide Linked, StatusAfter, Unwound, Descendants, Leaves, ChainAfter;
  }

  lemma SameWorkNoWrap(idx: Index, idx': Index)
    requires Linked(idx) && NoWrap(idx) && SameButStatus(idx, idx')
    ensures Linked(idx') && NoWrap(idx')
  {
    hide BlockProof;
    RestatusLinked(idx, idx');
    forall h | h in idx' && idx'[h].prev.Some?
      ensures idx'[idx'[h].prev.value].work + BlockProof(idx'[h].header.bits) < TWO_256
    {
      assert idx[h].prev.Some?;
    }
  }

  lemma WorldIs()
    ensures AlwaysConnects(World()) && World().params.suspiciousReorgDepth <= 0
  {
    hide LimitBits;
  }

  /**
   * Block 1 and its child are accepted and offered but not activated, then the child is invalidated. Block 1 is
   * valid and heavier than the tip, but no candidate and, having a child, no leaf, and activation does not find it.
   */
  lemma LostBlock() returns (states: seq<State>, ops: seq<Op>)
    ensures ops == [Submit([BlockAt(1)], 2, 0), Submit([BlockAt(2)], 3, 0), Invalidate(3), Activate]
    ensures IsRun(World(), states, ops) && NeverWraps(states)
    ensures Ready(states[4]) && Valid(states[4].index, 2) && !TipIsBest(states[4])
  {
    hide LimitBits, Linked, Third, Second, NoWrap, Activated, Inv, Invalidated, Submittable, Submitted, World, Start, BlockAt, ThreeBlocks, TipIsBest, Initial, CanStepBack;
    StartIsInitial();
    AfterOne();
    var s1 := Submitted(World(), Start(), [BlockAt(1)], 2, 0);
    AfterTwo(s1);
    var s2 := Submitted(World(), s1, [BlockAt(2)], 3, 0);
    ThirdIs();
    WorldIs();
    ChildHidesParent(World(), s2);
    var s3 := Invalidated(s2, 3);
    states := [Start(), s1, s2, s3, Activated(World(), s3)];
    ops := [Submit([BlockAt(1)], 2, 0), Submit([BlockAt(2)], 3, 0), Invalidate(3), Activate];
    assert Next(World(), states[0], ops[0], states[1]);
    assert Next(World(), states[1], ops[1], states[2]);
    assert Next(World(), states[2], ops[2], states[3]);
    assert Next(World(), states[3], ops[3], states[4]);
    EarlyWraps();
    ThreeFacts(s2);
  }

  lemma EarlyWraps()
    ensures Linked(Start().index) && NoWrap(Start().index) && NoWrap(Second())
  {
    hide Check, LimitBits, BlockProof, Path, Encode, ValidBits, Second;
    SecondIs();
    OneIsFresh();
  }

  // ---- An orphan of the responder's tip ----

  function TwoHeaders(): (c: seq<Header>)
    ensures c == FirstBlocks(2)
  {
    [BlockAt(0), BlockAt(1)]
  }

  /** The child of block 1, received from peer 7. */
  function ChildPooled(): (pool: Pool)
  {
    map[3 := Orphan(BlockAt(2), 0, 7)]
  }

  /** At the root, one block behind, with the child of that block pooled. */
  ghost function OneBehind(): (k: Session)
  {
    Session(Start().index, ChildPooled(), TwoHeaders(), 0, 0, 0, false)
  }

  lemma TwoAreGood()
    ensures GoodChain(World(), TwoHeaders(), 0)
  {
    hide LimitBits, ContextualCheck, FullPow;
    var c := TwoHeaders();
    assert c[..1] == FirstBlocks(1);
    ContextPasses(1, 0);
    PowPasses(BlockAt(1));
    assert GoodNext(World(), c, 1, 0);
  }

  lemma SmallRoom()
    ensures CatchUp.Room(World(), OneBehind())
  {
    hide LimitBits, BlockProof, Encode, ValidBits;
    UnitProof();
    var c := TwoHeaders();
    assert c[1..] == [BlockAt(1)];
    var bits := BitsOf([BlockAt(1)]);
    assert bits == [] + [LimitBits()];
    SyncSpec.OneMore([], LimitBits());
    NoProofs();
  }

  lemma ChildIsLate()
    ensures Late(World(), OneBehind(), 1)
  {
    hide LimitBits, ContextualCheck, FullPow, HasChild, World, BlockAt, Start, FirstBlocks;
    var c := TwoHeaders();
    assert c[..2] == FirstBlocks(2);
    StartKeys();
    HashOf(1);
    HashOf(2);
    ContextPasses(2, 0);
    PowPasses(BlockAt(2));
    assert LateOrphan(World(), OneBehind(), 1, 3);
  }

  /** The requirements of Sync are met and the responder's tip is late, so Sync ends with different tips. */
  lemma OneBehindIsLate()
    ensures Behind(World(), OneBehind(), Start(), ChildPooled())
    ensures Room(World(), OneBehind()) && OutOfReach(World(), OneBehind()) && OneBehind().t < Last(OneBehind()) == 1
    ensures Ends(World(), OneBehind())
  {
    hide LimitBits, GoodChain, IndexInv, Room, GenesisBlock, Late, BlockProof;
    StartIsInitial();
    TwoAreGood();
    SmallRoom();
    ChildIsLate();
    SpineStarts();
    HeightStarts(World(), OneBehind());
    assert !Full(OneBehind(), Height(World(), OneBehind(), 0));
    assert Start().chain == HashesOf(World().oracle, TwoHeaders()[..1]);
  }

  lemma SpineStarts()
    ensures Spine(World(), Start().index, TwoHeaders(), 0) && World().oracle.hash(TwoHeaders()[1]) !in Start().index
    ensures Keyed(World().oracle, ChildPooled()) && NoClash(World().oracle, ChildPooled(), TwoHeaders())
  {
    hide LimitBits, BlockProof;
    assert SpineAt(World(), Start().index, TwoHeaders(), 0);
  }

  // ---- The same on real nodes ----

  /** A new node of this world with only the root block. */
  method RootNode() returns (node: ChainstateManager)
    ensures fresh(node) && fresh(node.blocks) && fresh(node.blocks.activeChain) && fresh(node.selector) && fresh(node.orphans)
    ensures node.env == World() && node.Valid() && node.View() == Start() && node.orphans.headers == map[] && !node.finishedIbd
  {
    hide LimitBits, Shape, IndexInv, PoolInv, ValidBits, GenesisBlock, TopsLeaves, TopsAll;
    node := new ChainstateManager(World());
    var ok := node.Initialize(BlockAt(0));
    StartIsInitial();
  }

  /** The child of block 1 arrives first and is pooled. */
  method PoolChild(node: ChainstateManager)
    requires node.env == World() && node.Valid() && node.orphans.headers == map[]
    modifies node.orphans
    ensures node.Valid() && node.orphans.headers == ChildPooled()
  {
    hide LimitBits, Shape, IndexInv, PoolInv, TopsLeaves, EvictedTo;
    var ok := node.AddOrphanHeader(BlockAt(2), 7, 0);
    assert |OfPeer(map[], 7)| == 0;
    assert forall rest: Pool :: RoomyTo(map[], 0, node.env.params.orphanExpireTime, rest) ==> rest == map[];
  }

  /** Every listed header is the one pooled orphan, so the list has at most one entry that can be inserted. */
  lemma AddedBoth(added: seq<Header>, pool': Pool)
    requires Linked(Start().index) && Insertable(World(), Start().index, added, 0)
    requires Drained(World(), Start().index, ChildPooled(), {}, added, 0, InsertAll(World(), Start().index, added, 0), pool')
    requires added != [] && added[0] == BlockAt(1) && Pooled(ChildPooled(), added[1..])
    ensures added == [BlockAt(1), BlockAt(2)]
  {
    hide LimitBits, Check, Inserted, InsertAll, Insertable, Drained, Settled, Inv, World, BlockAt, Start;
    StartIsInitial();
    if |added| == 1 {
      assert added == [BlockAt(1)];
      ChildSettled(pool');
      NotOnlyOne();
    } else {
      assert added[1..][0] == BlockAt(2);
      if |added| > 2 {
        assert added[1..][1] == BlockAt(2);
        DistinctInserted(World(), Start(), added, 0, 1, 2);
      }
    }
  }

  lemma DistinctInserted(e: Env, s: State, hs: seq<Header>, now: int, i: nat, j: nat)
    requires Inv(e, s) && Linked(s.index) && Insertable(e, s.index, hs, now) && i < j < |hs|
    ensures e.oracle.hash(hs[i]) != e.oracle.hash(hs[j])
  {
    hide Shape, IndexInv, Insertable, InsertAll, Check, Linked;
    InsertableAt(e, s.index, hs, now, j);
    InsertAllAdds(e, s.index, hs[..j], now);
    assert hs[..j][i] == hs[i];
    FreshParent(e, InsertAll(e, s.index, hs[..j], now), hs[j], now);
  }

  lemma ChildSettled(pool': Pool)
    requires Linked(Start().index) && Insertable(World(), Start().index, [BlockAt(1)], 0)
    requires Drained(World(), Start().index, ChildPooled(), {}, [BlockAt(1)], 0,
                     InsertAll(World(), Start().index, [BlockAt(1)], 0), pool')
    ensures Settled(World(), Start().index, [BlockAt(1)], 0, BlockAt(2))
  {
    hide LimitBits, Check, Inserted, Insertable, InsertAll, Second, Settled, World, Start, BlockAt;
    var one := [BlockAt(1)];
    InsertOne(World(), Start().index, one, 0);
    SecondUnfolds();
    SecondIs();
    StartKeys();
    HashOf(2);
    assert 3 in ChildPooled() && ChildPooled()[3].header == BlockAt(2);
    assert 3 !in pool';
  }

  lemma StartKeys()
    ensures Start().index.Keys == {1}
  {
    hide LimitBits, GenesisBlock;
  }

  lemma SecondUnfolds()
    ensures Linked(Start().index) && Check(World(), Start().index, BlockAt(1), 0, true) == Fresh
    ensures Second() == Inserted(World().oracle, Start().index, BlockAt(1))
  {
    hide LimitBits, Check, Inserted;
    OneIsFresh();
  }

  /** If only block 1 was inserted, its orphan would have been refused, but it is valid there. */
  lemma NotOnlyOne()
    requires Linked(Start().index) && Insertable(World(), Start().index, [BlockAt(1)], 0)
    ensures !Settled(World(), Start().index, [BlockAt(1)], 0, BlockAt(2))
  {
    hide LimitBits, Check, Inserted, Insertable, InsertAll, Second, RefusedDuring, World, Start, BlockAt;
    var one := [BlockAt(1)];
    InsertOne(World(), Start().index, one, 0);
    SecondUnfolds();
    SecondIs();
    TwoIsFresh();
    HashOf(1);
    HashOf(2);
    forall q: nat
      ensures !RefusedDuring(World(), Start().index, one, 0, BlockAt(2), q)
    {
      NeverRefused(World(), Start().index, BlockAt(1), 0, BlockAt(2), q);
    }
  }

  /** The node pools the child, then processes block 1: it holds a valid block of work three and stays at the root. */
  method PromotedOrphanRun() returns (node: ChainstateManager)
    ensures node.Valid() && node.View().chain == [1]
    ensures Valid(node.blocks.index, 3) && node.blocks.index[3].work == 3 && node.blocks.index[1].work == 1
  {
    hide LimitBits, Shape, IndexInv, PoolInv, TopsLeaves, TopsAll, Linked, Check, Drained, Insertable, InsertAll, Pooled, Under, Activated, Submitted, NoneReady, World, Start, BlockAt, Submittable;
    node := RootNode();
    PoolChild(node);
    var ok, why, ev, added := node.ProcessNewBlockHeader(BlockAt(1), 0);
    SecondUnfolds();
    WorldIs();
    HashOf(1);
    AddedNotEmpty(node.env, Start(), BlockAt(1), added, 0, node.View());
    AddedBoth(added, node.orphans.headers);
    PromotedOrphanIsIgnored();
    RootWork();
  }

  lemma AddedNotEmpty(e: Env, s: State, header: Header, added: seq<Header>, now: int, s': State)
    requires Linked(s.index) && Check(e, s.index, header, now, true) == Fresh
    requires Processed(e, s, added, e.oracle.hash(header), now, s')
    ensures added != []
  {
    hide Linked, Insertable, InsertAll, Activated, ContextualCheck, Headers;
  }

  lemma RootWork()
    ensures Submittable(World(), Start(), [BlockAt(1), BlockAt(2)], 2, 0)
    ensures var m := Submitted(World(), Start(), [BlockAt(1), BlockAt(2)], 2, 0);
            Ready(m) && 1 in Activated(World(), m).index && Activated(World(), m).index[1].work == 1
  {
    hide LimitBits, Check, Inserted, Linked, Activated, Insertable, InsertAll, Submitted, BlockProof, Shape, IndexInv;
    PromotedOrphanIsIgnored();
    SubmittedKeeps();
    BothInsert();
    UnitProof();
    StartIsInitial();
    var hs := [BlockAt(1), BlockAt(2)];
    InsertAllInv(World(), Start().index, hs, 0);
    assert Start().index[1].work == 1;
  }

  /** From the root, with block 1 as the only candidate, activation takes it. */
  lemma TakesBlockOne()
    ensures var s := State(Second(), [1], {2}, {});
            Inv(World(), s) && Ready(s) ==> Activated(World(), s).chain == [1, 2] && Activated(World(), s).index == Second()
  {
    hide LimitBits, Second, Linked, Shape, IndexInv, Activated, World;
    SecondIs();
    WorldIs();
    var s := State(Second(), [1], {2}, {});
    if Inv(World(), s) && Ready(s) {
      TwoPath(s.index);
      TakesFirst(World(), s, 2);
      ActivatedKeeps(World(), s);
    }
  }

  lemma TwoPath(idx: Index)
    requires Linked(idx) && 1 in idx && 2 in idx && idx[1].prev == None && idx[2].prev == Some(1)
    ensures Path(idx, 2) == [1, 2]
  {
    assert Path(idx, 1) == [1];
  }

  /** A node that received block 1 and made it its tip. */
  method ServingNode() returns (node: ChainstateManager)
    ensures fresh(node) && fresh(node.blocks) && fresh(node.blocks.activeChain) && fresh(node.selector) && fresh(node.orphans)
    ensures node.env == World() && node.Valid() && Serves(World().oracle, node.View(), TwoHeaders()) && node.View().chain == [1, 2]
  {
    hide LimitBits, Shape, IndexInv, PoolInv, TopsLeaves, TopsAll, Linked, Check, Drained, Insertable, InsertAll, Under, Activated, Submitted, NoneReady, World, Start, BlockAt, Submittable, Second, Serves, Pooled;
    node := RootNode();
    var ok, why, ev, added := node.ProcessNewBlockHeader(BlockAt(1), 0);
    SecondUnfolds();
    WorldIs();
    HashOf(1);
    AddedNotEmpty(node.env, Start(), BlockAt(1), added, 0, node.View());
    NonePromoted(added);
    assert added == [BlockAt(1)];
    AfterOne();
    TakesBlockOne();
    ServesTwo(node.View());
  }

  lemma NonePromoted(added: seq<Header>)
    requires added != []
    ensures |added| > 1 ==> !Pooled(map[], added[1..])
  {
    if |added| > 1 {
      var rest := added[1..];
      assert rest[0] == added[1];
    }
  }

  lemma ServesTwo(s: State)
    requires s.chain == [1, 2] && s.index == Second()
    ensures Serves(World().oracle, s, TwoHeaders())
  {
    hide LimitBits, Second;
    SecondIs();
  }

  /** A node one block behind that pooled the child of the missing block. */
  method Requester() returns (req: HeaderSyncManager)
    ensures fresh(req) && fresh(req.node) && fresh(req.node.blocks) && fresh(req.node.blocks.activeChain)
    ensures fresh(req.node.selector) && fresh(req.node.orphans)
    ensures req.node.Valid() && req.node.env == World() && req.syncPeer == Some(7) && !req.node.finishedIbd
    ensures Behind(World(), OneBehind(), req.node.View(), req.node.orphans.headers)
  {
    hide LimitBits, Shape, IndexInv, PoolInv, TopsLeaves, TopsAll, Linked, World, Start, BlockAt, Behind, OneBehind, ChildPooled;
    var node := RootNode();
    PoolChild(node);
    req := new HeaderSyncManager(node, Some(7));
    OneBehindIsLate();
    StartIsInitial();
  }

  /** Sync between that node and one that has the missing block ends with different tips. */
  method SyncStopsShort() returns (req: HeaderSyncManager, resp: HeaderSyncManager)
    ensures req.node.Valid() && req.node.View().chain == [1] && resp.node.View().chain == [1, 2]
  {
    hide LimitBits, Shape, IndexInv, PoolInv, TopsLeaves, TopsAll, Linked, World, Behind, Serves, OneBehind, TwoHeaders;
    req := Requester();
    var theirs := ServingNode();
    resp := new HeaderSyncManager(theirs, None);
    EndsShort(req, resp);
  }

  method EndsShort(req: HeaderSyncManager, resp: HeaderSyncManager)
    requires req != resp && Apart(req.node, resp.node) && req.node.Valid() && req.node.env == World() && resp.node.Shaped()
    requires req.syncPeer == Some(7) && !req.node.finishedIbd && resp.node.View().chain == [1, 2]
    requires Behind(World(), OneBehind(), req.node.View(), req.node.orphans.headers)
    requires Serves(World().oracle, resp.node.View(), TwoHeaders())
    modifies req, req.node`failed, req.node`finishedIbd, req.node.blocks`index, req.node.blocks.activeChain, req.node.selector, req.node.orphans
    ensures req.node.Valid() && req.node.View().chain == [1] && resp.node.View() == old(resp.node.View())
  {
    hide LimitBits, Shape, IndexInv, PoolInv, TopsLeaves, TopsAll, Linked, World, Start, BlockAt, Behind, OutOfReach, Serves, OneBehind, ChildPooled, TwoHeaders, Ready, Room, Ends, Full, AllFull, Height, NoneReady, Late;
    OneBehindIsLate();
    WorldIs();
    SessionIs();
    var rounds := Sync(req, resp, 7, 0, OneBehind());
    ShorterPrefix(req.node.View().chain, Height(World(), OneBehind(), rounds));
  }

  lemma ShorterPrefix(p: seq<Hash>, m: nat)
    requires m < 2 && p == [1, 2][..m + 1] && p != [1, 2]
    ensures p == [1]
  {
  }

  lemma SessionIs()
    ensures OneBehind().c == TwoHeaders() && OneBehind().now == 0 && !OneBehind().finished
  {
    hide LimitBits;
  }
}
