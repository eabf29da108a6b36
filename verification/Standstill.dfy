/** A reachable state in which the sync loop asks for the same full batch for ever. */
module Standstill {
  import opened Bits
  import opened Compact
  import opened Work
  import opened Primitives
  import opened Validation
  import opened BlockTree
  import opened TreeGrowth
  import opened Chainstate
  import opened Activation
  import opened Submission
  import opened Selector
  import opened Orphans
  import opened Runs
  import opened SyncSpec
  import opened CatchUp
  import opened Rounds
  import opened HeaderSync
  import opened Witness
  import opened Protocol

  const NOW: int := 100_000

  /** Blocks a up to but not including b. */
  function BlocksFrom(a: nat, b: nat): (hs: seq<Header>)
    requires a <= b <= 5000
    ensures |hs| == b - a
  {
    seq(b - a, i requires 0 <= i < b - a => BlockAt(a + i))
  }

  /** The index holds exactly blocks 0 to n, one below the other. */
  ghost predicate Holds(idx: Index, n: nat)
  {
    && n < 5000 && IndexInv(World(), idx) && (forall h :: h in idx <==> 1 <= h <= n + 1)
    && Spine(World(), idx, FirstBlocks(n + 1), n) && idx[1].work == 1
  }

  lemma StartHolds()
    ensures Holds(Start().index, 0)
  {
    hide LimitBits, IndexInv, BlockProof;
    StartIsInitial();
    UnitProof();
    assert SpineAt(World(), Start().index, FirstBlocks(1), 0);
  }

  lemma NextFits(idx: Index, n: nat)
    requires Holds(idx, n) && n + 1 < 5000
    ensures Linked(idx) && Check(World(), idx, BlockAt(n + 1), NOW, true) == Fresh
  {
    hide LimitBits, EntryOk, Rooted, AllTree, Closed, AcceptedPaths, Linked, Spine, World, BlockAt, FirstBlocks, ContextualCheck, FullPow, Check, Headers, Path, HashesOf;
    SpinePath(World(), idx, FirstBlocks(n + 1), n);
    assert FirstBlocks(n + 1)[..n + 1] == FirstBlocks(n + 1);
    FirstMore(n);
    HashOf(n);
    HashOf(n + 1);
    ContextPasses(n + 1, NOW);
    PowPasses(BlockAt(n + 1));
    TopValid(idx, n);
    FreshIf(World(), idx, BlockAt(n + 1), NOW);
  }

  lemma TopValid(idx: Index, n: nat)
    requires Holds(idx, n)
    ensures Valid(idx, n + 1)
  {
    hide LimitBits, IndexInv, World, BlockAt, FirstBlocks;
    FirstMore(n);
    HashOf(n);
    assert SpineAt(World(), idx, FirstBlocks(n + 1), n);
  }

  lemma HoldsMore(idx: Index, n: nat)
    requires Holds(idx, n) && n + 1 < 5000
    ensures Linked(idx) && Check(World(), idx, BlockAt(n + 1), NOW, true) == Fresh
    ensures Holds(Inserted(World().oracle, idx, BlockAt(n + 1)), n + 1)
  {
    hide LimitBits, EntryOk, Rooted, AllTree, Closed, AcceptedPaths, Linked, SpineAt, World, BlockAt, FirstBlocks, Check, Inserted;
    NextFits(idx, n);
    HashOf(n + 1);
    FreshInserts(World(), idx, BlockAt(n + 1), NOW);
    FreshFacts(World(), idx, BlockAt(n + 1), NOW);
    FreshEntry(World().oracle, idx, BlockAt(n + 1));
    OneNew(World().oracle, idx, BlockAt(n + 1));
    SpineMore(idx, Inserted(World().oracle, idx, BlockAt(n + 1)), n);
  }

  lemma SpineMore(idx: Index, idx': Index, n: nat)
    requires n + 1 < 5000 && Spine(World(), idx, FirstBlocks(n + 1), n) && Extends(idx, idx')
    requires Valid(idx', n + 2) && idx'[n + 2].prev == Some(n + 1) && idx'[n + 2].header == BlockAt(n + 1)
    ensures Spine(World(), idx', FirstBlocks(n + 2), n + 1)
  {
    hide LimitBits, World, BlockAt;
    HashOf(n);
    HashOf(n + 1);
    var c, c' := FirstBlocks(n + 1), FirstBlocks(n + 2);
    forall i | 0 <= i <= n + 1
      ensures SpineAt(World(), idx', c', i)
    {
      if i <= n {
        assert SpineAt(World(), idx, c, i);
      }
    }
  }

  /** So the blocks after n can be inserted in order. */
  lemma {:induction false} HoldsAll(idx: Index, n: nat, m: nat)
    requires Holds(idx, n) && n <= m < 5000
    ensures Linked(idx) && Insertable(World(), idx, BlocksFrom(n + 1, m + 1), NOW)
    ensures Holds(InsertAll(World(), idx, BlocksFrom(n + 1, m + 1), NOW), m)
    decreases m - n
  {
    hide LimitBits, EntryOk, Rooted, AllTree, Closed, AcceptedPaths, Linked, Spine, World, BlockAt, FirstBlocks, Check, Inserted;
    var hs := BlocksFrom(n + 1, m + 1);
    if n < m {
      assert hs[0] == BlockAt(n + 1) && hs[1..] == BlocksFrom(n + 2, m + 1);
      HoldsMore(idx, n);
      HoldsAll(Inserted(World().oracle, idx, BlockAt(n + 1)), n + 1, m);
    }
  }

  lemma HasSuccessor(idx: Index, n: nat, h: Hash)
    requires Holds(idx, n) && 1 <= h <= n
    ensures HasChild(idx, h)
  {
    hide LimitBits, IndexInv, World, BlockAt;
    HashOf(h);
    HashOf(h - 1);
    assert SpineAt(World(), idx, FirstBlocks(n + 1), h);
    assert idx[h + 1].prev == Some(h);
  }

  /** The node is at the root, which is its only candidate, and knows blocks 0 to n. */
  ghost predicate AtRoot(s: State, n: nat)
  {
    Holds(s.index, n) && s.chain == [1] && s.candidates == {1} && s.failed == {} && Inv(World(), s) && Ready(s)
  }

  /** One accept that promotes orphans adds blocks n + 1 to m and offers none. */
  lemma PromotesTo(s: State, n: nat, m: nat)
    requires AtRoot(s, n) && n + 1 < m < 5000
    ensures Submittable(World(), s, BlocksFrom(n + 1, m + 1), n + 2, NOW)
    ensures AtRoot(Submitted(World(), s, BlocksFrom(n + 1, m + 1), n + 2, NOW), m)
  {
    hide LimitBits, Shape, IndexInv, Linked, World, BlockAt, Holds, Insertable, InsertAll, HasChild;
    var hs := BlocksFrom(n + 1, m + 1);
    HoldsAll(s.index, n, m);
    assert hs[0] == BlockAt(n + 1) && hs[1] == BlockAt(n + 2);
    HashOf(n + 1);
    HashOf(n + 2);
    SubmittedInv(World(), s, hs, n + 2, NOW);
    HasSuccessor(InsertAll(World(), s.index, hs, NOW), m, n + 2);
  }

  // ---- The run ----

  /** The responder's chain: the root and one full batch. */
  function LongChain(): (c: seq<Header>)
    ensures |c| == MAX_HEADERS_SIZE + 1
  {
    FirstBlocks(MAX_HEADERS_SIZE + 1)
  }

  /** At the root, with one block more than that chain indexed. */
  ghost function Standing(idx: Index): (k: Session)
  {
    Session(idx, map[], LongChain(), 0, MAX_HEADERS_SIZE, NOW, false)
  }

  lemma LongIsGood()
    ensures GoodChain(World(), LongChain(), NOW)
  {
    hide LimitBits, ContextualCheck, FullPow, World, BlockAt;
    var c := LongChain();
    forall i | 0 <= i < |c|
      ensures World().oracle.hash(c[i]) == i + 1
    {
      HashOf(i);
    }
    GenesisIs();
    forall i | 1 <= i < |c|
      ensures GoodNext(World(), c, i, NOW)
    {
      HashOf(i);
      HashOf(i - 1);
      assert c[..i] == FirstBlocks(i);
      ContextPasses(i, NOW);
      PowPasses(BlockAt(i));
    }
  }

  lemma GenesisIs()
    ensures World().genesis == 1
  {
  }

  lemma {:induction false} UnitProofs(bits: seq<Word>)
    requires forall i :: 0 <= i < |bits| ==> bits[i] == LimitBits()
    ensures ProofSum(bits) == |bits|
  {
    hide LimitBits, BlockProof;
    if bits != [] {
      UnitProof();
      UnitProofs(bits[..|bits| - 1]);
    }
  }

  lemma LongRoom(s: State)
    requires AtRoot(s, MAX_HEADERS_SIZE + 1)
    ensures Room(World(), Standing(s.index))
  {
    hide LimitBits, Inv, Linked, World, BlockAt, Holds, ProofSum;
    var rest := LongChain()[1..];
    HashOf(0);
    RootThere(s.index, MAX_HEADERS_SIZE + 1);
    forall i | 0 <= i < |rest|
      ensures BitsOf(rest)[i] == LimitBits()
    {
      HashOf(i + 1);
    }
    UnitProofs(BitsOf(rest));
  }

  lemma RootThere(idx: Index, n: nat)
    requires Holds(idx, n)
    ensures 1 in idx && idx[1].work == 1
  {
    hide IndexInv, Spine;
  }

  lemma AllLate(idx: Index)
    requires Holds(idx, MAX_HEADERS_SIZE + 1)
    ensures forall j :: 0 <= j <= MAX_HEADERS_SIZE ==> Late(World(), Standing(idx), j)
  {
    hide LimitBits, World, BlockAt, Holds, LateOrphan;
    forall j | 0 <= j <= MAX_HEADERS_SIZE
      ensures Late(World(), Standing(idx), j)
    {
      HashOf(j);
      HasSuccessor(idx, MAX_HEADERS_SIZE + 1, j + 1);
    }
  }

  lemma StandingStarts(s: State)
    requires AtRoot(s, MAX_HEADERS_SIZE + 1)
    ensures Behind(World(), Standing(s.index), s, map[])
  {
    hide LimitBits, Shape, Linked, World, BlockAt, IndexInv, GoodChain, Room, SpineAt;
    var c := LongChain();
    LongIsGood();
    LongRoom(s);
    HashOf(0);
    assert c[..1] == [BlockAt(0)];
    SpineShorter(s.index);
  }

  lemma SpineShorter(idx: Index)
    requires Holds(idx, MAX_HEADERS_SIZE + 1)
    ensures Spine(World(), idx, LongChain(), MAX_HEADERS_SIZE)
  {
    hide LimitBits, World, BlockAt, IndexInv;
    var n := MAX_HEADERS_SIZE + 1;
    forall i | 0 <= i <= MAX_HEADERS_SIZE
      ensures SpineAt(World(), idx, LongChain(), i)
    {
      assert SpineAt(World(), idx, FirstBlocks(n + 1), i);
    }
  }

  lemma StandsStill(s: State)
    requires AtRoot(s, MAX_HEADERS_SIZE + 1)
    ensures var k := Standing(s.index);
            && Behind(World(), k, s, map[]) && Room(World(), k)
            && Stuck(World(), k, 0) && Forever(World(), k, 0) && !Ends(World(), k)
  {
    hide LimitBits, Inv, Linked, World, BlockAt, Holds, Late, Room, Behind;
    StandingStarts(s);
    LongRoom(s);
    AllLate(s.index);
    StuckExactly(World(), Standing(s.index), 0);
    HeightStarts(World(), Standing(s.index));
    StuckForever(World(), Standing(s.index), 0);
  }

  /**
   * Two headers arrive whose pooled descendants, a thousand at most each, are promoted with them. Then the node is at
   * the root and a responder's chain of one full batch is all late: the loop asks for that batch for ever.
   */
  lemma NeverCatchesUp() returns (states: seq<State>, ops: seq<Op>)
    ensures ops == [Submit(BlocksFrom(1, 1002), 2, NOW), Submit(BlocksFrom(1002, 2002), 1003, NOW)]
    ensures IsRun(World(), states, ops)
    ensures var k := Standing(states[2].index);
            && Behind(World(), k, states[2], map[]) && Room(World(), k)
            && Stuck(World(), k, 0) && Forever(World(), k, 0) && !Ends(World(), k)
  {
    hide LimitBits, World, BlockAt, Holds, Start, Inv, Submittable, Submitted, Initial, Ready, Late, Room, Behind, Linked;
    StartIsInitial();
    StartHolds();
    StartParts();
    PromotesTo(Start(), 0, 1001);
    var s1 := Submitted(World(), Start(), BlocksFrom(1, 1002), 2, NOW);
    PromotesTo(s1, 1001, 2001);
    var s2 := Submitted(World(), s1, BlocksFrom(1002, 2002), 1003, NOW);
    states := [Start(), s1, s2];
    ops := [Submit(BlocksFrom(1, 1002), 2, NOW), Submit(BlocksFrom(1002, 2002), 1003, NOW)];
    assert Next(World(), states[0], ops[0], states[1]);
    assert Next(World(), states[1], ops[1], states[2]);
    StandsStill(s2);
  }
}
