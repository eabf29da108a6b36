/** InvalidateBlock: failing a block and its descendants and stepping the active chain back below it. */
module Invalidation {
  import opened Bits
  import opened Work
  import opened Primitives
  import opened Validation
  import opened BlockTree
  import opened SkipList
  import opened TreeGrowth
  import opened ActiveChain
  import opened Selector
  import opened Chainstate
  import opened Activation

  /** The named block gets FAILED_VALID; its proper descendants get FAILED_CHILD in place of FAILED_VALID. */
  ghost function StatusAfter(idx: Index, x: Hash, h: Hash): (st: Status)
    requires Linked(idx) && h in idx
  {
    if h == x then idx[h].status.(failedValid := true)
    else if IsAncestor(idx, x, h) then idx[h].status.(failedValid := false, failedChild := true)
    else idx[h].status
  }

  ghost function Failing(idx: Index, x: Hash): (r: Index)
    requires Linked(idx)
    ensures SameButStatus(idx, r)
    ensures forall h :: h in idx ==> r[h].status == StatusAfter(idx, x, h)
  {
    map h | h in idx :: idx[h].(status := StatusAfter(idx, x, h))
  }

  ghost function Descendants(idx: Index, x: Hash): (r: set<Hash>)
    requires Linked(idx)
  {
    set h | h in idx && IsAncestor(idx, x, h)
  }

  ghost function ChainAfter(s: State, x: Hash): (c: seq<Hash>)
    requires x in s.index
  {
    if x in s.chain && s.index[x].height <= |s.chain| then s.chain[..s.index[x].height] else s.chain
  }

  /** Valid blocks off the active chain with at least the work of the named block's parent. */
  ghost function Competitors(s: State, x: Hash): (r: set<Hash>)
    requires Linked(s.index) && x in s.index && s.index[x].prev.Some?
  {
    set b | b in s.index && b !in s.chain && Valid(s.index, b) && s.index[b].work >= s.index[s.index[x].prev.value].work
  }

  ghost function Elements(p: seq<Hash>): (r: set<Hash>)
  {
    set b | b in p
  }

  /** Candidates after the disconnect loop: the parent replaces the disconnected blocks, competitors join. */
  ghost function Unwound(s: State, x: Hash): (r: set<Hash>)
    requires Linked(s.index) && x in s.index && s.index[x].prev.Some?
  {
    if x in s.chain && s.index[x].height <= |s.chain| then
      s.candidates - Elements(s.chain[s.index[x].height..]) + {s.index[x].prev.value} + Competitors(s, x)
    else s.candidates
  }

  /** Valid leaves with at least a given work. */
  ghost function Leaves(idx: Index, work: nat): (r: set<Hash>)
  {
    set b | b in idx && Valid(idx, b) && idx[b].work >= work && !HasChild(idx, b)
  }

  /** InvalidateBlock of an indexed block other than a root. */
  ghost function Invalidated(s: State, x: Hash): (r: State)
    requires Linked(s.index) && x in s.index && s.index[x].prev.Some?
    requires ChainAfter(s, x) != [] && ChainAfter(s, x)[|ChainAfter(s, x)| - 1] in s.index
  {
    var idx' := Failing(s.index, x);
    var chain' := ChainAfter(s, x);
    State(idx', chain',
          Unwound(s, x) - Descendants(s.index, x) + Leaves(idx', idx'[chain'[|chain'| - 1]].work),
          s.failed + Descendants(s.index, x))
  }

  // ---- Status ----

  lemma DescendantChild(idx: Index, x: Hash, h: Hash)
    requires Linked(idx) && h in idx && idx[h].prev.Some? && x != h
    ensures IsAncestor(idx, x, h) <==> IsAncestor(idx, x, idx[h].prev.value)
  {
    PathOfChild(idx, h);
  }

  /** Exactly the named block and its descendants change; all of them end failed, nothing else does. */
  lemma FailingExact(idx: Index, x: Hash, h: Hash)
    requires Linked(idx) && x in idx && h in idx
    ensures Failing(idx, x)[h].status.Failed() <==> idx[h].status.Failed() || IsAncestor(idx, x, h)
    ensures !IsAncestor(idx, x, h) ==> Failing(idx, x)[h] == idx[h]
  {
    hide Path, Linked;
    AncestorAtHeight(idx, x, x);
  }

  lemma FailingInv(e: Env, idx: Index, x: Hash)
    requires IndexInv(e, idx) && x in idx
    ensures IndexInv(e, Failing(idx, x))
    ensures forall h :: h in idx ==> Path(Failing(idx, x), h) == Path(idx, h)
  {
    hide EntryOk, Rooted, Path, Headers, AcceptedChain, ValidBits, SameButStatus, StatusAfter, Failing;
    var idx' := Failing(idx, x);
    RestatusInv(e.oracle, e.genesis, idx, idx');
    FailingTree(idx, x);
    FailingClosed(idx, x);
    FailingHeaders(e, idx, x);
  }

  lemma FailingHeaders(e: Env, idx: Index, x: Hash)
    requires TreeInv(e.oracle, e.genesis, idx) && AcceptedPaths(e.params, idx)
    ensures Linked(Failing(idx, x)) && AcceptedPaths(e.params, Failing(idx, x))
  {
    hide EntryOk, Rooted, Path, Headers, AcceptedChain, Failing, Linked, StatusAfter;
    RestatusInv(e.oracle, e.genesis, idx, Failing(idx, x));
  }

  lemma FailingTree(idx: Index, x: Hash)
    requires Linked(idx) && AllTree(idx)
    ensures AllTree(Failing(idx, x))
  {
    hide Path, ValidBits, Failing, IsAncestor, Linked;
  }

  /** Failure stays closed under descendants. */
  lemma FailingClosed(idx: Index, x: Hash)
    requires Linked(idx) && Closed(idx) && x in idx
    ensures Linked(Failing(idx, x)) && Closed(Failing(idx, x))
  {
    hide Path, Failing, IsAncestor, StatusAfter;
    var idx' := Failing(idx, x);
    RestatusLinks(idx, idx');
    forall h | h in idx && idx'[h].prev.Some? && idx'[idx'[h].prev.value].status.Failed()
      ensures idx'[h].status.Failed()
    {
      var p := idx[h].prev.value;
      FailingExact(idx, x, h);
      FailingExact(idx, x, p);
      SelfAncestor(idx, x);
      if h != x {
        DescendantChild(idx, x, h);
      }
    }
  }

  lemma SelfAncestor(idx: Index, x: Hash)
    requires Linked(idx) && x in idx
    ensures IsAncestor(idx, x, x)
  {
  }

  /** When a block leaves the active chain, every valid block off the chain that the chain below does not outweigh competes. */
  lemma RivalsCompete(e: Env, s: State, x: Hash, b: Hash)
    requires Inv(e, s) && Linked(s.index) && x in s.index && s.index[x].prev.Some? && s.index[x].prev.value in s.index && x in s.chain
    requires Valid(s.index, b) && b !in s.chain && !IsAncestor(s.index, x, b)
    requires s.index[b].work >= s.index[s.index[x].prev.value].work
    ensures var c := ChainAfter(s, x);
            c != [] && c[|c| - 1] in s.index && b in Invalidated(s, x).candidates
  {
    hide Shape, IndexInv, Linked, Failing, HasChild, IsAncestor, ChainAfter;
    ChainSteps(e, s, x);
    OnlyDescendants(s.index, x, b);
    AtMostChain(s, x);
  }

  lemma OnlyDescendants(idx: Index, x: Hash, b: Hash)
    requires Linked(idx) && b in idx && !IsAncestor(idx, x, b)
    ensures b !in Descendants(idx, x)
  {
    hide Linked, IsAncestor;
  }

  lemma AtMostChain(s: State, x: Hash)
    requires x in s.index && x in s.chain && s.index[x].height < |s.chain|
    ensures forall b :: b in Elements(s.chain[s.index[x].height..]) ==> b in s.chain
  {
  }

  // ---- The state afterwards ----

  ghost predicate Invalidatable(s: State, x: Hash)
  {
    Linked(s.index) && x in s.index && s.index[x].prev.Some?
  }

  /** The chain steps back to the parent of x when x is on it, and stays otherwise. */
  lemma ChainSteps(e: Env, s: State, x: Hash)
    requires Inv(e, s) && Invalidatable(s, x)
    ensures x in s.chain ==> s.index[x].height < |s.chain| && s.chain[s.index[x].height] == x
    ensures var c := ChainAfter(s, x);
            && c != [] && c <= s.chain && c[|c| - 1] in s.index && c == Path(s.index, c[|c| - 1])
            && c[|c| - 1] == (if x in s.chain then s.index[x].prev.value else Tip(s))
            && !IsAncestor(s.index, x, c[|c| - 1]) && Valid(s.index, c[|c| - 1])
  {
    hide IndexInv, TreeInv, AllTree, Path, Linked;
    PathOfTip(e, s);
    if x in s.chain {
      CutBelow(e, s, x);
    }
  }

  lemma PathOfTip(e: Env, s: State)
    requires Inv(e, s) && Linked(s.index)
    ensures s.chain != [] && Tip(s) in s.index && s.chain == Path(s.index, Tip(s)) && Valid(s.index, Tip(s))
  {
    hide IndexInv, TreeInv, AllTree, Path, Linked;
  }

  /** The chain below x is the path to the parent of x, which is valid. */
  lemma CutBelow(e: Env, s: State, x: Hash)
    requires Inv(e, s) && Invalidatable(s, x) && x in s.chain
    ensures var k := s.index[x].height;
            && 0 < k < |s.chain| && s.chain[k] == x && s.chain[..k] != [] && s.chain[k - 1] == s.index[x].prev.value
            && s.chain[k - 1] in s.index && s.chain[..k] == Path(s.index, s.chain[k - 1])
            && !IsAncestor(s.index, x, s.chain[k - 1]) && Valid(s.index, s.chain[k - 1])
  {
    hide Shape, IndexInv, Path, Linked;
    PathOfTip(e, s);
    var k := s.index[x].height;
    HasHeight(s.index, x);
    AncestorAtHeight(s.index, x, Tip(s));
    PathPrefix(s.index, Tip(s), k - 1);
    ParentOnPath(s.index, Tip(s), k);
    ValidOnChain(e, s, k - 1);
    AncestorAtHeight(s.index, x, s.chain[k - 1]);
  }

  lemma HasHeight(idx: Index, x: Hash)
    requires Linked(idx) && x in idx && idx[x].prev.Some?
    ensures idx[x].height > 0
  {
  }

  lemma ValidOnChain(e: Env, s: State, i: nat)
    requires Inv(e, s) && i < |s.chain|
    ensures s.chain[i] in s.index && Valid(s.index, s.chain[i])
  {
    hide EntryOk, Rooted, AcceptedPaths, Path, ValidBits;
    ValidAncestors(s.index, Tip(s), i);
  }

  /** Every candidate kept or added is valid after the flags are set. */
  lemma UnwoundValid(e: Env, s: State, x: Hash, c: Hash)
    requires Inv(e, s) && Invalidatable(s, x)
    requires c in Unwound(s, x) && c !in Descendants(s.index, x)
    ensures Valid(Failing(s.index, x), c)
  {
    hide EntryOk, Rooted, Closed, AcceptedPaths, AllTree, Path, Linked, Failing, IsAncestor;
    ChainSteps(e, s, x);
    assert Valid(s.index, c);
    FailingExact(s.index, x, c);
  }

  lemma InvalidatedInv(e: Env, s: State, x: Hash)
    requires Inv(e, s) && Invalidatable(s, x)
    ensures var c := ChainAfter(s, x); c != [] && c[|c| - 1] in s.index
    ensures Inv(e, Invalidated(s, x)) && Ready(Invalidated(s, x))
  {
    hide Shape, IndexInv, Path, Linked, Failing, IsAncestor, ChainAfter, Unwound, Leaves, Descendants, StatusAfter, SameButStatus, Invalidated;
    ChainSteps(e, s, x);
    FailingInv(e, s.index, x);
    CandidatesValid(e, s, x);
    InvalidatedShape(e, s, x);
    ShapeReady(e, Invalidated(s, x));
  }

  lemma InvalidatedShape(e: Env, s: State, x: Hash)
    requires Inv(e, s) && Invalidatable(s, x)
    requires var c := ChainAfter(s, x); c != [] && c[|c| - 1] in s.index
    requires forall c :: c in Invalidated(s, x).candidates ==> Valid(Invalidated(s, x).index, c)
    ensures Inv(e, Invalidated(s, x))
  {
    hide EntryOk, Rooted, Closed, AcceptedPaths, AllTree, Path, Linked, Failing, IsAncestor, ChainAfter, Unwound, Leaves, Descendants, StatusAfter, SameButStatus;
    FailingInv(e, s.index, x);
    StillPath(e, s, x);
  }

  /** The chain that is left is the path to a valid block in the new index, and its blocks connect. */
  lemma StillPath(e: Env, s: State, x: Hash)
    requires Inv(e, s) && Invalidatable(s, x)
    ensures var c, idx' := ChainAfter(s, x), Failing(s.index, x);
            && Linked(idx') && c != [] && c[|c| - 1] in s.index && Valid(idx', c[|c| - 1]) && c == Path(idx', c[|c| - 1])
            && forall i :: 1 <= i < |c| ==> e.connects(c[i])
  {
    hide IndexInv, Path, Linked, Failing, IsAncestor, ChainAfter, StatusAfter, SameButStatus, EntryOk, Rooted, AllTree;
    ChainSteps(e, s, x);
    FailingInv(e, s.index, x);
    FailingLinked(e, s.index, x);
    var c := ChainAfter(s, x);
    FailingExact(s.index, x, c[|c| - 1]);
    assert Path(Failing(s.index, x), c[|c| - 1]) == c;
  }

  lemma FailingLinked(e: Env, idx: Index, x: Hash)
    requires Linked(idx) && IndexInv(e, Failing(idx, x))
    ensures Linked(Failing(idx, x))
  {
    hide EntryOk, Rooted, AllTree, Closed, AcceptedPaths, Linked, Failing;
  }

  lemma CandidatesValid(e: Env, s: State, x: Hash)
    requires Inv(e, s) && Invalidatable(s, x)
    requires var c := ChainAfter(s, x); c != [] && c[|c| - 1] in s.index
    ensures forall c :: c in Invalidated(s, x).candidates ==> Valid(Invalidated(s, x).index, c)
  {
    hide Shape, IndexInv, Linked, Failing, ChainAfter, Unwound, HasChild, Descendants;
    var r := Invalidated(s, x);
    forall c | c in r.candidates
      ensures Valid(r.index, c)
    {
      if c !in Leaves(r.index, r.index[Tip(r)].work) {
        UnwoundValid(e, s, x, c);
      }
    }
  }

  /** No failed block is on the active chain or among the candidates. */
  lemma NothingFailedInUse(e: Env, s: State, h: Hash)
    requires Inv(e, s) && (h in s.chain || h in s.candidates)
    ensures h in s.index && !s.index[h].status.Failed()
  {
    hide TreeInv, AllTree, Closed, AcceptedPaths;
    if h in s.chain {
      var i :| 0 <= i < |s.chain| && s.chain[i] == h;
      ValidOnChain(e, s, i);
    }
  }

  // ---- Which invalidations keep the state covered ----

  /** A valid block that does not descend from the named one. */
  ghost predicate Spared(s: State, x: Hash, b: Hash)
    requires Linked(s.index)
  {
    Valid(s.index, b) && !IsAncestor(s.index, x, b)
  }

  /**
   * The named block is on the active chain, or every spared block above the tip is matched by a spared block that
   * is a candidate or a leaf.
   */
  ghost predicate Kept(s: State, x: Hash)
    requires Ready(s)
  {
    x in s.chain
    || forall b :: Spared(s, x, b) && s.index[b].work > s.index[Tip(s)].work ==>
                     exists c :: Spared(s, x, c) && s.index[c].work >= s.index[b].work && (c in s.candidates || !HasChild(s.index, c))
  }

  /** When every heavier valid block is a candidate, whatever is invalidated keeps coverage. */
  lemma ListedIsKept(s: State, x: Hash)
    requires Ready(s) && Listed(s)
    ensures Kept(s, x)
  {
    hide Linked, IsAncestor, HasChild;
  }

  /**
   * Invalidating a block leaves every heavier valid block covered exactly when Kept holds before. Nothing is assumed
   * about the coverage before the call.
   */
  lemma InvalidatedExact(e: Env, s: State, x: Hash)
    requires Inv(e, s) && Invalidatable(s, x) && NoWrap(s.index) && Ready(s)
    ensures var c := ChainAfter(s, x); c != [] && c[|c| - 1] in s.index
    ensures Ready(Invalidated(s, x)) && (Covered(Invalidated(s, x)) <==> Kept(s, x))
  {
    hide Shape, IndexInv, Linked, Failing, IsAncestor, ChainAfter, NoWrap, HasChild, Invalidated, Covered, Listed;
    InvalidatedInv(e, s, x);
    if x in s.chain {
      InvalidatedOnChain(e, s, x);
      ListedIsCovered(Invalidated(s, x));
    } else {
      InvalidatedOffChain(e, s, x);
    }
  }

  /** A block off the chain: the candidates that stay are the spared ones and the spared leaves. */
  lemma OffChainCandidates(e: Env, s: State, x: Hash, c: Hash)
    requires Inv(e, s) && Invalidatable(s, x) && x !in s.chain && Ready(s)
    ensures var p := ChainAfter(s, x); p == s.chain && p != [] && p[|p| - 1] in s.index
    ensures var r := Invalidated(s, x);
            && r.chain == s.chain && Ready(r) && Tip(s) in r.index && r.index[Tip(s)].work == s.index[Tip(s)].work
            && (Valid(r.index, c) <==> Spared(s, x, c))
            && (c in r.index <==> c in s.index) && (c in s.index ==> r.index[c].work == s.index[c].work)
            && (c in r.candidates && r.index[c].work > s.index[Tip(s)].work <==>
                Spared(s, x, c) && s.index[c].work > s.index[Tip(s)].work && (c in s.candidates || !HasChild(s.index, c)))
  {
    hide Shape, IndexInv, Linked, Failing, IsAncestor, HasChild, SameButStatus;
    InvalidatedInv(e, s, x);
    StillIndexed(e, s, x, c);
  }

  lemma StillIndexed(e: Env, s: State, x: Hash, c: Hash)
    requires Inv(e, s) && Invalidatable(s, x)
    ensures Linked(s.index) && Failing(s.index, x).Keys == s.index.Keys
    ensures forall h :: h in s.index ==> Failing(s.index, x)[h].work == s.index[h].work
    ensures Valid(Failing(s.index, x), c) <==> Spared(s, x, c)
    ensures c in s.candidates ==> Valid(s.index, c)
    ensures HasChild(Failing(s.index, x), c) <==> HasChild(s.index, c)
  {
    hide TreeInv, Linked, IsAncestor, Failing, AcceptedPaths, Closed, StatusAfter;
    if c in s.index {
      FailingExact(s.index, x, c);
    }
    SameChildren(s.index, Failing(s.index, x), c);
  }

  lemma SameChildren(idx: Index, idx': Index, h: Hash)
    requires SameButStatus(idx, idx')
    ensures HasChild(idx, h) <==> HasChild(idx', h)
  {
  }

  lemma InvalidatedOffChain(e: Env, s: State, x: Hash)
    requires Inv(e, s) && Invalidatable(s, x) && x !in s.chain && Ready(s)
    ensures var c := ChainAfter(s, x); c != [] && c[|c| - 1] in s.index
    ensures Ready(Invalidated(s, x)) && (Covered(Invalidated(s, x)) <==> Kept(s, x))
  {
    hide Shape, IndexInv, Linked, IsAncestor, ChainAfter, HasChild, Invalidated, Covered, Kept;
    InvalidatedInv(e, s, x);
    var r := Invalidated(s, x);
    OffChainCandidates(e, s, x, Tip(s));
    if Covered(r) {
      CoveredWasKept(e, s, x, r);
    }
    if Kept(s, x) {
      KeptIsCovered(e, s, x, r);
    }
  }

  lemma CoveredWasKept(e: Env, s: State, x: Hash, r: State)
    requires Inv(e, s) && Invalidatable(s, x) && x !in s.chain && Ready(s)
    requires ChainAfter(s, x) == s.chain && r == Invalidated(s, x) && Ready(r) && r.chain == s.chain && Covered(r)
    ensures Kept(s, x)
  {
    hide Shape, IndexInv, Linked, IsAncestor, ChainAfter, HasChild, Invalidated;
    OffChainCandidates(e, s, x, Tip(s));
    forall b | Spared(s, x, b) && s.index[b].work > s.index[Tip(s)].work
      ensures exists c :: Spared(s, x, c) && s.index[c].work >= s.index[b].work && (c in s.candidates || !HasChild(s.index, c))
    {
      OffChainCandidates(e, s, x, b);
      var c :| c in r.candidates && c in r.index && r.index[c].work >= r.index[b].work;
      OffChainCandidates(e, s, x, c);
    }
  }

  lemma KeptIsCovered(e: Env, s: State, x: Hash, r: State)
    requires Inv(e, s) && Invalidatable(s, x) && x !in s.chain && Ready(s)
    requires ChainAfter(s, x) == s.chain && r == Invalidated(s, x) && Ready(r) && r.chain == s.chain && Kept(s, x)
    ensures Covered(r)
  {
    hide Shape, IndexInv, Linked, IsAncestor, ChainAfter, HasChild, Invalidated, Indexed;
    OffChainCandidates(e, s, x, Tip(s));
    forall b | Valid(r.index, b) && r.index[b].work > r.index[Tip(r)].work
      ensures exists c :: c in r.candidates && c in r.index && r.index[c].work >= r.index[b].work
    {
      OffChainCandidates(e, s, x, b);
      var c :| Spared(s, x, c) && s.index[c].work >= s.index[b].work && (c in s.candidates || !HasChild(s.index, c));
      OffChainCandidates(e, s, x, c);
      assert c in r.candidates && c in r.index && r.index[c].work >= r.index[b].work;
    }
  }

  /** No spared block has more work than b. */
  ghost predicate HeaviestSpared(s: State, x: Hash, b: Hash)
    requires Linked(s.index)
  {
    Spared(s, x, b) && forall c :: Spared(s, x, c) ==> s.index[c].work <= s.index[b].work
  }

  /** A block that is no candidate and has children, all of which are failed once x is. */
  ghost predicate Stranded(s: State, x: Hash, c: Hash)
    requires Linked(s.index)
  {
    && c !in s.candidates && HasChild(s.index, c)
    && forall d :: d in s.index && s.index[d].prev == Some(c) ==> Failing(s.index, x)[d].status.Failed()
  }

  ghost predicate AllStranded(s: State, x: Hash)
    requires Linked(s.index)
  {
    forall c :: HeaviestSpared(s, x, c) ==> Stranded(s, x, c)
  }

  /** So coverage is lost exactly when the heaviest blocks left are above the tip and all stranded. */
  lemma LostExactly(e: Env, s: State, x: Hash)
    requires Inv(e, s) && Invalidatable(s, x) && NoWrap(s.index) && Ready(s)
    ensures !Kept(s, x) <==>
            && x !in s.chain
            && AllStranded(s, x)
            && exists b :: HeaviestSpared(s, x, b) && s.index[b].work > s.index[Tip(s)].work
  {
    hide Shape, IndexInv, Linked, IsAncestor, HasChild, NoWrap, Stranded;
    if !Kept(s, x) {
      var b0 :| Spared(s, x, b0) && s.index[b0].work > s.index[Tip(s)].work
        && forall c :: Spared(s, x, c) && s.index[c].work >= s.index[b0].work ==> c !in s.candidates && HasChild(s.index, c);
      var b := SomeHeaviest(s, x, b0);
      forall c | HeaviestSpared(s, x, c)
        ensures Stranded(s, x, c)
      {
        HeaviestChildrenFail(e, s, x, c);
      }
    }
    if b :| x !in s.chain && HeaviestSpared(s, x, b) && s.index[b].work > s.index[Tip(s)].work && AllStranded(s, x) {
      NoneMatches(s, x, b);
    }
  }

  lemma NoneMatches(s: State, x: Hash, b: Hash)
    requires Ready(s) && x !in s.chain && HeaviestSpared(s, x, b) && s.index[b].work > s.index[Tip(s)].work
    requires AllStranded(s, x)
    ensures !Kept(s, x)
  {
    hide Linked, IsAncestor, HasChild;
    forall c | Spared(s, x, c) && s.index[c].work >= s.index[b].work
      ensures c !in s.candidates && HasChild(s.index, c)
    {
      assert HeaviestSpared(s, x, c);
    }
  }

  lemma SomeHeaviest(s: State, x: Hash, b0: Hash) returns (b: Hash)
    requires Linked(s.index) && Spared(s, x, b0)
    ensures HeaviestSpared(s, x, b) && s.index[b].work >= s.index[b0].work
  {
    hide Linked, IsAncestor;
    b := b0;
    var rest := s.index.Keys;
    while rest != {}
      invariant Spared(s, x, b) && s.index[b].work >= s.index[b0].work
      invariant forall c :: Spared(s, x, c) && c !in rest ==> s.index[c].work <= s.index[b].work
      decreases |rest|
    {
      var c :| c in rest;
      rest := rest - {c};
      if Spared(s, x, c) && s.index[c].work > s.index[b].work {
        b := c;
      }
    }
  }

  /** A valid child would be spared and heavier. */
  lemma HeaviestChildrenFail(e: Env, s: State, x: Hash, c: Hash)
    requires Inv(e, s) && Invalidatable(s, x) && NoWrap(s.index) && HeaviestSpared(s, x, c)
    requires c !in s.candidates && HasChild(s.index, c)
    ensures Stranded(s, x, c)
  {
    hide Shape, EntryOk, Rooted, Closed, AcceptedPaths, Linked, IsAncestor, HasChild, NoWrap, Failing, StatusAfter;
    forall d | d in s.index && s.index[d].prev == Some(c)
      ensures Failing(s.index, x)[d].status.Failed()
    {
      FailingExact(s.index, x, d);
      WorkGrows(e.oracle, e.genesis, s.index, d);
      assert ValidBits(s.index[d].header.bits);
      assert s.index[d].work > s.index[c].work;
      assert !Spared(s, x, d);
    }
  }

  /** A block on the chain: every valid block that outweighs the new tip becomes a candidate. */
  lemma InvalidatedOnChain(e: Env, s: State, x: Hash)
    requires Inv(e, s) && Invalidatable(s, x) && NoWrap(s.index) && Ready(s) && x in s.chain
    ensures var c := ChainAfter(s, x); c != [] && c[|c| - 1] in s.index
    ensures Ready(Invalidated(s, x)) && Listed(Invalidated(s, x))
  {
    hide Shape, IndexInv, Linked, Failing, IsAncestor, ChainAfter, NoWrap, HasChild;
    InvalidatedInv(e, s, x);
    ChainSteps(e, s, x);
    var r := Invalidated(s, x);
    forall b | Valid(r.index, b) && r.index[b].work > r.index[Tip(r)].work
      ensures b in r.candidates
    {
      FailingExact(s.index, x, b);
      assert Valid(s.index, b) && b !in Descendants(s.index, x);
      OffChain(e, s, x, b);
    }
  }

  /** If every valid block heavier than the tip was a candidate, that still holds. */
  lemma InvalidatedListed(e: Env, s: State, x: Hash)
    requires Inv(e, s) && Invalidatable(s, x) && NoWrap(s.index)
    requires Ready(s) && Listed(s)
    ensures var c := ChainAfter(s, x); c != [] && c[|c| - 1] in s.index
    ensures Ready(Invalidated(s, x)) && Listed(Invalidated(s, x))
  {
    hide Shape, IndexInv, Linked, Failing, IsAncestor, ChainAfter, NoWrap, HasChild;
    InvalidatedInv(e, s, x);
    if x in s.chain {
      InvalidatedOnChain(e, s, x);
    } else {
      ChainSteps(e, s, x);
      var r := Invalidated(s, x);
      forall b | Valid(r.index, b) && r.index[b].work > r.index[Tip(r)].work
        ensures b in r.candidates
      {
        FailingExact(s.index, x, b);
        assert Valid(s.index, b) && b !in Descendants(s.index, x);
      }
    }
  }

  /** A valid block that does not descend from x but outweighs its parent is off the old chain. */
  lemma OffChain(e: Env, s: State, x: Hash, b: Hash)
    requires Inv(e, s) && Invalidatable(s, x) && NoWrap(s.index) && x in s.chain && b in s.index
    requires !IsAncestor(s.index, x, b) && s.index[b].work > s.index[s.index[x].prev.value].work
    ensures b !in s.chain
  {
    hide EntryOk, Rooted, Closed, AcceptedPaths, AllTree, NoWrap;
    if b in s.chain {
      var k, j := s.index[x].height, s.index[b].height;
      AncestorAtHeight(s.index, x, Tip(s));
      AncestorAtHeight(s.index, b, Tip(s));
      PathPrefix(s.index, Tip(s), j);
      if j < k {
        BelowIsLighter(e, s, j, k);
      }
    }
  }

  lemma BelowIsLighter(e: Env, s: State, j: nat, k: nat)
    requires Inv(e, s) && NoWrap(s.index) && j < k < |s.chain| && s.chain[k] in s.index && s.chain[j] in s.index
    ensures s.index[s.chain[k]].prev.Some? && s.index[s.chain[k]].prev.value in s.index
    ensures s.index[s.chain[j]].work <= s.index[s.index[s.chain[k]].prev.value].work
  {
    hide EntryOk, Rooted, Closed, AcceptedPaths, AllTree, NoWrap, Path, Linked;
    ParentOnPath(s.index, Tip(s), k);
    PathPrefix(s.index, Tip(s), k - 1);
    AncestorWork(e.oracle, e.genesis, s.index, s.chain[k - 1], j);
  }
}
