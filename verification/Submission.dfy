/** Accepting a header, with the orphans it promotes, and offering it as a candidate tip. */
module Submission {
  import opened Bits
  import opened Work
  import opened Primitives
  import opened Validation
  import opened BlockTree
  import opened SkipList
  import opened TreeGrowth
  import opened ActiveChain
  import opened Selector
  import opened Chainstate
  import opened Activation

  /**
   * One AcceptBlockHeader inserted hs: the submitted header first, then the orphans it promoted. An empty
   * hs stands for a header that was already known.
   */
  ghost predicate Submittable(e: Env, s: State, hs: seq<Header>, h: Hash, now: int)
  {
    && Linked(s.index) && Insertable(e, s.index, hs, now)
    && (hs == [] ==> h in s.index && !s.index[h].status.Failed())
    && (hs != [] ==> h == e.oracle.hash(hs[0]))
    && (|hs| > 1 ==> hs[1].prev == h)
  }

  /** AcceptBlockHeader followed by TryAddBlockIndexCandidate. */
  ghost function Submitted(e: Env, s: State, hs: seq<Header>, h: Hash, now: int): (r: State)
    requires Submittable(e, s, hs, h, now)
  {
    var idx' := InsertAll(e, s.index, hs, now);
    s.(index := idx', candidates := if h in idx' then Offered(idx', s.candidates, h) else s.candidates)
  }

  lemma ExtendsPath(idx: Index, idx': Index, h: Hash)
    requires Linked(idx) && Linked(idx') && Extends(idx, idx') && h in idx
    ensures Path(idx', h) == Path(idx, h)
  {
    hide Path, Linked;
    PathStable(idx, idx', h);
  }

  lemma SubmittedInv(e: Env, s: State, hs: seq<Header>, h: Hash, now: int)
    requires Inv(e, s) && Submittable(e, s, hs, h, now)
    ensures Inv(e, Submitted(e, s, hs, h, now))
    ensures h in Submitted(e, s, hs, h, now).index && Ready(Submitted(e, s, hs, h, now))
  {
    hide EntryOk, Rooted, AllTree, Closed, AcceptedPaths, Insertable, InsertAll, Linked, Path, HasChild;
    InsertAllInv(e, s.index, hs, now);
    ExtendsPath(s.index, InsertAll(e, s.index, hs, now), Tip(s));
  }

  // ---- Offering a leaf keeps the state covered ----

  lemma OfferedCovers(e: Env, s: State, h: Hash, x: Hash)
    requires Inv(e, s) && NoWrap(s.index) && h in s.index && x in s.candidates
    ensures exists c :: c in Offered(s.index, s.candidates, h) && c in s.index && s.index[c].work >= s.index[x].work
  {
    hide EntryOk, Rooted, AllTree, Closed, AcceptedPaths, Path, HasChild, NoWrap;
    if x !in Offered(s.index, s.candidates, h) {
      WorkGrows(e.oracle, e.genesis, s.index, h);
      assert h in Offered(s.index, s.candidates, h);
    } else {
      assert x in s.index;
    }
  }

  /** A new header without promoted orphans adds one leaf, which becomes a candidate. */
  lemma OneInserted(e: Env, s: State, hs: seq<Header>, h: Hash, now: int)
    requires Inv(e, s) && Submittable(e, s, hs, h, now) && |hs| == 1
    ensures var idx' := Submitted(e, s, hs, h, now).index;
            && idx'.Keys == s.index.Keys + {h} && Extends(s.index, idx') && h !in s.index
            && Valid(idx', h) && h in Submitted(e, s, hs, h, now).candidates
  {
    hide EntryOk, Rooted, AllTree, Closed, AcceptedPaths, Check, Inserted, Insertable, InsertAll, Linked, HasChild, Path;
    InsertOne(e, s.index, hs, now);
    FreshFacts(e, s.index, hs[0], now);
    FreshStatus(e.oracle, s.index, hs[0]);
    OneNew(e.oracle, s.index, hs[0]);
  }

  /** Offering a header that promoted no orphan keeps every heavier block covered. */
  lemma SubmittedCovered(e: Env, s: State, hs: seq<Header>, h: Hash, now: int)
    requires Inv(e, s) && Submittable(e, s, hs, h, now) && |hs| <= 1
    requires Ready(s) && Covered(s) && NoWrap(InsertAll(e, s.index, hs, now))
    ensures Ready(Submitted(e, s, hs, h, now)) && Covered(Submitted(e, s, hs, h, now))
  {
    hide Shape, IndexInv, Insertable, InsertAll, Linked, HasChild, NoWrap, Better, Offered;
    var r := Submitted(e, s, hs, h, now);
    SubmittedInv(e, s, hs, h, now);
    SubmittedExtends(e, s, hs, h, now);
    forall b | Valid(r.index, b) && r.index[b].work > r.index[Tip(r)].work
      ensures exists c :: c in r.candidates && r.index[c].work >= r.index[b].work
    {
      if hs != [] && b == h {
        OneInserted(e, s, hs, h, now);
      } else {
        assert Valid(s.index, b);
        var x :| x in s.candidates && s.index[x].work >= s.index[b].work;
        var mid := s.(index := r.index);
        StillInv(e, s, hs, h, now);
        OfferedCovers(e, mid, h, x);
      }
    }
  }

  lemma SubmittedExtends(e: Env, s: State, hs: seq<Header>, h: Hash, now: int)
    requires Inv(e, s) && Submittable(e, s, hs, h, now)
    ensures Extends(s.index, Submitted(e, s, hs, h, now).index)
    ensures |hs| == 0 ==> Submitted(e, s, hs, h, now).index == s.index
    ensures |hs| == 1 ==> Submitted(e, s, hs, h, now).index.Keys == s.index.Keys + {h}
    ensures Submitted(e, s, hs, h, now).chain == s.chain
  {
    hide Shape, IndexInv, Check, Inserted, Linked, Offered;
    InsertAllInv(e, s.index, hs, now);
    if |hs| == 1 {
      OneInserted(e, s, hs, h, now);
    }
  }

  /** Replacing only the index by the grown one keeps the invariant. */
  lemma StillInv(e: Env, s: State, hs: seq<Header>, h: Hash, now: int)
    requires Inv(e, s) && Submittable(e, s, hs, h, now)
    ensures Inv(e, s.(index := InsertAll(e, s.index, hs, now)))
  {
    hide EntryOk, Rooted, AllTree, Closed, AcceptedPaths, Insertable, InsertAll, Linked, Path;
    InsertAllInv(e, s.index, hs, now);
    ExtendsPath(s.index, InsertAll(e, s.index, hs, now), Tip(s));
  }

  /** What is offered has positive work, as the assertion before it demands. */
  lemma PositiveWork(e: Env, idx: Index, h: Hash)
    requires IndexInv(e, idx) && NoWrap(idx) && h in idx
    ensures idx[h].work > 0
  {
    hide Rooted, Closed, AcceptedPaths, NoWrap, Path, AddWork, GetSkipHeight;
    assert EntryOk(e.oracle, idx, h) && ValidBits(idx[h].header.bits);
    if idx[h].prev.Some? {
      WorkGrows(e.oracle, e.genesis, idx, h);
    }
  }

  // ---- Promoted orphans ----

  /** A header that promoted an orphan is no longer a leaf, so it is not offered. */
  lemma PromoterNotOffered(e: Env, s: State, hs: seq<Header>, h: Hash, now: int)
    requires Inv(e, s) && Submittable(e, s, hs, h, now) && |hs| > 1
    ensures Submitted(e, s, hs, h, now).candidates == s.candidates
  {
    hide Shape, IndexInv, Insertable, InsertAll, Linked;
    InsertAllAdds(e, s.index, hs, now);
    assert InsertAll(e, s.index, hs, now)[e.oracle.hash(hs[1])].prev == Some(h);
  }

  /** The work of every indexed block. */
  ghost function WorksOf(idx: Index): (works: map<Hash, nat>)
  {
    map h | h in idx :: idx[h].work
  }

  /** Adds the work of each header in turn: that of its parent plus its own proof. */
  function Weigh(o: Oracle, works: map<Hash, nat>, hs: seq<Header>): (r: map<Hash, nat>)
    ensures works.Keys <= r.Keys
    decreases hs
  {
    if hs == [] || hs[0].prev !in works then works
    else Weigh(o, works[o.hash(hs[0]) := AddWork(works[hs[0].prev], BlockProof(hs[0].bits))], hs[1..])
  }

  /** The works recorded by an accept are those computed from the parents' works and the headers alone. */
  lemma {:induction false} InsertAllWeighs(e: Env, idx: Index, hs: seq<Header>, now: int)
    requires Linked(idx) && Insertable(e, idx, hs, now)
    ensures WorksOf(InsertAll(e, idx, hs, now)) == Weigh(e.oracle, WorksOf(idx), hs)
    decreases hs
  {
    hide Check, Linked, AddWork, BlockProof;
    if hs != [] {
      InsertedWorks(e.oracle, idx, hs[0]);
      InsertAllWeighs(e, Inserted(e.oracle, idx, hs[0]), hs[1..], now);
    }
  }

  lemma InsertedWorks(o: Oracle, idx: Index, header: Header)
    requires Linked(idx) && header.prev in idx && o.hash(header) !in idx
    ensures WorksOf(Inserted(o, idx, header))
            == WorksOf(idx)[o.hash(header) := AddWork(WorksOf(idx)[header.prev], BlockProof(header.bits))]
  {
    hide Linked, Path, AddWork, BlockProof;
  }

  /** The new headers with more work than a given block of the index. */
  ghost function Outweighing(e: Env, idx: Index, hs: seq<Header>, work: nat): (r: set<Hash>)
  {
    var works := Weigh(e.oracle, WorksOf(idx), hs);
    set b | b in Hashes(e, hs) && b in works && works[b] > work
  }

  /**
   * Promoted orphans are indexed but never offered. So from a state whose tip is the best valid block,
   * a submission that promotes orphans never moves the tip, and the tip is still the best afterwards
   * exactly when none of the submitted headers, weighed from its parent's work, outweighs it.
   */
  lemma PromotionExact(e: Env, s: State, hs: seq<Header>, h: Hash, now: int)
    requires Inv(e, s) && AlwaysConnects(e)
    requires Ready(s) && TipIsBest(s) && Submittable(e, s, hs, h, now) && |hs| > 1
    ensures Ready(Submitted(e, s, hs, h, now))
    ensures var r := Activated(e, Submitted(e, s, hs, h, now));
            && Ready(r) && r.chain == s.chain && r.index.Keys == s.index.Keys + Hashes(e, hs)
            && (TipIsBest(r) <==> Outweighing(e, s.index, hs, s.index[Tip(s)].work) == {})
  {
    hide Shape, IndexInv, Insertable, InsertAll, Linked, Activated, Hashes, Weigh, WorksOf;
    var m := Submitted(e, s, hs, h, now);
    SubmittedInv(e, s, hs, h, now);
    PromoterNotOffered(e, s, hs, h, now);
    ActivatedKeeps(e, m);
    InsertAllInv(e, s.index, hs, now);
    InsertAllAdds(e, s.index, hs, now);
    CandidatesBelow(e, s);
    NothingOpen(e, m);
    NewBestExact(e, s, hs, now);
  }

  /** Without a candidate above the tip activation does nothing. */
  lemma NothingOpen(e: Env, s: State)
    requires Shape(e, s) && Ready(s) && forall c :: c in s.candidates ==> s.index[c].work <= s.index[Tip(s)].work
    ensures Activated(e, s) == s
  {
    hide Shape, Activated, Linked, Better;
    if s.candidates == {} {
      NoAttempt(e, s);
    } else {
      FirstMember(s.index, s.candidates);
      Attempt(e, s, First(s.index, s.candidates));
    }
  }

  /** After an accept a best block of the old index is still the best exactly if no new block outweighs it. */
  lemma NewBestExact(e: Env, s: State, hs: seq<Header>, now: int)
    requires Inv(e, s) && Ready(s) && TipIsBest(s) && Insertable(e, s.index, hs, now)
    ensures var idx' := InsertAll(e, s.index, hs, now);
            (forall b :: Valid(idx', b) ==> idx'[b].work <= s.index[Tip(s)].work)
            <==> Outweighing(e, s.index, hs, s.index[Tip(s)].work) == {}
  {
    hide Shape, IndexInv, Insertable, InsertAll, Linked, Hashes, Weigh;
    var idx' := InsertAll(e, s.index, hs, now);
    InsertAllInv(e, s.index, hs, now);
    InsertAllAdds(e, s.index, hs, now);
    InsertAllWeighs(e, s.index, hs, now);
    var over := Outweighing(e, s.index, hs, s.index[Tip(s)].work);
    forall b | b in Hashes(e, hs)
      ensures Valid(idx', b) && (b in over <==> idx'[b].work > s.index[Tip(s)].work)
    {
      assert WorksOf(idx')[b] == idx'[b].work;
    }
    forall b | Valid(idx', b) && b !in Hashes(e, hs)
      ensures idx'[b].work <= s.index[Tip(s)].work
    {
      assert Valid(s.index, b);
    }
    if over != {} {
      var b :| b in over;
      assert Valid(idx', b) && idx'[b].work > s.index[Tip(s)].work;
    }
  }

  /** Every new header with more work than the tip is matched by a candidate of at least its work. */
  ghost predicate Matched(e: Env, s: State, hs: seq<Header>)
    requires Ready(s)
  {
    var works := Weigh(e.oracle, WorksOf(s.index), hs);
    forall b :: b in Outweighing(e, s.index, hs, s.index[Tip(s)].work) ==>
                  exists c :: c in s.candidates && s.index[c].work >= works[b]
  }

  /**
   * Accepting and offering a header keeps every heavier block covered exactly when no orphan was promoted or the
   * candidates already match every new header.
   */
  lemma SubmittedExact(e: Env, s: State, hs: seq<Header>, h: Hash, now: int)
    requires Inv(e, s) && Submittable(e, s, hs, h, now)
    requires Ready(s) && Covered(s) && NoWrap(InsertAll(e, s.index, hs, now))
    ensures Ready(Submitted(e, s, hs, h, now))
    ensures Covered(Submitted(e, s, hs, h, now)) <==> |hs| <= 1 || Matched(e, s, hs)
  {
    hide Shape, IndexInv, Insertable, InsertAll, Linked, HasChild, NoWrap, Offered, Matched, Covered;
    SubmittedInv(e, s, hs, h, now);
    if |hs| <= 1 {
      SubmittedCovered(e, s, hs, h, now);
    } else {
      PromoterNotOffered(e, s, hs, h, now);
      MatchedExact(e, s, hs, now);
    }
  }

  /** Growing the index without touching the candidates. */
  lemma MatchedExact(e: Env, s: State, hs: seq<Header>, now: int)
    requires Inv(e, s) && Ready(s) && Covered(s) && Insertable(e, s.index, hs, now)
    ensures Ready(s.(index := InsertAll(e, s.index, hs, now)))
    ensures Covered(s.(index := InsertAll(e, s.index, hs, now))) <==> Matched(e, s, hs)
  {
    hide Shape, IndexInv, Insertable, InsertAll, Linked, Hashes, Weigh;
    var idx' := InsertAll(e, s.index, hs, now);
    InsertAllInv(e, s.index, hs, now);
    InsertAllAdds(e, s.index, hs, now);
    InsertAllWeighs(e, s.index, hs, now);
    var over := Outweighing(e, s.index, hs, s.index[Tip(s)].work);
    var works := Weigh(e.oracle, WorksOf(s.index), hs);
    forall b | b in idx'
      ensures b in works && works[b] == idx'[b].work
    {
      assert WorksOf(idx')[b] == idx'[b].work;
    }
    if Covered(s.(index := idx')) {
      forall b | b in over
        ensures exists c :: c in s.candidates && s.index[c].work >= works[b]
      {
        assert Valid(idx', b) && idx'[b].work > idx'[Tip(s)].work;
        var c :| c in s.candidates && idx'[c].work >= idx'[b].work;
        assert s.index[c].work >= works[b];
      }
    }
    if Matched(e, s, hs) {
      forall b | Valid(idx', b) && idx'[b].work > idx'[Tip(s)].work
        ensures exists c :: c in s.candidates && idx'[c].work >= idx'[b].work
      {
        if b in Hashes(e, hs) {
          assert b in over;
          var c :| c in s.candidates && s.index[c].work >= works[b];
          assert idx'[c].work >= idx'[b].work;
        } else {
          assert Valid(s.index, b);
          var c :| c in s.candidates && s.index[c].work >= s.index[b].work;
          assert idx'[c].work >= idx'[b].work;
        }
      }
    }
  }

  lemma CandidatesBelow(e: Env, s: State)
    requires Inv(e, s) && Ready(s) && TipIsBest(s)
    ensures forall c :: c in s.candidates ==> s.index[c].work <= s.index[Tip(s)].work
  {
    hide IndexInv, TreeInv, AllTree, Path;
  }
}
