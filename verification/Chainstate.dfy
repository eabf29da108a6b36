/** The chain state as a value, and what each public operation does to it. */
module Chainstate {
  import opened Bits
  import opened Compact
  import opened Work
  import opened Primitives
  import opened Validation
  import opened MedianTime
  import opened BlockTree
  import opened SkipList
  import opened TreeGrowth
  import opened ActiveChain
  import opened Selector

  /** What a node is configured with. `connects` is the verdict of ConnectTip, always true in the shipped node. */
  datatype Env = Env(oracle: Oracle, params: Params, genesis: Hash, connects: Hash -> bool)

  datatype State = State(index: Index, chain: seq<Hash>, candidates: set<Hash>, failed: set<Hash>)

  function Tip(s: State): (t: Hash)
    requires s.chain != []
  {
    s.chain[|s.chain| - 1]
  }

  predicate Valid(idx: Index, h: Hash)
  {
    h in idx && idx[h].status.IsValid()
  }

  // ---- Invariants ----

  /** Every entry passed header validation and its bits decode. */
  ghost predicate AllTree(idx: Index)
  {
    forall h {:trigger idx[h].status} {:trigger idx[h].header} :: h in idx ==> idx[h].status.level == VALID_TREE && ValidBits(idx[h].header.bits)
  }

  /** Failure is closed under descendants. */
  ghost predicate Closed(idx: Index)
    requires Linked(idx)
  {
    forall h {:trigger idx[h].prev} :: h in idx && idx[h].prev.Some? && idx[idx[h].prev.value].status.Failed() ==> idx[h].status.Failed()
  }

  /** The active chain is the path to a valid tip, and the candidates are valid blocks of the index. */
  ghost predicate Shape(e: Env, s: State)
  {
    && TreeInv(e.oracle, e.genesis, s.index)
    && AllTree(s.index)
    && s.chain != [] && Valid(s.index, Tip(s)) && s.chain == Path(s.index, Tip(s))
    && (forall c :: c in s.candidates ==> Valid(s.index, c))
    && forall i :: 1 <= i < |s.chain| ==> e.connects(s.chain[i])
  }

  ghost predicate Inv(e: Env, s: State)
  {
    Shape(e, s) && IndexInv(e, s.index)
  }

  /** No block with a failed ancestor is valid; in particular no failed block is on the active chain. */
  lemma {:induction false} ValidAncestors(idx: Index, h: Hash, i: nat)
    requires Linked(idx) && Closed(idx) && h in idx && !idx[h].status.Failed() && i <= idx[h].height
    ensures !idx[Path(idx, h)[i]].status.Failed()
    decreases idx[h].height
  {
    if i < idx[h].height {
      ParentPath(idx, h);
      ValidAncestors(idx, idx[h].prev.value, i);
    }
  }

  // ---- Accepting headers ----

  datatype Verdict = Known | Rejected(reason: Reject) | Fresh

  /** AcceptBlockHeader up to the point where the header is inserted. */
  ghost function Check(e: Env, idx: Index, header: Header, now: int, minPowChecked: bool): (v: Verdict)
    requires Linked(idx)
    ensures v == Fresh ==> header.prev in idx && e.oracle.hash(header) !in idx
  {
    var hash := e.oracle.hash(header);
    if hash in idx then
      if idx[hash].status.Failed() then Rejected(Duplicate) else Known
    else if !CommitmentPow(e.oracle, header) then Rejected(HighHash)
    else if header.prev == NULL_HASH then
      Rejected(if hash != e.params.genesisHash then BadGenesis else GenesisViaAccept)
    else if header.prev !in idx then Rejected(PrevNotFound)
    else if idx[header.prev].status.Failed() then Rejected(BadPrev)
    else
      match ContextualCheck(e.params, Headers(idx, header.prev), header, now)
      case Some(reason) => Rejected(reason)
      case None =>
        if !FullPow(e.oracle, header) then Rejected(HighHash)
        else if !minPowChecked then Rejected(TooLittleChainwork)
        else Fresh
  }

  /** Each header is fresh at its turn. */
  ghost predicate Insertable(e: Env, idx: Index, hs: seq<Header>, now: int)
    requires Linked(idx)
    decreases hs
  {
    hide Check, Inserted;
    hs == []
    || (Check(e, idx, hs[0], now, true) == Fresh && Insertable(e, Inserted(e.oracle, idx, hs[0]), hs[1..], now))
  }

  ghost function InsertAll(e: Env, idx: Index, hs: seq<Header>, now: int): (r: Index)
    requires Linked(idx) && Insertable(e, idx, hs, now)
    ensures Linked(r)
    decreases hs
  {
    hide Check, Inserted;
    if hs == [] then idx
    else
      InsertAll(e, Inserted(e.oracle, idx, hs[0]), hs[1..], now)
  }

  /** idx' keeps every entry of idx as it was. */
  ghost predicate Extends(idx: Index, idx': Index)
  {
    forall h {:trigger idx[h]} {:trigger idx'[h]} :: h in idx ==> h in idx' && idx'[h] == idx[h]
  }

  /** What a fresh header has passed. */
  lemma FreshFacts(e: Env, idx: Index, header: Header, now: int)
    requires Linked(idx) && Check(e, idx, header, now, true) == Fresh
    ensures header.prev in idx && header.prev != NULL_HASH && !idx[header.prev].status.Failed()
    ensures e.oracle.hash(header) !in idx && ValidBits(header.bits)
    ensures ContextualCheck(e.params, Headers(idx, header.prev), header, now) == None
  {
    hide ContextualCheck, Headers, ValidBits, Linked;
  }

  /** A header is fresh exactly if it is new, has both proofs of work and a sound parent, and fits the chain to that parent. */
  lemma FreshExactly(e: Env, idx: Index, header: Header, now: int)
    requires Linked(idx)
    ensures Check(e, idx, header, now, true) == Fresh <==>
            && e.oracle.hash(header) !in idx && header.prev != NULL_HASH && header.prev in idx && !idx[header.prev].status.Failed()
            && ValidBits(header.bits) && e.oracle.commitmentOk(header) && e.oracle.randomxOk(header)
            && NextWorkRequired(e.params, Headers(idx, header.prev)) == Some(header.bits)
            && header.time > MedianTimePast(Times(Headers(idx, header.prev))) && header.time <= now + 7200
            && header.version >= 1 && !(0 < e.params.expirationInterval <= idx[header.prev].height + 1)
  {
    hide Headers, ValidBits, Linked, NextWorkRequired, MedianTimePast;
  }

  /** What every indexed block but the genesis has passed beyond what its path shows. */
  ghost predicate VettedAt(e: Env, idx: Index, h: Hash)
    requires h in idx
  {
    var x := idx[h].header;
    && e.oracle.commitmentOk(x) && e.oracle.randomxOk(x) && x.version >= 1
    && !(0 < e.params.expirationInterval <= idx[h].height)
  }

  ghost predicate Vetted(e: Env, idx: Index)
  {
    forall h :: h in idx && h != e.genesis ==> VettedAt(e, idx, h)
  }

  lemma FreshVetted(e: Env, idx: Index, header: Header, now: int)
    requires Linked(idx) && Vetted(e, idx) && Check(e, idx, header, now, true) == Fresh
    ensures Vetted(e, Inserted(e.oracle, idx, header))
  {
    hide Headers, ValidBits, Linked, NextWorkRequired, MedianTimePast, Path, AddWork, BlockProof, Check;
    FreshExactly(e, idx, header, now);
    var idx' := Inserted(e.oracle, idx, header);
    forall h | h in idx' && h != e.genesis
      ensures VettedAt(e, idx', h)
    {
      if h in idx {
        assert VettedAt(e, idx, h);
      }
    }
  }

  lemma {:induction false} InsertAllVetted(e: Env, idx: Index, hs: seq<Header>, now: int)
    requires Linked(idx) && Vetted(e, idx) && Insertable(e, idx, hs, now)
    ensures Vetted(e, InsertAll(e, idx, hs, now))
    decreases hs
  {
    hide Check, Inserted, Linked, Vetted;
    if hs != [] {
      FreshVetted(e, idx, hs[0], now);
      InsertAllVetted(e, Inserted(e.oracle, idx, hs[0]), hs[1..], now);
    }
  }

  lemma RestatusVetted(e: Env, idx: Index, idx': Index)
    requires Vetted(e, idx) && SameButStatus(idx, idx')
    ensures Vetted(e, idx')
  {
    forall h | h in idx' && h != e.genesis
      ensures VettedAt(e, idx', h)
    {
      assert VettedAt(e, idx, h);
    }
  }

  /** The part of the invariant that speaks of the index alone. */
  ghost predicate IndexInv(e: Env, idx: Index)
  {
    TreeInv(e.oracle, e.genesis, idx) && AllTree(idx) && Closed(idx) && AcceptedPaths(e.params, idx)
  }

  lemma FreshInserts(e: Env, idx: Index, header: Header, now: int)
    requires IndexInv(e, idx) && Check(e, idx, header, now, true) == Fresh
    ensures IndexInv(e, Inserted(e.oracle, idx, header))
  {
    hide ContextualCheck, AcceptedPaths, Check, Inserted, EntryOk, Rooted, AllTree, Closed;
    FreshFacts(e, idx, header, now);
    InsertedInv(e.oracle, e.genesis, idx, header);
    InsertedAccepted(e.params, e.oracle, idx, header, now);
    FreshStatus(e.oracle, idx, header);
  }

  /** Inserting below a sound parent keeps failure closed; the new block is a valid leaf. */
  lemma FreshStatus(o: Oracle, idx: Index, header: Header)
    requires Linked(idx) && AllTree(idx) && ValidBits(header.bits)
    requires header.prev in idx && o.hash(header) !in idx && !idx[header.prev].status.Failed()
    ensures var idx' := Inserted(o, idx, header);
            && AllTree(idx') && (Closed(idx) ==> Closed(idx')) && Extends(idx, idx')
            && Valid(idx', o.hash(header)) && !HasChild(idx', o.hash(header))
            && idx'[o.hash(header)].prev == Some(header.prev) && idx'[o.hash(header)].header == header
  {
    hide Path, ValidBits, AddWork, BlockProof, Closed, AllTree, Inserted, Linked;
    FreshEntry(o, idx, header);
    FreshFlags(o, idx, header);
  }

  lemma FreshEntry(o: Oracle, idx: Index, header: Header)
    requires Linked(idx) && header.prev in idx && o.hash(header) !in idx
    ensures var idx' := Inserted(o, idx, header);
            && Extends(idx, idx') && Valid(idx', o.hash(header)) && !HasChild(idx', o.hash(header))
            && idx'[o.hash(header)].prev == Some(header.prev) && idx'[o.hash(header)].header == header
  {
    hide Path, AddWork, BlockProof;
  }

  lemma FreshFlags(o: Oracle, idx: Index, header: Header)
    requires Linked(idx) && AllTree(idx) && ValidBits(header.bits)
    requires header.prev in idx && o.hash(header) !in idx && !idx[header.prev].status.Failed()
    ensures AllTree(Inserted(o, idx, header)) && (Closed(idx) ==> Closed(Inserted(o, idx, header)))
  {
    hide Path, ValidBits, AddWork, BlockProof;
  }

  lemma {:induction false} InsertAllInv(e: Env, idx: Index, hs: seq<Header>, now: int)
    requires IndexInv(e, idx) && Insertable(e, idx, hs, now)
    ensures var idx' := InsertAll(e, idx, hs, now);
            && IndexInv(e, idx') && Extends(idx, idx')
            && (forall h :: h in idx' && h !in idx ==> idx'[h].status.IsValid())
            && (hs != [] ==> e.oracle.hash(hs[0]) in idx')
    decreases hs
  {
    hide EntryOk, Rooted, AllTree, Closed, AcceptedPaths, Inserted, Check, Linked;
    if hs != [] {
      FreshInserts(e, idx, hs[0], now);
      FreshFacts(e, idx, hs[0], now);
      FreshStatus(e.oracle, idx, hs[0]);
      var idx1 := Inserted(e.oracle, idx, hs[0]);
      InsertAllInv(e, idx1, hs[1..], now);
      OneNew(e.oracle, idx, hs[0]);
    }
  }

  lemma OneNew(o: Oracle, idx: Index, header: Header)
    requires Linked(idx) && header.prev in idx && o.hash(header) !in idx
    ensures Inserted(o, idx, header).Keys == idx.Keys + {o.hash(header)}
  {
    hide Path, AddWork, BlockProof;
  }

  lemma InsertOne(e: Env, idx: Index, hs: seq<Header>, now: int)
    requires Linked(idx) && Insertable(e, idx, hs, now) && |hs| == 1
    ensures Check(e, idx, hs[0], now, true) == Fresh
    ensures InsertAll(e, idx, hs, now) == Inserted(e.oracle, idx, hs[0])
  {
    hide Check, Inserted, Linked;
    assert hs[1..] == [];
  }

  ghost function Hashes(e: Env, hs: seq<Header>): (r: set<Hash>)
  {
    set i | 0 <= i < |hs| :: e.oracle.hash(hs[i])
  }

  ghost function HashesOf(o: Oracle, c: seq<Header>): (hs: seq<Hash>)
    ensures |hs| == |c| && forall i :: 0 <= i < |c| ==> hs[i] == o.hash(c[i])
  {
    seq(|c|, i requires 0 <= i < |c| => o.hash(c[i]))
  }

  /** The entries InsertAll adds are those of its headers, below their parents. */
  lemma {:induction false} InsertAllAdds(e: Env, idx: Index, hs: seq<Header>, now: int)
    requires IndexInv(e, idx) && Insertable(e, idx, hs, now)
    ensures var idx' := InsertAll(e, idx, hs, now);
            && idx'.Keys == idx.Keys + Hashes(e, hs) && idx.Keys !! Hashes(e, hs)
            && forall i :: 0 <= i < |hs| ==>
                             && e.oracle.hash(hs[i]) in idx' && idx'[e.oracle.hash(hs[i])].prev == Some(hs[i].prev)
                             && idx'[e.oracle.hash(hs[i])].header == hs[i]
    decreases hs
  {
    hide EntryOk, Rooted, AllTree, Closed, AcceptedPaths, Inserted, Check, Linked;
    if hs != [] {
      var idx1, rest := Inserted(e.oracle, idx, hs[0]), hs[1..];
      FreshInserts(e, idx, hs[0], now);
      FreshFacts(e, idx, hs[0], now);
      FreshStatus(e.oracle, idx, hs[0]);
      OneNew(e.oracle, idx, hs[0]);
      InsertAllAdds(e, idx1, rest, now);
      InsertAllInv(e, idx1, rest, now);
      HashesTail(e, hs);
      forall i | 0 <= i < |hs|
        ensures e.oracle.hash(hs[i]) in InsertAll(e, idx, hs, now)
        ensures InsertAll(e, idx, hs, now)[e.oracle.hash(hs[i])].prev == Some(hs[i].prev)
        ensures InsertAll(e, idx, hs, now)[e.oracle.hash(hs[i])].header == hs[i]
      {
        if i > 0 {
          assert hs[i] == rest[i - 1];
        } else {
          assert idx1[e.oracle.hash(hs[0])].prev == Some(hs[0].prev);
        }
      }
    }
  }

  lemma HashesTail(e: Env, hs: seq<Header>)
    requires hs != []
    ensures Hashes(e, hs) == {e.oracle.hash(hs[0])} + Hashes(e, hs[1..])
  {
    var rest := hs[1..];
    forall x | x in Hashes(e, hs)
      ensures x in {e.oracle.hash(hs[0])} + Hashes(e, rest)
    {
      var i :| 0 <= i < |hs| && x == e.oracle.hash(hs[i]);
      if i > 0 {
        assert rest[i - 1] == hs[i];
      }
    }
    forall x | x in Hashes(e, rest)
      ensures x in Hashes(e, hs)
    {
      var i :| 0 <= i < |rest| && x == e.oracle.hash(rest[i]);
      assert hs[i + 1] == rest[i];
    }
  }
}
