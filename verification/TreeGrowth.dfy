/** How the block index grows: one entry at a time, below an indexed parent. */
module TreeGrowth {
  import opened Bits
  import opened Compact
  import opened Work
  import opened Primitives
  import opened BlockTree
  import opened SkipList
  import opened Validation
  import opened MedianTime

  function Max(a: nat, b: nat): (m: nat)
  {
    if a >= b then a else b
  }

  /** Addition of two arith_uint256. */
  function AddWork(a: nat, b: nat): (w: nat)
    ensures w < TWO_256
    ensures a + b < TWO_256 ==> w == a + b
  {
    (a + b) % TWO_256
  }

  /** Exactly one entry has no parent. */
  ghost predicate Rooted(idx: Index, g: Hash)
  {
    g in idx && forall h {:trigger idx[h].prev} :: h in idx ==> (idx[h].prev.None? <==> h == g)
  }

  /** An entry's derived fields are those of its header and its parent. */
  ghost predicate EntryOk(o: Oracle, idx: Index, h: Hash)
    requires Linked(idx) && h in idx
  {
    var b := idx[h];
    && o.hash(b.header) == h
    && match b.prev
       case None =>
         && b.header.prev == NULL_HASH && b.skip == None
         && b.work == BlockProof(b.header.bits) && b.timeMax == b.header.time
       case Some(p) =>
         && b.header.prev == p && p != NULL_HASH
         && b.skip == Some(Path(idx, h)[GetSkipHeight(b.height)])
         && b.work == AddWork(idx[p].work, BlockProof(b.header.bits))
         && b.timeMax == Max(idx[p].timeMax, b.header.time)
  }

  /** What AddToBlockIndex keeps: one rooted tree whose every entry is right. */
  ghost predicate TreeInv(o: Oracle, g: Hash, idx: Index)
  {
    Linked(idx) && Rooted(idx, g) && forall h {:trigger EntryOk(o, idx, h)} :: h in idx ==> EntryOk(o, idx, h)
  }

  /** The entry for a header whose parent is indexed. */
  ghost function NewBlock(idx: Index, header: Header): (b: Block)
    requires Linked(idx) && header.prev in idx
  {
    var p := idx[header.prev];
    Block(header, Some(header.prev), Some(Path(idx, header.prev)[GetSkipHeight(p.height + 1)]), p.height + 1,
          AddWork(p.work, BlockProof(header.bits)), Max(p.timeMax, header.time), Status(VALID_TREE, false, false))
  }

  ghost function Inserted(o: Oracle, idx: Index, header: Header): (r: Index)
    requires Linked(idx) && header.prev in idx && o.hash(header) !in idx
    ensures Linked(r) && SameLinks(idx, r)
  {
    hide BlockProof;
    idx[o.hash(header) := NewBlock(idx, header)]
  }

  /** The new block's path is its parent's path plus itself; other paths stay. */
  lemma InsertedPath(o: Oracle, idx: Index, header: Header)
    requires Linked(idx) && header.prev in idx && o.hash(header) !in idx
    ensures var idx' := Inserted(o, idx, header);
            && Linked(idx')
            && Path(idx', o.hash(header)) == Path(idx, header.prev) + [o.hash(header)]
            && Headers(idx', o.hash(header)) == Headers(idx, header.prev) + [header]
            && forall h :: h in idx ==> Path(idx', h) == Path(idx, h) && Headers(idx', h) == Headers(idx, h)
  {
    hide AddWork, BlockProof, Path, Headers, Linked;
    var idx' := Inserted(o, idx, header);
    forall h | h in idx
      ensures Path(idx', h) == Path(idx, h) && Headers(idx', h) == Headers(idx, h)
    {
      InsertedOther(o, idx, header, h);
    }
    InsertedOwn(o, idx, header);
  }

  lemma InsertedOther(o: Oracle, idx: Index, header: Header, h: Hash)
    requires Linked(idx) && header.prev in idx && o.hash(header) !in idx && h in idx
    ensures var idx' := Inserted(o, idx, header); Path(idx', h) == Path(idx, h) && Headers(idx', h) == Headers(idx, h)
  {
    hide AddWork, BlockProof, Path, Linked;
    var idx' := Inserted(o, idx, header);
    PathStable(idx, idx', h);
    assert Headers(idx', h) == Headers(idx, h);
  }

  lemma InsertedOwn(o: Oracle, idx: Index, header: Header)
    requires Linked(idx) && header.prev in idx && o.hash(header) !in idx
    ensures var idx' := Inserted(o, idx, header);
            var x := o.hash(header);
            && Path(idx', x) == Path(idx, header.prev) + [x] && Headers(idx', x) == Headers(idx, header.prev) + [header]
  {
    hide AddWork, BlockProof, Path, Linked;
    var idx', x := Inserted(o, idx, header), o.hash(header);
    InsertedOther(o, idx, header, header.prev);
    PathOfChild(idx', x);
    assert Headers(idx', x) == Headers(idx', header.prev) + [header];
  }

  lemma InsertedEntry(o: Oracle, g: Hash, idx: Index, header: Header, h: Hash)
    requires TreeInv(o, g, idx) && header.prev in idx && header.prev != NULL_HASH && o.hash(header) !in idx
    requires h == o.hash(header) || h in idx
    ensures Linked(Inserted(o, idx, header)) && EntryOk(o, Inserted(o, idx, header), h)
  {
    hide AddWork, BlockProof, GetSkipHeight, Path, Rooted;
    InsertedPath(o, idx, header);
    if h != o.hash(header) {
      assert EntryOk(o, idx, h);
    }
  }

  /** AddToBlockIndex keeps the tree invariant. */
  lemma InsertedInv(o: Oracle, g: Hash, idx: Index, header: Header)
    requires TreeInv(o, g, idx) && header.prev in idx && header.prev != NULL_HASH && o.hash(header) !in idx
    ensures TreeInv(o, g, Inserted(o, idx, header))
  {
    hide AddWork, BlockProof, GetSkipHeight, Path, EntryOk;
    forall h | h in Inserted(o, idx, header)
      ensures EntryOk(o, Inserted(o, idx, header), h)
    {
      InsertedEntry(o, g, idx, header, h);
    }
  }

  /** idx' differs from idx only in the status of entries. */
  ghost predicate SameButStatus(idx: Index, idx': Index)
  {
    && idx.Keys == idx'.Keys
    && forall h :: h in idx ==> idx'[h] == idx[h].(status := idx'[h].status)
  }

  lemma SetStatus(idx: Index, m: Hash, st: Status)
    requires m in idx
    ensures SameButStatus(idx, idx[m := idx[m].(status := st)])
  {
  }

  lemma RestatusInv(o: Oracle, g: Hash, idx: Index, idx': Index)
    requires TreeInv(o, g, idx) && SameButStatus(idx, idx')
    ensures TreeInv(o, g, idx')
    ensures forall h :: h in idx ==> Path(idx', h) == Path(idx, h) && Headers(idx', h) == Headers(idx, h)
  {
    hide AddWork, BlockProof, GetSkipHeight, Path, EntryOk, Headers;
    RestatusLinks(idx, idx');
    forall h | h in idx
      ensures EntryOk(o, idx', h) && Headers(idx', h) == Headers(idx, h)
    {
      RestatusEntry(o, g, idx, idx', h);
    }
  }

  lemma RestatusEntry(o: Oracle, g: Hash, idx: Index, idx': Index, h: Hash)
    requires TreeInv(o, g, idx) && SameButStatus(idx, idx') && h in idx
    ensures Linked(idx') && EntryOk(o, idx', h) && Headers(idx', h) == Headers(idx, h)
  {
    hide AddWork, BlockProof, GetSkipHeight, Path, Linked, Rooted;
    RestatusLinks(idx, idx');
    assert EntryOk(o, idx, h);
    assert idx'[h] == idx[h].(status := idx'[h].status);
    LinkedAt(idx, h);
    var p := Path(idx, h);
    assert Headers(idx', h) == Headers(idx, h) by {
      forall i | 0 <= i < |p|
        ensures idx'[p[i]].header == idx[p[i]].header
      {
      }
    }
  }

  lemma LinkedAt(idx: Index, h: Hash)
    requires Linked(idx) && h in idx
    ensures idx[h].prev.Some? ==> idx[h].prev.value in idx && idx[idx[h].prev.value].height == idx[h].height - 1
    ensures idx[h].prev.None? ==> idx[h].height == 0
  {
  }

  lemma RestatusLinked(idx: Index, idx': Index)
    requires Linked(idx) && SameButStatus(idx, idx')
    ensures Linked(idx')
  {
  }

  lemma RestatusLinks(idx: Index, idx': Index)
    requires Linked(idx) && SameButStatus(idx, idx')
    ensures Linked(idx')
    ensures forall h :: h in idx ==> Path(idx', h) == Path(idx, h)
  {
    forall h | h in idx
      ensures Path(idx', h) == Path(idx, h)
    {
      PathStable(idx, idx', h);
    }
  }

  /** Every path starts at the root. */
  lemma {:induction false} PathFromRoot(idx: Index, g: Hash, h: Hash)
    requires Linked(idx) && Rooted(idx, g) && h in idx
    ensures Path(idx, h)[0] == g
    decreases idx[h].height
  {
    if idx[h].prev.Some? {
      PathFromRoot(idx, g, idx[h].prev.value);
    }
  }

  lemma InvSkips(o: Oracle, g: Hash, idx: Index)
    requires TreeInv(o, g, idx)
    ensures SkipsCorrect(idx)
  {
    hide AddWork, BlockProof, GetSkipHeight, Path;
    forall h | h in idx && idx[h].skip.Some?
      ensures idx[h].height > 0 && idx[h].skip.value == Path(idx, h)[GetSkipHeight(idx[h].height)]
    {
      assert EntryOk(o, idx, h);
    }
  }

  // ---- Accepted paths ----

  /** Along every path each block met the difficulty and median-time rules when it was accepted. */
  ghost predicate AcceptedPaths(p: Params, idx: Index)
    requires Linked(idx)
  {
    forall h :: h in idx ==> AcceptedChain(p, Headers(idx, h))
  }

  lemma AcceptedGrows(p: Params, hs: seq<Header>, h: Header, now: int)
    requires AcceptedChain(p, hs) && ContextualCheck(p, hs, h, now) == None
    ensures AcceptedChain(p, hs + [h])
  {
    hide NextWorkRequired, MedianTimePast, Times;
    var e := hs + [h];
    forall i | 1 <= i < |e|
      ensures NextWorkRequired(p, e[..i]) == Some(e[i].bits) && e[i].time > MedianTimePast(Times(e[..i]))
    {
      if i < |hs| {
        assert e[..i] == hs[..i];
      } else {
        assert e[..i] == hs;
      }
    }
  }

  lemma InsertedAccepted(p: Params, o: Oracle, idx: Index, header: Header, now: int)
    requires Linked(idx) && AcceptedPaths(p, idx) && header.prev in idx && o.hash(header) !in idx
    requires ContextualCheck(p, Headers(idx, header.prev), header, now) == None
    ensures Linked(Inserted(o, idx, header)) && AcceptedPaths(p, Inserted(o, idx, header))
  {
    hide ContextualCheck, AcceptedChain, Path, Headers, BlockProof;
    InsertedPath(o, idx, header);
    AcceptedGrows(p, Headers(idx, header.prev), header, now);
  }

  // ---- Work ----

  /** No sum of parent work and proof reached 2^256. */
  ghost predicate NoWrap(idx: Index)
    requires Linked(idx)
  {
    forall h {:trigger idx[h].prev} :: h in idx && idx[h].prev.Some? ==>
                  idx[idx[h].prev.value].work + BlockProof(idx[h].header.bits) < TWO_256
  }

  /** Without wrap-around the work of a block is that of its parent plus its own proof. */
  lemma WorkGrows(o: Oracle, g: Hash, idx: Index, h: Hash)
    requires TreeInv(o, g, idx) && NoWrap(idx) && h in idx && idx[h].prev.Some?
    ensures idx[h].work == idx[idx[h].prev.value].work + BlockProof(idx[h].header.bits)
  {
    hide AddWork, BlockProof, GetSkipHeight, Path;
    assert EntryOk(o, idx, h);
  }

  lemma {:induction false} AncestorWork(o: Oracle, g: Hash, idx: Index, h: Hash, i: nat)
    requires TreeInv(o, g, idx) && NoWrap(idx) && h in idx && i <= idx[h].height
    ensures idx[Path(idx, h)[i]].work <= idx[h].work
    decreases idx[h].height
  {
    hide AddWork, BlockProof, EntryOk, NoWrap;
    if i < idx[h].height {
      WorkGrows(o, g, idx, h);
      AncestorWork(o, g, idx, idx[h].prev.value, i);
    }
  }
}
