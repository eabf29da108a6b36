/** Saving the block index as a list of records and loading it back. */
module Persist {
  import opened Bits
  import opened Compact
  import opened Work
  import opened Primitives
  import opened BlockTree
  import opened SkipList
  import opened TreeGrowth
  import opened ActiveChain
  import opened Chainstate
  import opened Bytes
  import opened Blocks
  import opened Runs

  datatype Record = Record(
    hash: string, prev: string, version: Int32, miner: string, time: Word, bits: Word, nonce: Word, randomx: string,
    height: int, chainwork: string, status: Status)

  datatype File = File(version: int, blockCount: nat, tipHash: string, genesisHash: string, blocks: seq<Record>)

  // ---- Text of the fixed-width numbers ----

  ghost function HashHex(h: Hash): (s: string)
  {
    HexText(BeBytes(h, 32))
  }

  ghost function HexHash(s: string): (h: Hash)
  {
    BeInjective(HexBytes(s, 32));
    Pow256Of32();
    BeVal(HexBytes(s, 32))
  }

  ghost function MinerHex(m: Hash160): (s: string)
  {
    HexText(BeBytes(m, 20))
  }

  ghost function HexMiner(s: string): (m: Hash160)
  {
    BeInjective(HexBytes(s, 20));
    Pow256Of20();
    BeVal(HexBytes(s, 20))
  }

  /** Work prints its little-endian bytes. */
  ghost function WorkHex(w: nat): (s: string)
  {
    HexText(LeBytes(w, 32))
  }

  ghost function HexWork(s: string): (w: nat)
    ensures w < TWO_256
  {
    LeInjective(HexBytes(s, 32));
    Pow256Of32();
    LeVal(HexBytes(s, 32))
  }

  lemma HexInverse(h: Hash, m: Hash160, w: nat)
    requires w < TWO_256
    ensures HexHash(HashHex(h)) == h && HexMiner(MinerHex(m)) == m && HexWork(WorkHex(w)) == w
  {
    hide HexText, HexBytes, BeBytes, BeVal, LeBytes, LeVal, Pow256;
    Pow256Of32();
    Pow256Of20();
    HexRoundTrip(BeBytes(h, 32));
    HexRoundTrip(BeBytes(m, 20));
    HexRoundTrip(LeBytes(w, 32));
    BeRoundTrip(h, 32);
    BeRoundTrip(m, 20);
    LeRoundTrip(w, 32);
  }

  method WriteHash(h: Hash) returns (s: string)
    ensures s == HashHex(h)
  {
    hide HexText;
    s := WriteBytes(BeBytes(h, 32));
  }

  method WriteBytes(bytes: seq<Byte>) returns (s: string)
    ensures s == HexText(bytes)
  {
    hide HexText;
    var blob := new BaseBlob(|bytes|);
    for i := 0 to |bytes|
      invariant fresh(blob.data) && forall j :: 0 <= j < i ==> blob.data[j] == bytes[j]
    {
      blob.data[i] := bytes[i];
    }
    assert blob.data[..] == bytes;
    s := blob.GetHex();
  }

  method ReadBytes(s: string, width: nat) returns (bytes: seq<Byte>)
    ensures bytes == HexBytes(s, width)
  {
    hide HexBytes;
    var blob := new BaseBlob(width);
    blob.SetHex(s);
    return blob.data[..];
  }

  method ReadHash(s: string) returns (h: Hash)
    ensures h == HexHash(s)
  {
    hide HexBytes, BeVal, Pow256;
    var bytes := ReadBytes(s, 32);
    BeInjective(bytes);
    Pow256Of32();
    return BeVal(bytes);
  }

  // ---- Records ----

  /** The record Save writes for h; the parent hash is taken from the parent pointer. */
  ghost function RecordOf(idx: Index, h: Hash): (r: Record)
    requires h in idx
  {
    var b := idx[h];
    Record(HashHex(h), HashHex(if b.prev.Some? then b.prev.value else NULL_HASH), b.header.version, MinerHex(b.header.miner),
           b.header.time, b.header.bits, b.header.nonce, HashHex(b.header.randomx), b.height, WorkHex(b.work), b.status)
  }

  ghost function HeaderOf(r: Record): (h: Header)
  {
    Header(r.version, HexHash(r.prev), HexMiner(r.miner), r.time, r.bits, r.nonce, HexHash(r.randomx))
  }

  /** Reading a written record gives back the hash, the header and the work. */
  lemma RecordRoundTrip(o: Oracle, g: Hash, idx: Index, h: Hash)
    requires TreeInv(o, g, idx) && h in idx && idx[h].work < TWO_256
    ensures var r := RecordOf(idx, h);
            && HexHash(r.hash) == h && HeaderOf(r) == idx[h].header && HexWork(r.chainwork) == idx[h].work
            && o.hash(HeaderOf(r)) == h
  {
    hide HashHex, HexHash, MinerHex, HexMiner, WorkHex, HexWork, Path, AddWork, BlockProof;
    var b := idx[h];
    assert EntryOk(o, idx, h);
    HexInverse(h, b.header.miner, b.work);
    HexInverse(b.header.prev, 0, 0);
    HexInverse(b.header.randomx, 0, 0);
  }

  lemma WorkBound(o: Oracle, g: Hash, idx: Index, h: Hash)
    requires TreeInv(o, g, idx) && h in idx
    ensures idx[h].work < TWO_256
  {
    hide BlockProof, AddWork, Path;
    assert EntryOk(o, idx, h);
  }

  // ---- Save ----

  /** order lists every block once, by height. */
  ghost predicate Listing(idx: Index, order: seq<Hash>)
  {
    && (forall i :: 0 <= i < |order| ==> order[i] in idx)
    && (forall h :: h in idx ==> h in order)
    && (forall i, j :: 0 <= i < j < |order| ==> order[i] != order[j] && idx[order[i]].height <= idx[order[j]].height)
  }

  method ByHeight(idx: Index) returns (order: seq<Hash>)
    ensures Listing(idx, order)
  {
    hide Ascending, Listing;
    order := [];
    var rest := idx.Keys;
    AscendingStarts(idx);
    while rest != {}
      invariant rest <= idx.Keys && Ascending(idx, order, rest)
      decreases |rest|
    {
      var low := Lowest(idx, rest);
      AscendingMore(idx, order, rest, low);
      order := order + [low];
      rest := rest - {low};
    }
    AscendingEnds(idx, order);
  }

  /** order lists the entries outside rest by height, none above any entry of rest. */
  ghost predicate Ascending(idx: Index, order: seq<Hash>, rest: set<Hash>)
  {
    && (forall h :: h in order <==> h in idx && h !in rest)
    && (forall i, j :: 0 <= i < j < |order| ==> order[i] != order[j] && idx[order[i]].height <= idx[order[j]].height)
    && forall i, h :: 0 <= i < |order| && h in rest && h in idx ==> idx[order[i]].height <= idx[h].height
  }

  lemma AscendingStarts(idx: Index)
    ensures Ascending(idx, [], idx.Keys)
  {
  }

  lemma AscendingMore(idx: Index, order: seq<Hash>, rest: set<Hash>, low: Hash)
    requires rest <= idx.Keys && Ascending(idx, order, rest) && low in rest
    requires forall h :: h in rest ==> idx[low].height <= idx[h].height
    ensures Ascending(idx, order + [low], rest - {low})
  {
  }

  lemma AscendingEnds(idx: Index, order: seq<Hash>)
    requires Ascending(idx, order, {})
    ensures Listing(idx, order)
  {
  }

  method Lowest(idx: Index, s: set<Hash>) returns (low: Hash)
    requires s != {} && s <= idx.Keys
    ensures low in s && forall h :: h in s ==> idx[low].height <= idx[h].height
  {
    low :| low in s;
    var rest := s - {low};
    while rest != {}
      invariant rest <= s && low in s && forall h :: h in s && h !in rest ==> idx[low].height <= idx[h].height
      decreases |rest|
    {
      var h :| h in rest;
      rest := rest - {h};
      if idx[h].height < idx[low].height {
        low := h;
      }
    }
  }

  /** Save: one record per block, in height order, after the tip and genesis hashes. */
  method Save(idx: Index, tip: Option<Hash>, genesis: Hash) returns (file: File, ghost order: seq<Hash>)
    ensures Listing(idx, order) && SavedAs(idx, genesis, order, file)
    ensures file.tipHash == if tip.Some? then HashHex(tip.value) else ""
  {
    hide HashHex, RecordOf;
    var tipHash := "";
    if tip.Some? {
      tipHash := WriteHash(tip.value);
    }
    var genesisHash := WriteHash(genesis);
    var sorted := ByHeight(idx);
    var blocks: seq<Record> := [];
    for i := 0 to |sorted|
      invariant |blocks| == i && forall j :: 0 <= j < i ==> blocks[j] == RecordOf(idx, sorted[j])
    {
      var r := WriteRecord(idx, sorted[i]);
      blocks := blocks + [r];
    }
    return File(1, |idx|, tipHash, genesisHash, blocks), sorted;
  }

  ghost predicate SavedAs(idx: Index, genesis: Hash, order: seq<Hash>, file: File)
    requires Listing(idx, order)
  {
    && file.version == 1 && file.blockCount == |idx| && file.genesisHash == HashHex(genesis)
    && |file.blocks| == |order| && forall i :: 0 <= i < |order| ==> file.blocks[i] == RecordOf(idx, order[i])
  }

  method WriteRecord(idx: Index, h: Hash) returns (r: Record)
    requires h in idx
    ensures r == RecordOf(idx, h)
  {
    hide HexText, BeBytes, LeBytes;
    var b := idx[h];
    var hash := WriteHash(h);
    var miner := WriteBytes(BeBytes(b.header.miner, 20));
    var randomx := WriteHash(b.header.randomx);
    var work := WriteBytes(LeBytes(b.work, 32));
    var prev := WriteHash(if b.prev.Some? then b.prev.value else NULL_HASH);
    return Record(hash, prev, b.header.version, miner, b.header.time, b.header.bits, b.header.nonce, randomx,
                  b.height, work, b.status);
  }

  // ---- What a list of records denotes ----

  ghost function RecordHash(blocks: seq<Record>, i: nat): (h: Hash)
    requires i < |blocks|
  {
    HexHash(blocks[i].hash)
  }

  /** Hashes match the headers, heights are not negative and no block appears twice. */
  ghost predicate Sound(o: Oracle, blocks: seq<Record>)
  {
    && (forall i :: 0 <= i < |blocks| ==> blocks[i].height >= 0 && o.hash(HeaderOf(blocks[i])) == RecordHash(blocks, i))
    && forall i, j :: 0 <= i < j < |blocks| ==> RecordHash(blocks, i) != RecordHash(blocks, j)
  }

  /** The entry holds what the record says; parent, skip pointer and running maximum are not recorded. */
  ghost predicate Restores(r: Record, b: Block)
  {
    b.header == HeaderOf(r) && b.height == r.height && b.work == HexWork(r.chainwork) && b.status == r.status
  }

  ghost predicate Restored(blocks: seq<Record>, idx: Index)
  {
    && (forall i :: 0 <= i < |blocks| ==> RecordHash(blocks, i) in idx && Restores(blocks[i], idx[RecordHash(blocks, i)]))
    && forall h :: h in idx ==> exists i :: 0 <= i < |blocks| && RecordHash(blocks, i) == h
  }

  /** Parents come from the header; null means none. */
  ghost predicate Parented(idx: Index)
  {
    forall h {:trigger idx[h].prev} :: h in idx ==>
      idx[h].prev == if idx[h].header.prev == NULL_HASH then None else Some(idx[h].header.prev)
  }

  ghost predicate DerivedAt(idx: Index, h: Hash)
    requires Linked(idx) && h in idx
  {
    match idx[h].prev
    case None => idx[h].skip == None && idx[h].timeMax == idx[h].header.time
    case Some(p) =>
      && idx[h].skip == Some(Path(idx, h)[GetSkipHeight(idx[h].height)])
      && idx[h].timeMax == Max(idx[p].timeMax, idx[h].header.time)
  }

  /** Skip pointers and running maxima are those of the tree. */
  ghost predicate Derived(idx: Index)
    requires Linked(idx)
  {
    forall h {:trigger DerivedAt(idx, h)} :: h in idx ==> DerivedAt(idx, h)
  }

  /** idx is the tree the records describe. */
  ghost predicate Describes(o: Oracle, g: Hash, blocks: seq<Record>, idx: Index)
  {
    && Sound(o, blocks) && Restored(blocks, idx) && Parented(idx)
    && Linked(idx) && Rooted(idx, g) && Derived(idx)
  }

  /** What Save writes for a tree describes that tree. */
  lemma SavedDescribes(o: Oracle, g: Hash, idx: Index, order: seq<Hash>, file: File)
    requires TreeInv(o, g, idx) && Listing(idx, order) && SavedAs(idx, g, order, file)
    ensures Describes(o, g, file.blocks, idx)
  {
    hide EntryOk, Sound, Restored, Derived, Parented, Rooted, SavedAs, Listing;
    SavedRecords(o, g, idx, order, file);
    SavedSound(o, idx, order, file.blocks);
    SavedRestored(o, idx, order, file.blocks);
    TreeDerived(o, g, idx);
  }

  /** Record i is that of the i-th listed block. */
  ghost predicate Matches(o: Oracle, idx: Index, order: seq<Hash>, blocks: seq<Record>)
  {
    && |blocks| == |order|
    && forall i :: 0 <= i < |order| ==>
                     && RecordHash(blocks, i) == order[i] && order[i] in idx && Restores(blocks[i], idx[order[i]])
                     && blocks[i].height >= 0 && o.hash(HeaderOf(blocks[i])) == order[i]
  }

  lemma SavedRecords(o: Oracle, g: Hash, idx: Index, order: seq<Hash>, file: File)
    requires TreeInv(o, g, idx) && Listing(idx, order) && SavedAs(idx, g, order, file)
    ensures Matches(o, idx, order, file.blocks)
  {
    hide RecordOf, HeaderOf, HexHash, TreeInv, Restores, HashHex;
    forall i | 0 <= i < |order|
      ensures && RecordHash(file.blocks, i) == order[i] && Restores(file.blocks[i], idx[order[i]])
              && file.blocks[i].height >= 0 && o.hash(HeaderOf(file.blocks[i])) == order[i]
    {
      SavedRecord(o, g, idx, order[i]);
    }
  }

  lemma SavedSound(o: Oracle, idx: Index, order: seq<Hash>, blocks: seq<Record>)
    requires Listing(idx, order) && Matches(o, idx, order, blocks)
    ensures Sound(o, blocks)
  {
    hide HeaderOf, RecordHash, Restores;
  }

  lemma SavedRestored(o: Oracle, idx: Index, order: seq<Hash>, blocks: seq<Record>)
    requires Listing(idx, order) && Matches(o, idx, order, blocks)
    ensures Restored(blocks, idx)
  {
    hide HeaderOf, RecordHash, Restores;
    forall h | h in idx
      ensures exists i :: 0 <= i < |blocks| && RecordHash(blocks, i) == h
    {
      var i :| 0 <= i < |order| && order[i] == h;
      assert RecordHash(blocks, i) == h;
    }
  }

  lemma SavedRecord(o: Oracle, g: Hash, idx: Index, h: Hash)
    requires TreeInv(o, g, idx) && h in idx
    ensures var r := RecordOf(idx, h);
            && HexHash(r.hash) == h && Restores(r, idx[h]) && r.height >= 0 && o.hash(HeaderOf(r)) == h
  {
    hide HexHash, HexMiner, HexWork, HashHex, MinerHex, WorkHex, Path, EntryOk;
    WorkBound(o, g, idx, h);
    RecordRoundTrip(o, g, idx, h);
  }

  lemma TreeDerived(o: Oracle, g: Hash, idx: Index)
    requires TreeInv(o, g, idx)
    ensures Derived(idx) && Parented(idx)
  {
    hide Path, GetSkipHeight, AddWork, BlockProof, Rooted;
    forall h | h in idx
      ensures EntryOk(o, idx, h)
    {
    }
  }

  /** The records determine the tree. */
  lemma DescribesOne(o: Oracle, g: Hash, blocks: seq<Record>, a: Index, b: Index)
    requires Describes(o, g, blocks, a) && Describes(o, g, blocks, b)
    ensures a == b
  {
    hide HexHash, HexWork, HeaderOf, Path, GetSkipHeight, Sound, Derived, Rooted, Linked, Parented, Restores;
    assert a.Keys == b.Keys;
    forall h | h in a
      ensures a[h] == b[h]
    {
      SameEntries(o, g, blocks, a, b, h);
    }
  }

  lemma SameRecord(blocks: seq<Record>, a: Index, b: Index, h: Hash)
    requires Restored(blocks, a) && Restored(blocks, b) && Parented(a) && Parented(b) && h in a
    ensures h in b && a[h].header == b[h].header && a[h].height == b[h].height && a[h].work == b[h].work
    ensures a[h].status == b[h].status && a[h].prev == b[h].prev
  {
    hide HexHash, HexWork, HeaderOf;
    var i :| 0 <= i < |blocks| && RecordHash(blocks, i) == h;
  }

  lemma SameTree(blocks: seq<Record>, a: Index, b: Index)
    requires Restored(blocks, a) && Restored(blocks, b) && Parented(a) && Parented(b)
    ensures SameLinks(a, b)
  {
    hide Restored, Parented;
    forall h | h in a
      ensures h in b && a[h].prev == b[h].prev && a[h].height == b[h].height
    {
      SameRecord(blocks, a, b, h);
    }
  }

  lemma {:induction false} SameEntries(o: Oracle, g: Hash, blocks: seq<Record>, a: Index, b: Index, h: Hash)
    requires Describes(o, g, blocks, a) && Describes(o, g, blocks, b) && h in a
    ensures h in b && a[h] == b[h]
    decreases a[h].height
  {
    hide Restored, Sound, Rooted, Parented, GetSkipHeight, Path;
    SameRecord(blocks, a, b, h);
    SameTree(blocks, a, b);
    PathStable(a, b, h);
    if a[h].prev.Some? {
      SameEntries(o, g, blocks, a, b, a[h].prev.value);
    }
    assert DerivedAt(a, h) && DerivedAt(b, h);
  }

  // ---- Load ----

  /** First pass: entries without pointers. */
  method CreateEntries(o: Oracle, blocks: seq<Record>) returns (ok: bool, idx: Index)
    ensures ok <==> Sound(o, blocks)
    ensures ok ==> Restored(blocks, idx)
  {
    hide HexHash, HexWork, HexMiner;
    idx := map[];
    for i := 0 to |blocks|
      invariant Sound(o, blocks[..i]) && Restored(blocks[..i], idx)
    {
      var r := blocks[i];
      var hash, header, work := ReadRecord(r);
      assert RecordHash(blocks, i) == hash;
      if o.hash(header) != hash || hash in idx || r.height < 0 {
        RejectsSound(o, blocks, i, idx);
        return false, idx;
      }
      EntryAdded(o, blocks, i, idx, Block(header, None, None, r.height, work, 0, r.status));
      idx := idx[hash := Block(header, None, None, r.height, work, 0, r.status)];
    }
    assert blocks[..|blocks|] == blocks;
    return true, idx;
  }

  method ReadRecord(r: Record) returns (hash: Hash, header: Header, work: nat)
    ensures hash == HexHash(r.hash) && header == HeaderOf(r) && work == HexWork(r.chainwork)
  {
    hide HexHash, HexBytes, BeVal, LeVal, Pow256;
    hash := ReadHash(r.hash);
    var prev := ReadHash(r.prev);
    var minerBytes := ReadBytes(r.miner, 20);
    BeInjective(minerBytes);
    Pow256Of20();
    var randomx := ReadHash(r.randomx);
    var workBytes := ReadBytes(r.chainwork, 32);
    return hash, Header(r.version, prev, BeVal(minerBytes), r.time, r.bits, r.nonce, randomx), LeVal(workBytes);
  }

  lemma RejectsSound(o: Oracle, blocks: seq<Record>, i: nat, idx: Index)
    requires i < |blocks| && Restored(blocks[..i], idx)
    requires o.hash(HeaderOf(blocks[i])) != RecordHash(blocks, i) || RecordHash(blocks, i) in idx || blocks[i].height < 0
    ensures !Sound(o, blocks)
  {
    hide HexHash, HexWork, HeaderOf;
    if RecordHash(blocks, i) in idx {
      var j :| 0 <= j < i && RecordHash(blocks[..i], j) == RecordHash(blocks, i);
      assert RecordHash(blocks, j) == RecordHash(blocks, i);
    }
  }

  lemma EntryAdded(o: Oracle, blocks: seq<Record>, i: nat, idx: Index, b: Block)
    requires i < |blocks| && Sound(o, blocks[..i]) && Restored(blocks[..i], idx)
    requires RecordHash(blocks, i) !in idx && blocks[i].height >= 0 && o.hash(HeaderOf(blocks[i])) == RecordHash(blocks, i)
    requires Restores(blocks[i], b)
    ensures Sound(o, blocks[..i + 1]) && Restored(blocks[..i + 1], idx[RecordHash(blocks, i) := b])
  {
    hide HexHash, HexWork, HeaderOf, Restores;
    var now, was := blocks[..i + 1], blocks[..i];
    assert RecordHash(now, i) == RecordHash(blocks, i);
    forall j | 0 <= j < i
      ensures now[j] == was[j] && RecordHash(now, j) == RecordHash(was, j) && RecordHash(was, j) in idx
    {
    }
    var idx' := idx[RecordHash(blocks, i) := b];
    forall h | h in idx'
      ensures exists j :: 0 <= j < |now| && RecordHash(now, j) == h
    {
      if h in idx {
        var j :| 0 <= j < i && RecordHash(was, j) == h;
        assert RecordHash(now, j) == h;
      }
    }
  }

  /** idx' is idx with parents taken from the headers. */
  ghost predicate WithParents(idx: Index, idx': Index)
  {
    && idx'.Keys == idx.Keys && Parented(idx')
    && forall h {:trigger idx'[h]} :: h in idx ==> idx'[h] == idx[h].(prev := idx'[h].prev)
  }

  ghost predicate ParentsKnown(idx: Index)
  {
    forall h {:trigger idx[h].header} :: h in idx ==> idx[h].header.prev == NULL_HASH || idx[h].header.prev in idx
  }

  /** Second pass: every parent must be among the entries. */
  method ConnectParents(idx: Index) returns (ok: bool, idx': Index)
    ensures ok <==> ParentsKnown(idx)
    ensures ok ==> WithParents(idx, idx')
  {
    hide Connecting, WithParents;
    ConnectStart(idx);
    idx' := idx;
    var rest := idx.Keys;
    while rest != {}
      invariant rest <= idx.Keys && Connecting(idx, rest, idx')
      decreases |rest|
    {
      var h :| h in rest;
      ConnectStep(idx, rest, idx', h);
      rest := rest - {h};
      var prev := idx[h].header.prev;
      if prev != NULL_HASH {
        if prev !in idx' {
          return false, idx';
        }
        idx' := idx'[h := idx'[h].(prev := Some(prev))];
      } else {
        idx' := idx'[h := idx'[h].(prev := None)];
      }
    }
    ConnectEnd(idx, idx');
    return true, idx';
  }

  /** Parents are set and known for all entries but those in rest. */
  ghost predicate Connecting(idx: Index, rest: set<Hash>, idx': Index)
  {
    && idx'.Keys == idx.Keys
    && (forall h {:trigger idx'[h]} :: h in idx ==> idx'[h] == idx[h].(prev := idx'[h].prev))
    && forall h {:trigger idx'[h].prev} :: h in idx && h !in rest ==>
         if idx[h].header.prev == NULL_HASH then idx'[h].prev == None
         else idx'[h].prev == Some(idx[h].header.prev) && idx[h].header.prev in idx
  }

  lemma ConnectStart(idx: Index)
    ensures Connecting(idx, idx.Keys, idx)
  {
  }

  lemma ConnectStep(idx: Index, rest: set<Hash>, idx': Index, h: Hash)
    requires Connecting(idx, rest, idx') && h in idx
    ensures h in idx' && idx'.Keys == idx.Keys
    ensures var prev := idx[h].header.prev;
            if prev == NULL_HASH then Connecting(idx, rest - {h}, idx'[h := idx'[h].(prev := None)])
            else prev in idx ==> Connecting(idx, rest - {h}, idx'[h := idx'[h].(prev := Some(prev))])
  {
  }

  lemma ConnectEnd(idx: Index, idx': Index)
    requires Connecting(idx, {}, idx')
    ensures WithParents(idx, idx') && ParentsKnown(idx)
  {
    forall h | h in idx
      ensures idx[h].header.prev == NULL_HASH || idx[h].header.prev in idx
      ensures idx'[h].prev == if idx'[h].header.prev == NULL_HASH then None else Some(idx'[h].header.prev)
    {
      assert idx'[h] == idx[h].(prev := idx'[h].prev);
    }
  }

  /** Exactly one entry has no parent and it is the expected genesis. */
  method CheckRoot(idx: Index, g: Hash) returns (ok: bool)
    ensures ok <==> Rooted(idx, g)
  {
    var roots: set<Hash> := {};
    var rest := idx.Keys;
    while rest != {}
      invariant rest <= idx.Keys
      invariant forall h :: h in roots <==> h in idx && h !in rest && idx[h].prev.None?
      decreases |rest|
    {
      var h :| h in rest;
      rest := rest - {h};
      if idx[h].prev.None? {
        roots := roots + {h};
      }
    }
    RootCount(idx, g, roots);
    return |roots| == 1 && g in roots;
  }

  lemma RootCount(idx: Index, g: Hash, roots: set<Hash>)
    requires forall h :: h in roots <==> h in idx && idx[h].prev.None?
    ensures |roots| == 1 && g in roots <==> Rooted(idx, g)
  {
    if Rooted(idx, g) {
      assert roots == {g};
    }
    if |roots| == 1 && g in roots {
      assert |roots - {g}| == 0;
      forall h | h in idx
        ensures idx[h].prev.None? <==> h == g
      {
        assert h !in roots - {g};
      }
    }
  }

  /** out holds the entries of the listed blocks with their skip pointers and running maxima. */
  ghost predicate Deriving(idx: Index, listed: set<Hash>, out: Index)
  {
    && out.Keys == listed && listed <= idx.Keys && Linked(out) && Derived(out)
    && forall h {:trigger out[h]} :: h in out ==> out[h] == idx[h].(skip := out[h].skip, timeMax := out[h].timeMax)
  }

  lemma DerivedSkips(idx: Index)
    requires Linked(idx) && Derived(idx)
    ensures SkipsCorrect(idx)
  {
    hide Path, GetSkipHeight;
    forall h | h in idx && idx[h].skip.Some?
      ensures idx[h].height > 0 && idx[h].skip.value == Path(idx, h)[GetSkipHeight(idx[h].height)]
    {
      assert DerivedAt(idx, h);
    }
  }

  lemma DerivedGrows(out: Index, h: Hash, b: Block)
    requires Linked(out) && Derived(out) && h !in out
    requires match b.prev
             case None => b.height == 0 && b.skip == None && b.timeMax == b.header.time
             case Some(p) =>
               && p in out && b.height == out[p].height + 1 && b.timeMax == Max(out[p].timeMax, b.header.time)
               && b.skip == Some(Path(out, p)[GetSkipHeight(b.height)])
    ensures Linked(out[h := b]) && Derived(out[h := b])
  {
    hide GetSkipHeight, Path, Linked, DerivedAt;
    var out' := out[h := b];
    GrownLinks(out, h, b);
    forall x | x in out'
      ensures DerivedAt(out', x)
    {
      if x == h {
        DerivedNew(out, h, b);
      } else {
        DerivedKept(out, out', x);
      }
    }
  }

  lemma DerivedNew(out: Index, h: Hash, b: Block)
    requires Linked(out) && h !in out && Linked(out[h := b])
    requires match b.prev
             case None => b.skip == None && b.timeMax == b.header.time
             case Some(p) =>
               && p in out && b.height == out[p].height + 1 && b.timeMax == Max(out[p].timeMax, b.header.time)
               && b.skip == Some(Path(out, p)[GetSkipHeight(b.height)]) && Path(out[h := b], p) == Path(out, p)
    ensures DerivedAt(out[h := b], h)
  {
    hide GetSkipHeight, Path, Linked;
    if b.prev.Some? {
      PathOfChild(out[h := b], h);
    }
  }

  lemma DerivedKept(out: Index, out': Index, x: Hash)
    requires Linked(out) && Linked(out') && Derived(out) && (forall y :: y in out ==> y in out' && out'[y] == out[y])
    requires x in out && Path(out', x) == Path(out, x)
    ensures DerivedAt(out', x)
  {
    hide GetSkipHeight, Path;
    assert DerivedAt(out, x);
  }

  lemma GrownLinks(out: Index, h: Hash, b: Block)
    requires Linked(out) && h !in out
    requires if b.prev.None? then b.height == 0 else b.prev.value in out && b.height == out[b.prev.value].height + 1
    ensures Linked(out[h := b]) && forall x :: x in out ==> Path(out[h := b], x) == Path(out, x)
  {
    hide Path;
    var out' := out[h := b];
    assert Linked(out') && SameLinks(out, out');
    forall x | x in out
      ensures Path(out', x) == Path(out, x)
    {
      PathStable(out, out', x);
    }
  }

  /** Third pass, one block: derives its fields from its parent, which was handled before. */
  method DeriveOne(idx: Index, out: Index, h: Hash, ghost listed: set<Hash>) returns (ok: bool, out': Index)
    requires Deriving(idx, listed, out) && h in idx && h !in listed
    requires idx[h].prev.Some? ==> idx[h].prev.value in idx
    requires idx[h].prev.Some? && idx[idx[h].prev.value].height < idx[h].height ==> idx[h].prev.value in out
    ensures ok <==> (match idx[h].prev case None => idx[h].height == 0 case Some(p) => idx[p].height + 1 == idx[h].height)
    ensures ok ==> Deriving(idx, listed + {h}, out')
  {
    hide Path, GetSkipHeight, Derived, Linked;
    var b := idx[h];
    out' := out;
    if b.prev.Some? {
      var p := b.prev.value;
      if idx[p].height + 1 != b.height {
        return false, out;
      }
      DerivedSkips(out);
      var skip := BuildSkip(out, b.prev, b.height);
      b := b.(timeMax := Max(out[p].timeMax, b.header.time), skip := skip);
    } else {
      if b.height != 0 {
        return false, out;
      }
      b := b.(timeMax := b.header.time, skip := None);
    }
    DerivedGrows(out, h, b);
    return true, out[h := b];
  }

  lemma ParentListed(idx: Index, order: seq<Hash>, i: nat)
    requires Listing(idx, order) && i < |order|
    requires idx[order[i]].prev.Some? ==> idx[order[i]].prev.value in idx
    ensures idx[order[i]].prev.Some? && idx[idx[order[i]].prev.value].height < idx[order[i]].height ==>
              idx[order[i]].prev.value in order[..i]
  {
    if idx[order[i]].prev.Some? && idx[idx[order[i]].prev.value].height < idx[order[i]].height {
      var p := idx[order[i]].prev.value;
      var j :| 0 <= j < |order| && order[j] == p;
      assert j < i;
      assert order[..i][j] == p;
    }
  }

  /** The height of h is right for its parent. */
  ghost predicate LinkAt(idx: Index, h: Hash)
    requires h in idx
  {
    match idx[h].prev
    case None => idx[h].height == 0
    case Some(p) => p in idx && idx[h].height == idx[p].height + 1
  }

  ghost predicate AllLinkAt(idx: Index, s: set<Hash>)
  {
    forall h :: h in s && h in idx ==> LinkAt(idx, h)
  }

  lemma NoneLinkAt(idx: Index)
    ensures AllLinkAt(idx, {})
  {
  }

  lemma MoreLinkAt(idx: Index, s: set<Hash>, h: Hash)
    requires AllLinkAt(idx, s) && h in idx && LinkAt(idx, h)
    ensures AllLinkAt(idx, s + {h})
  {
    hide LinkAt;
  }

  lemma LinkAtIs(idx: Index, h: Hash)
    requires h in idx && (idx[h].prev.Some? ==> idx[h].prev.value in idx)
    ensures LinkAt(idx, h) <==> (match idx[h].prev case None => idx[h].height == 0 case Some(p) => idx[p].height + 1 == idx[h].height)
  {
  }

  lemma NotLinked(idx: Index, h: Hash)
    requires h in idx && !LinkAt(idx, h)
    ensures !Linked(idx)
  {
  }

  lemma AllAreLinked(idx: Index)
    requires AllLinkAt(idx, idx.Keys)
    ensures Linked(idx)
  {
    forall h | h in idx
      ensures match idx[h].prev
              case None => idx[h].height == 0
              case Some(p) => p in idx && idx[h].height == idx[p].height + 1
    {
      assert LinkAt(idx, h);
    }
  }

  ghost function Seen(order: seq<Hash>, i: nat): (r: set<Hash>)
    requires i <= |order|
  {
    set h | h in order[..i]
  }

  lemma SeenNext(idx: Index, order: seq<Hash>, i: nat)
    requires Listing(idx, order) && i < |order|
    ensures order[i] !in Seen(order, i) && order[i] in idx && Seen(order, i + 1) == Seen(order, i) + {order[i]}
  {
    assert order[..i + 1] == order[..i] + [order[i]];
  }

  lemma SeenAll(idx: Index, order: seq<Hash>)
    requires Listing(idx, order)
    ensures Seen(order, |order|) == idx.Keys && Seen(order, 0) == {}
  {
    assert order[..|order|] == order;
  }

  lemma ParentSeen(idx: Index, order: seq<Hash>, i: nat, out: Index)
    requires Listing(idx, order) && i < |order| && Deriving(idx, Seen(order, i), out)
    requires idx[order[i]].prev.Some? ==> idx[order[i]].prev.value in idx
    ensures idx[order[i]].prev.Some? && idx[idx[order[i]].prev.value].height < idx[order[i]].height ==>
              idx[order[i]].prev.value in out
  {
    hide Listing, Derived, Linked;
    ListingAt(idx, order, i);
    ParentListed(idx, order, i);
  }

  lemma ListingAt(idx: Index, order: seq<Hash>, i: nat)
    requires Listing(idx, order) && i < |order|
    ensures order[i] in idx
  {
  }

  /** Third pass: in height order, checks heights and derives running maxima and skip pointers. */
  method DeriveAll(idx: Index) returns (ok: bool, out: Index)
    requires forall h {:trigger idx[h].prev} :: h in idx && idx[h].prev.Some? ==> idx[h].prev.value in idx
    ensures ok <==> Linked(idx)
    ensures ok ==> Deriving(idx, idx.Keys, out)
  {
    hide Deriving, Listing, Linked, Seen, LinkAt, AllLinkAt;
    var order := ByHeight(idx);
    out := map[];
    NothingDerived(idx);
    SeenAll(idx, order);
    NoneLinkAt(idx);
    for i := 0 to |order|
      invariant Deriving(idx, Seen(order, i), out)
      invariant AllLinkAt(idx, Seen(order, i))
    {
      SeenNext(idx, order, i);
      ParentSeen(idx, order, i, out);
      var fine, next := DeriveOne(idx, out, order[i], Seen(order, i));
      LinkAtIs(idx, order[i]);
      if !fine {
        NotLinked(idx, order[i]);
        return false, out;
      }
      MoreLinkAt(idx, Seen(order, i), order[i]);
      out := next;
    }
    AllAreLinked(idx);
    return true, out;
  }

  lemma NothingDerived(idx: Index)
    ensures Deriving(idx, {}, map[])
  {
  }

  // ---- The three passes together ----

  lemma PointersKeepRecords(blocks: seq<Record>, idx: Index, idx': Index)
    requires Restored(blocks, idx) && idx'.Keys == idx.Keys
    requires forall h {:trigger idx'[h]} :: h in idx ==>
               && idx'[h].header == idx[h].header && idx'[h].height == idx[h].height
               && idx'[h].work == idx[h].work && idx'[h].status == idx[h].status
    ensures Restored(blocks, idx')
  {
    hide RecordHash, HeaderOf, HexWork;
  }

  lemma PassesDescribe(o: Oracle, g: Hash, blocks: seq<Record>, raw: Index, linked: Index, out: Index)
    requires Sound(o, blocks) && Restored(blocks, raw) && WithParents(raw, linked)
    requires Rooted(linked, g) && Deriving(linked, linked.Keys, out)
    ensures Describes(o, g, blocks, out)
  {
    hide Sound, Restored, Derived, Linked;
    PointersKeepRecords(blocks, raw, linked);
    PointersKeepRecords(blocks, linked, out);
    SamePrev(linked, out, g);
  }

  lemma SamePrev(linked: Index, out: Index, g: Hash)
    requires out.Keys == linked.Keys && Parented(linked) && Rooted(linked, g)
    requires forall h {:trigger out[h]} :: h in out ==> out[h] == linked[h].(skip := out[h].skip, timeMax := out[h].timeMax)
    ensures Parented(out) && Rooted(out, g)
  {
  }

  /** If the records describe any tree, no pass fails. */
  lemma PassesSucceed(o: Oracle, g: Hash, blocks: seq<Record>, want: Index, raw: Index)
    requires Describes(o, g, blocks, want) && Restored(blocks, raw)
    ensures ParentsKnown(raw)
    ensures forall linked :: WithParents(raw, linked) ==> Rooted(linked, g) && Linked(linked)
  {
    hide Sound, Restored, Derived, Restores, HexHash;
    assert ParentsKnown(raw) by {
      forall h | h in raw
        ensures raw[h].header.prev == NULL_HASH || raw[h].header.prev in raw
      {
        SameFields(blocks, raw, want, h);
      }
    }
    forall linked | WithParents(raw, linked)
      ensures Rooted(linked, g) && Linked(linked)
    {
      PointersKeepRecords(blocks, raw, linked);
      SameTree(blocks, want, linked);
      SameTree(blocks, linked, want);
      LinksCarry(want, linked, g);
    }
  }

  lemma SameFields(blocks: seq<Record>, a: Index, b: Index, h: Hash)
    requires Restored(blocks, a) && Restored(blocks, b) && Parented(b) && Linked(b) && h in a
    ensures h in b && a[h].header == b[h].header
    ensures b[h].header.prev != NULL_HASH ==> b[h].header.prev in a
  {
    hide HexHash, HexWork, HeaderOf;
    var i :| 0 <= i < |blocks| && RecordHash(blocks, i) == h;
    var p := b[h].header.prev;
    if p != NULL_HASH {
      assert b[h].prev == Some(p);
      var j :| 0 <= j < |blocks| && RecordHash(blocks, j) == p;
    }
  }

  lemma LinksCarry(a: Index, b: Index, g: Hash)
    requires Linked(a) && Rooted(a, g) && SameLinks(a, b) && SameLinks(b, a)
    ensures Linked(b) && Rooted(b, g)
  {
    assert a[g].prev.None?;
  }

  /** The passes accept exactly the lists of records that describe a tree, and build that tree. */
  method LoadIndex(o: Oracle, g: Hash, blocks: seq<Record>, ghost want: Index) returns (ok: bool, idx: Index)
    ensures ok ==> Describes(o, g, blocks, idx)
    ensures Describes(o, g, blocks, want) ==> ok && idx == want
  {
    hide Describes, Sound, Restored, WithParents, Rooted, Linked, Deriving, ParentsKnown;
    var sound, raw := CreateEntries(o, blocks);
    DescribesSound(o, g, blocks, want);
    if !sound {
      return false, raw;
    }
    if Describes(o, g, blocks, want) {
      PassesSucceed(o, g, blocks, want, raw);
    }
    var known, linked := ConnectParents(raw);
    if !known {
      return false, raw;
    }
    var rooted := CheckRoot(linked, g);
    if !rooted {
      return false, linked;
    }
    ParentsIn(raw, linked);
    var level, out := DeriveAll(linked);
    if !level {
      return false, out;
    }
    PassesDescribe(o, g, blocks, raw, linked, out);
    if Describes(o, g, blocks, want) {
      DescribesOne(o, g, blocks, out, want);
    }
    return true, out;
  }

  lemma DescribesSound(o: Oracle, g: Hash, blocks: seq<Record>, want: Index)
    ensures Describes(o, g, blocks, want) ==> Sound(o, blocks)
  {
    hide Sound, Restored, Derived, Linked;
  }

  lemma ParentsIn(raw: Index, linked: Index)
    requires ParentsKnown(raw) && WithParents(raw, linked)
    ensures forall h {:trigger linked[h].prev} :: h in linked && linked[h].prev.Some? ==> linked[h].prev.value in linked
  {
    forall h | h in linked && linked[h].prev.Some?
      ensures linked[h].prev.value in linked
    {
      assert linked[h] == raw[h].(prev := linked[h].prev);
    }
  }

  // ---- Choosing the tip ----

  /** No sound block has more work. */
  ghost predicate Heaviest(idx: Index, t: Hash)
  {
    t in idx && !idx[t].status.Failed() && forall b :: b in idx && !idx[b].status.Failed() ==> idx[b].work <= idx[t].work
  }

  /** The heaviest sound block, among several the one of smallest hash. */
  ghost predicate FirstHeaviest(idx: Index, t: Hash)
  {
    Heaviest(idx, t) && forall b :: Heaviest(idx, b) ==> t <= b
  }

  /** Walks the index in the order of the hashes. */
  method BestTip(idx: Index, g: Hash) returns (t: Option<Hash>)
    requires Rooted(idx, g)
    ensures t.Some? ==> FirstHeaviest(idx, t.value) && idx[t.value].work > 0
    ensures t.None? ==> forall b :: b in idx && !idx[b].status.Failed() ==> idx[b].work == 0
  {
    t := None;
    var best := 0;
    var rest := idx.Keys;
    while rest != {}
      invariant rest <= idx.Keys
      invariant forall b, d :: b in idx && b !in rest && d in rest ==> b < d
      invariant t.Some? ==> t.value !in rest
      invariant forall b :: b in idx && b !in rest && !idx[b].status.Failed() && idx[b].work == best && t.Some? ==> t.value <= b
      invariant t.None? ==> best == 0
      invariant t.Some? ==> t.value in idx && !idx[t.value].status.Failed() && idx[t.value].work == best > 0
      invariant forall b :: b in idx && b !in rest && !idx[b].status.Failed() ==> idx[b].work <= best
      decreases |rest|
    {
      var h := Smallest(rest);
      rest := rest - {h};
      if !idx[h].status.Failed() && !(idx[h].prev.None? && h != g) && idx[h].work > best {
        best := idx[h].work;
        t := Some(h);
      }
    }
  }

  /** The tree has a sound block with work, and its heaviest sound blocks are within the walk limit. */
  ghost predicate HasTip(idx: Index)
  {
    && (exists b :: b in idx && !idx[b].status.Failed() && idx[b].work > 0)
    && forall t :: Heaviest(idx, t) ==> idx[t].height <= MAX_CHAIN_WALK
  }

  /**
   * BlockManager::Load. What it accepts is the tree the records describe, with a heaviest sound block as
   * tip. It accepts every file of the right version and genesis whose records describe a tree with a tip.
   */
  method Load(bm: BlockManager, o: Oracle, file: File, expected: Hash, ghost want: Index) returns (ok: bool, tip: Option<Hash>)
    modifies bm, bm.activeChain
    ensures ok ==> Describes(o, expected, file.blocks, bm.index) && bm.genesisHash == expected && bm.initialized
    ensures ok ==>
              && tip.Some? && FirstHeaviest(bm.index, tip.value) && Linked(bm.index)
              && bm.activeChain.Holds(Path(bm.index, tip.value))
    ensures file.version == 1 && HexHash(file.genesisHash) == expected && Describes(o, expected, file.blocks, want) && HasTip(want) ==>
              ok && bm.index == want
  {
    hide Describes, HexHash, Path, Linked, Rooted;
    ok, tip := false, None;
    if file.version != 1 {
      return;
    }
    var genesis := ReadHash(file.genesisHash);
    if genesis != expected {
      return;
    }
    var fine, idx := LoadIndex(o, expected, file.blocks, want);
    bm.index := idx;
    bm.activeChain.vChain := [];
    if !fine {
      return;
    }
    DescribesFacts(o, expected, file.blocks, idx);
    bm.genesisHash := genesis;
    tip := BestTip(idx, expected);
    if tip.None? {
      return;
    }
    bm.activeChain.SetTip(idx, tip.value);
    PathFromRoot(idx, expected, tip.value);
    ok := VerifyChainContinuity(idx, tip.value, genesis);
    if ok {
      bm.initialized := true;
    }
  }

  lemma DescribesFacts(o: Oracle, g: Hash, blocks: seq<Record>, idx: Index)
    requires Describes(o, g, blocks, idx)
    ensures Linked(idx) && Rooted(idx, g)
  {
    hide Sound, Restored, Derived, Linked;
  }

  /** Loading what was saved gives back the same tree, with a heaviest sound block as tip. */
  method SaveThenLoad(idx: Index, oldTip: Option<Hash>, o: Oracle, g: Hash, bm: BlockManager) returns (ok: bool, tip: Option<Hash>)
    requires TreeInv(o, g, idx) && HasTip(idx)
    modifies bm, bm.activeChain
    ensures ok && bm.index == idx && tip.Some? && FirstHeaviest(idx, tip.value)
    ensures bm.activeChain.Holds(Path(idx, tip.value))
  {
    hide Describes, HexHash, HashHex, HasTip, Heaviest, FirstHeaviest, EntryOk, Rooted, Listing, SavedAs;
    var file, order := Save(idx, oldTip, g);
    SavedDescribes(o, g, idx, order, file);
    SavedGenesis(idx, g, order, file);
    ok, tip := Load(bm, o, file, g, idx);
  }

  lemma SavedGenesis(idx: Index, g: Hash, order: seq<Hash>, file: File)
    requires Listing(idx, order) && SavedAs(idx, g, order, file)
    ensures file.version == 1 && HexHash(file.genesisHash) == g
  {
    hide HexHash, HashHex, RecordOf;
    HexInverse(g, 0, 0);
  }

  /** In a reachable state the heaviest sound block is a valid block of most work. */
  lemma HeaviestIsMostWork(idx: Index, t: Hash)
    requires AllTree(idx)
    ensures Heaviest(idx, t) <==> MostWork(idx, t)
  {
    hide ValidBits;
    forall h | h in idx
      ensures idx[h].status.IsValid() <==> !idx[h].status.Failed()
    {
    }
  }
}
