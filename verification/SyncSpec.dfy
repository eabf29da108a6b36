/** What header sync exchanges: good chains, stretches of them, their work and the low-work filter. */
module SyncSpec {
  import opened Bits
  import opened Compact
  import opened Work
  import opened Primitives
  import opened Validation
  import opened BlockTree
  import opened SkipList
  import opened TreeGrowth
  import opened ActiveChain
  import opened Selector
  import opened Chainstate
  import opened Activation
  import opened Submission
  import opened Runs

  /** The headers of a chain from genesis that all validate at the given time. */
  ghost predicate GoodChain(e: Env, c: seq<Header>, now: int)
  {
    && c != [] && e.oracle.hash(c[0]) == e.genesis
    && (forall i, j :: 0 <= i < j < |c| ==> e.oracle.hash(c[i]) != e.oracle.hash(c[j]))
    && forall i :: 1 <= i < |c| ==> GoodNext(e, c, i, now)
  }

  ghost predicate GoodNext(e: Env, c: seq<Header>, i: nat, now: int)
    requires 1 <= i < |c|
  {
    && c[i].prev == e.oracle.hash(c[i - 1]) && c[i].prev != NULL_HASH
    && FullPow(e.oracle, c[i]) && ContextualCheck(e.params, c[..i], c[i], now) == None
  }

  lemma FreshIf(e: Env, idx: Index, header: Header, now: int)
    requires Linked(idx) && e.oracle.hash(header) !in idx && FullPow(e.oracle, header)
    requires header.prev != NULL_HASH && header.prev in idx && !idx[header.prev].status.Failed()
    requires ContextualCheck(e.params, Headers(idx, header.prev), header, now) == None
    ensures Check(e, idx, header, now, true) == Fresh
  {
    hide ContextualCheck, Headers, Linked, ValidBits;
  }

  lemma NoneInsertable(e: Env, idx: Index, now: int)
    requires Linked(idx)
    ensures Insertable(e, idx, [], now)
  {
    hide Linked, Check;
  }

  lemma GrownEntry(e: Env, s: State, header: Header, now: int)
    requires Inv(e, s) && Linked(s.index) && Check(e, s.index, header, now, true) == Fresh
    ensures header.prev in s.index && e.oracle.hash(header) !in s.index
    ensures var idx' := Inserted(e.oracle, s.index, header);
            var x := e.oracle.hash(header);
            && x in idx' && idx'[x].status.IsValid() && !HasChild(idx', x)
            && idx'[x].prev == Some(header.prev) && idx'[x].header == header
  {
    hide Shape, EntryOk, Rooted, Closed, AcceptedPaths, AllTree, Check, Linked, Path, ValidBits, AddWork, BlockProof;
    FreshFacts(e, s.index, header, now);
    FreshStatus(e.oracle, s.index, header);
  }

  lemma ExtensionNotGuarded(e: Env, s: State, x: Hash)
    requires Linked(s.index) && x in s.index && s.chain <= Path(s.index, x)
    ensures !Guarded(e, s, x)
  {
    hide Path, Linked, CommonLength;
    var q := Path(s.index, x);
    assert q[..|s.chain|] == s.chain[..|s.chain|];
    SharedPrefix(s.chain, q, |s.chain|);
  }

  // ---- Work along the chain ----

  function BitsOf(c: seq<Header>): (bits: seq<Word>)
    ensures |bits| == |c| && forall i :: 0 <= i < |c| ==> bits[i] == c[i].bits
  {
    seq(|c|, i requires 0 <= i < |c| => c[i].bits)
  }

  lemma {:induction false} ProofSumSplit(a: seq<Word>, b: seq<Word>)
    ensures ProofSum(a + b) == ProofSum(a) + ProofSum(b)
    decreases b
  {
    hide BlockProof;
    if b == [] {
      assert a + b == a;
    } else {
      var n := |b| - 1;
      ProofSumSplit(a, b[..n]);
      assert (a + b)[..|a| + n] == a + b[..n];
    }
  }

  lemma AddWorkAssoc(a: nat, b: nat, c: nat)
    ensures AddWork(AddWork(a, b), c) == AddWork(a, b + c) && AddWork(a, b % TWO_256) == AddWork(a, b)
  {
    ModMultiple((a + b) % TWO_256 + c, (a + b) / TWO_256, TWO_256);
    ModMultiple(a + b % TWO_256, b / TWO_256, TWO_256);
  }

  /**
   * The work of an ancestor plus CalculateHeadersWork of the headers from there to a block is the recorded work
   * of that block, in 256-bit arithmetic.
   */
  lemma {:induction false} BatchWork(o: Oracle, g: Hash, idx: Index, h: Hash, i: nat)
    requires TreeInv(o, g, idx) && h in idx && i <= idx[h].height
    ensures idx[h].work == AddWork(idx[Path(idx, h)[i]].work, ProofSum(BitsOf(Headers(idx, h)[i + 1..])) % TWO_256)
    decreases idx[h].height
  {
    hide BlockProof, AddWork, Path, Headers, ProofSum, Rooted;
    var hs := Headers(idx, h);
    if i == idx[h].height {
      assert hs[i + 1..] == [];
      OwnWork(o, g, idx, h);
    } else {
      ParentPath(idx, h);
      var p := idx[h].prev.value;
      BatchWork(o, g, idx, p, i);
      assert EntryOk(o, idx, h);
      ParentHeaders(idx, h);
      var up := Headers(idx, p)[i + 1..];
      assert hs[i + 1..] == up + [idx[h].header];
      assert BitsOf(hs[i + 1..]) == BitsOf(up) + [idx[h].header.bits];
      OneMore(BitsOf(up), idx[h].header.bits);
      var a, b, c := idx[Path(idx, h)[i]].work, ProofSum(BitsOf(up)), BlockProof(idx[h].header.bits);
      AddWorkAssoc(a, b, c);
      AddWorkAssoc(a, b + c, 0);
    }
  }

  lemma OneMore(bits: seq<Word>, w: Word)
    ensures ProofSum(bits + [w]) == ProofSum(bits) + BlockProof(w)
  {
    hide BlockProof;
    assert (bits + [w])[..|bits|] == bits;
  }

  lemma ParentHeaders(idx: Index, h: Hash)
    requires Linked(idx) && h in idx && idx[h].prev.Some? && idx[h].prev.value in idx
    ensures Headers(idx, h) == Headers(idx, idx[h].prev.value) + [idx[h].header]
  {
    PathOfChild(idx, h);
  }

  lemma OwnWork(o: Oracle, g: Hash, idx: Index, h: Hash)
    requires TreeInv(o, g, idx) && h in idx
    ensures Path(idx, h)[idx[h].height] == h && ProofSum([]) == 0 && idx[h].work == AddWork(idx[h].work, 0)
  {
    hide BlockProof, Path;
    assert EntryOk(o, idx, h);
  }

  // ---- One batch ----

  /** Where a request from height t is answered from: the parent of the tip, or the root. */
  function StartOf(t: nat): (f: nat)
  {
    if t > 0 then t - 1 else 0
  }

  /** The headers are the stretch of c after the start. */
  ghost predicate Stretch(headers: seq<Header>, c: seq<Header>, t: nat)
  {
    && headers != [] && StartOf(t) + 1 + |headers| <= |c|
    && forall j :: 0 <= j < |headers| ==> headers[j] == c[StartOf(t) + 1 + j]
  }

  ghost predicate Links(o: Oracle, headers: seq<Header>, j: nat)
    requires j + 1 < |headers|
  {
    headers[j + 1].prev == o.hash(headers[j])
  }

  /** Every header carries a commitment and names the one before it as its parent. */
  ghost predicate Continuous(o: Oracle, headers: seq<Header>)
  {
    && (forall j :: 0 <= j < |headers| ==> CommitmentPow(o, headers[j]))
    && forall j :: 0 <= j && j + 1 < |headers| ==> Links(o, headers, j)
  }

  // ---- The low-work filter ----

  function Min(a: nat, b: nat): (m: nat)
  {
    if a <= b then a else b
  }

  /** GetAntiDoSWorkThreshold: none during initial download, else the tip less a buffer, or the configured minimum. */
  function AntiDosThreshold(p: Params, tipWork: nat, tipBits: Word, ibd: bool): (w: nat)
    ensures ibd ==> w == 0
    ensures w <= Max(tipWork, p.minimumChainWork)
  {
    if ibd then 0
    else
      var buffer := BlockProof(tipBits) * p.antiDosBufferBlocks % TWO_256;
      Max(tipWork - Min(buffer, tipWork), p.minimumChainWork)
  }

  /**
   * A work meets the threshold exactly during the initial download, or if it reaches the configured minimum and lags
   * behind the tip by at most the buffer of blocks at the tip's difficulty.
   */
  lemma ThresholdMeans(p: Params, tipWork: nat, tipBits: Word, ibd: bool, w: nat)
    requires BlockProof(tipBits) * p.antiDosBufferBlocks < TWO_256
    ensures AntiDosThreshold(p, tipWork, tipBits, ibd) <= w <==>
            ibd || (p.minimumChainWork <= w && tipWork <= w + BlockProof(tipBits) * p.antiDosBufferBlocks)
  {
    hide BlockProof;
    var buffer := BlockProof(tipBits) * p.antiDosBufferBlocks;
    MulMono(0, BlockProof(tipBits), p.antiDosBufferBlocks);
    DivModUnique(buffer, TWO_256, 0, buffer);
  }

  /** A batch that starts at a known block would end with less work than the threshold. */
  ghost predicate LowWork(e: Env, s: State, headers: seq<Header>, ibd: bool)
    requires headers != [] && s.chain != [] && Tip(s) in s.index
  {
    && headers[0].prev in s.index
    && AddWork(s.index[headers[0].prev].work, ProofSum(BitsOf(headers)) % TWO_256)
       < AntiDosThreshold(e.params, s.index[Tip(s)].work, s.index[Tip(s)].header.bits, ibd)
  }

  lemma ProofSumPrefix(c: seq<Header>, from: nat, to: nat)
    requires from <= to <= |c|
    ensures ProofSum(BitsOf(c[from..to])) <= ProofSum(BitsOf(c[from..]))
  {
    hide ProofSum;
    assert BitsOf(c[from..]) == BitsOf(c[from..to]) + BitsOf(c[to..]);
    ProofSumSplit(BitsOf(c[from..to]), BitsOf(c[to..]));
  }

  lemma PlainSum(a: nat, b: nat)
    requires a + b < TWO_256
    ensures AddWork(a, b % TWO_256) == a + b
  {
  }
}
