/** BlockManager: the owner of the block index and the active chain. */
module Blocks {
  import opened Bits
  import opened Work
  import opened Primitives
  import opened BlockTree
  import opened SkipList
  import opened TreeGrowth
  import opened ActiveChain
  import opened Validation

  const NEW_STATUS := Status(0, false, false)
  const MAX_CHAIN_WALK: nat := 1_000_000

  class BlockManager {
    var index: Index
    var genesisHash: Hash
    var initialized: bool
    const activeChain: CChain

    constructor ()
      ensures index == map[] && !initialized && fresh(activeChain) && activeChain.vChain == []
    {
      index, genesisHash, initialized := map[], NULL_HASH, false;
      activeChain := new CChain();
    }

    /**
     * AddToBlockIndex: a known header changes nothing, a header without parent is refused unless its
     * parent hash is null, and otherwise the entry is derived from the header and its parent. No header
     * hashes to its own parent hash.
     */
    method AddToBlockIndex(o: Oracle, header: Header) returns (r: Option<Hash>)
      requires Linked(index) && SkipsCorrect(index) && o.hash(header) != header.prev
      modifies `index
      ensures r == if o.hash(header) in old(index) || header.prev in old(index) || header.prev == NULL_HASH
                   then Some(o.hash(header)) else None
      ensures r.None? || o.hash(header) in old(index) ==> index == old(index)
      ensures o.hash(header) !in old(index) && header.prev in old(index) ==>
                index == old(index)[o.hash(header) := NewBlock(old(index), header).(status := NEW_STATUS)]
      ensures o.hash(header) !in old(index) && header.prev !in old(index) && header.prev == NULL_HASH ==>
                index == old(index)[o.hash(header) :=
                  Block(header, None, None, 0, BlockProof(header.bits), header.time, NEW_STATUS)]
    {
      hide BlockProof, Path, GetSkipHeight, SkipsCorrect;
      var hash := o.hash(header);
      if hash in index {
        return Some(hash);
      }
      var prev := if header.prev in index then Some(header.prev) else None;
      var b := Block(header, prev, None, 0, BlockProof(header.bits), header.time, NEW_STATUS);
      if prev.Some? {
        var p := index[prev.value];
        b := b.(height := p.height + 1, work := AddWork(p.work, b.work), timeMax := Max(p.timeMax, header.time));
      } else if header.prev != NULL_HASH {
        return None;
      }
      var skip := BuildSkip(index, prev, b.height);
      index := index[hash := b.(skip := skip)];
      return Some(hash);
    }

    /** Initialize, once, with the genesis header. */
    method Initialize(o: Oracle, genesis: Header) returns (ok: bool)
      requires o.hash(genesis) != genesis.prev
      requires !initialized ==> index == map[] && activeChain.vChain == []
      modifies this, activeChain
      ensures ok <==> !old(initialized) && genesis.prev == NULL_HASH
      ensures ok ==>
                && initialized && genesisHash == o.hash(genesis)
                && index == map[genesisHash := Block(genesis, None, None, 0, BlockProof(genesis.bits), genesis.time, NEW_STATUS)]
                && activeChain.Holds([genesisHash])
      ensures !ok ==> unchanged(this) && unchanged(activeChain)
    {
      if initialized {
        return false;
      }
      var r := AddToBlockIndex(o, genesis);
      if r.None? {
        return false;
      }
      activeChain.SetTip(index, r.value);
      genesisHash := o.hash(genesis);
      ok := VerifyChainContinuity(index, r.value, genesisHash);
      initialized := true;
    }
  }

  /** VerifyChainContinuity: walks to the root, at most a million steps, and compares it with the genesis. */
  method VerifyChainContinuity(idx: Index, h: Hash, genesis: Hash) returns (ok: bool)
    requires Linked(idx) && h in idx
    ensures ok <==> idx[h].height <= MAX_CHAIN_WALK && Path(idx, h)[0] == genesis
  {
    hide Linked, Path;
    var walk, walked := h, 0;
    StepBack(idx, walk);
    while idx[walk].prev.Some?
      invariant walk in idx && 0 <= walked <= idx[h].height && walked <= MAX_CHAIN_WALK
      invariant walk == Path(idx, h)[idx[h].height - walked]
      decreases idx[h].height - walked
    {
      ParentOnPath(idx, h, idx[h].height - walked);
      walk := idx[walk].prev.value;
      walked := walked + 1;
      if walked > MAX_CHAIN_WALK {
        return false;
      }
    }
    ParentOnPath(idx, h, idx[h].height - walked);
    return walk == genesis && idx[walk].height == 0 && idx[h].height == walked;
  }

  /** In every tree built by AddToBlockIndex the running maximum of block times never falls along a path. */
  lemma TreeTimeMax(o: Oracle, g: Hash, idx: Index)
    requires TreeInv(o, g, idx)
    ensures TimeMaxMonotone(idx)
  {
    hide Path, GetSkipHeight, BlockProof, AddWork, Rooted;
    forall h | h in idx && idx[h].prev.Some?
      ensures idx[idx[h].prev.value].timeMax <= idx[h].timeMax
    {
      assert EntryOk(o, idx, h);
    }
  }
}
