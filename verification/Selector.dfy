/** ChainSelector: the set of candidate tips ordered by work. */
module Selector {
  import opened Primitives
  import opened BlockTree
  import opened ActiveChain

  /** CBlockIndexWorkComparator: more work first, then greater height, then smaller hash. */
  predicate Better(idx: Index, a: Hash, b: Hash)
    requires a in idx && b in idx
  {
    if idx[a].work != idx[b].work then idx[a].work > idx[b].work
    else if idx[a].height != idx[b].height then idx[a].height > idx[b].height
    else a < b
  }

  /** The comparator is a strict total order on blocks, so std::set keeps one entry per block. */
  lemma BetterIsStrictTotal(idx: Index, a: Hash, b: Hash, c: Hash)
    requires a in idx && b in idx && c in idx
    ensures !Better(idx, a, a)
    ensures a != b <==> Better(idx, a, b) || Better(idx, b, a)
    ensures !(Better(idx, a, b) && Better(idx, b, a))
    ensures Better(idx, a, b) && Better(idx, b, c) ==> Better(idx, a, c)
  {
  }

  /** More work; with equal work a greater height; with equal work and height a smaller hash. */
  ghost predicate Precedes(idx: Index, a: Hash, b: Hash)
    requires a in idx && b in idx
  {
    && idx[a].work >= idx[b].work
    && (idx[a].work == idx[b].work ==> idx[a].height >= idx[b].height)
    && (idx[a].work == idx[b].work && idx[a].height == idx[b].height ==> a < b)
  }

  /** The comparator is that order. */
  lemma BetterPrecedes(idx: Index, a: Hash, b: Hash)
    requires a in idx && b in idx
    ensures Better(idx, a, b) <==> Precedes(idx, a, b)
  {
  }

  ghost predicate Indexed(idx: Index, s: set<Hash>)
  {
    forall c :: c in s ==> c in idx
  }

  /** m comes first among the members of s that are valid. */
  ghost predicate BestValid(idx: Index, s: set<Hash>, m: Hash)
    requires Indexed(idx, s)
  {
    m in s && idx[m].status.IsValid() && forall c :: c in s && c != m && idx[c].status.IsValid() ==> Better(idx, m, c)
  }

  /** The candidates left once block h was offered: h replaces its parent if h is a valid leaf. */
  ghost function Offered(idx: Index, s: set<Hash>, h: Hash): (r: set<Hash>)
    requires h in idx
  {
    if !idx[h].status.IsValid() || HasChild(idx, h) then s
    else (if idx[h].prev.Some? then s - {idx[h].prev.value} else s) + {h}
  }

  /** A candidate survives pruning: at least the tip's work, off the chain, a leaf, valid. */
  ghost predicate Survives(idx: Index, chain: seq<Hash>, c: Hash)
    requires c in idx && |chain| > 0 && chain[|chain| - 1] in idx
  {
    && idx[c].work >= idx[chain[|chain| - 1]].work
    && c !in chain
    && !HasChild(idx, c)
    && idx[c].status.IsValid()
  }

  ghost function Pruned(idx: Index, chain: seq<Hash>, s: set<Hash>): (r: set<Hash>)
    requires Indexed(idx, s) && |chain| > 0 && chain[|chain| - 1] in idx
  {
    set c | c in s && Survives(idx, chain, c)
  }

  /** best is one of the blocks seen so far and none of them has more work; there is none if nothing was seen. */
  ghost predicate Tops(idx: Index, seen: set<Hash>, best: Option<Hash>)
    requires Indexed(idx, seen)
  {
    match best
    case None => seen == {}
    case Some(b) => b in seen && forall g :: g in seen ==> idx[g].work <= idx[b].work
  }

  /** The first entry of a non-empty candidate set. */
  method Front(idx: Index, s: set<Hash>) returns (m: Hash)
    requires Indexed(idx, s) && s != {}
    ensures m in s && forall c :: c in s && c != m ==> Better(idx, m, c)
  {
    m :| m in s;
    var rest := s - {m};
    while rest != {}
      invariant m in s && rest <= s && m !in rest
      invariant forall c :: c in s && c !in rest && c != m ==> Better(idx, m, c)
      decreases |rest|
    {
      var c :| c in rest;
      rest := rest - {c};
      if Better(idx, c, m) {
        m := c;
      }
    }
  }

  /** The parents of all indexed blocks. */
  method BlocksWithChildren(idx: Index) returns (parents: set<Hash>)
    ensures forall h :: h in parents <==> HasChild(idx, h)
  {
    parents := {};
    var rest := idx.Keys;
    while rest != {}
      invariant rest <= idx.Keys
      invariant forall h :: h in parents ==> HasChild(idx, h)
      invariant forall c :: c in idx && c !in rest && idx[c].prev.Some? ==> idx[c].prev.value in parents
      decreases |rest|
    {
      var c :| c in rest;
      rest := rest - {c};
      if idx[c].prev.Some? {
        parents := parents + {idx[c].prev.value};
      }
    }
  }

  /** Scans the index for a child of h. */
  method SomeChild(idx: Index, h: Hash) returns (found: bool)
    ensures found <==> HasChild(idx, h)
  {
    var rest := idx.Keys;
    while rest != {}
      invariant rest <= idx.Keys
      invariant forall c :: c in idx && c !in rest ==> idx[c].prev != Some(h)
      decreases |rest|
    {
      var c :| c in rest;
      rest := rest - {c};
      if idx[c].prev == Some(h) {
        return true;
      }
    }
    return false;
  }

  class ChainSelector {
    var candidates: set<Hash>
    var bestHeader: Option<Hash>

    constructor ()
      ensures candidates == {} && bestHeader == None
    {
      candidates := {};
      bestHeader := None;
    }

    /** FindMostWorkChain: drops invalid entries from the front and returns the first valid one. */
    method FindMostWorkChain(idx: Index) returns (m: Option<Hash>)
      requires Indexed(idx, candidates)
      modifies `candidates
      ensures m.None? ==> candidates == {} && forall c :: c in old(candidates) ==> !idx[c].status.IsValid()
      ensures m.Some? ==> BestValid(idx, old(candidates), m.value)
      ensures m.Some? ==> forall c :: c in old(candidates) && c != m.value && idx[c].status.IsValid() ==> Precedes(idx, m.value, c)
      ensures m.Some? ==>
                candidates == set c | c in old(candidates) && (c == m.value || Better(idx, m.value, c))
    {
      ghost var before := candidates;
      while candidates != {}
        invariant candidates <= before
        invariant forall c :: c in before && c !in candidates ==> !idx[c].status.IsValid()
        invariant forall c, d :: c in before && c !in candidates && d in candidates ==> Better(idx, c, d)
        decreases |candidates|
      {
        var c := Front(idx, candidates);
        if idx[c].status.Failed() || !idx[c].status.IsValid() {
          candidates := candidates - {c};
        } else {
          return Some(c);
        }
      }
      return None;
    }

    /** TryAddBlockIndexCandidate. */
    method TryAddBlockIndexCandidate(idx: Index, h: Hash)
      requires h in idx
      modifies `candidates
      ensures candidates == Offered(idx, old(candidates), h)
    {
      if !idx[h].status.IsValid() {
        return;
      }
      var hasChildren := SomeChild(idx, h);
      if hasChildren {
        return;
      }
      if idx[h].prev.Some? && idx[h].prev.value in candidates {
        candidates := candidates - {idx[h].prev.value};
      }
      candidates := candidates + {h};
    }

    /** PruneBlockIndexCandidates; does nothing without a tip. */
    method PruneBlockIndexCandidates(idx: Index, chain: CChain, ghost path: seq<Hash>)
      requires Linked(idx) && Indexed(idx, candidates) && chain.Holds(path)
      requires path != [] ==> path[|path| - 1] in idx && path == Path(idx, path[|path| - 1])
      modifies `candidates
      ensures candidates == if path == [] then old(candidates) else Pruned(idx, path, old(candidates))
    {
      hide Linked, Path;
      var tip := chain.Tip();
      if tip.None? {
        return;
      }
      var parents := BlocksWithChildren(idx);
      ghost var before := candidates;
      var rest := candidates;
      while rest != {}
        invariant rest <= candidates <= before
        invariant forall c :: c in before && c !in rest ==> (c in candidates <==> Survives(idx, path, c))
        decreases |rest|
      {
        var c :| c in rest;
        rest := rest - {c};
        OnChain(idx, chain, path, c);
        if idx[c].work < idx[tip.value].work || c == tip.value || chain.Contains(idx, c) || c in parents
           || idx[c].status.Failed() || !idx[c].status.IsValid()
        {
          candidates := candidates - {c};
        }
      }
    }

    method AddCandidateUnchecked(h: Hash)
      modifies `candidates
      ensures candidates == old(candidates) + {h}
    {
      candidates := candidates + {h};
    }

    method ClearCandidates()
      modifies `candidates
      ensures candidates == {}
    {
      candidates := {};
    }

    method RemoveCandidate(h: Hash)
      modifies `candidates
      ensures candidates == old(candidates) - {h}
    {
      candidates := candidates - {h};
    }

    /**
     * UpdateBestHeader: if the best header tops the blocks seen so far, it tops them and h afterwards, and it
     * changes only to strictly more work than all of them, so among equals the first one stays.
     */
    method UpdateBestHeader(idx: Index, h: Hash, ghost seen: set<Hash>)
      requires h in idx && Indexed(idx, seen) && Tops(idx, seen, bestHeader)
      modifies `bestHeader
      ensures Tops(idx, seen + {h}, bestHeader)
      ensures bestHeader != old(bestHeader) ==> forall g :: g in seen ==> idx[g].work < idx[bestHeader.value].work
    {
      if bestHeader.None? || idx[h].work > idx[bestHeader.value].work {
        bestHeader := Some(h);
      }
    }
  }

  lemma OnChain(idx: Index, chain: CChain, path: seq<Hash>, c: Hash)
    requires Linked(idx) && c in idx && chain.Holds(path) && path != []
    requires path[|path| - 1] in idx && path == Path(idx, path[|path| - 1])
    ensures chain.Contains(idx, c) <==> c in path
  {
  }
}
