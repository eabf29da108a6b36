/** The block index: a tree of headers keyed by hash, and the paths from its roots. */
module BlockTree {
  import opened Compact
  import opened Work
  import opened Primitives

  const VALID_TREE: nat := 2

  /** nStatus: a validity level and two failure flags. */
  datatype Status = Status(level: nat, failedValid: bool, failedChild: bool) {
    predicate Failed() {
      failedValid || failedChild
    }

    predicate IsValid() {
      !Failed() && level >= VALID_TREE
    }
  }

  /** CBlockIndex. Pointers to other entries are their hashes, the keys of the index that owns them. */
  datatype Block = Block(
    header: Header, prev: Option<Hash>, skip: Option<Hash>, height: nat, work: nat, timeMax: nat, status: Status)

  type Index = map<Hash, Block>

  /** Parents are indexed and heights count the steps from a root. */
  ghost predicate Linked(idx: Index)
  {
    forall h {:trigger idx[h].prev} :: h in idx ==>
                  match idx[h].prev
                  case None => idx[h].height == 0
                  case Some(p) => p in idx && idx[h].height == idx[p].height + 1
  }

  /** The hashes from the root to h. */
  ghost function Path(idx: Index, h: Hash): (p: seq<Hash>)
    requires Linked(idx) && h in idx
    ensures |p| == idx[h].height + 1 && p[|p| - 1] == h
    ensures forall i :: 0 <= i < |p| ==> p[i] in idx && idx[p[i]].height == i
    decreases idx[h].height
  {
    match idx[h].prev
    case None => [h]
    case Some(p) => Path(idx, p) + [h]
  }

  /** The path to an ancestor is a prefix of the path. */
  lemma {:induction false} PathPrefix(idx: Index, h: Hash, i: nat)
    requires Linked(idx) && h in idx && i <= idx[h].height
    ensures Path(idx, Path(idx, h)[i]) == Path(idx, h)[..i + 1]
    decreases idx[h].height
  {
    var p := Path(idx, h);
    if i == idx[h].height {
      assert p[..i + 1] == p;
    } else {
      var q := idx[h].prev.value;
      PathPrefix(idx, q, i);
      assert p[..i + 1] == Path(idx, q)[..i + 1];
    }
  }

  /** The path of a child extends the path of its parent. */
  lemma PathOfChild(idx: Index, h: Hash)
    requires Linked(idx) && h in idx && idx[h].prev.Some?
    ensures Path(idx, h) == Path(idx, idx[h].prev.value) + [h]
    ensures Path(idx, h)[..idx[h].height] == Path(idx, idx[h].prev.value)
  {
  }

  /** Two paths that agree at one height agree below it. */
  lemma PathsMeet(idx: Index, a: Hash, b: Hash, i: nat)
    requires Linked(idx) && a in idx && b in idx
    requires i <= idx[a].height && i <= idx[b].height && Path(idx, a)[i] == Path(idx, b)[i]
    ensures Path(idx, a)[..i + 1] == Path(idx, b)[..i + 1]
  {
    PathPrefix(idx, a, i);
    PathPrefix(idx, b, i);
  }

  /** idx' has every entry of idx, with the same parent and height. */
  ghost predicate SameLinks(idx: Index, idx': Index)
  {
    forall h {:trigger idx[h].prev} {:trigger idx'[h].prev} :: h in idx ==> h in idx' && idx'[h].prev == idx[h].prev && idx'[h].height == idx[h].height
  }

  lemma {:induction false} PathStable(idx: Index, idx': Index, h: Hash)
    requires Linked(idx) && Linked(idx') && SameLinks(idx, idx') && h in idx
    ensures Path(idx', h) == Path(idx, h)
    decreases idx[h].height
  {
    if idx[h].prev.Some? {
      PathStable(idx, idx', idx[h].prev.value);
    }
  }

  ghost predicate IsAncestor(idx: Index, a: Hash, h: Hash)
    requires Linked(idx) && h in idx
  {
    a in Path(idx, h)
  }

  lemma AncestorAtHeight(idx: Index, a: Hash, h: Hash)
    requires Linked(idx) && h in idx
    ensures IsAncestor(idx, a, h) <==> a in idx && idx[a].height <= idx[h].height && Path(idx, h)[idx[a].height] == a
  {
  }

  /** The headers from the root to h. */
  ghost function Headers(idx: Index, h: Hash): (hs: seq<Header>)
    requires Linked(idx) && h in idx
    ensures |hs| == idx[h].height + 1
  {
    var p := Path(idx, h);
    seq(|p|, i requires 0 <= i < |p| => idx[p[i]].header)
  }

  predicate HasChild(idx: Index, h: Hash)
  {
    exists c :: c in idx && idx[c].prev == Some(h)
  }
}
