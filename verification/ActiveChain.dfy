/** The active chain as a vector of block pointers, and walks over the block tree. */
module ActiveChain {
  import opened Bits
  import opened Primitives
  import opened BlockTree
  import opened SkipList
  import opened MedianTime
  import opened Validation
  import opened Protocol

  // ---- Common ancestors ----

  ghost function CommonLength(p: seq<Hash>, q: seq<Hash>): (n: nat)
    ensures n <= |p| && n <= |q| && p[..n] == q[..n]
    ensures n < |p| && n < |q| ==> p[n] != q[n]
  {
    if p == [] || q == [] || p[0] != q[0] then 0
    else
      assert p == [p[0]] + p[1..] && q == [q[0]] + q[1..];
      1 + CommonLength(p[1..], q[1..])
  }

  /** The last block the paths to a and b share. */
  ghost function ForkPoint(idx: Index, a: Hash, b: Hash): (f: Option<Hash>)
    requires Linked(idx) && a in idx && b in idx
  {
    var n := CommonLength(Path(idx, a), Path(idx, b));
    if n == 0 then None else Some(Path(idx, a)[n - 1])
  }

  /** ForkPoint is the highest common ancestor, and None exactly when there is no common ancestor. */
  lemma ForkPointIsHighest(idx: Index, a: Hash, b: Hash, c: Hash)
    requires Linked(idx) && a in idx && b in idx
    ensures ForkPoint(idx, a, b).Some? ==> ForkPoint(idx, a, b).value in idx
    ensures IsAncestor(idx, c, a) && IsAncestor(idx, c, b)
            <==> ForkPoint(idx, a, b).Some? && IsAncestor(idx, c, ForkPoint(idx, a, b).value)
  {
    hide Path, Linked;
    var p, q := Path(idx, a), Path(idx, b);
    var n := CommonLength(p, q);
    if n > 0 {
      PathPrefix(idx, a, n - 1);
      assert p[..n] == q[..n];
      assert p[n - 1] == p[..n][n - 1];
    }
    if IsAncestor(idx, c, a) && IsAncestor(idx, c, b) {
      AncestorAtHeight(idx, c, a);
      AncestorAtHeight(idx, c, b);
      PathsMeet(idx, a, b, idx[c].height);
      SharedPrefix(p, q, idx[c].height + 1);
      assert p[..n][idx[c].height] == c;
    }
  }

  lemma SharedPrefix(p: seq<Hash>, q: seq<Hash>, n: nat)
    requires n <= |p| && n <= |q| && p[..n] == q[..n]
    ensures n <= CommonLength(p, q)
  {
    var m := CommonLength(p, q);
    if m < n {
      SameEntry(p, q, n, m);
    }
  }

  lemma DifferAt(p: seq<Hash>, q: seq<Hash>, k: nat)
    requires k < |p| && k < |q| && p[k] != q[k]
    ensures CommonLength(p, q) <= k
  {
    var m := CommonLength(p, q);
    if k < m {
      SameEntry(p, q, m, k);
    }
  }

  lemma SameEntry(p: seq<Hash>, q: seq<Hash>, m: nat, k: nat)
    requires k < m <= |p| && m <= |q| && p[..m] == q[..m]
    ensures p[k] == q[k]
  {
    assert p[..m][k] == q[..m][k];
  }

  method LastCommonAncestor(idx: Index, pa: Option<Hash>, pb: Option<Hash>) returns (f: Option<Hash>)
    requires Linked(idx) && SkipsCorrect(idx)
    requires pa.Some? ==> pa.value in idx
    requires pb.Some? ==> pb.value in idx
    ensures f == if pa.None? || pb.None? then None else ForkPoint(idx, pa.value, pb.value)
  {
    hide Path, Linked, CommonLength, SkipsCorrect;
    if pa.None? || pb.None? {
      return None;
    }
    var a, b := pa, pb;
    if idx[pa.value].height > idx[pb.value].height {
      a := GetAncestor(idx, pa.value, idx[pb.value].height);
      PathPrefix(idx, pa.value, idx[pb.value].height);
    } else if idx[pb.value].height > idx[pa.value].height {
      b := GetAncestor(idx, pb.value, idx[pa.value].height);
      PathPrefix(idx, pb.value, idx[pa.value].height);
    }
    f := WalkTogether(idx, pa.value, pb.value, a.value, b.value);
  }

  /** Steps two ancestors at one height towards the root until they meet. */
  method WalkTogether(idx: Index, ghost x: Hash, ghost y: Hash, a0: Hash, b0: Hash) returns (f: Option<Hash>)
    requires Linked(idx) && x in idx && y in idx && a0 in idx && b0 in idx
    requires idx[a0].height == idx[b0].height <= idx[x].height
    requires idx[a0].height == idx[x].height || idx[a0].height == idx[y].height
    requires idx[a0].height <= idx[y].height
    requires Path(idx, a0) == Path(idx, x)[..idx[a0].height + 1]
    requires Path(idx, b0) == Path(idx, y)[..idx[a0].height + 1]
    ensures f == ForkPoint(idx, x, y)
  {
    hide Path, Linked, CommonLength;
    var a, b := Some(a0), Some(b0);
    ghost var k := idx[a0].height + 1;
    ghost var p, q := Path(idx, x), Path(idx, y);
    while a != b && a.Some? && b.Some?
      invariant a.Some? <==> b.Some?
      invariant a.None? ==> k == 0
      invariant 0 <= k <= |p| && k <= |q| && CommonLength(p, q) <= k
      invariant a.Some? ==> k > 0 && SitsAt(idx, p, a.value, k - 1) && SitsAt(idx, q, b.value, k - 1)
      decreases k
    {
      DifferAt(p, q, k - 1);
      OneDown(idx, p, a.value, k - 1);
      OneDown(idx, q, b.value, k - 1);
      a, b, k := idx[a.value].prev, idx[b.value].prev, k - 1;
    }
    if a.Some? {
      SharedPrefix(p, q, k);
    }
    return a;
  }

  /** Block a is entry i of p and its path is p up to there. */
  ghost predicate SitsAt(idx: Index, p: seq<Hash>, a: Hash, i: nat)
    requires Linked(idx)
  {
    i < |p| && p[i] == a && a in idx && idx[a].height == i && Path(idx, a) == p[..i + 1]
  }

  lemma OneDown(idx: Index, p: seq<Hash>, a: Hash, i: nat)
    requires Linked(idx) && SitsAt(idx, p, a, i)
    ensures idx[a].prev.None? <==> i == 0
    ensures idx[a].prev.Some? ==> SitsAt(idx, p, idx[a].prev.value, i - 1)
  {
    hide Path, Linked;
    StepBack(idx, a);
    if idx[a].prev.Some? {
      assert p[..i + 1][..i] == p[..i];
      LastOfPath(idx, idx[a].prev.value);
      assert p[..i][i - 1] == p[i - 1];
    }
  }

  lemma LastOfPath(idx: Index, h: Hash)
    requires Linked(idx) && h in idx
    ensures |Path(idx, h)| == idx[h].height + 1 && Path(idx, h)[idx[h].height] == h
  {
  }

  lemma StepBack(idx: Index, h: Hash)
    requires Linked(idx) && h in idx
    ensures idx[h].prev.None? <==> idx[h].height == 0
    ensures idx[h].prev.Some? ==>
              && idx[h].prev.value in idx
              && idx[idx[h].prev.value].height == idx[h].height - 1
              && Path(idx, idx[h].prev.value) == Path(idx, h)[..idx[h].height]
  {
    if idx[h].prev.Some? {
      PathOfChild(idx, h);
    }
  }

  // ---- The active chain ----

  class CChain {
    var vChain: seq<Option<Hash>>

    /** Entry i is the block of path p at height i. */
    ghost predicate Holds(p: seq<Hash>)
      reads this
    {
      |vChain| == |p| && forall i :: 0 <= i < |p| ==> vChain[i] == Some(p[i])
    }

    /** The entries as hashes. */
    ghost function Hashes(): (p: seq<Hash>)
      reads this
      ensures |p| == |vChain|
      ensures Holds(p) <==> forall i :: 0 <= i < |vChain| ==> vChain[i].Some?
    {
      seq(|vChain|, i requires 0 <= i < |vChain| reads this => if vChain[i].Some? then vChain[i].value else NULL_HASH)
    }

    lemma HoldsHashes(p: seq<Hash>)
      requires Holds(p)
      ensures Hashes() == p
    {
    }

    /** The vector is empty or the path to its last entry. */
    ghost predicate Mirrors(idx: Index)
      reads this
      requires Linked(idx)
    {
      vChain == [] || (Tip().Some? && Tip().value in idx && Holds(Path(idx, Tip().value)))
    }

    constructor ()
      ensures vChain == []
    {
      vChain := [];
    }

    function Tip(): (t: Option<Hash>)
      reads this
    {
      if |vChain| > 0 then vChain[|vChain| - 1] else None
    }

    function Height(): (h: int)
      reads this
    {
      |vChain| - 1
    }

    function At(height: int): (h: Option<Hash>)
      reads this
    {
      if 0 <= height < |vChain| then vChain[height] else None
    }

    predicate Contains(idx: Index, h: Hash)
      reads this
      requires h in idx
    {
      idx[h].height < |vChain| && vChain[idx[h].height] == Some(h)
    }

    /** Contains answers "is an ancestor of the tip". */
    lemma ContainsIsAncestry(idx: Index, h: Hash)
      requires Linked(idx) && Mirrors(idx) && h in idx
      ensures Contains(idx, h) <==> vChain != [] && IsAncestor(idx, h, Tip().value)
    {
    }

    function Next(idx: Index, h: Hash): (n: Option<Hash>)
      reads this
      requires h in idx
    {
      if Contains(idx, h) then At(idx[h].height + 1) else None
    }

    /** SetTip: resizes, then rewrites entries from the new tip down to the first that is already right. */
    method SetTip(idx: Index, h: Hash)
      requires Linked(idx) && Mirrors(idx) && h in idx
      modifies this
      ensures Holds(Path(idx, h)) && Tip() == Some(h) && Mirrors(idx)
    {
      hide Path, Linked, Rewritten;
      var size := idx[h].height + 1;
      ghost var before := vChain;
      ghost var p := Path(idx, h);
      vChain := if size <= |vChain| then vChain[..size] else vChain + seq(size - |vChain|, _ => None);
      var cur := Some(h);
      ghost var k := size;
      RewriteStarts(p, before, vChain);
      while cur.Some?
        invariant 0 <= k <= size == |vChain| == |p| && Rewritten(p, before, k, vChain)
        invariant cur.None? <==> k == 0
        invariant cur.Some? ==> cur.value in idx && idx[cur.value].height == k - 1 && p[k - 1] == cur.value
        decreases k
      {
        var i := idx[cur.value].height;
        if vChain[i] == cur {
          RewriteHit(p, before, k, vChain);
          AlreadySet(idx, before, h, i);
          RewriteStops(p, before, k, vChain);
          return;
        }
        RewriteStep(p, before, k, vChain);
        vChain := vChain[i := cur];
        ParentOnPath(idx, h, i);
        cur := idx[cur.value].prev;
        k := k - 1;
      }
      RewriteEnds(p, before, vChain);
    }

    /** FindFork: the highest block of this chain that is an ancestor of h. */
    method FindFork(idx: Index, h: Option<Hash>) returns (f: Option<Hash>)
      requires Linked(idx) && SkipsCorrect(idx) && Mirrors(idx)
      requires h.Some? ==> h.value in idx
      ensures h.None? || vChain == [] ==> f == None
      ensures h.Some? && vChain != [] ==> f == ForkPoint(idx, Tip().value, h.value)
    {
      hide Path, Linked;
      if h.None? {
        return None;
      }
      var cur := h;
      if idx[h.value].height > Height() {
        cur := GetAncestor(idx, h.value, Height());
        if Height() < 0 {
          return None;
        }
        PathPrefix(idx, h.value, Height());
      }
      f := WalkToChain(idx, h.value, cur.value);
    }

    /** Steps an ancestor of h towards the root until it is on this chain. */
    method WalkToChain(idx: Index, ghost h: Hash, start: Hash) returns (f: Option<Hash>)
      requires Linked(idx) && Mirrors(idx) && vChain != [] && h in idx && start in idx
      requires idx[start].height <= Height() && idx[start].height <= idx[h].height
      requires idx[start].height == Height() || idx[start].height == idx[h].height
      requires Path(idx, start) == Path(idx, h)[..idx[start].height + 1]
      ensures f == ForkPoint(idx, Tip().value, h)
    {
      hide Path, Linked, CommonLength;
      var cur := Some(start);
      ghost var p, q, k := Path(idx, Tip().value), Path(idx, h), idx[start].height + 1;
      while cur.Some? && !Contains(idx, cur.value)
        invariant 0 <= k <= |q| && k <= |p| && (cur.None? <==> k == 0)
        invariant CommonLength(p, q) <= k
        invariant cur.Some? ==> cur.value in idx && k == idx[cur.value].height + 1 && Path(idx, cur.value) == q[..k]
        decreases k
      {
        assert q[..k][k - 1] == cur.value;
        DifferAt(p, q, k - 1);
        StepBack(idx, cur.value);
        cur := idx[cur.value].prev;
        k := k - 1;
      }
      if cur.Some? {
        assert q[..k][k - 1] == cur.value;
        PathsMeet(idx, Tip().value, h, k - 1);
        SharedPrefix(p, q, k);
      }
      return cur;
    }

    /** FindEarliestAtLeast: the lowest block at or above the height whose running maximum time reaches t. */
    method FindEarliestAtLeast(idx: Index, t: int, height: int) returns (e: Option<Hash>)
      requires Linked(idx) && Mirrors(idx) && TimeMaxMonotone(idx)
      ensures e.None? ==> forall i :: 0 <= i < |vChain| ==> idx[vChain[i].value].timeMax < t || i < height
      ensures e.Some? ==>
                exists k :: && 0 <= k < |vChain| && vChain[k] == e && idx[e.value].timeMax >= t && k >= height
                            && forall i :: 0 <= i < k ==> idx[vChain[i].value].timeMax < t || i < height
    {
      hide Path, Linked, TimeMaxMonotone;
      var lo, hi := 0, |vChain|;
      while lo < hi
        invariant 0 <= lo <= hi <= |vChain|
        invariant forall i :: 0 <= i < lo ==> idx[vChain[i].value].timeMax < t || i < height
        invariant forall i :: hi <= i < |vChain| ==> idx[vChain[i].value].timeMax >= t && i >= height
      {
        var mid := (lo + hi) / 2;
        if idx[vChain[mid].value].timeMax < t || mid < height {
          forall i | 0 <= i < mid
            ensures idx[vChain[i].value].timeMax <= idx[vChain[mid].value].timeMax
          {
            TimeMaxAlongPath(idx, Tip().value, i, mid);
          }
          lo := mid + 1;
        } else {
          forall i | mid <= i < |vChain|
            ensures idx[vChain[mid].value].timeMax <= idx[vChain[i].value].timeMax
          {
            TimeMaxAlongPath(idx, Tip().value, mid, i);
          }
          hi := mid;
        }
      }
      return if lo == |vChain| then None else vChain[lo];
    }
  }

  /** The entries from height k up are those of p; below they are what the resize left. */
  ghost predicate Rewritten(p: seq<Hash>, before: seq<Option<Hash>>, k: nat, v: seq<Option<Hash>>)
  {
    && k <= |v| == |p|
    && (forall i :: k <= i < |v| ==> v[i] == Some(p[i]))
    && forall i :: 0 <= i < k ==> v[i] == if i < |before| then before[i] else None
  }

  lemma RewriteStarts(p: seq<Hash>, before: seq<Option<Hash>>, v: seq<Option<Hash>>)
    requires v == if |p| <= |before| then before[..|p|] else before + seq(|p| - |before|, _ => None)
    ensures Rewritten(p, before, |p|, v)
  {
  }

  lemma RewriteStep(p: seq<Hash>, before: seq<Option<Hash>>, k: nat, v: seq<Option<Hash>>)
    requires 0 < k <= |v| && Rewritten(p, before, k, v)
    ensures Rewritten(p, before, k - 1, v[k - 1 := Some(p[k - 1])])
  {
  }

  lemma RewriteEnds(p: seq<Hash>, before: seq<Option<Hash>>, v: seq<Option<Hash>>)
    requires Rewritten(p, before, 0, v)
    ensures |v| == |p| && forall i :: 0 <= i < |p| ==> v[i] == Some(p[i])
  {
  }

  lemma RewriteHit(p: seq<Hash>, before: seq<Option<Hash>>, k: nat, v: seq<Option<Hash>>)
    requires 0 < k <= |v| && Rewritten(p, before, k, v) && v[k - 1].Some?
    ensures k <= |before| && before[k - 1] == v[k - 1]
  {
  }

  /** The walk may stop where everything below was right before. */
  lemma RewriteStops(p: seq<Hash>, before: seq<Option<Hash>>, k: nat, v: seq<Option<Hash>>)
    requires k <= |before| && Rewritten(p, before, k, v) && forall j :: 0 <= j < k ==> before[j] == Some(p[j])
    ensures |v| == |p| && forall i :: 0 <= i < |p| ==> v[i] == Some(p[i])
  {
  }

  /** An entry that was right before the resize sits on a prefix that was right too. */
  lemma AlreadySet(idx: Index, before: seq<Option<Hash>>, h: Hash, i: nat)
    requires Linked(idx) && h in idx && i <= idx[h].height && i < |before|
    requires before[|before| - 1].Some? && before[|before| - 1].value in idx
    requires var q := Path(idx, before[|before| - 1].value);
             |before| == |q| && forall j :: 0 <= j < |q| ==> before[j] == Some(q[j])
    requires before[i] == Some(Path(idx, h)[i])
    ensures forall j :: 0 <= j <= i ==> before[j] == Some(Path(idx, h)[j])
  {
    hide Path, Linked;
    var t := before[|before| - 1].value;
    PathsMeet(idx, t, h, i);
    forall j | 0 <= j <= i
      ensures Path(idx, t)[j] == Path(idx, h)[j]
    {
      assert Path(idx, t)[..i + 1][j] == Path(idx, h)[..i + 1][j];
    }
  }

  lemma ParentOnPath(idx: Index, h: Hash, i: nat)
    requires Linked(idx) && h in idx && i <= idx[h].height
    ensures var c := Path(idx, h)[i];
            if i == 0 then idx[c].prev == None else idx[c].prev == Some(Path(idx, h)[i - 1])
  {
    PathPrefix(idx, h, i);
    var c := Path(idx, h)[i];
    if i > 0 {
      PathOfChild(idx, c);
      assert Path(idx, h)[..i + 1][i - 1] == Path(idx, c)[i - 1];
    }
  }

  // ---- Running maximum of block times ----

  ghost predicate TimeMaxMonotone(idx: Index)
    requires Linked(idx)
  {
    forall h :: h in idx && idx[h].prev.Some? ==> idx[idx[h].prev.value].timeMax <= idx[h].timeMax
  }

  lemma {:induction false} TimeMaxAlongPath(idx: Index, h: Hash, i: nat, j: nat)
    requires Linked(idx) && TimeMaxMonotone(idx) && h in idx && i <= j <= idx[h].height
    ensures idx[Path(idx, h)[i]].timeMax <= idx[Path(idx, h)[j]].timeMax
    decreases j
  {
    if i < j {
      ParentOnPath(idx, h, j);
      TimeMaxAlongPath(idx, h, i, j - 1);
    }
  }

  // ---- Block locators ----

  /** The height of entry i of a locator from height top: one lower each up to the twelfth, then twice as far each time. */
  ghost function Rung(top: nat, i: nat): (height: nat)
  {
    var down := if i <= 11 then i else 9 + Pow2(i - 10);
    if down < top then top - down else 0
  }

  /** Hashes on the path to h, first h, last the root, in strictly falling height, each at its rung. */
  ghost predicate IsLocator(idx: Index, h: Hash, have: seq<Hash>)
    requires Linked(idx) && h in idx
  {
    && |have| > 0 && have[0] == h && have[|have| - 1] == Path(idx, h)[0]
    && (forall i :: 0 <= i < |have| ==> IsAncestor(idx, have[i], h) && have[i] in idx && idx[have[i]].height == Rung(idx[h].height, i))
    && forall i, j :: 0 <= i < j < |have| ==> idx[have[i]].height > idx[have[j]].height
  }

  /** LocatorEntries: steps of one for the first entries, then doubling, down to the root. */
  method LocatorEntries(idx: Index, h: Option<Hash>) returns (have: seq<Hash>)
    requires Linked(idx) && SkipsCorrect(idx)
    requires h.Some? ==> h.value in idx
    ensures h.None? ==> have == []
    ensures h.Some? ==> IsLocator(idx, h.value, have)
    ensures h.Some? && idx[h.value].height < 0x8000_0000 ==> |have| <= MAX_LOCATOR_SZ
    ensures h.Some? && idx[h.value].height > 0 ==> |have| > 1 && have[1] == Path(idx, h.value)[idx[h.value].height - 1]
  {
    hide Path, Linked, SkipsCorrect, Pow2, Locating, IsLocator, Rung;
    LocatorSteps();
    have := [];
    if h.None? {
      return;
    }
    var step := 1;
    var cur := h.value;
    ghost var top := idx[cur].height;
    assert Path(idx, h.value)[..top + 1] == Path(idx, h.value);
    LocatingStarts(idx, cur);
    while true
      invariant cur in idx && Path(idx, cur) == Path(idx, h.value)[..idx[cur].height + 1]
      invariant idx[cur].height <= top == idx[h.value].height
      invariant |have| <= 10 ==> step == 1 && idx[cur].height == top - |have|
      invariant |have| > 10 ==> step == Pow2(|have| - 10) <= 2 * top
      invariant |have| > 10 && idx[cur].height > 0 ==> idx[cur].height + step + 9 <= top
      invariant Locating(idx, h.value, have, cur)
      invariant idx[cur].height == Rung(top, |have|)
      decreases idx[cur].height
    {
      NextRung(top, |have|);
      LocatingNext(idx, h.value, have, cur);
      have := have + [cur];
      if idx[cur].height == 0 {
        LocatorStaysShort(|have| - 1, top);
        return;
      }
      var next := JumpBack(idx, h.value, cur, step);
      assert Follows(idx, h.value, have[..|have| - 1], cur, next);
      cur := next;
      if |have| > 10 {
        step := step * 2;
      }
    }
  }

  /** The entries so far lie on the path to h in falling height, all above cur, the next one. */
  ghost predicate Locating(idx: Index, h: Hash, have: seq<Hash>, cur: Hash)
    requires Linked(idx) && h in idx && cur in idx
  {
    && (if have == [] then cur == h else have[0] == h)
    && (|have| == 1 ==> idx[cur].height == idx[h].height - 1)
    && (|have| > 1 ==> idx[h].height > 0 && have[1] == Path(idx, h)[idx[h].height - 1])
    && (forall i :: 0 <= i < |have| ==> have[i] in idx && IsAncestor(idx, have[i], h) && idx[have[i]].height > idx[cur].height)
    && (forall i :: 0 <= i < |have| ==> idx[have[i]].height == Rung(idx[h].height, i))
    && forall i, j :: 0 <= i < j < |have| ==> idx[have[i]].height > idx[have[j]].height
  }

  /** A later entry: lower, and for the second entry just below h. */
  ghost predicate Follows(idx: Index, h: Hash, have: seq<Hash>, cur: Hash, next: Hash)
    requires h in idx && cur in idx
  {
    && next in idx && idx[next].height < idx[cur].height
    && (have == [] ==> idx[next].height == idx[h].height - 1)
  }

  lemma LocatingStarts(idx: Index, h: Hash)
    requires Linked(idx) && h in idx
    ensures Locating(idx, h, [], h) && idx[h].height == Rung(idx[h].height, 0)
  {
    hide Path, Linked;
  }

  lemma LocatingNext(idx: Index, h: Hash, have: seq<Hash>, cur: Hash)
    requires Linked(idx) && h in idx && cur in idx && idx[cur].height <= idx[h].height
    requires Path(idx, cur) == Path(idx, h)[..idx[cur].height + 1] && Locating(idx, h, have, cur)
    requires idx[cur].height == Rung(idx[h].height, |have|)
    ensures var more := have + [cur];
            && more[0] == h
            && (idx[cur].height == 0 ==> IsLocator(idx, h, more))
            && (|more| > 1 ==> more[1] == Path(idx, h)[idx[h].height - 1])
            && forall next :: Follows(idx, h, have, cur, next) ==> Locating(idx, h, more, next)
  {
    hide Path, Linked, Rung;
    assert Path(idx, h)[idx[cur].height] == cur by {
      assert Path(idx, h)[..idx[cur].height + 1][idx[cur].height] == cur;
    }
  }

  lemma NextRung(top: nat, n: nat)
    ensures Rung(top, 0) == top
    ensures var step := if n <= 10 then 1 else Pow2(n - 10);
            Rung(top, n + 1) == if Rung(top, n) > step then Rung(top, n) - step else 0
  {
    if n >= 11 {
      assert Pow2(n - 9) == 2 * Pow2(n - 10);
    }
    assert Pow2(0) == 1 && Pow2(1) == 2;
  }

  /** The first entry at or below a height is at most twice as far from the top as that height is. */
  lemma LocatorReaches(idx: Index, h: Hash, have: seq<Hash>, x: nat) returns (i: nat)
    requires Linked(idx) && h in idx && IsLocator(idx, h, have) && x <= idx[h].height
    ensures i < |have| && have[i] in idx && idx[have[i]].height <= x && forall j :: 0 <= j < i ==> have[j] in idx && idx[have[j]].height > x
    ensures idx[h].height - idx[have[i]].height <= 2 * (idx[h].height - x)
  {
    hide Path, Linked, Rung, Pow2, IsAncestor;
    i := 0;
    LastIsRoot(idx, h, have);
    while idx[have[i]].height > x
      invariant i < |have| && forall j :: 0 <= j < i ==> have[j] in idx && idx[have[j]].height > x
      decreases |have| - i
    {
      i := i + 1;
    }
    NextRung(idx[h].height, 0);
    if i > 0 {
      RungReaches(idx[h].height, i - 1, x);
    }
  }

  lemma LastIsRoot(idx: Index, h: Hash, have: seq<Hash>)
    requires Linked(idx) && h in idx && IsLocator(idx, h, have)
    ensures have[|have| - 1] in idx && idx[have[|have| - 1]].height == 0
  {
    hide Linked, Rung;
    PathPrefix(idx, h, 0);
  }

  lemma RungReaches(top: nat, n: nat, x: nat)
    requires Rung(top, n) > x && Rung(top, n + 1) <= x
    ensures top - Rung(top, n + 1) <= 2 * (top - x)
  {
    hide Pow2;
    NextRung(top, n);
    LocatorSteps();
  }

  lemma LocatorSteps()
    ensures Pow2(0) == 1 && Pow2(1) == 2 && forall n: nat :: Pow2(n + 1) == 2 * Pow2(n)
  {
  }

  method JumpBack(idx: Index, ghost h: Hash, cur: Hash, step: nat) returns (next: Hash)
    requires Linked(idx) && SkipsCorrect(idx) && h in idx && cur in idx && step > 0
    requires 0 < idx[cur].height <= idx[h].height && Path(idx, cur) == Path(idx, h)[..idx[cur].height + 1]
    ensures next in idx
    ensures idx[next].height == if idx[cur].height > step then idx[cur].height - step else 0
    ensures Path(idx, next) == Path(idx, h)[..idx[next].height + 1]
  {
    hide Path, Linked, SkipsCorrect;
    var height := if idx[cur].height - step > 0 then idx[cur].height - step else 0;
    PathPrefix(idx, cur, height);
    var a := GetAncestor(idx, cur, height);
    return a.value;
  }

  lemma LocatorStaysShort(n: nat, top: nat)
    requires n > 10 ==> Pow2(n - 10) <= 2 * top
    ensures top < 0x8000_0000 ==> n < MAX_LOCATOR_SZ
  {
    if n >= 74 {
      Pow2Of64();
      Pow2Mono(64, n - 10);
    }
  }

  // ---- Median time past ----

  /** GetMedianTimePast: collects at most eleven times walking back, sorts them and takes the middle. */
  method GetMedianTimePast(idx: Index, h: Hash) returns (m: nat)
    requires Linked(idx) && h in idx
    ensures m == MedianTimePast(Times(Headers(idx, h)))
  {
    hide Path, Linked, Sort;
    var w: seq<nat> := [];
    var cur := Some(h);
    ghost var ts := Times(Headers(idx, h));
    while |w| < MEDIAN_TIME_SPAN && cur.Some?
      invariant |w| <= MEDIAN_TIME_SPAN && |w| <= |ts|
      invariant w == ts[|ts| - |w|..]
      invariant cur.None? <==> |w| == |ts|
      invariant cur.Some? ==> cur.value == Path(idx, h)[|ts| - |w| - 1]
      decreases |ts| - |w|
    {
      ParentOnPath(idx, h, |ts| - |w| - 1);
      w := [idx[cur.value].header.time] + w;
      cur := idx[cur.value].prev;
    }
    assert w == Window(ts);
    SortSorts(w);
    return Sort(w)[|w| / 2];
  }
}
