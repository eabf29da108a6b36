/** Skip pointers: ancestor lookup agrees with walking parents. */
module SkipList {
  import opened Bits
  import opened Primitives
  import opened BlockTree

  /** n & (n - 1): clears the lowest set bit. */
  function InvertLowestOne(n: nat): (r: nat)
    ensures r <= n && (n > 0 ==> r < n)
  {
    if n == 0 then 0
    else
      BitAndBelow(n, n - 1);
      BitAnd(n, n - 1)
  }

  /** It takes away the largest power of two that divides n. */
  lemma {:induction false} ClearsLowest(n: nat) returns (k: nat)
    requires n > 0
    ensures n % Pow2(k) == 0 && n / Pow2(k) % 2 == 1 && Pow2(k) <= n && InvertLowestOne(n) == n - Pow2(k)
  {
    if n % 2 == 1 {
      k := 0;
      OddAnd(n);
      assert Pow2(0) == 1;
    } else {
      var j := ClearsLowest(n / 2);
      k := j + 1;
      EvenAnd(n);
      HalfDivides(n, j);
    }
  }

  lemma OddAnd(n: nat)
    requires n % 2 == 1
    ensures BitAnd(n, n - 1) == n - 1
  {
    hide BitAnd;
    AndUnfolds(n, n - 1);
    SelfAnd(n / 2);
  }

  lemma AndUnfolds(x: nat, y: nat)
    ensures BitAnd(x, y) ==
            if x == 0 || y == 0 then 0
            else 2 * BitAnd(x / 2, y / 2) + (if x % 2 == 1 && y % 2 == 1 then 1 else 0)
  {
  }

  lemma {:induction false} SelfAnd(n: nat)
    ensures BitAnd(n, n) == n
  {
    hide BitAnd;
    AndUnfolds(n, n);
    if n > 0 {
      SelfAnd(n / 2);
    }
  }

  lemma EvenAnd(n: nat)
    requires n > 0 && n % 2 == 0
    ensures BitAnd(n, n - 1) == 2 * BitAnd(n / 2, n / 2 - 1)
  {
    hide BitAnd;
    AndUnfolds(n, n - 1);
  }

  lemma HalfDivides(n: nat, j: nat)
    requires n % 2 == 0 && (n / 2) % Pow2(j) == 0
    ensures Pow2(j + 1) == 2 * Pow2(j) && n % Pow2(j + 1) == 0 && n / Pow2(j + 1) == (n / 2) / Pow2(j)
  {
    var q := (n / 2) / Pow2(j);
    assert n / 2 == q * Pow2(j) + 0;
    assert n == q * (2 * Pow2(j)) + 0;
    DivModUnique(n, 2 * Pow2(j), q, 0);
  }

  function GetSkipHeight(height: nat): (s: nat)
    ensures height > 0 ==> s < height
    ensures height == 0 ==> s == 0
  {
    if height < 2 then 0
    else if height % 2 == 1 then InvertLowestOne(InvertLowestOne(height - 1)) + 1
    else InvertLowestOne(height)
  }

  /** Two to the k is the largest power of two that divides n. */
  predicate LowestOne(n: nat, k: nat)
  {
    n % Pow2(k) == 0 && n / Pow2(k) % 2 == 1 && Pow2(k) <= n
  }

  /** An even height skips its lowest power of two, an odd one the two lowest of the height below it. */
  lemma SkipHeightExactly(height: nat, j: nat, k: nat)
    requires height >= 2
    ensures height % 2 == 0 && LowestOne(height, k) ==> GetSkipHeight(height) == height - Pow2(k)
    ensures height % 2 == 1 && LowestOne(height - 1, j) && LowestOne(height - 1 - Pow2(j), k) ==>
              GetSkipHeight(height) == height - Pow2(j) - Pow2(k)
    ensures height % 2 == 1 && height - 1 == Pow2(j) ==> GetSkipHeight(height) == 1
  {
    hide InvertLowestOne, Pow2;
    ClearsThis(height, k);
    ClearsThis(height - 1, j);
    if height - 1 >= Pow2(j) {
      ClearsThis(height - 1 - Pow2(j), k);
    }
    if height - 1 == Pow2(j) {
      OnlyOne(j);
      ZeroStays();
    }
  }

  lemma OnlyOne(j: nat)
    ensures LowestOne(Pow2(j), j)
  {
    hide Pow2;
    DivModUnique(Pow2(j), Pow2(j), 1, 0);
  }

  lemma ZeroStays()
    ensures InvertLowestOne(0) == 0
  {
  }

  lemma ClearsThis(n: nat, k: nat)
    ensures LowestOne(n, k) ==> InvertLowestOne(n) == n - Pow2(k)
  {
    hide InvertLowestOne, Pow2;
    if LowestOne(n, k) {
      var j := ClearsLowest(n);
      OneLowest(n, j, k);
      OneLowest(n, k, j);
    }
  }

  lemma OneLowest(n: nat, j: nat, k: nat)
    requires LowestOne(n, j) && LowestOne(n, k)
    ensures j <= k
  {
    hide Pow2;
    if j > k {
      var q, d := n / Pow2(j), j - k - 1;
      Pow2Add(k, d + 1);
      DoublePow(d);
      assert n == q * Pow2(j) + 0;
      assert q * (Pow2(k) * (2 * Pow2(d))) == (2 * (q * Pow2(d))) * Pow2(k) + 0;
      DivModUnique(n, Pow2(k), 2 * (q * Pow2(d)), 0);
    }
  }

  lemma DoublePow(d: nat)
    ensures Pow2(d + 1) == 2 * Pow2(d)
  {
  }

  /** Every skip pointer is the ancestor at the skip height. */
  ghost predicate SkipsCorrect(idx: Index)
    requires Linked(idx)
  {
    forall h :: h in idx && idx[h].skip.Some? ==>
                  idx[h].height > 0 && idx[h].skip.value == Path(idx, h)[GetSkipHeight(idx[h].height)]
  }

  ghost function AncestorAt(idx: Index, h: Hash, height: int): (a: Option<Hash>)
    requires Linked(idx) && h in idx
  {
    if 0 <= height <= idx[h].height then Some(Path(idx, h)[height]) else None
  }

  /** GetAncestor: follows skip pointers where they do not overshoot, parents elsewhere. */
  method GetAncestor(idx: Index, h: Hash, height: int) returns (a: Option<Hash>)
    requires Linked(idx) && SkipsCorrect(idx) && h in idx
    ensures a == AncestorAt(idx, h, height)
  {
    hide GetSkipHeight, Path, Linked;
    if height > idx[h].height || height < 0 {
      return None;
    }
    var walk, heightWalk := h, idx[h].height;
    assert Path(idx, h)[..heightWalk + 1] == Path(idx, h);
    while heightWalk > height
      invariant height <= heightWalk <= idx[h].height
      invariant walk in idx && idx[walk].height == heightWalk
      invariant Path(idx, walk) == Path(idx, h)[..heightWalk + 1]
    {
      var heightSkip := GetSkipHeight(heightWalk);
      var heightSkipPrev := GetSkipHeight(heightWalk - 1);
      if idx[walk].skip.Some?
         && (heightSkip == height
             || (heightSkip > height && !(heightSkipPrev < heightSkip - 2 && heightSkipPrev >= height)))
      {
        PathPrefix(idx, walk, heightSkip);
        walk := idx[walk].skip.value;
        heightWalk := heightSkip;
      } else {
        ParentPath(idx, walk);
        walk := idx[walk].prev.value;
        heightWalk := heightWalk - 1;
      }
    }
    return Some(walk);
  }

  lemma ParentPath(idx: Index, h: Hash)
    requires Linked(idx) && h in idx && idx[h].height > 0
    ensures idx[h].prev.Some? && idx[h].prev.value in idx
    ensures idx[idx[h].prev.value].height == idx[h].height - 1
    ensures Path(idx, idx[h].prev.value) == Path(idx, h)[..idx[h].height]
  {
    PathOfChild(idx, h);
  }

  /** BuildSkip for a block with the given parent and height: the ancestor at the skip height. */
  method BuildSkip(idx: Index, prev: Option<Hash>, height: nat) returns (skip: Option<Hash>)
    requires Linked(idx) && SkipsCorrect(idx)
    requires prev.Some? ==> prev.value in idx && height == idx[prev.value].height + 1
    ensures prev.None? ==> skip == None
    ensures prev.Some? ==> skip == Some(Path(idx, prev.value)[GetSkipHeight(height)])
  {
    if prev.None? {
      return None;
    }
    skip := GetAncestor(idx, prev.value, GetSkipHeight(height));
  }
}
