/** A node catching up with a longer chain: what accepting its headers in order does, whatever orphans are pooled. */
module CatchUp {
  import opened Bits
  import opened Compact
  import opened Work
  import opened Primitives
  import opened Validation
  import opened BlockTree
  import opened SkipList
  import opened TreeGrowth
  import opened ActiveChain
  import opened Selector
  import opened Chainstate
  import opened Activation
  import opened Submission
  import opened Invalidation
  import opened Orphans
  import opened Promotion
  import opened Protocol
  import opened SyncSpec

  /**
   * A node with index `start` and orphan pool `pool`, whose active chain is the first t + 1 blocks of c and which
   * knows the first known + 1 of them. `finished` says whether its initial download had ended.
   */
  datatype Session = Session(start: Index, pool: Pool, c: seq<Header>, t: nat, known: nat, now: int, finished: bool)

  function Last(k: Session): (n: int)
  {
    |k.c| - 1
  }

  // ---- The chain inside the index ----

  /** Block i of c is indexed with its header below block i - 1, and it is valid. */
  ghost predicate SpineAt(e: Env, idx: Index, c: seq<Header>, i: nat)
    requires i < |c|
  {
    var x := e.oracle.hash(c[i]);
    && Valid(idx, x) && idx[x].header == c[i]
    && idx[x].prev == (if i == 0 then None else Some(e.oracle.hash(c[i - 1])))
  }

  ghost predicate Spine(e: Env, idx: Index, c: seq<Header>, n: nat)
  {
    n < |c| && forall i :: 0 <= i <= n ==> SpineAt(e, idx, c, i)
  }

  lemma {:induction false} SpinePath(e: Env, idx: Index, c: seq<Header>, n: nat)
    requires Linked(idx) && Spine(e, idx, c, n)
    ensures var x := e.oracle.hash(c[n]);
            x in idx && Path(idx, x) == HashesOf(e.oracle, c[..n + 1]) && Headers(idx, x) == c[..n + 1]
  {
    hide Linked, Path, Headers, HashesOf;
    assert SpineAt(e, idx, c, n);
    if n == 0 {
      RootPath(idx, e.oracle.hash(c[0]));
      assert c[..1] == [c[0]];
      HashesOne(e.oracle, c[0]);
    } else {
      SpinePath(e, idx, c, n - 1);
      ChildPath(idx, e.oracle.hash(c[n]), e.oracle.hash(c[n - 1]));
      HashesMore(e.oracle, c, n);
    }
  }

  lemma RootPath(idx: Index, h: Hash)
    requires Linked(idx) && h in idx && idx[h].prev.None?
    ensures Path(idx, h) == [h] && Headers(idx, h) == [idx[h].header]
  {
  }

  lemma ChildPath(idx: Index, h: Hash, p: Hash)
    requires Linked(idx) && h in idx && idx[h].prev == Some(p)
    ensures p in idx && Path(idx, h) == Path(idx, p) + [h] && Headers(idx, h) == Headers(idx, p) + [idx[h].header]
  {
    PathOfChild(idx, h);
    ParentHeaders(idx, h);
  }

  lemma HashesOne(o: Oracle, header: Header)
    ensures HashesOf(o, [header]) == [o.hash(header)]
  {
  }

  lemma HashesMore(o: Oracle, c: seq<Header>, n: nat)
    requires 0 < n < |c|
    ensures HashesOf(o, c[..n + 1]) == HashesOf(o, c[..n]) + [o.hash(c[n])]
    ensures c[..n + 1] == c[..n] + [c[n]]
  {
  }

  // ---- Where a session starts ----

  /** A pooled orphan with the hash of a block of c is that block. */
  ghost predicate NoClash(o: Oracle, pool: Pool, c: seq<Header>)
  {
    forall i :: 0 <= i < |c| && o.hash(c[i]) in pool ==> pool[o.hash(c[i])].header == c[i]
  }

  /** The work of c from the block below the tip on stays below 2^256. */
  ghost predicate Room(e: Env, k: Session)
  {
    var f := StartOf(k.t);
    && f < |k.c| && e.oracle.hash(k.c[f]) in k.start
    && k.start[e.oracle.hash(k.c[f])].work + ProofSum(BitsOf(k.c[f + 1..])) < TWO_256
  }

  /** c is a good chain of which the node knows a prefix. */
  ghost predicate Starts(e: Env, k: Session)
  {
    && GoodChain(e, k.c, k.now) && IndexInv(e, k.start) && k.t <= k.known
    && Spine(e, k.start, k.c, k.known) && (forall i :: k.known < i < |k.c| ==> e.oracle.hash(k.c[i]) !in k.start)
    && Keyed(e.oracle, k.pool) && NoClash(e.oracle, k.pool, k.c) && Room(e, k)
  }

  /** Every block indexed since the start is valid and is one of the first p + 1 of c or a pooled orphan. */
  ghost predicate OriginAt(e: Env, k: Session, idx: Index, p: nat, h: Hash)
    requires h in idx
  {
    && idx[h].status.IsValid()
    && ((exists i :: 0 <= i <= p && i < |k.c| && idx[h].header == k.c[i])
        || (h in k.pool && idx[h].header == k.pool[h].header))
  }

  ghost predicate Origin(e: Env, k: Session, idx: Index, p: nat)
  {
    && IndexInv(e, idx) && Extends(k.start, idx)
    && forall h {:trigger idx[h].prev} {:trigger OriginAt(e, k, idx, p, h)} :: h in idx && h !in k.start ==> OriginAt(e, k, idx, p, h)
  }

  lemma EntryFacts(e: Env, idx: Index, h: Hash)
    requires IndexInv(e, idx) && h in idx
    ensures Linked(idx) && e.oracle.hash(idx[h].header) == h && ValidBits(idx[h].header.bits)
    ensures idx[h].header.prev != NULL_HASH ==> idx[h].prev == Some(idx[h].header.prev) && idx[h].header.prev in idx
    ensures idx[h].prev.Some? ==> idx[h].prev == Some(idx[h].header.prev) && idx[h].prev.value in idx
  {
    hide Rooted, Closed, AcceptedPaths, Path, GetSkipHeight, BlockProof, AddWork;
    assert EntryOk(e.oracle, idx, h);
    LinkedAt(idx, h);
  }

  lemma ChainDistinct(e: Env, k: Session, i: nat, j: nat)
    requires GoodChain(e, k.c, k.now) && i < |k.c| && j < |k.c|
    ensures e.oracle.hash(k.c[i]) == e.oracle.hash(k.c[j]) <==> i == j
    ensures i > 0 ==> k.c[i].prev == e.oracle.hash(k.c[i - 1]) && k.c[i].prev != NULL_HASH
  {
    hide ContextualCheck, FullPow;
    if i > 0 {
      assert GoodNext(e, k.c, i, k.now);
    }
  }

  /** A block of c that was indexed since the start sits there below its predecessor. */
  lemma IndexedSpine(e: Env, k: Session, idx: Index, p: nat, i: nat)
    requires Starts(e, k) && Origin(e, k, idx, p) && i < |k.c| && e.oracle.hash(k.c[i]) in idx
    ensures SpineAt(e, idx, k.c, i) && (i > 0 ==> e.oracle.hash(k.c[i - 1]) in idx)
  {
    hide Starts, Origin, GoodChain, IndexInv, SpineAt, Extends;
    StartsRoom(e, k);
    OriginLinked(e, k, idx, p);
    if i <= k.known {
      KnownSpine(e, k, idx, i);
    } else {
      NewSpine(e, k, idx, p, i);
    }
  }

  lemma KnownSpine(e: Env, k: Session, idx: Index, i: nat)
    requires Starts(e, k) && Extends(k.start, idx) && i <= k.known < |k.c|
    ensures SpineAt(e, idx, k.c, i) && (i > 0 ==> e.oracle.hash(k.c[i - 1]) in idx)
  {
    hide GoodChain, IndexInv, Room, Keyed, NoClash;
    assert SpineAt(e, k.start, k.c, i);
    if i > 0 {
      assert SpineAt(e, k.start, k.c, i - 1);
    }
  }

  lemma NewSpine(e: Env, k: Session, idx: Index, p: nat, i: nat)
    requires Starts(e, k) && Origin(e, k, idx, p) && k.known < i < |k.c| && e.oracle.hash(k.c[i]) in idx
    ensures SpineAt(e, idx, k.c, i) && e.oracle.hash(k.c[i - 1]) in idx
  {
    hide Starts, GoodChain, IndexInv, Extends;
    var x := e.oracle.hash(k.c[i]);
    OriginLinked(e, k, idx, p);
    EntryFacts(e, idx, x);
    StartsRoom(e, k);
    NotYetKnown(e, k, i);
    ChainDistinct(e, k, i, i);
    OriginOf(e, k, idx, p, x);
    if j :| 0 <= j <= p && j < |k.c| && idx[x].header == k.c[j] {
      ChainDistinct(e, k, i, j);
    }
  }

  lemma NotYetKnown(e: Env, k: Session, i: nat)
    requires Starts(e, k) && k.known < i < |k.c|
    ensures e.oracle.hash(k.c[i]) !in k.start
    ensures e.oracle.hash(k.c[i]) in k.pool ==> k.pool[e.oracle.hash(k.c[i])].header == k.c[i]
  {
    hide GoodChain, IndexInv, Room, Keyed, Spine;
  }

  lemma {:induction false} SpineBelow(e: Env, k: Session, idx: Index, p: nat, n: nat)
    requires Starts(e, k) && Origin(e, k, idx, p) && n < |k.c| && e.oracle.hash(k.c[n]) in idx
    ensures Spine(e, idx, k.c, n)
  {
    hide Starts, Origin, SpineAt;
    IndexedSpine(e, k, idx, p, n);
    if n > 0 {
      SpineBelow(e, k, idx, p, n - 1);
    }
  }

  /** So its path spells c. */
  lemma OnSpine(e: Env, k: Session, idx: Index, p: nat, n: nat)
    requires Starts(e, k) && Origin(e, k, idx, p) && n < |k.c| && e.oracle.hash(k.c[n]) in idx
    ensures Linked(idx) && Valid(idx, e.oracle.hash(k.c[n])) && SpineAt(e, idx, k.c, n)
    ensures Path(idx, e.oracle.hash(k.c[n])) == HashesOf(e.oracle, k.c[..n + 1])
    ensures Headers(idx, e.oracle.hash(k.c[n])) == k.c[..n + 1]
  {
    hide Starts, Origin, HashesOf, Path, Headers, Spine;
    OriginLinked(e, k, idx, p);
    SpineBelow(e, k, idx, p, n);
    SpinePath(e, idx, k.c, n);
    IndexedSpine(e, k, idx, p, n);
  }

  lemma OriginLinked(e: Env, k: Session, idx: Index, p: nat)
    requires Origin(e, k, idx, p)
    ensures Linked(idx) && IndexInv(e, idx) && Extends(k.start, idx)
  {
    hide EntryOk, Rooted, AllTree, Closed, AcceptedPaths, Linked, Extends;
  }

  // ---- Work along c ----

  /** What block i of c weighs. */
  ghost function WorkAt(e: Env, k: Session, i: nat): (w: nat)
    requires Room(e, k) && StartOf(k.t) <= i < |k.c|
  {
    k.start[e.oracle.hash(k.c[StartOf(k.t)])].work + ProofSum(BitsOf(k.c[StartOf(k.t) + 1..i + 1]))
  }

  lemma SpineWork(e: Env, k: Session, idx: Index, p: nat, i: nat)
    requires Starts(e, k) && Origin(e, k, idx, p) && StartOf(k.t) <= i < |k.c| && e.oracle.hash(k.c[i]) in idx
    ensures idx[e.oracle.hash(k.c[i])].work == WorkAt(e, k, i) < TWO_256
  {
    hide Starts, Origin, IndexInv, Linked, SpineAt, Room, WorkAt, ProofSum, BitsOf, Path, Headers, HashesOf, Extends;
    var f, x := StartOf(k.t), e.oracle.hash(k.c[i]);
    StartsRoom(e, k);
    OriginLinked(e, k, idx, p);
    OnSpine(e, k, idx, p, i);
    SpineHeight(e, k, idx, i);
    PathAt(e, k, f, i);
    WorkFits(e, k, i);
    WorkAtIs(e, k, idx, i);
    BatchTotal(e, idx, x, f);
  }

  lemma WorkAtIs(e: Env, k: Session, idx: Index, i: nat)
    requires Room(e, k) && StartOf(k.t) <= i < |k.c| && Extends(k.start, idx)
    ensures var g := e.oracle.hash(k.c[StartOf(k.t)]);
            g in idx && WorkAt(e, k, i) == idx[g].work + ProofSum(BitsOf(k.c[..i + 1][StartOf(k.t) + 1..]))
  {
    hide ProofSum, BitsOf;
    assert k.c[..i + 1][StartOf(k.t) + 1..] == k.c[StartOf(k.t) + 1..i + 1];
  }

  lemma BatchTotal(e: Env, idx: Index, h: Hash, i: nat)
    requires IndexInv(e, idx) && Linked(idx) && h in idx && i <= idx[h].height
    requires idx[Path(idx, h)[i]].work + ProofSum(BitsOf(Headers(idx, h)[i + 1..])) < TWO_256
    ensures idx[h].work == idx[Path(idx, h)[i]].work + ProofSum(BitsOf(Headers(idx, h)[i + 1..]))
  {
    hide EntryOk, Rooted, AllTree, Closed, AcceptedPaths, ProofSum, BitsOf, Path, Headers, AddWork;
    BatchWork(e.oracle, e.genesis, idx, h, i);
    PlainSum(idx[Path(idx, h)[i]].work, ProofSum(BitsOf(Headers(idx, h)[i + 1..])));
  }

  lemma SpineHeight(e: Env, k: Session, idx: Index, i: nat)
    requires Linked(idx) && i < |k.c| && e.oracle.hash(k.c[i]) in idx
    requires Path(idx, e.oracle.hash(k.c[i])) == HashesOf(e.oracle, k.c[..i + 1])
    ensures idx[e.oracle.hash(k.c[i])].height == i
  {
    hide Linked;
  }

  lemma PathAt(e: Env, k: Session, f: nat, i: nat)
    requires f <= i < |k.c|
    ensures HashesOf(e.oracle, k.c[..i + 1])[f] == e.oracle.hash(k.c[f])
  {
  }

  lemma ProofsRise(c: seq<Header>, f: nat, i: nat, j: nat)
    requires f <= i < j < |c|
    ensures ProofSum(BitsOf(c[f + 1..j + 1])) == ProofSum(BitsOf(c[f + 1..i + 1])) + ProofSum(BitsOf(c[i + 1..j + 1]))
  {
    hide ProofSum;
    assert BitsOf(c[f + 1..j + 1]) == BitsOf(c[f + 1..i + 1]) + BitsOf(c[i + 1..j + 1]);
    ProofSumSplit(BitsOf(c[f + 1..i + 1]), BitsOf(c[i + 1..j + 1]));
  }

  lemma LastProof(c: seq<Header>, i: nat, j: nat)
    requires i < j < |c|
    ensures ProofSum(BitsOf(c[i + 1..j + 1])) >= BlockProof(c[j].bits)
  {
    hide BlockProof;
    var bits := BitsOf(c[i + 1..j + 1]);
    assert bits[|bits| - 1] == c[j].bits;
  }

  /** Later blocks of c are strictly heavier. */
  lemma SpineRises(e: Env, k: Session, idx: Index, p: nat, i: nat, j: nat)
    requires Starts(e, k) && Origin(e, k, idx, p) && StartOf(k.t) <= i < j < |k.c| && e.oracle.hash(k.c[j]) in idx
    ensures e.oracle.hash(k.c[i]) in idx && idx[e.oracle.hash(k.c[i])].work < idx[e.oracle.hash(k.c[j])].work
  {
    hide Starts, Origin, SpineAt, Room, WorkAt, GoodChain, IndexInv, Extends, ValidBits;
    SpineBelow(e, k, idx, p, j);
    SpineIndexed(e, idx, k.c, i);
    SpineIndexed(e, idx, k.c, j);
    StartsRoom(e, k);
    SpineWork(e, k, idx, p, i);
    SpineWork(e, k, idx, p, j);
    OriginLinked(e, k, idx, p);
    EntryFacts(e, idx, e.oracle.hash(k.c[j]));
    WorkAtRises(e, k, i, j);
  }

  lemma WorkAtRises(e: Env, k: Session, i: nat, j: nat)
    requires Room(e, k) && StartOf(k.t) <= i < j < |k.c| && ValidBits(k.c[j].bits)
    ensures WorkAt(e, k, i) < WorkAt(e, k, j)
  {
    hide ProofSum, BitsOf, BlockProof, ValidBits;
    ProofsRise(k.c, StartOf(k.t), i, j);
    LastProof(k.c, i, j);
    ProofPositive(k.c[j].bits);
  }

  lemma SpineIndexed(e: Env, idx: Index, c: seq<Header>, i: nat)
    requires i < |c| && SpineAt(e, idx, c, i)
    ensures e.oracle.hash(c[i]) in idx && idx[e.oracle.hash(c[i])].header == c[i]
  {
  }

  lemma ProofPositive(bits: Word)
    requires ValidBits(bits)
    ensures BlockProof(bits) > 0
  {
  }

  lemma StartsRoom(e: Env, k: Session)
    requires Starts(e, k)
    ensures Room(e, k) && GoodChain(e, k.c, k.now) && k.t <= k.known < |k.c|
  {
    hide Room, GoodChain, IndexInv, Keyed, NoClash, SpineAt;
  }

  lemma OriginOf(e: Env, k: Session, idx: Index, p: nat, y: Hash)
    requires Origin(e, k, idx, p) && y in idx && y !in k.start
    ensures OriginAt(e, k, idx, p, y)
  {
    hide IndexInv, Extends, OriginAt;
  }

  lemma RootKnown(e: Env, k: Session)
    requires Starts(e, k)
    ensures k.c != [] && e.oracle.hash(k.c[0]) in k.start
  {
    hide GoodChain, IndexInv, Room, Keyed, NoClash;
    assert SpineAt(e, k.start, k.c, 0);
  }

  // ---- Blocks that have a child before they are offered ----

  /** A pooled orphan that is valid below block j of c. */
  ghost predicate LateOrphan(e: Env, k: Session, j: nat, h: Hash)
    requires j < |k.c|
  {
    && h in k.pool && h !in k.start
    && var x := k.pool[h].header;
       && x.prev == e.oracle.hash(k.c[j]) && x.prev != NULL_HASH
       && FullPow(e.oracle, x) && ContextualCheck(e.params, k.c[..j + 1], x, k.now) == None
  }

  /** Block j of c is no leaf when it is offered: it is known with a child, or new and a pooled orphan is valid below it. */
  ghost predicate Late(e: Env, k: Session, j: nat)
    requires j < |k.c|
  {
    var z := e.oracle.hash(k.c[j]);
    HasChild(k.start, z) || (z !in k.start && exists h :: LateOrphan(e, k, j, h))
  }

  /** Once indexed a late block has a child; as long as its successor was not handled no other block has one. */
  ghost predicate FamilyAt(e: Env, k: Session, idx: Index, p: nat, j: nat)
    requires j < |k.c|
  {
    var z := e.oracle.hash(k.c[j]);
    z in idx ==> (Late(e, k, j) ==> HasChild(idx, z)) && (p <= j && HasChild(idx, z) ==> Late(e, k, j))
  }

  ghost predicate FamilyOk(e: Env, k: Session, idx: Index, p: nat)
  {
    forall j :: 0 <= j < |k.c| ==> FamilyAt(e, k, idx, p, j)
  }

  /** The pool lost only orphans whose parent is indexed. */
  ghost predicate PoolOk(k: Session, pool: Pool, idx: Index)
  {
    && (forall h :: h in pool ==> h in k.pool && pool[h] == k.pool[h])
    && (forall h :: h in k.pool && k.pool[h].header.prev !in idx ==> h in pool)
  }

  /** One accept inserted header n of c and the orphans it promoted. */
  ghost predicate Took(e: Env, k: Session, idx: Index, pool: Pool, n: nat, added: seq<Header>, idx': Index, pool': Pool)
  {
    && Linked(idx) && n < |k.c| && e.oracle.hash(k.c[n]) !in idx
    && added != [] && added[0] == k.c[n] && Under(e, e.oracle.hash(k.c[n]), added[1..]) && Pooled(pool, added[1..])
    && Drained(e, idx, pool, {}, added, k.now, idx', pool')
  }

  lemma TookFacts(e: Env, k: Session, idx: Index, pool: Pool, n: nat, added: seq<Header>, idx': Index, pool': Pool)
    requires Took(e, k, idx, pool, n, added, idx', pool') && IndexInv(e, idx)
    ensures Insertable(e, idx, added, k.now) && idx' == InsertAll(e, idx, added, k.now) && pool' == StillWaiting(pool, idx, idx')
    ensures IndexInv(e, idx') && Extends(idx, idx') && idx'.Keys == idx.Keys + Hashes(e, added) && idx.Keys !! Hashes(e, added)
    ensures e.oracle.hash(k.c[n]) in idx'
    ensures forall h :: h in idx' && h !in idx ==> idx'[h].status.IsValid()
  {
    hide IndexInv, Insertable, InsertAll, Linked, Settled, Hashes, StillWaiting, Under, Pooled;
    InsertAllInv(e, idx, added, k.now);
    InsertAllAdds(e, idx, added, k.now);
    assert pool - {} == pool;
  }

  /** A new entry is the header of c or the orphan pooled under its hash, below a new block. */
  lemma NewEntry(e: Env, k: Session, idx: Index, pool: Pool, n: nat, added: seq<Header>, idx': Index, pool': Pool, y: Hash)
    requires Took(e, k, idx, pool, n, added, idx', pool') && IndexInv(e, idx) && Keyed(e.oracle, k.pool) && PoolOk(k, pool, idx)
    requires y in idx' && y !in idx
    ensures || idx'[y].header == k.c[n]
            || (y in k.pool && idx'[y].header == k.pool[y].header && idx'[y].header.prev in Hashes(e, added))
    ensures idx'[y].prev == Some(idx'[y].header.prev)
  {
    hide IndexInv, Insertable, InsertAll, Linked, Settled, Hashes, StillWaiting, Under, Pooled;
    TookFacts(e, k, idx, pool, n, added, idx', pool');
    InsertAllAdds(e, idx, added, k.now);
    var i := HashAt(e, added, y);
    if i > 0 {
      UnderAt(e, added, i);
      PooledAt(e, k, pool, idx, added, i);
    }
  }

  lemma HashAt(e: Env, hs: seq<Header>, y: Hash) returns (i: nat)
    requires y in Hashes(e, hs)
    ensures i < |hs| && y == e.oracle.hash(hs[i])
  {
    i :| 0 <= i < |hs| && y == e.oracle.hash(hs[i]);
  }

  lemma UnderAt(e: Env, added: seq<Header>, i: nat)
    requires 0 < i < |added| && Under(e, e.oracle.hash(added[0]), added[1..])
    ensures added[i].prev in Hashes(e, added)
  {
    assert added[1..][i - 1] == added[i];
    if added[i].prev != e.oracle.hash(added[0]) {
      var j :| 0 <= j < i - 1 && added[i].prev == e.oracle.hash(added[1..][j]);
      assert added[1..][j] == added[j + 1];
    }
  }

  lemma PooledAt(e: Env, k: Session, pool: Pool, idx: Index, added: seq<Header>, i: nat)
    requires 0 < i < |added| && Pooled(pool, added[1..]) && Keyed(e.oracle, k.pool) && PoolOk(k, pool, idx)
    ensures var y := e.oracle.hash(added[i]); y in k.pool && k.pool[y].header == added[i]
  {
    assert added[1..][i - 1] == added[i];
    var g :| g in pool && pool[g].header == added[1..][i - 1];
    assert g in k.pool && k.pool[g] == pool[g];
  }

  lemma OriginGrows(e: Env, k: Session, idx: Index, pool: Pool, p: nat, n: nat, added: seq<Header>, idx': Index, pool': Pool)
    requires Keyed(e.oracle, k.pool) && Origin(e, k, idx, p) && PoolOk(k, pool, idx)
    requires Took(e, k, idx, pool, n, added, idx', pool')
    ensures Origin(e, k, idx', if p >= n then p else n)
  {
    hide IndexInv, Insertable, InsertAll, Linked, Settled, Hashes, StillWaiting, Under, Pooled, Took;
    TookFacts(e, k, idx, pool, n, added, idx', pool');
    TookIndex(e, k, idx, pool, n, added, idx', pool');
    forall h | h in idx' && h !in k.start
      ensures OriginAt(e, k, idx', if p >= n then p else n, h)
    {
      if h in idx {
        assert OriginAt(e, k, idx, p, h);
      } else {
        NewEntry(e, k, idx, pool, n, added, idx', pool', h);
      }
    }
  }

  lemma TookIndex(e: Env, k: Session, idx: Index, pool: Pool, n: nat, added: seq<Header>, idx': Index, pool': Pool)
    requires Took(e, k, idx, pool, n, added, idx', pool')
    ensures n < |k.c| && e.oracle.hash(k.c[n]) !in idx && Linked(idx)
  {
    hide Linked, Drained, Under, Pooled;
  }

  lemma PoolGrows(e: Env, k: Session, idx: Index, pool: Pool, n: nat, added: seq<Header>, idx': Index, pool': Pool)
    requires IndexInv(e, idx) && PoolOk(k, pool, idx) && Took(e, k, idx, pool, n, added, idx', pool')
    ensures PoolOk(k, pool', idx')
  {
    hide IndexInv, Insertable, InsertAll, Linked, Settled, Hashes, Under, Pooled, Took;
    TookFacts(e, k, idx, pool, n, added, idx', pool');
  }

  // ---- What one accept does to the children of a block ----

  /** A block of c that was there before gets no child but its successor. */
  lemma FamilyKept(e: Env, k: Session, idx: Index, pool: Pool, p: nat, n: nat, added: seq<Header>, idx': Index, pool': Pool, j: nat)
    requires Starts(e, k) && IndexInv(e, idx) && PoolOk(k, pool, idx) && Took(e, k, idx, pool, n, added, idx', pool')
    requires j < |k.c| && FamilyAt(e, k, idx, p, j) && e.oracle.hash(k.c[j]) in idx && Extends(k.start, idx)
    ensures FamilyAt(e, k, idx', Later(p, n), j)
  {
    hide GoodChain, IndexInv, Insertable, InsertAll, Linked, Settled, Hashes, StillWaiting, Under, Pooled, Took, Room, NoClash, Spine, Late;
    var z := e.oracle.hash(k.c[j]);
    TookFacts(e, k, idx, pool, n, added, idx', pool');
    TookIndex(e, k, idx, pool, n, added, idx', pool');
    if y :| y in idx && idx[y].prev == Some(z) {
      assert idx'[y].prev == Some(z);
    }
    if n <= j {
      if y :| y in idx' && idx'[y].prev == Some(z) {
        if y !in idx {
          NewEntry(e, k, idx, pool, n, added, idx', pool', y);
          NoSuccessor(e, k, n, j);
        }
        assert idx[y].prev == Some(z);
      }
    }
  }

  /** A new block of c is no child of a block at its height or above. */
  lemma NoSuccessor(e: Env, k: Session, n: nat, j: nat)
    requires Starts(e, k) && n <= j < |k.c| && e.oracle.hash(k.c[n]) !in k.start
    ensures k.c[n].prev != e.oracle.hash(k.c[j])
  {
    hide Starts, GoodChain;
    StartsRoom(e, k);
    RootKnown(e, k);
    ChainDistinct(e, k, n, n);
    if n > 0 {
      ChainDistinct(e, k, n - 1, j);
    }
  }

  /** Each header was fresh in the index its predecessors left. */
  lemma {:induction false} InsertableAt(e: Env, idx: Index, hs: seq<Header>, now: int, i: nat)
    requires IndexInv(e, idx) && Linked(idx) && Insertable(e, idx, hs, now) && i < |hs|
    ensures Insertable(e, idx, hs[..i], now)
    ensures var mid := InsertAll(e, idx, hs[..i], now);
            Check(e, mid, hs[i], now, true) == Fresh && Extends(idx, mid) && Extends(mid, InsertAll(e, idx, hs, now))
    decreases hs
  {
    hide Check, IndexInv, Inserted, Linked;
    InsertAllInv(e, idx, hs, now);
    if i > 0 {
      assert hs[..i][0] == hs[0] && hs[..i][1..] == hs[1..][..i - 1];
      FreshInserts(e, idx, hs[0], now);
      InsertedExtends(e, idx, hs[0], now);
      InsertableAt(e, Inserted(e.oracle, idx, hs[0]), hs[1..], now, i - 1);
    }
  }

  lemma InsertedExtends(e: Env, idx: Index, header: Header, now: int)
    requires IndexInv(e, idx) && Linked(idx) && Check(e, idx, header, now, true) == Fresh
    ensures Linked(Inserted(e.oracle, idx, header)) && Extends(idx, Inserted(e.oracle, idx, header))
  {
    hide Check, EntryOk, Rooted, AcceptedPaths, Closed, Inserted, ValidBits;
    FreshFacts(e, idx, header, now);
    FreshStatus(e.oracle, idx, header);
  }

  lemma ExtendsHeaders(idx: Index, idx': Index, h: Hash)
    requires Linked(idx) && Linked(idx') && Extends(idx, idx') && h in idx
    ensures Headers(idx', h) == Headers(idx, h)
  {
    hide Path, Linked;
    ExtendsPath(idx, idx', h);
  }

  /** Block j of c is indexed below the blocks before it. */
  ghost predicate Seated(e: Env, k: Session, idx: Index, j: nat)
  {
    && j < |k.c| && Linked(idx) && Valid(idx, e.oracle.hash(k.c[j])) && Headers(idx, e.oracle.hash(k.c[j])) == k.c[..j + 1]
  }

  /** A fresh header below block j of c is what LateOrphan says. */
  lemma FreshBelow(e: Env, k: Session, idx: Index, j: nat, x: Header)
    requires j < |k.c| && Linked(idx) && x.prev == e.oracle.hash(k.c[j]) && x.prev in idx
    requires Headers(idx, x.prev) == k.c[..j + 1] && !idx[x.prev].status.Failed() && e.oracle.hash(x) !in idx
    ensures Check(e, idx, x, k.now, true) == Fresh <==>
            x.prev != NULL_HASH && FullPow(e.oracle, x) && ContextualCheck(e.params, k.c[..j + 1], x, k.now) == None
  {
    hide ContextualCheck, Headers, Linked, ValidBits;
  }

  /** A child that block j got when it was inserted is a late orphan. */
  lemma BornIsLate(e: Env, k: Session, idx: Index, pool: Pool, n: nat, added: seq<Header>, idx': Index, pool': Pool, j: nat, y: Hash)
    requires Starts(e, k) && IndexInv(e, idx) && Extends(k.start, idx) && PoolOk(k, pool, idx)
    requires Took(e, k, idx, pool, n, added, idx', pool') && Seated(e, k, idx', j) && n <= j
    requires e.oracle.hash(k.c[j]) !in idx && y in idx' && idx'[y].prev == Some(e.oracle.hash(k.c[j]))
    ensures LateOrphan(e, k, j, y)
  {
    hide GoodChain, IndexInv, Insertable, InsertAll, Settled, Hashes, StillWaiting, Under, Pooled, Took, Room, NoClash, Spine, Check, Headers, ContextualCheck, FullPow;
    TookFacts(e, k, idx, pool, n, added, idx', pool');
    TookIndex(e, k, idx, pool, n, added, idx', pool');
    NewEntry(e, k, idx, pool, n, added, idx', pool', y);
    NoSuccessor(e, k, n, j);
    InsertAllAdds(e, idx, added, k.now);
    var i := HashAt(e, added, y);
    InsertableAt(e, idx, added, k.now, i);
    var mid, z := InsertAll(e, idx, added[..i], k.now), e.oracle.hash(k.c[j]);
    FreshParent(e, mid, added[i], k.now);
    ExtendsHeaders(mid, idx', z);
    FreshBelow(e, k, mid, j, added[i]);
  }

  lemma FreshParent(e: Env, idx: Index, x: Header, now: int)
    requires Linked(idx) && Check(e, idx, x, now, true) == Fresh
    ensures x.prev in idx && e.oracle.hash(x) !in idx && !idx[x.prev].status.Failed()
  {
    hide ContextualCheck, Headers, Linked, ValidBits;
  }

  /** A late orphan becomes a child of block j when that is inserted. */
  lemma LateIsBorn(e: Env, k: Session, idx: Index, pool: Pool, n: nat, added: seq<Header>, idx': Index, pool': Pool, p: nat, j: nat, y: Hash)
    requires Starts(e, k) && IndexInv(e, idx) && PoolOk(k, pool, idx) && Took(e, k, idx, pool, n, added, idx', pool')
    requires Seated(e, k, idx', j) && LateOrphan(e, k, j, y) && Origin(e, k, idx', p) && e.oracle.hash(k.c[j]) !in idx
    ensures y in idx' && idx'[y].prev == Some(e.oracle.hash(k.c[j]))
  {
    hide GoodChain, IndexInv, Insertable, InsertAll, Hashes, Under, Pooled, Room, Spine, Check, Headers, ContextualCheck, FullPow, Settled, OriginAt;
    TookFacts(e, k, idx, pool, n, added, idx', pool');
    assert y in pool && pool[y] == k.pool[y] && y !in pool';
    var x := k.pool[y].header;
    assert Settled(e, idx, added, k.now, x);
    NotRefused(e, k, idx, added, idx', p, j, y);
    LateEntry(e, k, idx', p, j, y);
  }

  /** Since it is valid there, it was indexed and not refused. */
  lemma NotRefused(e: Env, k: Session, idx: Index, added: seq<Header>, idx': Index, p: nat, j: nat, y: Hash)
    requires Starts(e, k) && IndexInv(e, idx) && Linked(idx) && Insertable(e, idx, added, k.now)
    requires idx' == InsertAll(e, idx, added, k.now) && Seated(e, k, idx', j) && LateOrphan(e, k, j, y) && Origin(e, k, idx', p)
    requires Settled(e, idx, added, k.now, k.pool[y].header)
    ensures y in idx'
  {
    hide GoodChain, IndexInv, Insertable, InsertAll, Room, Spine, Check, Headers, ContextualCheck, FullPow, Linked, OriginAt, NoClash;
    var x := k.pool[y].header;
    assert e.oracle.hash(x) == y;
    if y !in idx' {
      var q: nat :| RefusedDuring(e, idx, added, k.now, x, q);
      var mid := InsertAll(e, idx, added[..q], k.now);
      PrefixExtends(e, idx, added, k.now, q);
      ExtendsHeaders(mid, idx', x.prev);
      FreshBelow(e, k, mid, j, x);
    }
  }

  lemma PrefixExtends(e: Env, idx: Index, hs: seq<Header>, now: int, q: nat)
    requires IndexInv(e, idx) && Linked(idx) && Insertable(e, idx, hs, now) && q <= |hs|
    ensures Insertable(e, idx, hs[..q], now) && Extends(InsertAll(e, idx, hs[..q], now), InsertAll(e, idx, hs, now))
  {
    hide IndexInv, Insertable, InsertAll, Linked;
    if q < |hs| {
      InsertableAt(e, idx, hs, now, q);
    } else {
      assert hs[..q] == hs;
    }
  }

  /** Under the hash of a late orphan only that orphan can be indexed. */
  lemma LateEntry(e: Env, k: Session, idx: Index, p: nat, j: nat, y: Hash)
    requires Starts(e, k) && Origin(e, k, idx, p) && j < |k.c| && LateOrphan(e, k, j, y) && y in idx
    ensures idx[y].prev == Some(e.oracle.hash(k.c[j]))
  {
    hide GoodChain, IndexInv, Room, Spine, ContextualCheck, FullPow;
    EntryFacts(e, idx, y);
    assert OriginAt(e, k, idx, p, y);
    if i :| 0 <= i <= p && i < |k.c| && idx[y].header == k.c[i] {
      assert e.oracle.hash(k.c[i]) == y;
      assert k.pool[y].header == k.c[i];
    }
  }

  /** What one accept does to the children of block j. */
  lemma FamilyGrows(e: Env, k: Session, idx: Index, pool: Pool, p: nat, n: nat, added: seq<Header>, idx': Index, pool': Pool, j: nat)
    requires Starts(e, k) && IndexInv(e, idx) && Extends(k.start, idx) && PoolOk(k, pool, idx)
    requires Took(e, k, idx, pool, n, added, idx', pool') && j < |k.c| && FamilyAt(e, k, idx, p, j) && n == p + 1
    requires Origin(e, k, idx', n) && Origin(e, k, idx, p) && e.oracle.hash(k.c[p]) in idx
    ensures FamilyAt(e, k, idx', n, j)
  {
    hide Starts, IndexInv, PoolOk, Took, Origin, Headers, LateOrphan, Extends;
    var z := e.oracle.hash(k.c[j]);
    if z in idx {
      FamilyKept(e, k, idx, pool, p, n, added, idx', pool', j);
    } else if z in idx' {
      OnSpine(e, k, idx', n, j);
      NoChildYet(e, k, idx, z);
      if j <= p {
        TookIndex(e, k, idx, pool, n, added, idx', pool');
        SpineBelow(e, k, idx, p, p);
        SpineIndexed(e, idx, k.c, j);
      }
      if y :| n <= j && y in idx' && idx'[y].prev == Some(z) {
        BornIsLate(e, k, idx, pool, n, added, idx', pool', j, y);
      }
      if y :| LateOrphan(e, k, j, y) {
        LateIsBorn(e, k, idx, pool, n, added, idx', pool', n, j, y);
      }
    }
  }

  lemma NoChildYet(e: Env, k: Session, idx: Index, z: Hash)
    requires Starts(e, k) && Extends(k.start, idx) && z !in idx
    ensures !HasChild(k.start, z) && z !in k.start
  {
    hide GoodChain, EntryOk, Rooted, AllTree, Closed, AcceptedPaths, Room, Spine, Keyed, NoClash;
  }

  // ---- The state while a batch is accepted ----

  /** Candidates above the tip are blocks of c between the tip and the last one handled. */
  ghost predicate CandidatesOk(e: Env, k: Session, s: State, m: nat, p: nat)
    requires Ready(s)
  {
    forall b :: b in s.candidates ==> s.index[b].work <= s.index[Tip(s)].work || AtHeight(e, k, m, p, b)
  }

  ghost predicate AtHeight(e: Env, k: Session, m: nat, p: nat, b: Hash)
  {
    exists i :: m < i <= p && i < |k.c| && b == e.oracle.hash(k.c[i])
  }

  /** A block of c at height j or above was offered. */
  ghost predicate OfferedFrom(e: Env, k: Session, s: State, j: nat, p: nat)
  {
    exists q :: j <= q <= p && q < |k.c| && e.oracle.hash(k.c[q]) in s.candidates
  }

  /** Below or at an offered block lies every handled block that is not late. */
  ghost predicate OnTimeOffered(e: Env, k: Session, s: State, m: nat, p: nat)
    requires p < |k.c|
  {
    forall j :: m < j <= p && !Late(e, k, j) ==> OfferedFrom(e, k, s, j, p)
  }

  ghost predicate LateNotOffered(e: Env, k: Session, s: State, m: nat)
  {
    forall j :: m < j < |k.c| && Late(e, k, j) ==> e.oracle.hash(k.c[j]) !in s.candidates
  }

  /** The tip is block m of c, and the blocks up to p have been handled. */
  ghost predicate Positions(e: Env, k: Session, s: State, m: nat, p: nat)
  {
    && k.t <= m <= p < |k.c| && s.chain == HashesOf(e.oracle, k.c[..m + 1]) && e.oracle.hash(k.c[p]) in s.index
  }

  ghost predicate Track(e: Env, k: Session, s: State, pool: Pool, m: nat, p: nat)
  {
    && Starts(e, k) && Inv(e, s) && Ready(s) && Origin(e, k, s.index, p) && PoolOk(k, pool, s.index)
    && Positions(e, k, s, m, p) && FamilyOk(e, k, s.index, p)
    && CandidatesOk(e, k, s, m, p) && OnTimeOffered(e, k, s, m, p) && LateNotOffered(e, k, s, m)
  }

  /** After an activation: no candidate outweighs the tip, and the blocks handled above the tip are late. */
  ghost predicate AtRest(e: Env, k: Session, s: State, pool: Pool, m: nat, p: nat)
  {
    && Track(e, k, s, pool, m, p)
    && (forall b :: b in s.candidates ==> s.index[b].work <= s.index[Tip(s)].work)
    && (forall j :: m < j <= p ==> Late(e, k, j))
  }

  function Later(p: nat, i: nat): (q: nat)
  {
    if p >= i then p else i
  }

  // ---- Offering one more block of c ----

  ghost function OfferedTo(s: State, h: Hash): (r: State)
    requires h in s.index
  {
    s.(candidates := Offered(s.index, s.candidates, h))
  }

  lemma OfferedIs(idx: Index, cands: set<Hash>, h: Hash)
    requires h in idx
    ensures forall b :: b in Offered(idx, cands, h) ==> b in cands || b == h
    ensures forall b :: b in cands ==> b in Offered(idx, cands, h) || (idx[h].prev == Some(b) && h in Offered(idx, cands, h))
    ensures idx[h].status.IsValid() && !HasChild(idx, h) ==> h in Offered(idx, cands, h)
    ensures HasChild(idx, h) && h !in cands ==> h !in Offered(idx, cands, h)
  {
    hide HasChild;
  }

  /** The three claims about the candidates, once block i of c is offered in a state whose index has it. */
  lemma OfferKeeps(e: Env, k: Session, s: State, m: nat, p: nat, i: nat, r: State)
    requires Starts(e, k) && Ready(s) && Origin(e, k, s.index, Later(p, i)) && Positions(e, k, s, m, p)
    requires m <= i <= p + 1 && i < |k.c| && e.oracle.hash(k.c[i]) in s.index && FamilyOk(e, k, s.index, Later(p, i))
    requires CandidatesOk(e, k, s, m, p) && OnTimeOffered(e, k, s, m, p) && LateNotOffered(e, k, s, m)
    requires r == OfferedTo(s, e.oracle.hash(k.c[i])) && Ready(r)
    ensures CandidatesOk(e, k, r, m, Later(p, i)) && OnTimeOffered(e, k, r, m, Later(p, i)) && LateNotOffered(e, k, r, m)
  {
    hide Starts, Origin, Linked, HashesOf, Offered, Late, HasChild, SpineAt, Path, Headers, FamilyAt, Ready;
    OnSpine(e, k, s.index, Later(p, i), i);
    StartsRoom(e, k);
    assert FamilyAt(e, k, s.index, Later(p, i), i);
    OfferedCandidates(e, k, s, m, p, i, r);
    OfferedOnTime(e, k, s, m, p, i, r);
    OfferedLate(e, k, s, m, p, i, r);
  }

  lemma TipIs(e: Env, k: Session, s: State, m: nat, p: nat)
    requires Positions(e, k, s, m, p) && s.chain != []
    ensures Tip(s) == e.oracle.hash(k.c[m])
  {
  }

  lemma OfferedCandidates(e: Env, k: Session, s: State, m: nat, p: nat, i: nat, r: State)
    requires Ready(s) && Positions(e, k, s, m, p) && CandidatesOk(e, k, s, m, p) && m <= i <= p + 1 && i < |k.c|
    requires e.oracle.hash(k.c[i]) in s.index && r == OfferedTo(s, e.oracle.hash(k.c[i])) && Ready(r)
    ensures CandidatesOk(e, k, r, m, Later(p, i))
  {
    hide Linked, HashesOf, Offered, Positions;
    var x, q := e.oracle.hash(k.c[i]), Later(p, i);
    OfferedIs(s.index, s.candidates, x);
    TipIs(e, k, s, m, p);
    forall b | b in r.candidates
      ensures r.index[b].work <= r.index[Tip(r)].work || AtHeight(e, k, m, q, b)
    {
      if b == x && i > m {
        assert AtHeight(e, k, m, q, b);
      }
    }
  }

  lemma OfferedOnTime(e: Env, k: Session, s: State, m: nat, p: nat, i: nat, r: State)
    requires GoodChain(e, k.c, k.now) && p < |k.c| && OnTimeOffered(e, k, s, m, p)
    requires m <= i <= p + 1 && i < |k.c| && e.oracle.hash(k.c[i]) in s.index && SpineAt(e, s.index, k.c, i)
    requires FamilyAt(e, k, s.index, Later(p, i), i) && r == OfferedTo(s, e.oracle.hash(k.c[i]))
    ensures OnTimeOffered(e, k, r, m, Later(p, i))
  {
    hide Offered, Late, HasChild, GoodChain;
    var x, q := e.oracle.hash(k.c[i]), Later(p, i);
    OfferedIs(s.index, s.candidates, x);
    forall j | m < j <= q && !Late(e, k, j)
      ensures OfferedFrom(e, k, r, j, q)
    {
      if j <= p {
        assert OfferedFrom(e, k, s, j, p);
        var w :| j <= w <= p && w < |k.c| && e.oracle.hash(k.c[w]) in s.candidates;
        if e.oracle.hash(k.c[w]) in r.candidates {
          assert OfferedFrom(e, k, r, j, q);
        } else {
          ChainDistinct(e, k, i - 1, w);
          assert e.oracle.hash(k.c[i]) in r.candidates;
        }
      } else {
        assert e.oracle.hash(k.c[i]) in r.candidates;
      }
    }
  }

  lemma OfferedLate(e: Env, k: Session, s: State, m: nat, p: nat, i: nat, r: State)
    requires GoodChain(e, k.c, k.now) && LateNotOffered(e, k, s, m)
    requires m <= i < |k.c| && e.oracle.hash(k.c[i]) in s.index && FamilyAt(e, k, s.index, Later(p, i), i)
    requires r == OfferedTo(s, e.oracle.hash(k.c[i]))
    ensures LateNotOffered(e, k, r, m)
  {
    hide Offered, Late, HasChild, GoodChain;
    OfferedIs(s.index, s.candidates, e.oracle.hash(k.c[i]));
    forall j | m < j < |k.c| && Late(e, k, j)
      ensures e.oracle.hash(k.c[j]) !in r.candidates
    {
      ChainDistinct(e, k, i, j);
    }
  }

  // ---- One header of the batch ----

  /** What AcceptBlockHeader followed by TryAddBlockIndexCandidate did with a header it did not reject. */
  ghost predicate Accepted(e: Env, s: State, pool: Pool, header: Header, added: seq<Header>, now: int, r: State, pool': Pool)
  {
    && Submittable(e, s, added, e.oracle.hash(header), now) && r == Submitted(e, s, added, e.oracle.hash(header), now)
    && Drained(e, s.index, pool, {}, added, now, r.index, pool')
    && (added == [] <==> Check(e, s.index, header, now, true) == Known)
    && (added != [] ==> added[0] == header && Under(e, e.oracle.hash(header), added[1..]) && Pooled(pool, added[1..]))
  }

  lemma AcceptedKnown(e: Env, s: State, pool: Pool, header: Header, added: seq<Header>, now: int, r: State, pool': Pool)
    requires Accepted(e, s, pool, header, added, now, r, pool') && added == []
    ensures e.oracle.hash(header) in s.index && r == OfferedTo(s, e.oracle.hash(header)) && pool' == pool
  {
    hide Linked, Offered, Check;
  }

  lemma AcceptedFresh(e: Env, s: State, pool: Pool, header: Header, added: seq<Header>, now: int, r: State, pool': Pool)
    requires Inv(e, s) && Accepted(e, s, pool, header, added, now, r, pool') && added != []
    ensures var mid := s.(index := r.index);
            && Linked(s.index) && Insertable(e, s.index, added, now) && r.index == InsertAll(e, s.index, added, now)
            && Inv(e, mid) && Ready(mid) && Inv(e, r) && Ready(r) && Extends(s.index, r.index)
            && e.oracle.hash(header) in r.index && r == OfferedTo(mid, e.oracle.hash(header))
  {
    hide Shape, IndexInv, Linked, Offered, Check, Insertable, InsertAll, Settled, Under, Pooled;
    SubmittedInv(e, s, added, e.oracle.hash(header), now);
    StillInv(e, s, added, e.oracle.hash(header), now);
    InsertAllInv(e, s.index, added, now);
    ShapeReady(e, s.(index := r.index));
  }

  lemma OfferedInv(e: Env, s: State, h: Hash)
    requires Inv(e, s) && h in s.index && !s.index[h].status.Failed()
    ensures Inv(e, OfferedTo(s, h)) && Ready(OfferedTo(s, h))
  {
    hide EntryOk, Rooted, Closed, AcceptedPaths, AllTree, Path, HasChild, Linked;
  }

  lemma OriginLater(e: Env, k: Session, idx: Index, p: nat, q: nat)
    requires Origin(e, k, idx, p) && p <= q
    ensures Origin(e, k, idx, q)
  {
    hide IndexInv, Extends;
    forall h | h in idx && h !in k.start
      ensures OriginAt(e, k, idx, q, h)
    {
      assert OriginAt(e, k, idx, p, h);
    }
  }

  lemma FamilyLater(e: Env, k: Session, idx: Index, p: nat, q: nat)
    requires FamilyOk(e, k, idx, p) && p <= q
    ensures FamilyOk(e, k, idx, q)
  {
    hide Late, HasChild;
    forall j | 0 <= j < |k.c|
      ensures FamilyAt(e, k, idx, q, j)
    {
      assert FamilyAt(e, k, idx, p, j);
    }
  }

  /** The verdict on the next header: known if it is indexed, else fresh. */
  lemma NextVerdict(e: Env, k: Session, s: State, pool: Pool, m: nat, p: nat, i: nat)
    requires Track(e, k, s, pool, m, p) && i <= p + 1 && i < |k.c|
    ensures Linked(s.index)
    ensures Check(e, s.index, k.c[i], k.now, true) == if e.oracle.hash(k.c[i]) in s.index then Known else Fresh
    ensures e.oracle.hash(k.c[i]) !in s.index ==> i == p + 1
  {
    hide Starts, Inv, Origin, Linked, HashesOf, Late, PoolOk, FamilyOk, CandidatesOk, OnTimeOffered, LateNotOffered, Check, Headers, Path;
    var x := e.oracle.hash(k.c[i]);
    if x in s.index {
      OnSpine(e, k, s.index, p, i);
      KnownIf(e, s.index, k.c[i], k.now);
    } else {
      if i <= p {
        SpineBelow(e, k, s.index, p, p);
        SpineIndexed(e, s.index, k.c, i);
      }
      OnSpine(e, k, s.index, p, p);
      NextIsFresh(e, k, s.index, p);
    }
  }

  lemma KnownIf(e: Env, idx: Index, header: Header, now: int)
    requires Linked(idx) && Valid(idx, e.oracle.hash(header))
    ensures Check(e, idx, header, now, true) == Known
  {
    hide Linked, ContextualCheck, Headers;
  }

  lemma NextIsFresh(e: Env, k: Session, idx: Index, p: nat)
    requires Starts(e, k) && Linked(idx) && p + 1 < |k.c| && e.oracle.hash(k.c[p + 1]) !in idx
    requires Valid(idx, e.oracle.hash(k.c[p])) && Headers(idx, e.oracle.hash(k.c[p])) == k.c[..p + 1]
    ensures Check(e, idx, k.c[p + 1], k.now, true) == Fresh
  {
    hide IndexInv, Linked, ContextualCheck, Headers, FullPow, Room, Spine, NoClash, Keyed, Check;
    assert GoodNext(e, k.c, p + 1, k.now);
    FreshIf(e, idx, k.c[p + 1], k.now);
  }

  /** Accepting header i of c, known or new, keeps the account. */
  lemma TrackStep(e: Env, k: Session, s: State, pool: Pool, m: nat, p: nat, i: nat, added: seq<Header>, r: State, pool': Pool)
    requires Track(e, k, s, pool, m, p) && m <= i <= p + 1 && i < |k.c|
    requires Accepted(e, s, pool, k.c[i], added, k.now, r, pool')
    ensures Track(e, k, r, pool', m, Later(p, i))
  {
    hide Track, Accepted;
    if added == [] {
      TrackKnown(e, k, s, pool, m, p, i, r, pool');
    } else {
      TrackFresh(e, k, s, pool, m, p, i, added, r, pool');
    }
  }

  lemma TrackKnown(e: Env, k: Session, s: State, pool: Pool, m: nat, p: nat, i: nat, r: State, pool': Pool)
    requires Track(e, k, s, pool, m, p) && m <= i <= p + 1 && i < |k.c|
    requires Accepted(e, s, pool, k.c[i], [], k.now, r, pool')
    ensures Track(e, k, r, pool', m, Later(p, i))
  {
    hide Starts, Inv, Origin, Linked, HashesOf, Late, PoolOk, FamilyOk, CandidatesOk, OnTimeOffered, LateNotOffered, Headers, Path, Accepted, Offered;
    AcceptedKnown(e, s, pool, k.c[i], [], k.now, r, pool');
    OriginLater(e, k, s.index, p, Later(p, i));
    FamilyLater(e, k, s.index, p, Later(p, i));
    OnSpine(e, k, s.index, p, i);
    OfferedInv(e, s, e.oracle.hash(k.c[i]));
    OfferKeeps(e, k, s, m, p, i, r);
  }

  /** Only the index changed: the claims about the candidates carry over. */
  lemma SameCandidates(e: Env, k: Session, s: State, mid: State, m: nat, p: nat)
    requires Ready(s) && Ready(mid) && mid == s.(index := mid.index) && Extends(s.index, mid.index) && p < |k.c|
    requires CandidatesOk(e, k, s, m, p) && OnTimeOffered(e, k, s, m, p) && LateNotOffered(e, k, s, m)
    ensures CandidatesOk(e, k, mid, m, p) && OnTimeOffered(e, k, mid, m, p) && LateNotOffered(e, k, mid, m)
  {
    hide Linked, Late, AtHeight;
    forall j | m < j <= p && !Late(e, k, j)
      ensures OfferedFrom(e, k, mid, j, p)
    {
      assert OfferedFrom(e, k, s, j, p);
    }
  }

  lemma TrackFresh(e: Env, k: Session, s: State, pool: Pool, m: nat, p: nat, i: nat, added: seq<Header>, r: State, pool': Pool)
    requires Track(e, k, s, pool, m, p) && m <= i <= p + 1 && i < |k.c| && added != []
    requires Accepted(e, s, pool, k.c[i], added, k.now, r, pool')
    ensures Track(e, k, r, pool', m, Later(p, i))
  {
    hide Starts, Inv, Origin, Linked, HashesOf, Late, PoolOk, FamilyOk, CandidatesOk, OnTimeOffered, LateNotOffered, Headers, Path, Offered, Took, Accepted, Extends;
    NextVerdict(e, k, s, pool, m, p, i);
    FreshIsTaken(e, k, s, pool, i, added, r, pool');
    AcceptedFresh(e, s, pool, k.c[i], added, k.now, r, pool');
    OriginLinked(e, k, s.index, p);
    IndexGrows(e, k, s.index, pool, p, i, added, r.index, pool');
    var mid := s.(index := r.index);
    StillThere(s.index, r.index, e.oracle.hash(k.c[p]));
    SameCandidates(e, k, s, mid, m, p);
    OfferKeeps(e, k, mid, m, p, i, r);
  }

  lemma StillThere(idx: Index, idx': Index, h: Hash)
    requires Extends(idx, idx') && h in idx
    ensures h in idx'
  {
  }

  lemma FreshIsTaken(e: Env, k: Session, s: State, pool: Pool, i: nat, added: seq<Header>, r: State, pool': Pool)
    requires i < |k.c| && Accepted(e, s, pool, k.c[i], added, k.now, r, pool') && added != [] && Linked(s.index)
    requires Check(e, s.index, k.c[i], k.now, true) == if e.oracle.hash(k.c[i]) in s.index then Known else Fresh
    ensures e.oracle.hash(k.c[i]) !in s.index && Took(e, k, s.index, pool, i, added, r.index, pool')
  {
    hide Linked, Check, Drained, Under, Pooled, Submitted, Submittable;
  }

  lemma IndexGrows(e: Env, k: Session, idx: Index, pool: Pool, p: nat, i: nat, added: seq<Header>, idx': Index, pool': Pool)
    requires Starts(e, k) && Origin(e, k, idx, p) && PoolOk(k, pool, idx) && p < |k.c| && e.oracle.hash(k.c[p]) in idx
    requires FamilyOk(e, k, idx, p) && Took(e, k, idx, pool, i, added, idx', pool') && i == p + 1
    ensures Origin(e, k, idx', i) && PoolOk(k, pool', idx') && FamilyOk(e, k, idx', i)
  {
    hide GoodChain, Spine, NoClash, Room, Origin, PoolOk, FamilyAt, Took, IndexInv, Extends;
    OriginLinked(e, k, idx, p);
    OriginGrows(e, k, idx, pool, p, i, added, idx', pool');
    PoolGrows(e, k, idx, pool, i, added, idx', pool');
    forall j | 0 <= j < |k.c|
      ensures FamilyAt(e, k, idx', i, j)
    {
      assert FamilyAt(e, k, idx, p, j);
      FamilyGrows(e, k, idx, pool, p, i, added, idx', pool', j);
    }
  }

  /** At rest, accepting once more a header between the tip and the last one handled changes nothing. */
  lemma RestStep(e: Env, k: Session, s: State, pool: Pool, m: nat, p: nat, i: nat, added: seq<Header>, r: State, pool': Pool)
    requires AtRest(e, k, s, pool, m, p) && m <= i <= p && m < p
    requires Accepted(e, s, pool, k.c[i], added, k.now, r, pool')
    ensures r == s && pool' == pool
  {
    hide Starts, Inv, Origin, Linked, HashesOf, Late, PoolOk, CandidatesOk, OnTimeOffered, LateNotOffered, Headers, Path, Accepted, HasChild, Check, SpineAt;
    TrackPositions(e, k, s, pool, m, p);
    SpineThere(e, k, s.index, p, i);
    NextVerdict(e, k, s, pool, m, p, i);
    AcceptedVerdict(e, s, pool, k.c[i], added, k.now, r, pool');
    AcceptedKnown(e, s, pool, k.c[i], added, k.now, r, pool');
    if i > m {
      assert FamilyAt(e, k, s.index, p, i);
    } else {
      SpineThere(e, k, s.index, p, m + 1);
      SuccessorIsChild(e, k, s.index, p, m);
    }
  }

  lemma AcceptedVerdict(e: Env, s: State, pool: Pool, header: Header, added: seq<Header>, now: int, r: State, pool': Pool)
    requires Accepted(e, s, pool, header, added, now, r, pool')
    ensures Linked(s.index) && (added == [] <==> Check(e, s.index, header, now, true) == Known)
  {
    hide Linked, Check, Drained, Under, Pooled, Submitted;
  }

  lemma SuccessorIsChild(e: Env, k: Session, idx: Index, p: nat, m: nat)
    requires Starts(e, k) && Origin(e, k, idx, p) && m + 1 < |k.c| && e.oracle.hash(k.c[m + 1]) in idx
    ensures HasChild(idx, e.oracle.hash(k.c[m]))
  {
    hide Starts, Origin;
    IndexedSpine(e, k, idx, p, m + 1);
  }

  // ---- Activation ----

  /** The highest offered block of c above the tip, or the tip. */
  ghost function Highest(e: Env, k: Session, s: State, m: nat, p: nat): (q: nat)
    requires m <= p < |k.c|
    ensures m <= q <= p && (q > m ==> e.oracle.hash(k.c[q]) in s.candidates)
    ensures forall i :: q < i <= p ==> e.oracle.hash(k.c[i]) !in s.candidates
    decreases p - m
  {
    if p == m || e.oracle.hash(k.c[p]) in s.candidates then p else Highest(e, k, s, m, p - 1)
  }

  /** It comes first among the candidates. */
  lemma HighestIsFirst(e: Env, k: Session, s: State, pool: Pool, m: nat, p: nat, q: nat)
    requires Track(e, k, s, pool, m, p) && q == Highest(e, k, s, m, p) && q > m
    ensures e.oracle.hash(k.c[q]) in s.index && s.index[e.oracle.hash(k.c[q])].work > s.index[Tip(s)].work
    ensures Indexed(s.index, s.candidates) && IsFirst(s.index, s.candidates, e.oracle.hash(k.c[q]))
  {
    hide Starts, Inv, Origin, Linked, HashesOf, Late, PoolOk, FamilyOk, OnTimeOffered, LateNotOffered, Highest, Positions;
    TrackPositions(e, k, s, pool, m, p);
    var x := e.oracle.hash(k.c[q]);
    TipIs(e, k, s, m, p);
    SpineRises(e, k, s.index, p, m, q);
    forall b | b in s.candidates && b != x
      ensures Better(s.index, x, b)
    {
      if s.index[b].work > s.index[Tip(s)].work {
        var i :| m < i <= p && i < |k.c| && b == e.oracle.hash(k.c[i]);
        SpineRises(e, k, s.index, p, i, q);
      }
    }
  }

  lemma TrackPositions(e: Env, k: Session, s: State, pool: Pool, m: nat, p: nat)
    requires Track(e, k, s, pool, m, p)
    ensures Positions(e, k, s, m, p) && k.t <= m <= p < |k.c| && StartOf(k.t) <= m
  {
    hide Starts, Inv, Origin, Linked, HashesOf, Late, PoolOk, FamilyOk, OnTimeOffered, LateNotOffered, CandidatesOk;
  }

  /** Activation moves the tip to the highest offered block of c, whatever the reorg limit. */
  lemma ActivatedChain(e: Env, k: Session, s: State, pool: Pool, m: nat, p: nat)
    requires Track(e, k, s, pool, m, p) && AlwaysConnects(e) && m <= p < |k.c|
    ensures Ready(s) && Activated(e, s).chain == HashesOf(e.oracle, k.c[..Highest(e, k, s, m, p) + 1])
  {
    hide Starts, Shape, IndexInv, Origin, Linked, HashesOf, Late, PoolOk, FamilyOk, OnTimeOffered, LateNotOffered, Highest, Activated, CandidatesOk;
    var q := Highest(e, k, s, m, p);
    if q > m {
      HighestIsFirst(e, k, s, pool, m, p, q);
      OnSpine(e, k, s.index, p, q);
      PrefixOf(e, k, m, q);
      TakesFirst(e, s, e.oracle.hash(k.c[q]));
    } else {
      NoneAbove(e, k, s, m, p);
      NothingOpen(e, s);
    }
  }

  /** A first candidate above the tip that extends the active chain is taken. */
  lemma TakesFirst(e: Env, s: State, x: Hash)
    requires Ready(s) && AlwaysConnects(e) && IsFirst(s.index, s.candidates, x)
    requires s.index[x].work > s.index[Tip(s)].work && s.chain <= Path(s.index, x)
    ensures Activated(e, s).chain == Path(s.index, x)
  {
    hide Linked, Activated, Path, Guarded, Better, Pruned, First;
    FirstIs(s.index, s.candidates, x);
    Attempt(e, s, x);
    ExtensionNotGuarded(e, s, x);
  }

  lemma PrefixOf(e: Env, k: Session, m: nat, q: nat)
    requires m <= q < |k.c|
    ensures HashesOf(e.oracle, k.c[..m + 1]) <= HashesOf(e.oracle, k.c[..q + 1])
  {
  }

  lemma NoneAbove(e: Env, k: Session, s: State, m: nat, p: nat)
    requires Ready(s) && m <= p < |k.c| && CandidatesOk(e, k, s, m, p) && Highest(e, k, s, m, p) == m
    ensures forall b :: b in s.candidates ==> s.index[b].work <= s.index[Tip(s)].work
  {
    hide Linked, Highest;
  }

  /** After the activation the node is at rest at that block. */
  lemma TrackActivates(e: Env, k: Session, s: State, pool: Pool, m: nat, p: nat)
    requires Track(e, k, s, pool, m, p) && AlwaysConnects(e) && m <= p < |k.c|
    ensures Ready(s) && AtRest(e, k, Activated(e, s), pool, TopOnTime(e, k, m, p), p)
  {
    hide Starts, Shape, IndexInv, Origin, Linked, HashesOf, Late, PoolOk, FamilyOk, Highest, TopOnTime, Activated, CandidatesOk, OnTimeOffered;
    var q, r := Highest(e, k, s, m, p), Activated(e, s);
    ActivatedInv(e, s);
    ActivatedKeeps(e, s);
    ActivatedBeatsCandidates(e, s);
    ActivatedChain(e, k, s, pool, m, p);
    HighestIsOnTime(e, k, s, m, p);
    TopIs(e, k, m, p);
    RestCandidates(e, k, r, q, p);
  }

  /** The highest block of c above m and up to p that is not late, or m. */
  ghost function TopOnTime(e: Env, k: Session, m: nat, p: nat): (q: nat)
    requires m <= p < |k.c|
    ensures m <= q <= p
    decreases p - m
  {
    if p == m || !Late(e, k, p) then p else TopOnTime(e, k, m, p - 1)
  }

  lemma {:induction false} TopIs(e: Env, k: Session, m: nat, p: nat)
    requires m <= p < |k.c|
    ensures var q := TopOnTime(e, k, m, p);
            (q > m ==> !Late(e, k, q)) && forall j :: q < j <= p ==> Late(e, k, j)
    decreases p - m
  {
    hide Late;
    if p > m && Late(e, k, p) {
      TopIs(e, k, m, p - 1);
    }
  }

  /** What was offered last is exactly that block. */
  lemma HighestIsOnTime(e: Env, k: Session, s: State, m: nat, p: nat)
    requires m <= p < |k.c| && OnTimeOffered(e, k, s, m, p) && LateNotOffered(e, k, s, m)
    ensures Highest(e, k, s, m, p) == TopOnTime(e, k, m, p)
  {
    hide Late, Highest, TopOnTime;
    TopIs(e, k, m, p);
    var q, w := Highest(e, k, s, m, p), TopOnTime(e, k, m, p);
    if w > m {
      assert OfferedFrom(e, k, s, w, p);
    }
  }

  lemma RestCandidates(e: Env, k: Session, r: State, q: nat, p: nat)
    requires Ready(r) && p < |k.c| && forall b :: b in r.candidates ==> r.index[b].work <= r.index[Tip(r)].work
    requires forall j :: q < j <= p ==> Late(e, k, j)
    ensures CandidatesOk(e, k, r, q, p) && OnTimeOffered(e, k, r, q, p)
  {
    hide Linked, Late, AtHeight;
  }

  // ---- The batch passes the filters ----

  lemma WorkFits(e: Env, k: Session, i: nat)
    requires Room(e, k) && StartOf(k.t) <= i < |k.c|
    ensures WorkAt(e, k, i) < TWO_256
  {
    hide ProofSum, BitsOf;
    ProofSumPrefix(k.c, StartOf(k.t) + 1, i + 1);
  }

  lemma WorkSplits(e: Env, k: Session, i: nat, j: nat)
    requires Room(e, k) && StartOf(k.t) <= i <= j < |k.c|
    ensures WorkAt(e, k, j) == WorkAt(e, k, i) + ProofSum(BitsOf(k.c[i + 1..j + 1]))
  {
    hide ProofSum;
    if i < j {
      ProofsRise(k.c, StartOf(k.t), i, j);
    } else {
      assert BitsOf(k.c[i + 1..j + 1]) == [];
      NoProofs();
    }
  }

  lemma NoProofs()
    ensures ProofSum([]) == 0
  {
  }

  /** A stretch that contains the tip weighs at least as much, so the filter stops it only below the configured minimum. */
  lemma StretchLowExactly(e: Env, k: Session, s: State, pool: Pool, m: nat, p: nat, headers: seq<Header>, ibd: bool)
    requires Track(e, k, s, pool, m, p) && Stretch(headers, k.c, m) && Room(e, k) && k.t <= m
    ensures LowWork(e, s, headers, ibd) <==> !ibd && WorkAt(e, k, StartOf(m) + |headers|) < e.params.minimumChainWork
    ensures s.index[Tip(s)].work == WorkAt(e, k, m)
  {
    hide Starts, Inv, Origin, Linked, HashesOf, PoolOk, FamilyOk, CandidatesOk, OnTimeOffered, LateNotOffered, ProofSum, BitsOf, AddWork, BlockProof, Room, WorkAt;
    TrackPositions(e, k, s, pool, m, p);
    StartsRoom(e, k);
    TipIs(e, k, s, m, p);
    var f, n := StartOf(m), StartOf(m) + |headers|;
    SpineThere(e, k, s.index, p, m);
    SpineThere(e, k, s.index, p, f);
    SpineWork(e, k, s.index, p, f);
    SpineWork(e, k, s.index, p, m);
    ChainDistinct(e, k, f + 1, f + 1);
    assert headers == k.c[f + 1..n + 1];
    WorkSplits(e, k, f, n);
    WorkSplits(e, k, m, n);
    WorkFits(e, k, n);
    PlainSum(WorkAt(e, k, f), ProofSum(BitsOf(headers)));
  }

  lemma SpineThere(e: Env, k: Session, idx: Index, p: nat, i: nat)
    requires Starts(e, k) && Origin(e, k, idx, p) && p < |k.c| && e.oracle.hash(k.c[p]) in idx && i <= p
    ensures e.oracle.hash(k.c[i]) in idx
  {
    hide Starts, Origin, SpineAt;
    SpineBelow(e, k, idx, p, p);
    SpineIndexed(e, idx, k.c, i);
  }

  lemma StretchContinuous(e: Env, k: Session, m: nat, headers: seq<Header>)
    requires Starts(e, k) && Stretch(headers, k.c, m)
    ensures Continuous(e.oracle, headers)
  {
    hide Starts, GoodChain, CommitmentPow;
    StartsRoom(e, k);
    var f := StartOf(m);
    forall j | 0 <= j < |headers|
      ensures CommitmentPow(e.oracle, headers[j])
      ensures j + 1 < |headers| ==> Links(e.oracle, headers, j)
    {
      GoodAt(e, k, f + 1 + j);
      if j + 1 < |headers| {
        GoodAt(e, k, f + 2 + j);
      }
    }
  }

  lemma GoodAt(e: Env, k: Session, i: nat)
    requires GoodChain(e, k.c, k.now) && 1 <= i < |k.c|
    ensures CommitmentPow(e.oracle, k.c[i]) && k.c[i].prev == e.oracle.hash(k.c[i - 1])
  {
    hide ContextualCheck, CommitmentPow;
    assert GoodNext(e, k.c, i, k.now);
  }

  /** The tip only gains work. */
  lemma TipGains(e: Env, k: Session, s: State, pool: Pool, m: nat, p: nat, q: nat, r: State)
    requires Track(e, k, s, pool, m, p) && m <= q <= p && r.index == s.index && r.chain == HashesOf(e.oracle, k.c[..q + 1])
    ensures r.chain != [] && Tip(r) in r.index && s.index[Tip(s)].work <= r.index[Tip(r)].work
  {
    hide Starts, Inv, Origin, Linked, PoolOk, FamilyOk, CandidatesOk, OnTimeOffered, LateNotOffered;
    TrackPositions(e, k, s, pool, m, p);
    TipIs(e, k, s, m, p);
    SpineThere(e, k, s.index, p, q);
    if m < q {
      SpineRises(e, k, s.index, p, m, q);
    }
  }
}
