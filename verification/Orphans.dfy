/** The pool of headers whose parent is not indexed yet, with a counter per peer. */
module Orphans {
  import opened Primitives
  import opened Protocol

  datatype Orphan = Orphan(header: Header, received: int, peer: int)

  type Pool = map<Hash, Orphan>

  function OfPeer(pool: Pool, peer: int): (r: set<Hash>)
  {
    set h | h in pool && pool[h].peer == peer
  }

  /** The recorded count of a peer; a missing entry reads as zero. */
  function CountOf(counts: map<int, int>, peer: int): (n: int)
  {
    if peer in counts then counts[peer] else 0
  }

  /** Each counter is the number of pooled orphans of its peer. */
  ghost predicate Counted(pool: Pool, counts: map<int, int>)
  {
    forall peer {:trigger CountOf(counts, peer)} :: CountOf(counts, peer) == |OfPeer(pool, peer)|
  }

  ghost predicate Limited(pool: Pool, counts: map<int, int>)
  {
    && |pool| <= MAX_ORPHAN_HEADERS
    && forall peer {:trigger CountOf(counts, peer)} :: CountOf(counts, peer) <= MAX_ORPHAN_HEADERS_PER_PEER
  }

  ghost predicate Keyed(o: Oracle, pool: Pool)
  {
    forall h :: h in pool ==> o.hash(pool[h].header) == h
  }

  ghost predicate PoolInv(o: Oracle, pool: Pool, counts: map<int, int>)
  {
    Keyed(o, pool) && Counted(pool, counts) && Limited(pool, counts)
  }

  /** One step down; an entry that reaches zero is erased. */
  function Decremented(counts: map<int, int>, peer: int): (r: map<int, int>)
    ensures forall q :: CountOf(r, q) == CountOf(counts, q) - (if q == peer && peer in counts then 1 else 0)
  {
    if peer !in counts then counts
    else if counts[peer] - 1 == 0 then counts - {peer}
    else counts[peer := counts[peer] - 1]
  }

  function Incremented(counts: map<int, int>, peer: int): (r: map<int, int>)
    ensures forall q :: CountOf(r, q) == CountOf(counts, q) + (if q == peer then 1 else 0)
  {
    counts[peer := CountOf(counts, peer) + 1]
  }

  lemma RemovedCount(pool: Pool, h: Hash, peer: int)
    requires h in pool
    ensures |OfPeer(pool - {h}, peer)| == |OfPeer(pool, peer)| - (if pool[h].peer == peer then 1 else 0)
  {
    if pool[h].peer == peer {
      assert OfPeer(pool - {h}, peer) == OfPeer(pool, peer) - {h};
    } else {
      assert OfPeer(pool - {h}, peer) == OfPeer(pool, peer);
    }
  }

  lemma AddedCount(pool: Pool, h: Hash, x: Orphan, peer: int)
    requires h !in pool
    ensures |OfPeer(pool[h := x], peer)| == |OfPeer(pool, peer)| + (if x.peer == peer then 1 else 0)
  {
    if x.peer == peer {
      assert OfPeer(pool[h := x], peer) == OfPeer(pool, peer) + {h};
    } else {
      assert OfPeer(pool[h := x], peer) == OfPeer(pool, peer);
    }
  }

  lemma RemovedInv(o: Oracle, pool: Pool, counts: map<int, int>, h: Hash)
    requires PoolInv(o, pool, counts) && h in pool
    ensures PoolInv(o, pool - {h}, Decremented(counts, pool[h].peer)) && |pool - {h}| == |pool| - 1
  {
    hide OfPeer, Decremented;
    var peer := pool[h].peer;
    assert |pool - {h}| == |pool| - 1 by {
      assert (pool - {h}).Keys == pool.Keys - {h};
    }
    HasOne(pool, h);
    assert CountOf(counts, peer) == |OfPeer(pool, peer)|;
    forall q
      ensures CountOf(Decremented(counts, peer), q) == |OfPeer(pool - {h}, q)| <= MAX_ORPHAN_HEADERS_PER_PEER
    {
      assert CountOf(counts, q) == |OfPeer(pool, q)|;
      RemovedCount(pool, h, q);
    }
  }

  lemma HasOne(pool: Pool, h: Hash)
    requires h in pool
    ensures |OfPeer(pool, pool[h].peer)| > 0
  {
    assert h in OfPeer(pool, pool[h].peer);
  }

  lemma AddedInv(o: Oracle, pool: Pool, counts: map<int, int>, x: Orphan)
    requires PoolInv(o, pool, counts) && o.hash(x.header) !in pool
    requires |pool| < MAX_ORPHAN_HEADERS && CountOf(counts, x.peer) < MAX_ORPHAN_HEADERS_PER_PEER
    ensures PoolInv(o, pool[o.hash(x.header) := x], Incremented(counts, x.peer))
  {
    hide OfPeer, Incremented;
    var h := o.hash(x.header);
    assert |pool[h := x]| == |pool| + 1 by {
      assert pool[h := x].Keys == pool.Keys + {h};
    }
    forall q
      ensures CountOf(Incremented(counts, x.peer), q) == |OfPeer(pool[h := x], q)| <= MAX_ORPHAN_HEADERS_PER_PEER
    {
      assert CountOf(counts, q) == |OfPeer(pool, q)|;
      AddedCount(pool, h, x, q);
    }
  }

  predicate Expired(x: Orphan, now: int, expire: int)
  {
    now - x.received > expire
  }

  /** h was received before g, or at the same time with a smaller hash. */
  predicate Older(pool: Pool, h: Hash, g: Hash)
    requires h in pool && g in pool
  {
    pool[h].received < pool[g].received || (pool[h].received == pool[g].received && h <= g)
  }

  /** Every expired orphan goes; if none is, a full pool loses its oldest, among several the one of smallest hash. */
  ghost predicate EvictedTo(pool: Pool, now: int, expire: int, rest: Pool)
  {
    if exists h :: h in pool && now - pool[h].received > expire then
      rest == map h | h in pool && now - pool[h].received <= expire :: pool[h]
    else if |pool| >= MAX_ORPHAN_HEADERS then
      exists h ::
        && h in pool && rest == pool - {h}
        && forall g :: g in pool ==> pool[h].received < pool[g].received || (pool[h].received == pool[g].received && h <= g)
    else rest == pool
  }

  /** The pool in which there is room for one more. */
  ghost predicate RoomyTo(pool: Pool, now: int, expire: int, rest: Pool)
  {
    if |pool| < MAX_ORPHAN_HEADERS then rest == pool else EvictedTo(pool, now, expire, rest)
  }

  class OrphanPool {
    var headers: Pool
    var counts: map<int, int>

    constructor (o: Oracle)
      ensures headers == map[] && counts == map[] && PoolInv(o, headers, counts)
    {
      headers, counts := map[], map[];
      new;
      EmptyPool(o);
    }

    /** Erases one orphan and steps its peer's counter down. */
    method Remove(o: Oracle, h: Hash)
      requires PoolInv(o, headers, counts) && h in headers
      modifies this
      ensures PoolInv(o, headers, counts) && headers == old(headers) - {h} && |headers| == |old(headers)| - 1
    {
      RemovedInv(o, headers, counts, h);
      var peer := headers[h].peer;
      headers := headers - {h};
      if peer in counts {
        if counts[peer] - 1 == 0 {
          counts := counts - {peer};
        } else {
          counts := counts[peer := counts[peer] - 1];
        }
      }
    }

    /** EvictOrphanHeaders; from a full pool it always frees a slot. */
    method Evict(o: Oracle, now: int, expire: int) returns (evicted: nat)
      requires PoolInv(o, headers, counts)
      modifies this
      ensures PoolInv(o, headers, counts) && EvictedTo(old(headers), now, expire, headers)
      ensures evicted == |old(headers)| - |headers|
      ensures |old(headers)| >= MAX_ORPHAN_HEADERS ==> evicted >= 1
    {
      hide PoolInv;
      if headers == map[] {
        return 0;
      }
      ghost var before := headers;
      evicted := EvictExpired(o, now, expire);
      ExpiredCount(before, headers, now, expire);
      if evicted == 0 && |headers| >= MAX_ORPHAN_HEADERS {
        var oldest := Oldest();
        Remove(o, oldest);
        evicted := evicted + 1;
      }
    }

    method EvictExpired(o: Oracle, now: int, expire: int) returns (evicted: nat)
      requires PoolInv(o, headers, counts)
      modifies this
      ensures PoolInv(o, headers, counts)
      ensures headers == map h | h in old(headers) && !Expired(old(headers)[h], now, expire) :: old(headers)[h]
      ensures evicted == |old(headers)| - |headers|
    {
      hide PoolInv;
      evicted := 0;
      ghost var before := headers;
      var todo := headers.Keys;
      while todo != {}
        invariant PoolInv(o, headers, counts) && evicted == |before| - |headers|
        invariant todo <= headers.Keys <= before.Keys
        invariant forall h :: h in headers ==> headers[h] == before[h]
        invariant forall h :: h in before && h !in todo ==> (h in headers <==> !Expired(before[h], now, expire))
        decreases |todo|
      {
        var h :| h in todo;
        todo := todo - {h};
        if Expired(headers[h], now, expire) {
          Remove(o, h);
          evicted := evicted + 1;
        }
      }
    }

    /** The orphans whose parent is the given block. */
    method WaitingFor(parent: Hash) returns (found: set<Hash>)
      ensures forall h :: h in found <==> h in headers && headers[h].header.prev == parent
    {
      found := {};
      var rest := headers.Keys;
      while rest != {}
        invariant rest <= headers.Keys
        invariant forall h :: h in found <==> h in headers && h !in rest && headers[h].header.prev == parent
        decreases |rest|
      {
        var h :| h in rest;
        rest := rest - {h};
        if headers[h].header.prev == parent {
          found := found + {h};
        }
      }
    }

    /** Walks the pool in the order of the hashes and keeps the first of the oldest. */
    method Oldest() returns (oldest: Hash)
      requires |headers| > 0
      ensures oldest in headers && forall g :: g in headers ==> Older(headers, oldest, g)
    {
      var todo := headers.Keys;
      assert |todo| == |headers|;
      oldest := Smallest(todo);
      while todo != {}
        invariant todo <= headers.Keys && oldest in headers
        invariant forall g, d :: g in headers && g !in todo && d in todo ==> g < d
        invariant oldest !in todo || forall d :: d in todo ==> oldest <= d
        invariant forall g :: g in headers && g !in todo ==> Older(headers, oldest, g)
        decreases |todo|
      {
        var h := Smallest(todo);
        todo := todo - {h};
        if headers[h].received < headers[oldest].received {
          oldest := h;
        }
      }
    }

    /** TryAddOrphanHeader: refused exactly when the header is new and its peer already holds its full share. */
    method TryAdd(o: Oracle, header: Header, peer: int, now: int, expire: int) returns (ok: bool)
      requires PoolInv(o, headers, counts)
      modifies this
      ensures PoolInv(o, headers, counts)
      ensures ok <==> o.hash(header) in old(headers) || |OfPeer(old(headers), peer)| < MAX_ORPHAN_HEADERS_PER_PEER
      ensures !ok || o.hash(header) in old(headers) ==> headers == old(headers)
      ensures ok && o.hash(header) !in old(headers) ==>
                exists rest: Pool ::
                  RoomyTo(old(headers), now, expire, rest) && headers == rest[o.hash(header) := Orphan(header, now, peer)]
    {
      hide PoolInv, OfPeer, EvictedTo;
      var h := o.hash(header);
      if h in headers {
        return true;
      }
      // Reading the counter creates it.
      var count := CountOf(counts, peer);
      TouchedInv(o, headers, counts, peer);
      counts := counts[peer := count];
      CountIs(o, headers, counts, peer);
      if count >= MAX_ORPHAN_HEADERS_PER_PEER {
        return false;
      }
      ghost var before := headers;
      if |headers| >= MAX_ORPHAN_HEADERS {
        var evicted := Evict(o, now, expire);
        if evicted == 0 {
          return false;
        }
        EvictedShrinks(before, now, expire, headers, peer);
      }
      CountIs(o, headers, counts, peer);
      assert RoomyTo(before, now, expire, headers);
      AddedInv(o, headers, counts, Orphan(header, now, peer));
      headers := headers[h := Orphan(header, now, peer)];
      counts := counts[peer := CountOf(counts, peer) + 1];
      return true;
    }
  }

  lemma CountIs(o: Oracle, pool: Pool, counts: map<int, int>, peer: int)
    requires PoolInv(o, pool, counts)
    ensures CountOf(counts, peer) == |OfPeer(pool, peer)| && |pool| <= MAX_ORPHAN_HEADERS
  {
    hide OfPeer;
  }

  lemma EmptyPool(o: Oracle)
    ensures PoolInv(o, map[], map[])
  {
    forall peer
      ensures |OfPeer(map[], peer)| == 0
    {
    }
  }

  lemma TouchedInv(o: Oracle, pool: Pool, counts: map<int, int>, peer: int)
    requires PoolInv(o, pool, counts)
    ensures PoolInv(o, pool, counts[peer := CountOf(counts, peer)])
  {
    hide OfPeer;
    var c := counts[peer := CountOf(counts, peer)];
    forall q
      ensures CountOf(c, q) == CountOf(counts, q)
    {
    }
  }

  lemma ExpiredCount(pool: Pool, rest: Pool, now: int, expire: int)
    requires rest == map h | h in pool && !Expired(pool[h], now, expire) :: pool[h]
    ensures |rest| == |pool| <==> forall h :: h in pool ==> !Expired(pool[h], now, expire)
    ensures |rest| == |pool| ==> rest == pool
  {
    var gone := set h | h in pool && Expired(pool[h], now, expire);
    assert rest.Keys == pool.Keys - gone;
    assert gone <= pool.Keys;
    if gone == {} {
      assert rest == pool;
    }
  }

  lemma EvictedShrinks(pool: Pool, now: int, expire: int, rest: Pool, peer: int)
    requires EvictedTo(pool, now, expire, rest)
    ensures rest.Keys <= pool.Keys && |OfPeer(rest, peer)| <= |OfPeer(pool, peer)|
  {
    assert OfPeer(rest, peer) <= OfPeer(pool, peer);
    SubsetSize(OfPeer(rest, peer), OfPeer(pool, peer));
  }

  lemma SubsetSize(a: set<Hash>, b: set<Hash>)
    requires a <= b
    ensures |a| <= |b|
  {
    assert b == a + (b - a);
  }
}
