/** Lists of inserted headers, and what became of the orphans a header promoted. */
module Promotion {
  import opened Primitives
  import opened Validation
  import opened BlockTree
  import opened TreeGrowth
  import opened Chainstate
  import opened Orphans

  /** Inserting one list after another is inserting their concatenation. */
  lemma {:induction false} InsertConcat(e: Env, idx: Index, a: seq<Header>, b: seq<Header>, now: int)
    requires Linked(idx) && Insertable(e, idx, a, now) && Insertable(e, InsertAll(e, idx, a, now), b, now)
    ensures Insertable(e, idx, a + b, now)
    ensures InsertAll(e, idx, a + b, now) == InsertAll(e, InsertAll(e, idx, a, now), b, now)
    decreases a
  {
    hide Check, Inserted, Linked;
    if a == [] {
      assert a + b == b;
    } else {
      assert (a + b)[0] == a[0] && (a + b)[1..] == a[1..] + b;
      InsertConcat(e, Inserted(e.oracle, idx, a[0]), a[1..], b, now);
    }
  }

  /** At some point between the insertions the header failed validation although its parent was indexed. */
  ghost predicate RefusedDuring(e: Env, idx: Index, added: seq<Header>, now: int, x: Header, k: nat)
    requires Linked(idx)
  {
    && k <= |added| && Insertable(e, idx, added[..k], now)
    && x.prev in InsertAll(e, idx, added[..k], now)
    && Check(e, InsertAll(e, idx, added[..k], now), x, now, true).Rejected?
  }

  /** The header is indexed, or it failed validation at some point at which its parent was indexed. */
  ghost predicate Settled(e: Env, idx: Index, added: seq<Header>, now: int, x: Header)
    requires Linked(idx) && Insertable(e, idx, added, now)
  {
    || e.oracle.hash(x) in InsertAll(e, idx, added, now)
    || exists k: nat :: RefusedDuring(e, idx, added, now, x, k)
  }

  lemma SettledLater(e: Env, idx: Index, a: seq<Header>, b: seq<Header>, now: int, x: Header)
    requires IndexInv(e, idx) && Insertable(e, idx, a, now) && Insertable(e, InsertAll(e, idx, a, now), b, now)
    requires Settled(e, idx, a, now, x)
    ensures Insertable(e, idx, a + b, now) && Settled(e, idx, a + b, now, x)
  {
    hide Check, Insertable, InsertAll, AllTree, Closed, AcceptedPaths, EntryOk, Rooted, Linked;
    InsertConcat(e, idx, a, b, now);
    InsertAllInv(e, idx, a, now);
    InsertAllInv(e, InsertAll(e, idx, a, now), b, now);
    if k: nat :| RefusedDuring(e, idx, a, now, x, k) {
      assert (a + b)[..k] == a[..k];
      assert RefusedDuring(e, idx, a + b, now, x, k);
    }
  }

  lemma SettledAfter(e: Env, idx: Index, a: seq<Header>, b: seq<Header>, now: int, x: Header)
    requires Linked(idx) && Insertable(e, idx, a, now) && Insertable(e, InsertAll(e, idx, a, now), b, now)
    requires Settled(e, InsertAll(e, idx, a, now), b, now, x)
    ensures Insertable(e, idx, a + b, now) && Settled(e, idx, a + b, now, x)
  {
    hide Check, Insertable, InsertAll, Linked;
    InsertConcat(e, idx, a, b, now);
    var mid := InsertAll(e, idx, a, now);
    if k: nat :| RefusedDuring(e, mid, b, now, x, k) {
      InsertConcat(e, idx, a, b[..k], now);
      assert (a + b)[..|a| + k] == a + b[..k];
      assert RefusedDuring(e, idx, a + b, now, x, |a| + k);
    }
  }

  lemma SettledNow(e: Env, idx: Index, now: int, x: Header)
    requires Linked(idx) && x.prev in idx && Check(e, idx, x, now, true) != Fresh
    ensures Insertable(e, idx, [], now) && Settled(e, idx, [], now, x)
  {
    if Check(e, idx, x, now, true).Rejected? {
      var none: seq<Header> := [];
      assert none[..0] == none;
      assert RefusedDuring(e, idx, none, now, x, 0);
    }
  }

  /** No pooled orphan has an indexed parent. */
  ghost predicate NoneReady(pool: Pool, idx: Index)
  {
    forall h :: h in pool ==> pool[h].header.prev !in idx
  }

  /** The orphans whose parent did not get indexed between idx and idx'. */
  ghost function StillWaiting(pool: Pool, idx: Index, idx': Index): (rest: Pool)
  {
    map h | h in pool && !(pool[h].header.prev in idx' && pool[h].header.prev !in idx) :: pool[h]
  }

  /**
   * From (idx, pool) to (idx', pool') by inserting `added`: beside the `taken` orphans exactly those left whose
   * parent was indexed on the way, and each of them was itself indexed or failed validation below its parent.
   */
  ghost predicate Drained(e: Env, idx: Index, pool: Pool, taken: set<Hash>, added: seq<Header>, now: int,
                          idx': Index, pool': Pool)
    requires Linked(idx)
  {
    && Insertable(e, idx, added, now) && idx' == InsertAll(e, idx, added, now)
    && pool' == StillWaiting(pool - taken, idx, idx')
    && (forall h :: h in pool && h !in pool' ==> Settled(e, idx, added, now, pool[h].header))
  }

  /** If no orphan was ready before, none is after. */
  lemma DrainedLeavesNoneReady(e: Env, idx: Index, pool: Pool, added: seq<Header>, now: int, idx': Index, pool': Pool)
    requires Linked(idx) && Drained(e, idx, pool, {}, added, now, idx', pool') && NoneReady(pool, idx)
    ensures NoneReady(pool', idx')
  {
    hide Insertable, InsertAll, Settled, Linked;
  }

  /** No account covers a call that inserts a header and drops an orphan that is valid below it. */
  lemma NothingDiscarded(e: Env, idx: Index, pool: Pool, header: Header, now: int, pool': Pool, h: Hash)
    requires Linked(idx) && Check(e, idx, header, now, true) == Fresh
    requires h in pool && pool[h].header.prev == e.oracle.hash(header)
    requires Check(e, Inserted(e.oracle, idx, header), pool[h].header, now, true) == Fresh
    ensures !Drained(e, idx, pool, {}, [header], now, Inserted(e.oracle, idx, header), pool')
  {
    hide Check, Inserted, Linked, Insertable, RefusedDuring;
    var one := [header];
    OneNew(e.oracle, idx, header);
    if Insertable(e, idx, one, now) {
      InsertOne(e, idx, one, now);
      forall k: nat
        ensures !RefusedDuring(e, idx, one, now, pool[h].header, k)
      {
        NeverRefused(e, idx, header, now, pool[h].header, k);
      }
    }
  }

  lemma NeverRefused(e: Env, idx: Index, header: Header, now: int, x: Header, k: nat)
    requires Linked(idx) && Check(e, idx, header, now, true) == Fresh && x.prev == e.oracle.hash(header)
    requires Check(e, Inserted(e.oracle, idx, header), x, now, true) == Fresh
    ensures !RefusedDuring(e, idx, [header], now, x, k)
  {
    hide Check, Inserted, Linked;
    var one := [header];
    if k == 0 {
      assert one[..k] == [];
    } else if k == 1 {
      assert one[..k] == one;
      if Insertable(e, idx, one, now) {
        InsertOne(e, idx, one, now);
      }
    }
  }

  /** An orphan handed to AcceptBlockHeader is settled by what that call inserted. */
  lemma AcceptedSettles(e: Env, idx: Index, x: Header, added: seq<Header>, now: int)
    requires IndexInv(e, idx) && Insertable(e, idx, added, now) && x.prev in idx
    requires if Check(e, idx, x, now, true) == Fresh then added != [] && added[0] == x else added == []
    ensures Settled(e, idx, added, now, x)
  {
    hide Check, Insertable, InsertAll, AllTree, Closed, AcceptedPaths, EntryOk, Rooted, Linked, RefusedDuring;
    if added == [] {
      SettledNow(e, idx, now, x);
    } else {
      InsertAllInv(e, idx, added, now);
    }
  }

  /** One orphan was taken out of the pool and handed to AcceptBlockHeader. */
  lemma DrainTaken(e: Env, idx: Index, pool: Pool, x: Hash, added: seq<Header>, now: int, idx': Index, pool': Pool)
    requires IndexInv(e, idx) && x in pool && pool[x].header.prev in idx
    requires Drained(e, idx, pool - {x}, {}, added, now, idx', pool')
    requires if Check(e, idx, pool[x].header, now, true) == Fresh then added != [] && added[0] == pool[x].header else added == []
    ensures Drained(e, idx, pool, {x}, added, now, idx', pool')
  {
    hide Check, Insertable, InsertAll, IndexInv, Settled, Linked;
    AcceptedSettles(e, idx, pool[x].header, added, now);
    assert pool - {x} - {} == pool - {x};
  }

  /** Taking one more orphan out of the pool and accepting it continues a drain. */
  lemma DrainMore(e: Env, idx: Index, pool: Pool, taken: set<Hash>, a: seq<Header>, mid: Index, pool1: Pool, x: Hash,
                  b: seq<Header>, now: int, idx': Index, pool': Pool)
    requires IndexInv(e, idx) && IndexInv(e, mid) && Drained(e, idx, pool, taken, a, now, mid, pool1) && x in pool1
    requires Drained(e, mid, pool1, {x}, b, now, idx', pool')
    ensures Drained(e, idx, pool, taken + {x}, a + b, now, idx', pool')
  {
    hide Check, Insertable, InsertAll, IndexInv, Settled, Linked;
    DrainFacts(e, idx, a, mid, now);
    DrainFacts(e, mid, b, idx', now);
    InsertConcat(e, idx, a, b, now);
    WaitingMore(pool, taken, x, idx, mid, idx');
    forall h | h in pool && h !in pool'
      ensures Settled(e, idx, a + b, now, pool[h].header)
    {
      if h !in pool1 {
        SettledLater(e, idx, a, b, now, pool[h].header);
      } else {
        SettledAfter(e, idx, a, b, now, pool[h].header);
      }
    }
  }

  lemma WaitingMore(pool: Pool, taken: set<Hash>, x: Hash, idx: Index, mid: Index, idx': Index)
    requires idx.Keys <= mid.Keys <= idx'.Keys
    ensures StillWaiting(StillWaiting(pool - taken, idx, mid) - {x}, mid, idx') == StillWaiting(pool - (taken + {x}), idx, idx')
  {
  }

  lemma DrainFacts(e: Env, idx: Index, a: seq<Header>, mid: Index, now: int)
    requires IndexInv(e, idx) && Insertable(e, idx, a, now) && mid == InsertAll(e, idx, a, now)
    ensures Linked(idx) && idx.Keys <= mid.Keys
  {
    hide EntryOk, Rooted, AllTree, Closed, AcceptedPaths, Insertable, InsertAll;
    InsertAllInv(e, idx, a, now);
  }

  /** Inserting a fresh header and draining the orphans below it. */
  lemma DrainFirst(e: Env, idx: Index, pool: Pool, header: Header, taken: set<Hash>, b: seq<Header>, now: int,
                   idx': Index, pool': Pool)
    requires IndexInv(e, idx) && Check(e, idx, header, now, true) == Fresh
    requires IndexInv(e, Inserted(e.oracle, idx, header))
    requires Drained(e, Inserted(e.oracle, idx, header), pool, taken, b, now, idx', pool')
    requires forall h :: h in taken <==> h in pool && pool[h].header.prev == e.oracle.hash(header)
    ensures Drained(e, idx, pool, {}, [header] + b, now, idx', pool')
  {
    hide Check, IndexInv, Settled, Linked, Inserted;
    DrainFacts(e, idx, [], idx, now);
    var mid := Inserted(e.oracle, idx, header);
    var one := [header];
    assert one[1..] == [];
    assert Insertable(e, idx, one, now);
    InsertOne(e, idx, one, now);
    InsertConcat(e, idx, one, b, now);
    OneNew(e.oracle, idx, header);
    DrainFacts(e, mid, b, idx', now);
    WaitingFirst(pool, taken, e.oracle.hash(header), idx, mid, idx');
    forall h | h in pool && h !in pool'
      ensures Settled(e, idx, one + b, now, pool[h].header)
    {
      SettledAfter(e, idx, one, b, now, pool[h].header);
    }
  }

  lemma WaitingFirst(pool: Pool, taken: set<Hash>, x: Hash, idx: Index, mid: Index, idx': Index)
    requires mid.Keys == idx.Keys + {x} && mid.Keys <= idx'.Keys && x !in idx
    requires forall h :: h in taken <==> h in pool && pool[h].header.prev == x
    ensures StillWaiting(pool - taken, mid, idx') == StillWaiting(pool - {}, idx, idx')
  {
  }

  /** The parent of each header is the given block or an earlier one of the list. */
  ghost predicate Under(e: Env, parent: Hash, hs: seq<Header>)
  {
    forall i :: 0 <= i < |hs| ==> hs[i].prev == parent || exists j :: 0 <= j < i && hs[i].prev == e.oracle.hash(hs[j])
  }

  lemma UnderMore(e: Env, parent: Hash, a: seq<Header>, b: seq<Header>)
    requires Under(e, parent, a)
    requires b != [] ==> b[0].prev == parent && Under(e, e.oracle.hash(b[0]), b[1..])
    ensures Under(e, parent, a + b)
  {
    var r := a + b;
    forall i | 0 <= i < |r|
      ensures r[i].prev == parent || exists j :: 0 <= j < i && r[i].prev == e.oracle.hash(r[j])
    {
      if i < |a| {
        assert r[i] == a[i];
        if a[i].prev != parent {
          var j :| 0 <= j < i && a[i].prev == e.oracle.hash(a[j]);
          assert r[j] == a[j];
        }
      } else if i == |a| {
        assert r[i] == b[0];
      } else {
        var k := i - |a| - 1;
        assert r[i] == b[1..][k];
        if b[1..][k].prev == e.oracle.hash(b[0]) {
          assert r[|a|] == b[0];
        } else {
          var j :| 0 <= j < k && b[1..][k].prev == e.oracle.hash(b[1..][j]);
          assert r[|a| + 1 + j] == b[1..][j];
        }
      }
    }
  }

  /** Every header of hs is that of a pooled orphan. */
  ghost predicate Pooled(pool: Pool, hs: seq<Header>)
  {
    forall i :: 0 <= i < |hs| ==> exists h :: h in pool && pool[h].header == hs[i]
  }

  lemma PooledMore(pool: Pool, pool': Pool, h: Hash, a: seq<Header>, b: seq<Header>)
    requires Pooled(pool, a) && (forall g :: g in pool' ==> g in pool && pool'[g] == pool[g])
    requires h in pool && (b != [] ==> b[0] == pool[h].header && Pooled(pool', b[1..]))
    ensures Pooled(pool, a + b)
  {
    var r := a + b;
    forall i | 0 <= i < |r|
      ensures exists g :: g in pool && pool[g].header == r[i]
    {
      if i < |a| {
        assert r[i] == a[i];
      } else if i == |a| {
        assert r[i] == b[0];
      } else {
        assert r[i] == b[1..][i - |a| - 1];
        var g :| g in pool' && pool'[g].header == r[i];
        assert pool[g].header == r[i];
      }
    }
  }

  /** Orphan h waits for the header and is valid once that is indexed. */
  ghost predicate Awaits(e: Env, idx: Index, pool: Pool, header: Header, now: int, h: Hash)
    requires Linked(idx) && Check(e, idx, header, now, true) == Fresh
  {
    && h in pool && pool[h].header.prev == e.oracle.hash(header)
    && Check(e, Inserted(e.oracle, idx, header), pool[h].header, now, true) == Fresh
  }

  /** Accepting a fresh header promotes orphans exactly if some pooled orphan waits for it and is valid below it. */
  lemma PromotesExactly(e: Env, idx: Index, pool: Pool, header: Header, added: seq<Header>, now: int, idx': Index, pool': Pool)
    requires Linked(idx) && Check(e, idx, header, now, true) == Fresh
    requires Drained(e, idx, pool, {}, added, now, idx', pool') && added != [] && added[0] == header
    requires Under(e, e.oracle.hash(header), added[1..]) && Pooled(pool, added[1..])
    ensures |added| > 1 <==> exists h :: Awaits(e, idx, pool, header, now, h)
  {
    hide Check, Inserted, Linked, Drained;
    if |added| > 1 {
      SecondAwaits(e, idx, pool, header, added, now, idx', pool');
    } else if h :| Awaits(e, idx, pool, header, now, h) {
      assert added == [header];
      NothingDiscarded(e, idx, pool, header, now, pool', h);
      OnlyHeader(e, idx, pool, header, now, idx', pool');
    }
  }

  lemma SecondAwaits(e: Env, idx: Index, pool: Pool, header: Header, added: seq<Header>, now: int, idx': Index, pool': Pool)
    requires Linked(idx) && Check(e, idx, header, now, true) == Fresh
    requires Drained(e, idx, pool, {}, added, now, idx', pool') && |added| > 1 && added[0] == header
    requires Under(e, e.oracle.hash(header), added[1..]) && Pooled(pool, added[1..])
    ensures exists h :: Awaits(e, idx, pool, header, now, h)
  {
    hide Check, Inserted, Linked, Settled, StillWaiting;
    var rest := added[1..];
    assert rest[0] == added[1];
    var h :| h in pool && pool[h].header == rest[0];
    assert Insertable(e, Inserted(e.oracle, idx, header), rest, now);
    assert Awaits(e, idx, pool, header, now, h);
  }

  lemma OnlyHeader(e: Env, idx: Index, pool: Pool, header: Header, now: int, idx': Index, pool': Pool)
    requires Linked(idx) && Check(e, idx, header, now, true) == Fresh && Drained(e, idx, pool, {}, [header], now, idx', pool')
    ensures idx' == Inserted(e.oracle, idx, header)
  {
    hide Check, Inserted, Linked, Settled, StillWaiting;
    var one := [header];
    InsertOne(e, idx, one, now);
  }
}
