/** How far each round of header sync gets, as a function of the height alone. */
module Rounds {
  import opened Bits
  import opened Work
  import opened Primitives
  import opened Validation
  import opened BlockTree
  import opened Chainstate
  import opened Orphans
  import opened Protocol
  import opened SyncSpec
  import opened CatchUp

  /** The last block of the batch that answers a request from height m. */
  function BatchEnd(k: Session, m: nat): (n: nat)
    requires m < |k.c|
    ensures m <= n < |k.c|
  {
    StartOf(m) + Min(MAX_HEADERS_SIZE, |k.c| - 1 - StartOf(m))
  }

  /** That batch is full, so more is asked for. */
  predicate Full(k: Session, m: nat)
    requires m < |k.c|
  {
    |k.c| - 1 - StartOf(m) >= MAX_HEADERS_SIZE
  }

  /** A batch of new headers up to block n is ignored: the download had ended and n weighs less than the minimum. */
  ghost predicate Filtered(e: Env, k: Session, m: nat, n: nat)
    requires Room(e, k) && StartOf(k.t) <= n < |k.c|
  {
    k.finished && m < n && WorkAt(e, k, n) < e.params.minimumChainWork
  }

  /** Where a batch up to block n takes a node at height m: to its highest block that is not late, unless it is ignored. */
  ghost function Advance(e: Env, k: Session, m: nat, n: nat): (q: nat)
    requires Room(e, k) && k.t <= m <= n < |k.c|
    ensures m <= q <= n
  {
    if Filtered(e, k, m, n) then m else TopOnTime(e, k, m, n)
  }

  ghost function NextHeight(e: Env, k: Session, m: nat): (q: nat)
    requires Room(e, k) && k.t <= m < |k.c|
    ensures m <= q < |k.c|
  {
    Advance(e, k, m, BatchEnd(k, m))
  }

  /** The height after r rounds. */
  ghost function Height(e: Env, k: Session, r: nat): (m: nat)
    requires Room(e, k) && k.t < |k.c|
    ensures k.t <= m < |k.c|
  {
    if r == 0 then k.t else NextHeight(e, k, Height(e, k, r - 1))
  }

  /** A full batch that leaves the height as it is: all of its new blocks are late, or it is ignored. */
  ghost predicate Stuck(e: Env, k: Session, m: nat)
    requires Room(e, k) && k.t <= m < |k.c|
  {
    Full(k, m) && NextHeight(e, k, m) == m
  }

  lemma StuckExactly(e: Env, k: Session, m: nat)
    requires Room(e, k) && k.t <= m < |k.c|
    ensures Stuck(e, k, m) <==>
            && Full(k, m)
            && (Filtered(e, k, m, BatchEnd(k, m)) || forall j :: m < j <= BatchEnd(k, m) ==> Late(e, k, j))
  {
    hide Late, TopOnTime, WorkAt, Room;
    var n := BatchEnd(k, m);
    var q := TopOnTime(e, k, m, n);
    TopIs(e, k, m, n);
    if q > m {
      assert !Late(e, k, q);
    }
  }

  ghost predicate NeverStuck(e: Env, k: Session)
    requires Room(e, k) && k.t < |k.c|
  {
    forall r: nat :: !Stuck(e, k, Height(e, k, r))
  }

  // ---- When the loop ends ----

  /** The rounds up to r were all full. */
  ghost predicate AllFull(e: Env, k: Session, r: nat)
    requires Room(e, k) && k.t < |k.c|
  {
    forall i: nat :: i < r ==> Full(k, Height(e, k, i))
  }

  lemma {:induction false} HeightsRise(e: Env, k: Session, i: nat, r: nat)
    requires Room(e, k) && k.t < |k.c| && i <= r
    ensures Height(e, k, i) <= Height(e, k, r)
    ensures Full(k, Height(e, k, r)) ==> Full(k, Height(e, k, i))
    decreases r
  {
    hide NextHeight, Room;
    if i < r {
      HeightsRise(e, k, i, r - 1);
    }
  }

  /** Once stuck the height never changes. */
  lemma {:induction false} StuckStays(e: Env, k: Session, i: nat, r: nat)
    requires Room(e, k) && k.t < |k.c| && i <= r && Stuck(e, k, Height(e, k, i))
    ensures Height(e, k, r) == Height(e, k, i)
    decreases r
  {
    hide NextHeight, Room;
    if i < r {
      StuckStays(e, k, i, r - 1);
    }
  }

  /** Otherwise each full round gains a block. */
  lemma {:induction false} FullRoundsGain(e: Env, k: Session, r: nat)
    requires Room(e, k) && k.t < |k.c| && AllFull(e, k, r)
    requires NeverStuck(e, k)
    ensures Height(e, k, r) >= k.t + r
    decreases r
  {
    hide NextHeight, Room, Full;
    if r > 0 {
      FullRoundsGain(e, k, r - 1);
      assert !Stuck(e, k, Height(e, k, r - 1));
    }
  }

  /** Some round is not full. */
  ghost predicate Ends(e: Env, k: Session)
    requires Room(e, k) && k.t < |k.c|
  {
    exists r: nat :: !Full(k, Height(e, k, r))
  }

  lemma StuckNeverEnds(e: Env, k: Session, i: nat, last: nat)
    requires Room(e, k) && k.t < |k.c| && !Full(k, Height(e, k, last))
    ensures !Stuck(e, k, Height(e, k, i))
  {
    hide Room, Height, NextHeight;
    HeightsRise(e, k, last, Later(last, i));
    if Stuck(e, k, Height(e, k, i)) {
      StuckStays(e, k, i, Later(last, i));
    }
  }

  lemma NeverStuckEnds(e: Env, k: Session)
    requires Room(e, k) && k.t < |k.c| && NeverStuck(e, k)
    ensures Ends(e, k)
  {
    hide Room, Height, NextHeight, Full;
    if AllFull(e, k, |k.c|) {
      FullRoundsGain(e, k, |k.c|);
    }
  }

  /** The loop ends exactly when it reaches no height at which a full batch gains nothing. */
  lemma EndsExactly(e: Env, k: Session)
    requires Room(e, k) && k.t < |k.c|
    ensures Ends(e, k) <==> NeverStuck(e, k)
  {
    hide Room, Height, NextHeight, Full, Stuck;
    if Ends(e, k) {
      var last: nat :| !Full(k, Height(e, k, last));
      forall r: nat
        ensures !Stuck(e, k, Height(e, k, r))
      {
        StuckNeverEnds(e, k, r, last);
      }
    }
    if NeverStuck(e, k) {
      NeverStuckEnds(e, k);
    }
  }

  /** From a stuck height on every batch is full and every round leaves the height as it is. */
  ghost predicate Forever(e: Env, k: Session, i: nat)
    requires Room(e, k) && k.t < |k.c|
  {
    forall r: nat :: Full(k, Height(e, k, r)) && (i <= r ==> Height(e, k, r) == Height(e, k, i))
  }

  lemma StuckForever(e: Env, k: Session, i: nat)
    requires Room(e, k) && k.t < |k.c| && Stuck(e, k, Height(e, k, i))
    ensures Forever(e, k, i) && !Ends(e, k)
  {
    hide Room, Height, NextHeight;
    forall r: nat
      ensures Full(k, Height(e, k, r)) && (i <= r ==> Height(e, k, r) == Height(e, k, i))
    {
      StuckStays(e, k, i, Later(i, r));
      HeightsRise(e, k, r, Later(i, r));
    }
  }

  /** In particular a node whose download had ended never gets past a full batch below the minimum chain work. */
  lemma LowBatchForever(e: Env, k: Session)
    requires Room(e, k) && k.t < |k.c| && Full(k, k.t)
    requires k.finished && WorkAt(e, k, BatchEnd(k, k.t)) < e.params.minimumChainWork
    ensures Forever(e, k, 0) && !Ends(e, k)
  {
    hide Room, WorkAt, Late;
    StuckExactly(e, k, k.t);
    StuckForever(e, k, 0);
  }

  // ---- Where it ends ----

  /** The last block stays out of reach: it is late, or the download had ended and it weighs too little. */
  ghost predicate OutOfReach(e: Env, k: Session)
    requires Room(e, k) && k.c != []
  {
    Late(e, k, Last(k)) || (k.finished && WorkAt(e, k, Last(k)) < e.params.minimumChainWork)
  }

  lemma WorkAtMost(e: Env, k: Session, i: nat, j: nat)
    requires Room(e, k) && StartOf(k.t) <= i <= j < |k.c|
    ensures WorkAt(e, k, i) <= WorkAt(e, k, j)
  {
    hide Room, WorkAt, ProofSum, BitsOf;
    WorkSplits(e, k, i, j);
  }

  /** A height that was gained is that of a block which is not late, and the download was not over or it weighs enough. */
  lemma {:induction false} Gained(e: Env, k: Session, r: nat)
    requires Room(e, k) && k.t < |k.c|
    ensures var m := Height(e, k, r);
            m > k.t ==> !Late(e, k, m) && (k.finished ==> WorkAt(e, k, Last(k)) >= e.params.minimumChainWork)
    decreases r
  {
    hide Room, Late, WorkAt, TopOnTime, BatchEnd;
    if r > 0 {
      Gained(e, k, r - 1);
      var m := Height(e, k, r - 1);
      WorkAtMost(e, k, BatchEnd(k, m), Last(k));
      TopIs(e, k, m, BatchEnd(k, m));
    }
  }

  /** The round after the last full one reaches the end of the chain exactly when the last block is not out of reach. */
  lemma EndsAtLast(e: Env, k: Session, r: nat)
    requires Room(e, k) && k.t < |k.c| && !Full(k, Height(e, k, r))
    ensures Height(e, k, r + 1) == Last(k) <==> k.t == Last(k) || !OutOfReach(e, k)
  {
    hide Room, Late, WorkAt, TopOnTime;
    Gained(e, k, r);
    var m := Height(e, k, r);
    assert BatchEnd(k, m) == Last(k);
    TopIs(e, k, m, BatchEnd(k, m));
  }

  // ---- A count that rules out a stuck batch ----

  /** A pooled orphan waits for block x. */
  ghost predicate Awaited(pool: Pool, x: Hash)
  {
    exists h :: h in pool && pool[h].header.prev == x
  }

  /** Orphans that wait for different blocks are different. */
  lemma {:induction false} AwaitedFew(e: Env, k: Session, pool: Pool, a: nat, b: nat)
    requires GoodChain(e, k.c, k.now) && a <= b < |k.c|
    requires forall j :: a < j <= b ==> Awaited(pool, e.oracle.hash(k.c[j]))
    ensures b - a <= |pool|
    decreases b
  {
    hide GoodChain;
    if a < b {
      assert Awaited(pool, e.oracle.hash(k.c[b]));
      var h :| h in pool && pool[h].header.prev == e.oracle.hash(k.c[b]);
      var rest := pool - {h};
      forall j | a < j <= b - 1
        ensures Awaited(rest, e.oracle.hash(k.c[j]))
      {
        assert Awaited(pool, e.oracle.hash(k.c[j]));
        var g :| g in pool && pool[g].header.prev == e.oracle.hash(k.c[j]);
        ChainDistinct(e, k, j, b);
        assert g in rest && rest[g] == pool[g];
      }
      AwaitedFew(e, k, rest, a, b - 1);
      assert rest.Keys == pool.Keys - {h};
      assert |rest| == |pool| - 1;
    }
  }

  lemma LateIsAwaited(e: Env, k: Session, j: nat)
    requires Starts(e, k) && k.known < j < |k.c| && Late(e, k, j)
    ensures Awaited(k.pool, e.oracle.hash(k.c[j]))
  {
    hide GoodChain, IndexInv, Room, Keyed, NoClash, Spine, FullPow, ContextualCheck;
    NoChildYet(e, k, k.start, e.oracle.hash(k.c[j]));
    var h :| LateOrphan(e, k, j, h);
    assert h in k.pool;
  }

  lemma LateFew(e: Env, k: Session, m: nat, p: nat)
    requires Starts(e, k) && k.t <= m <= p < |k.c| && forall j :: m < j <= p ==> Late(e, k, j)
    ensures p - m <= |k.pool| + (k.known - k.t)
  {
    hide Starts, Late;
    StartsRoom(e, k);
    var a := Later(m, k.known);
    if a < p {
      forall j | a < j <= p
        ensures Awaited(k.pool, e.oracle.hash(k.c[j]))
      {
        LateIsAwaited(e, k, j);
      }
      AwaitedFew(e, k, k.pool, a, p);
    }
  }

  /**
   * The loop ends if the orphans and the known blocks above the tip are fewer than the new headers of a full batch and
   * the tip weighs enough for the filter. A full pool together with 998 known blocks still is.
   */
  lemma FewNeverStick(e: Env, k: Session)
    requires Starts(e, k) && Room(e, k) && k.t < |k.c| && |k.pool| + (k.known - k.t) < MAX_HEADERS_SIZE - 1
    requires k.finished ==> e.params.minimumChainWork <= WorkAt(e, k, k.t)
    ensures Ends(e, k)
  {
    hide Starts, Room, Late, WorkAt, Height, NextHeight;
    forall r: nat
      ensures !Stuck(e, k, Height(e, k, r))
    {
      var m := Height(e, k, r);
      StuckExactly(e, k, m);
      WorkAtMost(e, k, k.t, BatchEnd(k, m));
      if forall j :: m < j <= BatchEnd(k, m) ==> Late(e, k, j) {
        LateFew(e, k, m, BatchEnd(k, m));
      }
    }
    EndsExactly(e, k);
  }
}
