/** HeaderSyncManager: the request and response handlers of header sync, on both sides. */
module HeaderSync {
  import opened Bits
  import opened Compact
  import opened Work
  import opened Primitives
  import opened Validation
  import opened BlockTree
  import opened SkipList
  import opened TreeGrowth
  import opened ActiveChain
  import opened Selector
  import opened Chainstate
  import opened Activation
  import opened Submission
  import opened Orphans
  import opened Promotion
  import opened Notifications
  import opened Protocol
  import opened Blocks
  import opened Runs
  import opened Chainman
  import opened SyncSpec
  import opened CatchUp
  import opened Rounds
  import WorkFilter

  const MAX_UNSOLICITED_ANNOUNCEMENT: nat := 2

  // ---- Answering a request ----

  /** The height of the first locator entry on the active chain, or the root. */
  ghost function ForkHeight(s: State, locator: seq<Hash>): (f: nat)
  {
    if locator == [] then 0
    else if locator[0] in s.chain && locator[0] in s.index then s.index[locator[0]].height
    else ForkHeight(s, locator[1..])
  }

  /** The first locator entry on the active chain decides. */
  lemma {:induction false} ForkIsFirst(s: State, locator: seq<Hash>, i: nat)
    requires i < |locator| && locator[i] in s.chain && locator[i] in s.index
    requires forall j :: 0 <= j < i ==> locator[j] !in s.chain
    ensures ForkHeight(s, locator) == s.index[locator[i]].height
    decreases locator
  {
    if i > 0 {
      assert locator[0] !in s.chain;
      ForkIsFirst(s, locator[1..], i - 1);
    }
  }

  /**
   * A responder that shares the requester's blocks exactly up to height x answers from at most as far below x as x is
   * below the top of the locator.
   */
  lemma ForkIsNear(s: State, idx: Index, h: Hash, have: seq<Hash>, x: nat)
    requires Linked(idx) && h in idx && IsLocator(idx, h, have) && x <= idx[h].height
    requires forall j :: 0 <= j <= idx[h].height ==> (Path(idx, h)[j] in s.chain <==> j <= x)
    requires forall j :: 0 <= j <= x ==> Path(idx, h)[j] in s.index && s.index[Path(idx, h)[j]].height == j
    ensures ForkHeight(s, have) <= x && x - ForkHeight(s, have) <= idx[h].height - x
  {
    hide ForkHeight, Path, Linked, Rung;
    var i := LocatorReaches(idx, h, have, x);
    forall j | 0 <= j <= i
      ensures have[j] in idx && idx[have[j]].height <= idx[h].height && Path(idx, h)[idx[have[j]].height] == have[j]
    {
      AncestorAtHeight(idx, have[j], h);
    }
    ForkIsFirst(s, have, i);
  }

  /** The headers of the active chain after height f, at most a full batch, up to and including the stop block. */
  ghost function Response(s: State, f: nat, stop: Hash): (hs: seq<Header>)
    requires forall i :: 0 <= i < |s.chain| ==> s.chain[i] in s.index
  {
    Following(s, f, stop, MAX_HEADERS_SIZE)
  }

  ghost function Following(s: State, f: nat, stop: Hash, room: nat): (hs: seq<Header>)
    requires forall i :: 0 <= i < |s.chain| ==> s.chain[i] in s.index
    decreases room
  {
    if room == 0 || f + 1 >= |s.chain| then []
    else
      [s.index[s.chain[f + 1]].header]
      + (if stop != NULL_HASH && s.chain[f + 1] == stop then [] else Following(s, f + 1, stop, room - 1))
  }

  /**
   * hs spells the chain after height f: it ends with the stop block if that comes within the room, and otherwise with
   * the room or the chain; no header before its last is the stop block.
   */
  ghost predicate Answers(s: State, f: nat, stop: Hash, room: nat, hs: seq<Header>)
  {
    && |hs| <= room && (hs == [] || f + |hs| < |s.chain|)
    && (forall j :: f < j <= f + |hs| ==> s.chain[j] in s.index && hs[j - f - 1] == s.index[s.chain[j]].header)
    && (forall j :: f < j < f + |hs| ==> stop == NULL_HASH || s.chain[j] != stop)
    && (|hs| == room || f + |hs| + 1 >= |s.chain| || (hs != [] && stop != NULL_HASH && s.chain[f + |hs|] == stop))
  }

  lemma {:induction false} FollowingExactly(s: State, f: nat, stop: Hash, room: nat)
    requires forall i :: 0 <= i < |s.chain| ==> s.chain[i] in s.index
    ensures Answers(s, f, stop, room, Following(s, f, stop, room))
    decreases room
  {
    hide Answers, Following;
    FollowingUnfolds(s, f, stop, room);
    if room == 0 || f + 1 >= |s.chain| || (stop != NULL_HASH && s.chain[f + 1] == stop) {
      AnswersShort(s, f, stop, room);
    } else {
      FollowingExactly(s, f + 1, stop, room - 1);
      AnswersMore(s, f, stop, room, Following(s, f + 1, stop, room - 1));
    }
  }

  lemma FollowingUnfolds(s: State, f: nat, stop: Hash, room: nat)
    requires forall i :: 0 <= i < |s.chain| ==> s.chain[i] in s.index
    ensures Following(s, f, stop, room) ==
            if room == 0 || f + 1 >= |s.chain| then []
            else if stop != NULL_HASH && s.chain[f + 1] == stop then [s.index[s.chain[f + 1]].header]
            else [s.index[s.chain[f + 1]].header] + Following(s, f + 1, stop, room - 1)
  {
  }

  lemma AnswersShort(s: State, f: nat, stop: Hash, room: nat)
    requires room > 0 && f + 1 < |s.chain| ==> s.chain[f + 1] in s.index && stop != NULL_HASH && s.chain[f + 1] == stop
    ensures Answers(s, f, stop, room, if room == 0 || f + 1 >= |s.chain| then [] else [s.index[s.chain[f + 1]].header])
  {
  }

  lemma AnswersMore(s: State, f: nat, stop: Hash, room: nat, more: seq<Header>)
    requires room > 0 && f + 1 < |s.chain| && s.chain[f + 1] in s.index && (stop == NULL_HASH || s.chain[f + 1] != stop)
    requires Answers(s, f + 1, stop, room - 1, more)
    ensures Answers(s, f, stop, room, [s.index[s.chain[f + 1]].header] + more)
  {
  }

  /** Without a stop hash the response is the next stretch of the chain. */
  lemma {:induction false} FollowingIsStretch(s: State, f: nat, room: nat, c: seq<Header>)
    requires Spells(s, c) && f < |c|
    ensures Following(s, f, NULL_HASH, room) == c[f + 1..f + 1 + Min(room, |c| - f - 1)]
    decreases room
  {
    hide Following, Spells;
    SpellsIndexed(s, c);
    if room > 0 && f + 1 < |c| {
      FollowingIsStretch(s, f + 1, room - 1, c);
      FollowingNext(s, f, room);
      SpellsAt(s, c, f + 1);
      FirstOfStretch(c, f, Min(room, |c| - f - 1));
    } else {
      FollowingEnds(s, f, NULL_HASH, room, []);
      assert [] + Following(s, f, NULL_HASH, room) == Following(s, f, NULL_HASH, room);
    }
  }

  /** The active chain consists of the blocks with the headers of c. */
  ghost predicate Spells(s: State, c: seq<Header>)
  {
    |c| == |s.chain| && forall i :: 0 <= i < |s.chain| ==> s.chain[i] in s.index && s.index[s.chain[i]].header == c[i]
  }

  lemma SpellsIndexed(s: State, c: seq<Header>)
    requires Spells(s, c)
    ensures |c| == |s.chain| && forall i :: 0 <= i < |s.chain| ==> s.chain[i] in s.index
  {
  }

  lemma SpellsAt(s: State, c: seq<Header>, i: nat)
    requires Spells(s, c) && i < |c|
    ensures i < |s.chain| && s.chain[i] in s.index && s.index[s.chain[i]].header == c[i]
  {
  }

  lemma FollowingNext(s: State, f: nat, room: nat)
    requires forall i :: 0 <= i < |s.chain| ==> s.chain[i] in s.index
    requires room > 0 && f + 1 < |s.chain|
    ensures Following(s, f, NULL_HASH, room) == [s.index[s.chain[f + 1]].header] + Following(s, f + 1, NULL_HASH, room - 1)
  {
  }

  lemma FirstOfStretch(c: seq<Header>, f: nat, n: nat)
    requires 0 < n && f + 1 + n <= |c|
    ensures c[f + 1..f + 1 + n] == [c[f + 1]] + c[f + 2..f + 1 + n]
  {
  }

  // ---- Handling a response ----

  /** A rejected header for which the peer is penalised, once per header. */
  predicate Penalised(why: Reject, skip: bool)
  {
    why != PrevNotFound && why != NetworkExpired && why != TooLittleChainwork && !(why == Duplicate && skip)
  }

  /** The batch goes on after a rejected header: it was pooled, or it costs no penalty, or the penalty was paid before. */
  predicate GoesOn(why: Reject, skip: bool, pooled: bool, paid: bool)
  {
    match why
    case PrevNotFound => pooled
    case NetworkExpired => false
    case TooLittleChainwork => false
    case _ => Penalised(why, skip) ==> paid
  }

  /** Whether the batch goes on after a header, and for which headers the peer has paid. */
  predicate Judged(v: Verdict, skip: bool, pooled: bool, id: (int, Hash), paid: set<(int, Hash)>, go: bool, paid': set<(int, Hash)>)
  {
    match v
    case Rejected(why) => paid' == paid + (if Penalised(why, skip) then {id} else {}) && go == GoesOn(why, skip, pooled, id in paid)
    case _ => paid' == paid && go
  }

  /** The pool takes another orphan from the peer. */
  ghost predicate Poolable(o: Oracle, pool: Pool, header: Header, peer: int)
  {
    o.hash(header) in pool || |OfPeer(pool, peer)| < MAX_ORPHAN_HEADERS_PER_PEER
  }

  /** The header is block i of c, and the blocks below i have been handled. */
  ghost predicate Due(k: Session, m: nat, p: nat, i: nat, header: Header, now: int)
  {
    k.now == now && m <= i <= p + 1 && i < |k.c| && header == k.c[i]
  }

  /** During the initial download a long batch is taken from the sync peer only. */
  predicate Gated(ibd: bool, headers: seq<Header>, syncPeer: Option<int>, peer: int)
  {
    ibd && |headers| > MAX_UNSOLICITED_ANNOUNCEMENT && syncPeer != Some(peer)
  }

  /** A batch that is too long or not continuous ends the sync with its peer. */
  ghost predicate Broken(o: Oracle, headers: seq<Header>)
  {
    |headers| > MAX_HEADERS_SIZE || !Continuous(o, headers)
  }

  ghost predicate LastActive(o: Oracle, s: State, headers: seq<Header>)
  {
    headers != [] && o.hash(headers[|headers| - 1]) in s.chain
  }

  /** How the checks on a whole batch end it: the handler's result and whether to ask again, or None if it may be accepted. */
  ghost function Screened(e: Env, s: State, headers: seq<Header>, ibd: bool, gated: bool): (stop: Option<(bool, bool)>)
    requires s.chain != [] && Tip(s) in s.index
    ensures headers == [] ==> stop == Some((true, false))
    ensures stop.Some? ==> (stop.value.1 ==> stop.value.0 && |headers| == MAX_HEADERS_SIZE)
  {
    if gated || headers == [] then Some((true, false))
    else if Broken(e.oracle, headers) then Some((false, false))
    else if !LastActive(e.oracle, s, headers) && LowWork(e, s, headers, ibd) then Some((true, |headers| == MAX_HEADERS_SIZE))
    else None
  }

  class HeaderSyncManager {
    const node: ChainstateManager
    var syncPeer: Option<int>
    var lastBatchSize: nat
    var noted: set<(int, Hash)>

    constructor (n: ChainstateManager, peer: Option<int>)
      ensures node == n && syncPeer == peer && lastBatchSize == 0 && noted == {}
    {
      node, syncPeer, lastBatchSize, noted := n, peer, 0, {};
    }

    /** GetLocatorFromPrev: a locator from the parent of the tip, or from the tip if it is the root. */
    method GetLocatorFromPrev() returns (have: seq<Hash>)
      requires node.Shaped()
      ensures Linked(node.blocks.index) && have != []
      ensures var s := node.View();
              var from := if |s.chain| > 1 then s.chain[|s.chain| - 2] else s.chain[0];
              Ready(s) && from in s.index && have[0] == from && IsLocator(s.index, from, have)
      ensures |node.View().chain| < 0x8000_0000 ==> |have| <= MAX_LOCATOR_SZ
    {
      hide Shape, Linked, Path, SkipsCorrect;
      ghost var s := node.View();
      ShapeFacts(node.env, s);
      var tip := node.blocks.activeChain.Tip().value;
      StepBack(node.blocks.index, tip);
      ParentOnPath(node.blocks.index, tip, |s.chain| - 1);
      var from := if node.blocks.index[tip].prev.Some? then node.blocks.index[tip].prev.value else tip;
      have := LocatorEntries(node.blocks.index, Some(from));
    }

    /** HandleGetHeadersMessage: finds the fork point and collects the headers after it. */
    method HandleGetHeaders(locator: seq<Hash>, stop: Hash) returns (headers: seq<Header>)
      requires node.Shaped()
      ensures var s := node.View();
              && (forall i :: 0 <= i < |s.chain| ==> s.chain[i] in s.index)
              && headers == Response(s, ForkHeight(s, locator), stop) && |headers| <= MAX_HEADERS_SIZE
    {
      hide Shape, Linked, Path, SkipsCorrect, ForkHeight;
      ghost var s := node.View();
      ShapeFacts(node.env, s);
      ChainIndexed(node.env, s);
      var f := FindForkPoint(locator);
      headers := Collect(f, stop);
    }

    method FindForkPoint(locator: seq<Hash>) returns (f: nat)
      requires node.Shaped()
      ensures f == ForkHeight(node.View(), locator)
    {
      hide Shape, Linked, Path, SkipsCorrect;
      ghost var s := node.View();
      ShapeFacts(node.env, s);
      var i := 0;
      assert locator[0..] == locator;
      while i < |locator|
        invariant 0 <= i <= |locator| && ForkHeight(s, locator[i..]) == ForkHeight(s, locator)
      {
        var h := locator[i];
        if h in node.blocks.index {
          OnChain(node.blocks.index, node.blocks.activeChain, s.chain, h);
          if node.blocks.activeChain.Contains(node.blocks.index, h) {
            return node.blocks.index[h].height;
          }
        }
        assert locator[i..][1..] == locator[i + 1..];
        i := i + 1;
      }
      // No common block: start from the root.
      return 0;
    }

    method Collect(f: nat, stop: Hash) returns (headers: seq<Header>)
      requires node.Shaped()
      ensures var s := node.View();
              && (forall i :: 0 <= i < |s.chain| ==> s.chain[i] in s.index)
              && headers == Response(s, f, stop) && |headers| <= MAX_HEADERS_SIZE
    {
      hide Shape, Linked, Path, SkipsCorrect, Following;
      ghost var s := node.View();
      ShapeFacts(node.env, s);
      ChainIndexed(node.env, s);
      headers := [];
      var next := f + 1;
      assert headers + Response(s, f, stop) == Response(s, f, stop);
      while next < |node.blocks.activeChain.vChain| && |headers| < MAX_HEADERS_SIZE
        invariant next == f + 1 + |headers| && |headers| <= MAX_HEADERS_SIZE
        invariant Response(s, f, stop) == headers + Following(s, next - 1, stop, MAX_HEADERS_SIZE - |headers|)
      {
        var h := node.blocks.activeChain.vChain[next].value;
        FollowingStep(s, next - 1, stop, MAX_HEADERS_SIZE - |headers|, headers);
        headers := headers + [node.blocks.index[h].header];
        if stop != NULL_HASH && h == stop {
          return;
        }
        next := next + 1;
      }
      FollowingEnds(s, next - 1, stop, MAX_HEADERS_SIZE - |headers|, headers);
    }

    /**
     * Accepts one header of a batch and offers it, or pools it if its parent is missing; says whether the batch goes
     * on. A rejected header changes nothing but the pool and the penalties paid.
     */
    method AcceptOne(peer: int, header: Header, now: int, skip: bool) returns (go: bool, ghost added: seq<Header>)
      requires node.Valid()
      modifies `noted, node.blocks`index, node.selector, node.orphans
      ensures node.Valid() && Linked(old(node.blocks.index)) && node.View().chain == old(node.View()).chain
      ensures NoneReady(old(node.orphans.headers), old(node.blocks.index)) ==> NoneReady(node.orphans.headers, node.blocks.index)
      ensures Check(node.env, old(node.blocks.index), header, now, true).Rejected? ==>
                && node.View() == old(node.View())
                && if Check(node.env, old(node.blocks.index), header, now, true) == Rejected(PrevNotFound)
                   then AddedTo(node.env, old(node.orphans.headers), header, peer, now, go, node.orphans.headers)
                   else node.orphans.headers == old(node.orphans.headers)
      ensures !Check(node.env, old(node.blocks.index), header, now, true).Rejected? ==>
                Accepted(node.env, old(node.View()), old(node.orphans.headers), header, added, now, node.View(), node.orphans.headers)
      ensures Judged(Check(node.env, old(node.blocks.index), header, now, true), skip,
                     Poolable(node.env.oracle, old(node.orphans.headers), header, peer),
                     (peer, node.env.oracle.hash(header)), old(noted), go, noted)
    {
      hide Shape, Linked, Check, PoolInv, IndexInv, Drained, Insertable, InsertAll, Offered, Pooled, Under, TopsLeaves, TopsAll, NoneReady, AddedTo, OfPeer, Poolable, Penalised;
      ghost var s, pool := node.View(), node.orphans.headers;
      var r, why, inserted := node.AcceptBlockHeader(header, now, true);
      added := inserted;
      SubPool(node.env, s.index, pool, {}, added, now, node.blocks.index, node.orphans.headers);
      DrainKeepsNoneReady(node.env, s.index, pool, added, now, node.blocks.index, node.orphans.headers);
      if r.Some? {
        KnownIsSound(node.env, s.index, header, now);
        SecondBelow(node.env, added);
        SubmittedInv(node.env, s, added, r.value, now);
        node.selector.TryAddBlockIndexCandidate(node.blocks.index, r.value);
        assert node.View() == Submitted(node.env, s, added, r.value, now);
        return true, added;
      }
      if why.value == PrevNotFound {
        MissingParent(node.env, s.index, header, now);
      }
      go := Refuse(peer, header, why.value, now, skip);
    }

    /** What a rejected header costs: it is pooled if its parent is missing, else its peer is penalised once. */
    method Refuse(peer: int, header: Header, why: Reject, now: int, skip: bool) returns (go: bool)
      requires PoolInv(node.env.oracle, node.orphans.headers, node.orphans.counts)
      modifies `noted, node.orphans
      ensures PoolInv(node.env.oracle, node.orphans.headers, node.orphans.counts)
      ensures if why == PrevNotFound
              then AddedTo(node.env, old(node.orphans.headers), header, peer, now, go, node.orphans.headers)
              else node.orphans.headers == old(node.orphans.headers)
      ensures (why == PrevNotFound ==> header.prev !in node.blocks.index)
              && NoneReady(old(node.orphans.headers), node.blocks.index) ==>
                NoneReady(node.orphans.headers, node.blocks.index)
      ensures Judged(Rejected(why), skip, Poolable(node.env.oracle, old(node.orphans.headers), header, peer),
                     (peer, node.env.oracle.hash(header)), old(noted), go, noted)
    {
      hide PoolInv, AddedTo, NoneReady, OfPeer;
      match why
      case PrevNotFound =>
        go := node.AddOrphanHeader(header, peer, now);
      case NetworkExpired => return false;
      case TooLittleChainwork => return false;
      case _ =>
        var id := (peer, node.env.oracle.hash(header));
        if why == Duplicate && skip {
          return true;
        }
        if id in noted {
          return true;
        }
        noted := noted + {id};
        return false;
    }

    /** Accepts block i of c. */
    method AcceptNext(peer: int, header: Header, now: int, skip: bool, ghost k: Session, ghost m: nat, ghost p: nat, ghost i: nat)
      returns (go: bool)
      requires node.Valid()
      modifies `noted, node.blocks`index, node.selector, node.orphans
      ensures node.Valid() && node.View().chain == old(node.View()).chain
      ensures NoneReady(old(node.orphans.headers), old(node.blocks.index)) ==> NoneReady(node.orphans.headers, node.blocks.index)
      ensures Track(node.env, k, old(node.View()), old(node.orphans.headers), m, p) && Due(k, m, p, i, header, now) ==>
                go && Track(node.env, k, node.View(), node.orphans.headers, m, Later(p, i))
      ensures AtRest(node.env, k, old(node.View()), old(node.orphans.headers), m, p) && Due(k, m, p, i, header, now) && i <= p && m < p ==>
                node.View() == old(node.View()) && node.orphans.headers == old(node.orphans.headers)
    {
      hide Shape, Linked, Check, PoolInv, IndexInv, TopsLeaves, TopsAll, NoneReady, Track, AtRest, Accepted, AddedTo, OfPeer, Poolable, Penalised;
      ghost var s, pool := node.View(), node.orphans.headers;
      RestTracks(node.env, k, s, pool, m, p);
      ghost var good := Track(node.env, k, s, pool, m, p) && Due(k, m, p, i, header, now);
      if good {
        NextVerdict(node.env, k, s, pool, m, p, i);
      }
      var more, added := AcceptOne(peer, header, now, skip);
      go := more;
      if good {
        TrackStep(node.env, k, s, pool, m, p, i, added, node.View(), node.orphans.headers);
        if AtRest(node.env, k, s, pool, m, p) && i <= p && m < p {
          RestStep(node.env, k, s, pool, m, p, i, added, node.View(), node.orphans.headers);
        }
      }
    }

    /**
     * Accepts the headers of a batch in order until one ends the batch. A stretch that was handled before changes
     * nothing.
     */
    method AcceptBatch(peer: int, headers: seq<Header>, now: int, skip: bool, ghost k: Session, ghost m: nat, ghost p: nat)
      returns (go: bool)
      requires node.Valid()
      modifies `noted, node.blocks`index, node.selector, node.orphans
      ensures node.Valid() && node.View().chain == old(node.View()).chain
      ensures NoneReady(old(node.orphans.headers), old(node.blocks.index)) ==> NoneReady(node.orphans.headers, node.blocks.index)
      ensures Track(node.env, k, old(node.View()), old(node.orphans.headers), m, p) && k.now == now && Stretch(headers, k.c, m) ==>
                go && Track(node.env, k, node.View(), node.orphans.headers, m, Later(p, StartOf(m) + |headers|))
      ensures AtRest(node.env, k, old(node.View()), old(node.orphans.headers), m, p) && k.now == now && Stretch(headers, k.c, m)
              && m < StartOf(m) + |headers| <= p ==>
                node.View() == old(node.View()) && node.orphans.headers == old(node.orphans.headers)
    {
      hide Shape, Linked, PoolInv, IndexInv, TopsLeaves, TopsAll, NoneReady, Track, AtRest;
      ghost var s0, pool0 := node.View(), node.orphans.headers;
      RestTracks(node.env, k, s0, pool0, m, p);
      ghost var good := Track(node.env, k, s0, pool0, m, p) && k.now == now && Stretch(headers, k.c, m);
      ghost var idle := good && AtRest(node.env, k, s0, pool0, m, p) && m < StartOf(m) + |headers| <= p;
      if good {
        TrackPositions(node.env, k, s0, pool0, m, p);
      }
      for j := 0 to |headers|
        invariant node.Valid() && node.View().chain == s0.chain
        invariant NoneReady(pool0, s0.index) ==> NoneReady(node.orphans.headers, node.blocks.index)
        invariant good ==> m <= p && Track(node.env, k, node.View(), node.orphans.headers, m, Later(p, StartOf(m) + j))
        invariant idle ==> node.View() == s0 && node.orphans.headers == pool0
      {
        go := AcceptNext(peer, headers[j], now, skip, k, m, Later(p, StartOf(m) + j), StartOf(m) + 1 + j);
        if !go {
          return;
        }
      }
      return true;
    }

    /** The last header of the batch is already on the active chain. */
    method LastIsActive(headers: seq<Header>) returns (active: bool)
      requires node.Shaped()
      ensures active <==> LastActive(node.env.oracle, node.View(), headers)
    {
      hide Shape, Linked, Path, SkipsCorrect;
      ghost var s := node.View();
      ShapeFacts(node.env, s);
      ChainIndexed(node.env, s);
      active := false;
      if headers != [] {
        var h := node.env.oracle.hash(headers[|headers| - 1]);
        if h in node.blocks.index {
          OnChain(node.blocks.index, node.blocks.activeChain, s.chain, h);
          active := node.blocks.activeChain.Contains(node.blocks.index, h);
        }
      }
    }

    /** CheckHeadersPoW and CheckHeadersAreContinuous. */
    method CheckBatch(headers: seq<Header>) returns (ok: bool)
      ensures ok <==> Continuous(node.env.oracle, headers)
    {
      hide CommitmentPow;
      for i := 0 to |headers|
        invariant forall j :: 0 <= j < i ==> CommitmentPow(node.env.oracle, headers[j])
      {
        if !CommitmentPow(node.env.oracle, headers[i]) {
          return false;
        }
      }
      if headers == [] {
        return true;
      }
      for i := 1 to |headers|
        invariant forall j :: 0 <= j < i - 1 && j + 1 < |headers| ==> Links(node.env.oracle, headers, j)
      {
        assert Links(node.env.oracle, headers, i - 1) <==> headers[i].prev == node.env.oracle.hash(headers[i - 1]);
        if headers[i].prev != node.env.oracle.hash(headers[i - 1]) {
          return false;
        }
      }
      return true;
    }

    /** The anti-DoS filter, computed on limbs: a batch from a known block whose end would weigh less than the threshold. */
    method IsLowWork(headers: seq<Header>, ibd: bool) returns (low: bool)
      requires node.Shaped() && headers != []
      ensures node.View().chain != [] && Tip(node.View()) in node.blocks.index
      ensures low <==> LowWork(node.env, node.View(), headers, ibd)
    {
      hide Shape, Linked, BlockProof, ProofSum, AddWork, AntiDosThreshold, IsPath, SkipsCorrect;
      ShapeFacts(node.env, node.View());
      var start := headers[0].prev;
      if start !in node.blocks.index {
        return false;
      }
      var tip := node.blocks.activeChain.Tip().value;
      WorkIsWord(node.env, node.View(), start);
      WorkIsWord(node.env, node.View(), tip);
      var b := node.blocks.index[tip];
      var threshold := WorkFilter.GetAntiDoSWorkThreshold(node.env.params, b.work, b.header.bits, ibd);
      low := WorkFilter.BatchBelow(node.blocks.index[start].work, headers, threshold);
    }

    /** The initial download had ended as `finished` says, or since then at a tip with the minimum chain work. */
    ghost predicate Latched(finished: bool)
      reads node, node.blocks, node.blocks.activeChain, node.selector
    {
      && Ready(node.View()) && (finished ==> node.finishedIbd)
      && (node.finishedIbd ==> finished || node.env.params.minimumChainWork <= node.blocks.index[Tip(node.View())].work)
    }

    lemma LatchedWeighs(k: Session)
      requires Latched(k.finished)
      ensures Weighs(node.env, k, node.View(), node.finishedIbd)
    {
      hide Linked;
    }

    /**
     * The checks before any header is accepted: the batch gate of the initial download, the size limit, proof-of-work
     * commitments, continuity and the low-work filter. `stop` is the result of the handler if the batch ends here.
     */
    method Screen(peer: int, headers: seq<Header>, now: int, ghost finished: bool)
      returns (stop: Option<(bool, bool)>, skip: bool, ghost ibd: bool)
      requires node.Shaped() && Ready(node.View())
      modifies `syncPeer, node`finishedIbd
      ensures old(Latched(finished)) ==> Latched(finished)
      ensures ibd <==> !node.finishedIbd
      ensures node.View().chain != [] && Tip(node.View()) in node.blocks.index
      ensures stop == Screened(node.env, node.View(), headers, ibd, Gated(ibd, headers, old(syncPeer), peer))
      ensures syncPeer == if stop == Some((false, false)) then None else old(syncPeer)
      ensures stop.None? ==> (skip <==> LastActive(node.env.oracle, node.View(), headers))
    {
      hide Shape, Linked, Continuous, LowWork;
      var downloading := node.IsInitialBlockDownload(now);
      ibd, skip := downloading, false;
      if downloading && |headers| > MAX_UNSOLICITED_ANNOUNCEMENT && syncPeer != Some(peer) {
        return Some((true, false)), false, ibd;
      }
      skip := LastIsActive(headers);
      if headers == [] {
        return Some((true, false)), skip, ibd;
      }
      if |headers| > MAX_HEADERS_SIZE {
        syncPeer := None;
        return Some((false, false)), skip, ibd;
      }
      var fine := CheckBatch(headers);
      if !fine {
        syncPeer := None;
        return Some((false, false)), skip, ibd;
      }
      if !skip {
        var low := IsLowWork(headers, downloading);
        if low {
          return Some((true, |headers| == MAX_HEADERS_SIZE)), skip, ibd;
        }
      }
      return None, skip, ibd;
    }

    /**
     * Accepts the batch and activates once if it went through. Progress is reported with the download state, which
     * is read again.
     */
    method AcceptAndActivate(peer: int, headers: seq<Header>, now: int, skip: bool, ghost k: Session, ghost m: nat, ghost p: nat)
      returns (go: bool)
      requires node.Valid() && AlwaysConnects(node.env)
      modifies `noted, node`failed, node`finishedIbd, node.blocks`index, node.blocks.activeChain, node.selector, node.orphans
      ensures node.Valid()
      ensures NoneReady(old(node.orphans.headers), old(node.blocks.index)) ==> NoneReady(node.orphans.headers, node.blocks.index)
      ensures Track(node.env, k, old(node.View()), old(node.orphans.headers), m, p) && k.now == now && Stretch(headers, k.c, m) ==>
                && go && RestsOnTop(node.env, k, node.View(), node.orphans.headers, m, Later(p, StartOf(m) + |headers|))
                && (old(Latched(k.finished)) ==> Latched(k.finished))
      ensures AtRest(node.env, k, old(node.View()), old(node.orphans.headers), m, p) && k.now == now && Stretch(headers, k.c, m)
              && m < StartOf(m) + |headers| <= p ==>
                node.View() == old(node.View()) && node.orphans.headers == old(node.orphans.headers)
    {
      hide Shape, Linked, PoolInv, IndexInv, Activated, AtRest, Track, Stretch, TopsLeaves, TopsAll, NoneReady, Ready, RestsOnTop;
      ghost var s0, pool0 := node.View(), node.orphans.headers;
      ghost var good := Track(node.env, k, s0, pool0, m, p) && k.now == now && Stretch(headers, k.c, m);
      ShapeReady(node.env, s0);
      go := AcceptBatch(peer, headers, now, skip, k, m, p);
      if !go {
        return;
      }
      ghost var mid := node.View();
      ShapeReady(node.env, mid);
      var done, _ := node.ActivateBestChain();
      ActivatedInv(node.env, mid);
      ActivatedKeeps(node.env, mid);
      if good {
        BatchEnds(node.env, k, s0, pool0, p, mid, node.orphans.headers, m, Later(p, StartOf(m) + |headers|));
      }
      if AtRest(node.env, k, s0, pool0, m, p) && mid == s0 {
        RestActivates(node.env, k, s0, pool0, m, p);
      }
      ShapeReady(node.env, node.View());
      var _ := node.IsInitialBlockDownload(now);
    }

    /** Takes a batch that passed the checks: it asks for more exactly if the batch went through and was full. */
    method TakeBatch(peer: int, headers: seq<Header>, now: int, skip: bool, ghost k: Session, ghost m: nat, ghost p: nat)
      returns (ok: bool, again: bool)
      requires node.Valid() && AlwaysConnects(node.env)
      modifies this, node`failed, node`finishedIbd, node.blocks`index, node.blocks.activeChain, node.selector, node.orphans
      ensures node.Valid()
      ensures again <==> ok && |headers| == MAX_HEADERS_SIZE
      ensures syncPeer == if ok then old(syncPeer) else None
      ensures NoneReady(old(node.orphans.headers), old(node.blocks.index)) ==> NoneReady(node.orphans.headers, node.blocks.index)
      ensures Passing(node.env, k, old(node.View()), old(node.orphans.headers), m, p, headers, now) ==>
                var n := StartOf(m) + |headers|;
                && ok && (old(Latched(k.finished)) ==> Latched(k.finished)) && Moved(node.env, k, node.View(), node.orphans.headers, m, p, n)
                && (m < n <= p ==> node.View() == old(node.View()) && node.orphans.headers == old(node.orphans.headers))
    {
      hide Shape, Linked, PoolInv, IndexInv, AtRest, Track, Stretch, TopsLeaves, TopsAll, NoneReady, Moved, Latched, RestsOnTop, Filtered, Room;
      ghost var s0, pool0 := node.View(), node.orphans.headers;
      RestTracks(node.env, k, s0, pool0, m, p);
      lastBatchSize := |headers|;
      var go := AcceptAndActivate(peer, headers, now, skip, k, m, p);
      if !go {
        syncPeer := None;
        return false, false;
      }
      if Passing(node.env, k, s0, pool0, m, p, headers, now) {
        AcceptedMoves(node.env, k, s0, pool0, node.View(), node.orphans.headers, m, p, StartOf(m) + |headers|);
      }
      return true, lastBatchSize == MAX_HEADERS_SIZE;
    }

    /**
     * HandleHeadersMessage: screens the batch, accepts and offers its headers, activates once and says whether to
     * ask for more. The next stretch of a good longer chain, up to block n, takes a node at rest at height m exactly
     * to the highest block of that stretch that is not late, whatever orphans are pooled; it is ignored if it is
     * filtered, and changes nothing if it was handled before. No orphan becomes ready.
     */
    method HandleHeaders(peer: int, headers: seq<Header>, now: int, ghost k: Session, ghost m: nat, ghost p: nat)
      returns (ok: bool, again: bool)
      requires node.Valid() && AlwaysConnects(node.env)
      modifies this, node`failed, node`finishedIbd, node.blocks`index, node.blocks.activeChain, node.selector, node.orphans
      ensures node.Valid()
      ensures again ==> ok && |headers| == MAX_HEADERS_SIZE
      ensures syncPeer == if ok then old(syncPeer) else None
      ensures NoneReady(old(node.orphans.headers), old(node.blocks.index)) ==> NoneReady(node.orphans.headers, node.blocks.index)
      ensures headers == [] ==>
                && ok && !again && (old(Latched(k.finished)) ==> Latched(k.finished))
                && node.View() == old(node.View()) && node.orphans.headers == old(node.orphans.headers)
      ensures AtRest(node.env, k, old(node.View()), old(node.orphans.headers), m, p) && k.now == now && old(Latched(k.finished))
              && old(syncPeer) == Some(peer) && Stretch(headers, k.c, m) && |headers| <= MAX_HEADERS_SIZE ==>
                var n := StartOf(m) + |headers|;
                && ok && (again <==> |headers| == MAX_HEADERS_SIZE) && Latched(k.finished)
                && Moved(node.env, k, node.View(), node.orphans.headers, m, p, n)
                && (Repeats(node.env, k, m, p, n) ==>
                      node.View() == old(node.View()) && node.orphans.headers == old(node.orphans.headers))
    {
      hide Shape, Linked, PoolInv, IndexInv, AtRest, Stretch, TopsLeaves, TopsAll, NoneReady, Ready, Moved, Latched, Filtered, Room, Screened;
      ghost var s0, pool0 := node.View(), node.orphans.headers;
      ghost var good := AtRest(node.env, k, s0, pool0, m, p) && k.now == now && Latched(k.finished) && syncPeer == Some(peer)
      && Stretch(headers, k.c, m) && |headers| <= MAX_HEADERS_SIZE;
      ShapeReady(node.env, s0);
      var stop, skip, ibd := Screen(peer, headers, now, k.finished);
      if good {
        LatchedWeighs(k);
        BatchScreened(node.env, k, s0, pool0, m, p, headers, node.finishedIbd);
      }
      if stop.Some? {
        if good {
          FilteredStays(node.env, k, s0, pool0, m, p, StartOf(m) + |headers|);
        }
        return stop.value.0, stop.value.1;
      }
      ok, again := TakeBatch(peer, headers, now, skip, k, m, p);
    }
  }

  /** A node at rest at height m gets the next stretch, which is not filtered. */
  ghost predicate Passing(e: Env, k: Session, s: State, pool: Pool, m: nat, p: nat, headers: seq<Header>, now: int)
  {
    && Room(e, k) && k.t <= m <= StartOf(m) + |headers| < |k.c| && !Filtered(e, k, m, StartOf(m) + |headers|)
    && k.now == now && Stretch(headers, k.c, m) && AtRest(e, k, s, pool, m, p)
  }

  lemma RestTracks(e: Env, k: Session, s: State, pool: Pool, m: nat, p: nat)
    ensures AtRest(e, k, s, pool, m, p) ==> Track(e, k, s, pool, m, p)
  {
    hide Track;
  }

  /** The last block handled after a batch up to n: a filtered batch is not handled. */
  ghost function Handled(e: Env, k: Session, m: nat, p: nat, n: nat): (q: nat)
    requires Room(e, k) && StartOf(k.t) <= n < |k.c|
  {
    if Filtered(e, k, m, n) then p else Later(p, n)
  }

  lemma MissingParent(e: Env, idx: Index, header: Header, now: int)
    requires Linked(idx) && Check(e, idx, header, now, true) == Rejected(PrevNotFound)
    ensures header.prev !in idx
  {
    hide Linked, Headers, CommitmentPow, FullPow, NextWorkRequired;
  }

  lemma WorkIsWord(e: Env, s: State, h: Hash)
    requires Shape(e, s) && h in s.index
    ensures s.index[h].work < TWO_256
  {
    hide Rooted, AllTree, Path, GetSkipHeight, BlockProof, AddWork;
    assert EntryOk(e.oracle, s.index, h);
  }

  /** The node is at rest at the highest block up to p above m that is not late. */
  ghost predicate RestsOnTop(e: Env, k: Session, s: State, pool: Pool, m: nat, p: nat)
  {
    m <= p < |k.c| && AtRest(e, k, s, pool, TopOnTime(e, k, m, p), p)
  }

  /** A batch up to n took a node at height m to where Advance says. */
  ghost predicate Moved(e: Env, k: Session, s: State, pool: Pool, m: nat, p: nat, n: nat)
  {
    && Room(e, k) && k.t <= m <= n < |k.c|
    && AtRest(e, k, s, pool, Advance(e, k, m, n), Handled(e, k, m, p, n))
  }

  /** The batch is ignored, or it brings a node at rest nothing new. */
  ghost predicate Repeats(e: Env, k: Session, m: nat, p: nat, n: nat)
  {
    && Room(e, k) && k.t <= m <= n < |k.c|
    && (Filtered(e, k, m, n) || m < n <= p)
  }

  /** The checks stop a stretch up to n exactly if it is filtered. */
  ghost predicate Sifted(e: Env, k: Session, s: State, m: nat, n: nat, headers: seq<Header>, fin: bool)
  {
    && s.chain != [] && Tip(s) in s.index && Room(e, k) && k.t <= m <= n < |k.c|
    && Screened(e, s, headers, !fin, false) == if Filtered(e, k, m, n) then Some((true, |headers| == MAX_HEADERS_SIZE)) else None
  }

  /** The tip weighs enough, unless the download had ended before. */
  ghost predicate Weighs(e: Env, k: Session, s: State, fin: bool)
  {
    && s.chain != [] && Tip(s) in s.index && (k.finished ==> fin)
    && (fin ==> k.finished || e.params.minimumChainWork <= s.index[Tip(s)].work)
  }

  /** Of a stretch only the filter can stop anything. */
  lemma BatchScreened(e: Env, k: Session, s: State, pool: Pool, m: nat, p: nat, headers: seq<Header>, fin: bool)
    requires AtRest(e, k, s, pool, m, p) && Stretch(headers, k.c, m) && |headers| <= MAX_HEADERS_SIZE && Weighs(e, k, s, fin)
    ensures Sifted(e, k, s, m, StartOf(m) + |headers|, headers, fin)
  {
    hide Starts, Inv, Origin, Linked, PoolOk, FamilyOk, CandidatesOk, OnTimeOffered, LateNotOffered, Continuous, LowWork, Late, HashesOf, Room, WorkAt;
    var n := StartOf(m) + |headers|;
    TrackPositions(e, k, s, pool, m, p);
    StartsRoom(e, k);
    StretchLowExactly(e, k, s, pool, m, p, headers, !fin);
    StretchContinuous(e, k, m, headers);
    WorkAtMost(e, k, m, n);
    OnChainExactly(e, k, m, n);
  }

  lemma FilteredStays(e: Env, k: Session, s: State, pool: Pool, m: nat, p: nat, n: nat)
    requires AtRest(e, k, s, pool, m, p) && Room(e, k) && k.t <= m <= n < |k.c| && Filtered(e, k, m, n)
    ensures Moved(e, k, s, pool, m, p, n)
  {
    hide AtRest, Room, Filtered;
  }

  lemma AcceptedMoves(e: Env, k: Session, s0: State, pool0: Pool, s: State, pool: Pool, m: nat, p: nat, n: nat)
    requires AtRest(e, k, s0, pool0, m, p) && Room(e, k) && k.t <= m <= n < |k.c| && !Filtered(e, k, m, n)
    requires RestsOnTop(e, k, s, pool, m, Later(p, n))
    ensures Moved(e, k, s, pool, m, p, n)
  {
    hide Track, Room, Filtered, TopOnTime, Late;
    TrackPositions(e, k, s0, pool0, m, p);
    TopOfHandled(e, k, m, p, n);
  }

  lemma OnChainExactly(e: Env, k: Session, m: nat, n: nat)
    requires GoodChain(e, k.c, k.now) && m < |k.c| && n < |k.c|
    ensures e.oracle.hash(k.c[n]) in HashesOf(e.oracle, k.c[..m + 1]) <==> n <= m
  {
    hide GoodNext;
    var hs := HashesOf(e.oracle, k.c[..m + 1]);
    if n <= m {
      assert hs[n] == e.oracle.hash(k.c[n]);
    }
  }

  /** The blocks handled before are late and do not count. */
  lemma TopOfHandled(e: Env, k: Session, m: nat, p: nat, n: nat)
    requires m <= n < |k.c| && m <= p < |k.c| && forall j :: m < j <= p ==> Late(e, k, j)
    ensures TopOnTime(e, k, m, Later(p, n)) == TopOnTime(e, k, m, n)
  {
    hide Late, TopOnTime;
    TopIs(e, k, m, n);
    TopIs(e, k, m, Later(p, n));
  }

  /** The batch was accepted: activation ends at rest at its top, and the tip did not lose work. */
  lemma BatchEnds(e: Env, k: Session, s0: State, pool0: Pool, p0: nat, s: State, pool: Pool, m: nat, p: nat)
    requires Track(e, k, s0, pool0, m, p0) && Track(e, k, s, pool, m, p) && AlwaysConnects(e) && Inv(e, s)
    requires Ready(s0) && Ready(s) && Activated(e, s).index == s.index
    ensures RestsOnTop(e, k, Activated(e, s), pool, m, p)
    ensures Ready(Activated(e, s)) && s0.index[Tip(s0)].work <= s.index[Tip(Activated(e, s))].work
  {
    hide Track, AtRest, Activated, Shape, IndexInv, Linked, HashesOf, Highest, TopOnTime;
    TrackPositions(e, k, s, pool, m, p);
    TrackActivates(e, k, s, pool, m, p);
    ActivatedChain(e, k, s, pool, m, p);
    ShapeAfter(e, s);
    SameTipWork(e, k, s0, pool0, p0, s, pool, m, p);
    TipGains(e, k, s, pool, m, p, Highest(e, k, s, m, p), Activated(e, s));
  }

  lemma RestActivates(e: Env, k: Session, s: State, pool: Pool, m: nat, p: nat)
    requires AtRest(e, k, s, pool, m, p) && Ready(s)
    ensures Activated(e, s) == s
  {
    hide Starts, Shape, Origin, Linked, PoolOk, FamilyOk, CandidatesOk, OnTimeOffered, LateNotOffered, Late, Positions, Activated;
    NothingOpen(e, s);
  }

  lemma SameTipWork(e: Env, k: Session, s0: State, pool0: Pool, p0: nat, s: State, pool: Pool, m: nat, p: nat)
    requires Track(e, k, s0, pool0, m, p0) && Track(e, k, s, pool, m, p)
    ensures s0.index[Tip(s0)].work == s.index[Tip(s)].work
  {
    hide Starts, Inv, Origin, Linked, HashesOf, PoolOk, FamilyOk, CandidatesOk, OnTimeOffered, LateNotOffered;
    TrackPositions(e, k, s0, pool0, m, p0);
    TrackPositions(e, k, s, pool, m, p);
    TipIs(e, k, s0, m, p0);
    TipIs(e, k, s, m, p);
    SpineWork(e, k, s0.index, p0, m);
    SpineWork(e, k, s.index, p, m);
  }

  lemma FollowingStep(s: State, f: nat, stop: Hash, room: nat, got: seq<Header>)
    requires forall i :: 0 <= i < |s.chain| ==> s.chain[i] in s.index
    requires room > 0 && f + 1 < |s.chain|
    ensures var more := got + [s.index[s.chain[f + 1]].header];
            got + Following(s, f, stop, room) ==
            if stop != NULL_HASH && s.chain[f + 1] == stop then more else more + Following(s, f + 1, stop, room - 1)
  {
  }

  lemma FollowingEnds(s: State, f: nat, stop: Hash, room: nat, got: seq<Header>)
    requires forall i :: 0 <= i < |s.chain| ==> s.chain[i] in s.index
    requires room == 0 || f + 1 >= |s.chain|
    ensures got + Following(s, f, stop, room) == got
  {
  }

  lemma ChainIndexed(e: Env, s: State)
    requires Shape(e, s)
    ensures forall i :: 0 <= i < |s.chain| ==> s.chain[i] in s.index
  {
    hide EntryOk, Rooted, AllTree;
  }

  // ---- The two-node protocol ----

  /** Two nodes share no object. */
  predicate Apart(a: ChainstateManager, b: ChainstateManager)
  {
    a != b && a.blocks != b.blocks && a.blocks.activeChain != b.blocks.activeChain && a.selector != b.selector && a.orphans != b.orphans
  }

  /** The responder's active chain is c. */
  ghost predicate Serves(o: Oracle, s: State, c: seq<Header>)
  {
    && s.chain == HashesOf(o, c)
    && forall i :: 0 <= i < |c| ==> s.chain[i] in s.index && s.index[s.chain[i]].header == c[i] && s.index[s.chain[i]].height == i
  }

  /** The responder answers a requester at height t with the stretch of c it is missing. */
  lemma ResponseIsStretch(o: Oracle, s: State, c: seq<Header>, t: nat, locator: seq<Hash>)
    requires Serves(o, s, c) && t < |c| && locator != [] && locator[0] == o.hash(c[StartOf(t)])
    ensures ForkHeight(s, locator) == StartOf(t)
    ensures var hs := Response(s, StartOf(t), NULL_HASH);
            && |hs| == Min(MAX_HEADERS_SIZE, |c| - StartOf(t) - 1) && (hs != [] ==> Stretch(hs, c, t))
            && (hs == [] ==> t == 0 && |c| == 1)
  {
    hide Following;
    var f := StartOf(t);
    assert s.chain[f] == locator[0];
    FollowingIsStretch(s, f, MAX_HEADERS_SIZE, c);
  }

  lemma RequestStart(e: Env, k: Session, s: State, pool: Pool, m: nat, p: nat)
    requires AtRest(e, k, s, pool, m, p)
    ensures m < |k.c| && |s.chain| == m + 1 && s.chain != []
    ensures (if |s.chain| > 1 then s.chain[|s.chain| - 2] else s.chain[0]) == e.oracle.hash(k.c[StartOf(m)])
  {
    hide Starts, Inv, Origin, Linked, PoolOk, FamilyOk, CandidatesOk, OnTimeOffered, LateNotOffered, Late;
    TrackPositions(e, k, s, pool, m, p);
  }

  /** The state of a node before it catches up with c. */
  ghost predicate Behind(e: Env, k: Session, s: State, pool: Pool)
  {
    && Starts(e, k) && k.start == s.index && k.pool == pool && Ready(s)
    && s.chain == HashesOf(e.oracle, k.c[..k.t + 1])
    && forall b :: b in s.candidates ==> s.index[b].work <= s.index[Tip(s)].work
  }

  lemma BehindIsAtRest(e: Env, k: Session, s: State, pool: Pool)
    requires Behind(e, k, s, pool) && Inv(e, s)
    ensures AtRest(e, k, s, pool, k.t, k.t) && Room(e, k) && k.t < |k.c|
  {
    hide GoodChain, Shape, IndexInv, Linked, Room, NoClash, Keyed, HashesOf, HasChild, LateOrphan;
    assert SpineAt(e, k.start, k.c, k.t);
    NothingOffered(e, k, s);
    NothingBorn(e, k);
  }

  /** A block of c above the tip is heavier, so none is a candidate yet. */
  lemma NothingOffered(e: Env, k: Session, s: State)
    requires Behind(e, k, s, k.pool) && Inv(e, s)
    ensures LateNotOffered(e, k, s, k.t)
  {
    hide Starts, Shape, IndexInv, Linked, Extends, Origin, Late;
    StartsRoom(e, k);
    NothingNew(e, k);
    forall j | k.t < j < |k.c|
      ensures e.oracle.hash(k.c[j]) !in s.candidates
    {
      if e.oracle.hash(k.c[j]) in s.index {
        SpineRises(e, k, s.index, k.t, k.t, j);
      }
    }
  }

  lemma NothingBorn(e: Env, k: Session)
    requires Starts(e, k)
    ensures FamilyOk(e, k, k.start, k.t)
  {
    hide Starts, HasChild, LateOrphan;
  }

  lemma NothingNew(e: Env, k: Session)
    requires Starts(e, k)
    ensures Origin(e, k, k.start, k.t)
  {
    hide GoodChain, IndexInv, Room, Spine, NoClash, Keyed;
  }

  /** The node is at rest at height m of c and has handled the blocks up to p. */
  ghost predicate Placed(e: Env, k: Session, s: State, pool: Pool, m: nat, p: nat)
  {
    Room(e, k) && k.t <= m < |k.c| && AtRest(e, k, s, pool, m, p)
  }

  /** What one round does to the height, and whether it asks for another: exactly if its batch was full. */
  ghost predicate Steps(e: Env, k: Session, m: nat, p: nat, again: bool, m': nat, p': nat)
  {
    && Room(e, k) && k.t <= m < |k.c|
    && m' == NextHeight(e, k, m) && p' == Handled(e, k, m, p, BatchEnd(k, m)) && (again <==> Full(k, m))
  }

  /**
   * One request and its answer: the requester at height m ends at rest at NextHeight(m) and asks again exactly if the
   * batch was full. If that gained and handled nothing new the whole state is as before, so the next round is the same.
   */
  method Round(req: HeaderSyncManager, resp: HeaderSyncManager, peer: int, now: int, ghost k: Session, ghost m: nat, ghost p: nat)
    returns (again: bool, ghost m': nat, ghost p': nat)
    requires req != resp && Apart(req.node, resp.node) && req.node.Valid() && AlwaysConnects(req.node.env) && resp.node.Shaped()
    requires req.syncPeer == Some(peer) && k.now == now && req.Latched(k.finished)
    requires Placed(req.node.env, k, req.node.View(), req.node.orphans.headers, m, p)
    requires Serves(req.node.env.oracle, resp.node.View(), k.c)
    modifies req, req.node`failed, req.node`finishedIbd, req.node.blocks`index, req.node.blocks.activeChain, req.node.selector, req.node.orphans
    ensures req.node.Valid() && req.syncPeer == Some(peer) && req.Latched(k.finished)
    ensures Steps(req.node.env, k, m, p, again, m', p')
    ensures Placed(req.node.env, k, req.node.View(), req.node.orphans.headers, m', p')
    ensures again && m' == m && p' == p ==>
              req.node.View() == old(req.node.View()) && req.node.orphans.headers == old(req.node.orphans.headers)
  {
    hide Shape, Linked, PoolInv, IndexInv, AtRest, Serves, Response, ForkHeight, Stretch, TopsLeaves, TopsAll, NoneReady, Ready, Room, Moved, Repeats, NextHeight, Handled, Full;
    ghost var n := BatchEnd(k, m);
    RequestStart(req.node.env, k, req.node.View(), req.node.orphans.headers, m, p);
    var locator := req.GetLocatorFromPrev();
    ResponseIsStretch(req.node.env.oracle, resp.node.View(), k.c, m, locator);
    var headers := resp.HandleGetHeaders(locator, NULL_HASH);
    var ok, more := req.HandleHeaders(peer, headers, now, k, m, p);
    again, m', p' := more, NextHeight(req.node.env, k, m), Handled(req.node.env, k, m, p, n);
    FullIsFull(k, m, |headers|);
    if headers == [] {
      OnlyRoot(req.node.env, k, m, p);
    } else {
      MovedFacts(req.node.env, k, req.node.View(), req.node.orphans.headers, m, p);
      if again && m' == m && p' == p {
        GainlessRepeats(req.node.env, k, m, p);
      }
    }
  }

  lemma FullIsFull(k: Session, m: nat, n: nat)
    requires m < |k.c| && n == Min(MAX_HEADERS_SIZE, |k.c| - StartOf(m) - 1)
    ensures (n == MAX_HEADERS_SIZE <==> Full(k, m)) && BatchEnd(k, m) == StartOf(m) + n
  {
  }

  lemma MovedFacts(e: Env, k: Session, s: State, pool: Pool, m: nat, p: nat)
    requires m < |k.c| && Moved(e, k, s, pool, m, p, BatchEnd(k, m))
    ensures Room(e, k) && k.t <= m && Placed(e, k, s, pool, NextHeight(e, k, m), Handled(e, k, m, p, BatchEnd(k, m)))
  {
    hide AtRest, Room, Advance, Handled;
  }

  lemma GainlessRepeats(e: Env, k: Session, m: nat, p: nat)
    requires Room(e, k) && k.t <= m < |k.c| && Full(k, m) && Handled(e, k, m, p, BatchEnd(k, m)) == p
    ensures Repeats(e, k, m, p, BatchEnd(k, m))
  {
    hide Room, Filtered;
  }

  /** With the root alone there is nothing to do. */
  lemma OnlyRoot(e: Env, k: Session, m: nat, p: nat)
    requires Room(e, k) && k.t <= m < |k.c| == 1
    ensures NextHeight(e, k, m) == m && Handled(e, k, m, p, BatchEnd(k, m)) == p && !Full(k, m)
  {
  }

  /**
   * Up to `limit` rounds of the sync loop between a requester whose active chain is a prefix of the responder's and
   * that responder, with any orphans pooled: after r rounds the requester has exactly the first Height(r) + 1 blocks,
   * and it still asks exactly if all r batches were full.
   */
  method Exchange(req: HeaderSyncManager, resp: HeaderSyncManager, peer: int, now: int, limit: nat, ghost k: Session)
    returns (rounds: nat, again: bool)
    requires req != resp && Apart(req.node, resp.node) && req.node.Valid() && AlwaysConnects(req.node.env) && resp.node.Shaped()
    requires req.syncPeer == Some(peer) && k.now == now && k.finished == req.node.finishedIbd
    requires Behind(req.node.env, k, req.node.View(), req.node.orphans.headers)
    requires Serves(req.node.env.oracle, resp.node.View(), k.c)
    modifies req, req.node`failed, req.node`finishedIbd, req.node.blocks`index, req.node.blocks.activeChain, req.node.selector, req.node.orphans
    ensures req.node.Valid() && resp.node.Shaped() && resp.node.View() == old(resp.node.View())
    ensures Room(req.node.env, k) && k.t < |k.c| && rounds <= limit && (again ==> rounds == limit)
    ensures again <==> AllFull(req.node.env, k, rounds)
    ensures rounds > 0 ==> AllFull(req.node.env, k, rounds - 1)
    ensures req.node.View().chain == resp.node.View().chain[..Height(req.node.env, k, rounds) + 1]
  {
    hide Shape, Linked, PoolInv, IndexInv, AtRest, Serves, Late, TopsLeaves, TopsAll, Behind, Ready, Room, Height, Full;
    ghost var p, theirs := k.t, resp.node.View();
    again, rounds := true, 0;
    BehindIsAtRest(req.node.env, k, req.node.View(), req.node.orphans.headers);
    BehindReady(req.node.env, k, req.node.View(), req.node.orphans.headers);
    HeightStarts(req.node.env, k);
    ghost var m := k.t;
    while again && rounds < limit
      invariant req.node.Valid() && resp.node.Shaped() && resp.node.View() == theirs && rounds <= limit
      invariant req.syncPeer == Some(peer) && req.Latched(k.finished)
      invariant Placed(req.node.env, k, req.node.View(), req.node.orphans.headers, m, p) && m == Height(req.node.env, k, rounds)
      invariant again <==> AllFull(req.node.env, k, rounds)
      invariant rounds > 0 ==> AllFull(req.node.env, k, rounds - 1)
      decreases limit - rounds
    {
      HeightNext(req.node.env, k, rounds);
      again, m, p := Round(req, resp, peer, now, k, m, p);
      rounds := rounds + 1;
    }
    RestChain(req.node.env, k, req.node.View(), req.node.orphans.headers, m, p, theirs);
  }

  /**
   * The whole loop. It ends, as Rounds.EndsExactly says, exactly when it reaches no height at which a full batch
   * gains nothing. It then ends with the responder's chain exactly when the requester had it from the start, or the
   * responder's tip is not late and weighs enough for the filter.
   */
  method Sync(req: HeaderSyncManager, resp: HeaderSyncManager, peer: int, now: int, ghost k: Session) returns (rounds: nat)
    requires req != resp && Apart(req.node, resp.node) && req.node.Valid() && AlwaysConnects(req.node.env) && resp.node.Shaped()
    requires req.syncPeer == Some(peer) && k.now == now && k.finished == req.node.finishedIbd
    requires Behind(req.node.env, k, req.node.View(), req.node.orphans.headers)
    requires Serves(req.node.env.oracle, resp.node.View(), k.c)
    requires Room(req.node.env, k) && k.t < |k.c| && Ends(req.node.env, k)
    modifies req, req.node`failed, req.node`finishedIbd, req.node.blocks`index, req.node.blocks.activeChain, req.node.selector, req.node.orphans
    ensures req.node.Valid() && resp.node.Shaped() && resp.node.View() == old(resp.node.View())
    ensures req.node.View().chain == resp.node.View().chain[..Height(req.node.env, k, rounds) + 1]
    ensures req.node.View().chain == resp.node.View().chain <==> k.t == Last(k) || !OutOfReach(req.node.env, k)
    ensures 0 < rounds && !Full(k, Height(req.node.env, k, rounds - 1)) && AllFull(req.node.env, k, rounds - 1)
  {
    hide Shape, Linked, PoolInv, IndexInv, AtRest, Serves, Late, TopsLeaves, TopsAll, Behind, Ready, Room, Height, Full;
    ghost var last: nat :| !Full(k, Height(req.node.env, k, last));
    ghost var p, theirs := k.t, resp.node.View();
    var again := true;
    rounds := 0;
    BehindIsAtRest(req.node.env, k, req.node.View(), req.node.orphans.headers);
    BehindReady(req.node.env, k, req.node.View(), req.node.orphans.headers);
    HeightStarts(req.node.env, k);
    ghost var m := k.t;
    while again
      invariant req.node.Valid() && resp.node.Shaped() && resp.node.View() == theirs
      invariant req.syncPeer == Some(peer) && req.Latched(k.finished)
      invariant Placed(req.node.env, k, req.node.View(), req.node.orphans.headers, m, p) && m == Height(req.node.env, k, rounds)
      invariant again <==> AllFull(req.node.env, k, rounds)
      invariant rounds > 0 ==> AllFull(req.node.env, k, rounds - 1)
      decreases last + 1 - rounds
    {
      HeightNext(req.node.env, k, rounds);
      again, m, p := Round(req, resp, peer, now, k, m, p);
      rounds := rounds + 1;
    }
    RestChain(req.node.env, k, req.node.View(), req.node.orphans.headers, m, p, theirs);
    EndsAtLast(req.node.env, k, rounds - 1);
  }

  lemma BehindReady(e: Env, k: Session, s: State, pool: Pool)
    requires Behind(e, k, s, pool)
    ensures Ready(s)
  {
    hide Starts, Linked;
  }

  lemma HeightStarts(e: Env, k: Session)
    requires Room(e, k) && k.t < |k.c|
    ensures Height(e, k, 0) == k.t
  {
  }

  lemma HeightNext(e: Env, k: Session, r: nat)
    requires Room(e, k) && k.t < |k.c|
    ensures Height(e, k, r + 1) == NextHeight(e, k, Height(e, k, r))
  {
  }

  lemma RestChain(e: Env, k: Session, s: State, pool: Pool, m: nat, p: nat, theirs: State)
    requires AtRest(e, k, s, pool, m, p) && Serves(e.oracle, theirs, k.c)
    ensures m < |k.c| == |theirs.chain| && s.chain == theirs.chain[..m + 1]
    ensures s.chain == theirs.chain <==> m == Last(k)
  {
    hide Starts, Inv, Origin, Linked, PoolOk, FamilyOk, CandidatesOk, OnTimeOffered, LateNotOffered, Late;
    TrackPositions(e, k, s, pool, m, p);
  }
}
