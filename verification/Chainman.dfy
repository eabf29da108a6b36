/** ChainstateManager: the methods that change the chain state, each proved equal to its specification. */
module Chainman {
  import opened Bits
  import opened Work
  import opened Primitives
  import opened Validation
  import opened BlockTree
  import opened SkipList
  import opened TreeGrowth
  import opened ActiveChain
  import opened Selector
  import opened Chainstate
  import opened Activation
  import opened Submission
  import opened Invalidation
  import opened Orphans
  import opened Promotion
  import opened Notifications
  import opened Protocol
  import opened Blocks
  import opened HeaderChecks
  import opened Runs
  import opened Persist

  datatype ActivateResult = OK | ConsensusInvalid | PolicyRefused | SystemError

  class ChainstateManager {
    const env: Env
    const blocks: BlockManager
    const selector: ChainSelector
    const orphans: OrphanPool
    var failed: set<Hash>
    var finishedIbd: bool

    constructor (e: Env)
      ensures env == e && failed == {} && !finishedIbd && fresh(blocks) && fresh(blocks.activeChain) && fresh(selector) && fresh(orphans)
      ensures blocks.index == map[] && !blocks.initialized && blocks.activeChain.vChain == []
      ensures selector.candidates == {} && selector.bestHeader == None
      ensures orphans.headers == map[] && PoolInv(e.oracle, orphans.headers, orphans.counts)
    {
      env := e;
      blocks := new BlockManager();
      selector := new ChainSelector();
      orphans := new OrphanPool(e.oracle);
      failed := {};
      finishedIbd := false;
    }

    /** The chain state as a value. */
    ghost function View(): (s: State)
      reads this, blocks, blocks.activeChain, selector
    {
      State(blocks.index, blocks.activeChain.Hashes(), selector.candidates, failed)
    }

    /** The active chain vector holds the path to the tip. */
    ghost predicate Shaped()
      reads this, blocks, blocks.activeChain, selector
    {
      Shape(env, View()) && blocks.activeChain.Holds(View().chain)
    }

    /** Initialize: the genesis block becomes the chain, the only candidate and the best header. */
    method Initialize(genesis: Header) returns (ok: bool)
      requires env.oracle.hash(genesis) != genesis.prev
      requires !blocks.initialized ==> blocks.index == map[] && blocks.activeChain.vChain == []
      requires selector.candidates == {} && failed == {}
      modifies blocks, blocks.activeChain, selector
      ensures ok <==> !old(blocks.initialized) && genesis.prev == NULL_HASH
      ensures !ok ==> View() == old(View())
      ensures ok ==> blocks.initialized && selector.bestHeader == Some(env.oracle.hash(genesis))
      ensures ok ==> View() == GenesisState(env.oracle.hash(genesis), genesis) && BestKnown() && Crowned()
      ensures ok && env.oracle.hash(genesis) == env.genesis && ValidBits(genesis.bits) ==> Initial(env, View()) && Shaped()
    {
      hide Shape, ValidBits, BlockProof;
      ok := blocks.Initialize(env.oracle, genesis);
      if !ok {
        return;
      }
      var g := blocks.activeChain.Tip().value;
      var b := blocks.index[g];
      if !b.status.Failed() && b.status.level < VALID_TREE {
        blocks.index := blocks.index[g := b.(status := b.status.(level := VALID_TREE))];
      }
      selector.AddCandidateUnchecked(g);
      selector.bestHeader := Some(g);
      blocks.activeChain.HoldsHashes([g]);
      assert View() == GenesisState(g, genesis) && blocks.index.Keys == {g};
      if g == env.genesis && ValidBits(genesis.bits) {
        InitialInv(env, View());
      }
    }

    /** AddOrphanHeader: the header joins the pool, from which only evicted orphans left. No orphan becomes ready. */
    method AddOrphanHeader(header: Header, peer: int, now: int) returns (ok: bool)
      requires PoolInv(env.oracle, orphans.headers, orphans.counts)
      modifies orphans
      ensures PoolInv(env.oracle, orphans.headers, orphans.counts)
      ensures ok <==> env.oracle.hash(header) in old(orphans.headers)
                      || |OfPeer(old(orphans.headers), peer)| < MAX_ORPHAN_HEADERS_PER_PEER
      ensures AddedTo(env, old(orphans.headers), header, peer, now, ok, orphans.headers)
      ensures header.prev !in blocks.index && NoneReady(old(orphans.headers), blocks.index) ==>
                NoneReady(orphans.headers, blocks.index)
    {
      hide PoolInv, EvictedTo, OfPeer;
      ghost var pool := orphans.headers;
      ok := orphans.TryAdd(env.oracle, header, peer, now, env.params.orphanExpireTime);
      AddingLeavesNoneReady(env, pool, header, peer, now, ok, orphans.headers, blocks.index);
    }

    /** The best header has at least the work of every valid block without children. */
    ghost predicate BestKnown()
      reads this, blocks, selector
    {
      TopsLeaves(blocks.index, selector.bestHeader)
    }

    /** The best header has at least the work of every block ever indexed; kept until the index is replaced by a file. */
    ghost predicate Crowned()
      reads this, blocks, selector
    {
      TopsAll(blocks.index, selector.bestHeader)
    }

    /**
     * Load: the index from the file, its heaviest sound block as tip, and the valid leaves as candidates. For a
     * file saved from a sound index the result is the reloaded state, in which the tip is again the best block.
     */
    method LoadState(file: File, ghost want: Index) returns (ok: bool, ghost tip: Option<Hash>)
      modifies blocks, blocks.activeChain, selector
      ensures ok ==> Describes(env.oracle, env.params.genesisHash, file.blocks, blocks.index)
      ensures ok ==>
                && tip.Some? && FirstHeaviest(blocks.index, tip.value) && Linked(blocks.index)
                && View() == Reloaded(State(blocks.index, [], {}, {}), tip.value).(failed := failed)
                && blocks.activeChain.Holds(View().chain)
      ensures file.version == 1 && HexHash(file.genesisHash) == env.params.genesisHash
              && Describes(env.oracle, env.params.genesisHash, file.blocks, want) && HasTip(want) ==>
                ok && blocks.index == want
      ensures ok ==> BestKnown()
      ensures ok && IndexInv(env, blocks.index) && AlwaysConnects(env) && PoolInv(env.oracle, orphans.headers, orphans.counts) ==>
                Valid()
    {
      hide Describes, HasTip, HexHash, Path, Linked, HasChild, IndexInv, PoolInv, Shape;
      var loaded, t := Persist.Load(blocks, env.oracle, file, env.params.genesisHash, want);
      tip := t;
      if !loaded {
        return false, tip;
      }
      RebuildCandidates();
      blocks.activeChain.HoldsHashes(Path(blocks.index, t.value));
      LoadedShape(env, blocks.index, t.value, failed);
      return true, tip;
    }

    /** The valid blocks without children become the candidates. */
    method RebuildCandidates()
      modifies selector
      ensures selector.candidates == Leaves(blocks.index, 0)
      ensures Indexed(blocks.index, selector.candidates) && Tops(blocks.index, selector.candidates, selector.bestHeader)
    {
      hide HasChild;
      selector.ClearCandidates();
      selector.bestHeader := None;
      var parents := BlocksWithChildren(blocks.index);
      var rest := blocks.index.Keys;
      while rest != {}
        invariant rest <= blocks.index.Keys
        invariant forall h :: h in selector.candidates <==> Chainstate.Valid(blocks.index, h) && h !in rest && !HasChild(blocks.index, h)
        invariant Indexed(blocks.index, selector.candidates)
        invariant Tops(blocks.index, selector.candidates, selector.bestHeader)
        decreases |rest|
      {
        var h :| h in rest;
        rest := rest - {h};
        if h !in parents && blocks.index[h].status.IsValid() {
          ghost var seen := selector.candidates;
          selector.AddCandidateUnchecked(h);
          selector.UpdateBestHeader(blocks.index, h, seen);
        }
      }
    }

    /**
     * IsInitialBlockDownload: ends for good at the first call that finds a recent tip above the root with at least
     * the minimum chain work.
     */
    method IsInitialBlockDownload(now: int) returns (ibd: bool)
      requires Shaped() && Ready(View())
      modifies `finishedIbd
      ensures ibd <==> !finishedIbd
      ensures finishedIbd <==> old(finishedIbd) || CaughtUp(env.params, blocks.index[Tip(View())], now)
      ensures var tip := blocks.index[Tip(View())];
              finishedIbd && !old(finishedIbd) ==>
                tip.height > 0 && now - tip.header.time <= 12 * 3600 && tip.work >= env.params.minimumChainWork
    {
      hide Shape, Linked;
      if finishedIbd {
        return false;
      }
      var tip := blocks.activeChain.Tip();
      if tip.None? {
        return true;
      }
      var b := blocks.index[tip.value];
      if b.height == 0 || b.header.time < now - 12 * 3600 || b.work < env.params.minimumChainWork {
        return true;
      }
      finishedIbd := true;
      return false;
    }

    // ---- Moving the active chain ----

    /** ConnectTip: refuses, or makes h the tip and queues its event. */
    method ConnectTip(h: Hash, ghost p: seq<Hash>) returns (ok: bool, ev: seq<Event>)
      requires Linked(blocks.index) && h in blocks.index && blocks.activeChain.Holds(p) && p != []
      requires p[|p| - 1] in blocks.index && p == Path(blocks.index, p[|p| - 1])
      requires blocks.index[h].prev == Some(p[|p| - 1])
      modifies blocks.activeChain
      ensures ok <==> env.connects(h)
      ensures ok ==> blocks.activeChain.Holds(p + [h]) && p + [h] == Path(blocks.index, h) && ev == [Connected(h)]
      ensures !ok ==> blocks.activeChain.Holds(p) && ev == []
    {
      hide Linked, Path;
      if !env.connects(h) {
        return false, [];
      }
      PathOfChild(blocks.index, h);
      blocks.activeChain.SetTip(blocks.index, h);
      return true, [Connected(h)];
    }

    /** DisconnectTip: steps back to the parent; a root cannot be disconnected. */
    method DisconnectTip(ghost p: seq<Hash>) returns (ok: bool, ev: seq<Event>)
      requires Linked(blocks.index) && blocks.activeChain.Holds(p) && p != []
      requires p[|p| - 1] in blocks.index && p == Path(blocks.index, p[|p| - 1])
      modifies blocks.activeChain
      ensures ok <==> |p| > 1
      ensures ok ==>
                && blocks.activeChain.Holds(p[..|p| - 1]) && ev == [Disconnected(p[|p| - 1])]
                && p[|p| - 2] in blocks.index && p[..|p| - 1] == Path(blocks.index, p[|p| - 2])
      ensures !ok ==> blocks.activeChain.Holds(p) && ev == []
    {
      hide Linked, Path;
      var tip := blocks.activeChain.Tip();
      StepBack(blocks.index, tip.value);
      if blocks.index[tip.value].prev.None? {
        return false, [];
      }
      ParentOnPath(blocks.index, tip.value, |p| - 1);
      blocks.activeChain.SetTip(blocks.index, blocks.index[tip.value].prev.value);
      return true, [Disconnected(tip.value)];
    }

    /** Disconnects from the tip down to a block of the chain, listing what it removed. */
    method DisconnectTo(fork: Hash, ghost p: seq<Hash>, ghost n: nat) returns (ok: bool, gone: seq<Hash>, ev: seq<Event>)
      requires Linked(blocks.index) && blocks.activeChain.Holds(p) && IsPath(blocks.index, p)
      requires 1 <= n <= |p| && p[n - 1] == fork
      modifies blocks.activeChain
      ensures ok && blocks.activeChain.Holds(p[..n])
      ensures Backwards(gone, p, n) && Replay(p, ev) == Some(p[..n])
    {
      hide Linked, Path, Replay, Backwards, IsPath;
      gone, ev := [], [];
      NothingBackwards(p);
      ghost var k := |p|;
      ReplayNothing(p);
      assert p[..k] == p;
      var walk := blocks.activeChain.Tip();
      while walk.Some? && walk.value != fork
        invariant n <= k <= |p| && blocks.activeChain.Holds(p[..k]) && walk == Some(p[k - 1])
        invariant Backwards(gone, p, k) && Replay(p, ev) == Some(p[..k])
        decreases k
      {
        BackwardsMore(gone, p, k);
        gone := gone + [walk.value];
        PathToThere(blocks.index, p, k, n);
        var done, e := DisconnectTip(p[..k]);
        if !done {
          return false, gone, ev;
        }
        ReplayOne(p, ev, e[0]);
        ev := ev + e;
        k := k - 1;
        walk := blocks.activeChain.Tip();
      }
      SameHeight(blocks.index, p, k - 1, n - 1);
      return true, gone, ev;
    }

    /** The blocks from m back to the child of fork. */
    method BranchFrom(m: Hash, fork: Hash, ghost q: seq<Hash>, ghost n: nat) returns (branch: seq<Hash>)
      requires Linked(blocks.index) && m in blocks.index && q == Path(blocks.index, m)
      requires 1 <= n <= |q| && q[n - 1] == fork
      ensures Backwards(branch, q, n)
    {
      hide Linked, Path;
      branch := [];
      var walk := Some(m);
      ghost var k := |q|;
      while walk.Some? && walk.value != fork
        invariant n <= k <= |q| && walk == Some(q[k - 1]) && Backwards(branch, q, k)
        decreases k
      {
        branch := branch + [walk.value];
        SameHeight(blocks.index, q, k - 1, n - 1);
        ParentOnPath(blocks.index, m, k - 1);
        walk := blocks.index[walk.value].prev;
        k := k - 1;
      }
      SameHeight(blocks.index, q, k - 1, n - 1);
    }

    /** Connects a branch on top of the chain, lowest block first, until one refuses. */
    method ConnectBranch(branch: seq<Hash>, ghost q: seq<Hash>, ghost n: nat) returns (ok: bool, ev: seq<Event>, ghost k: nat)
      requires Linked(blocks.index) && IsPath(blocks.index, q) && 1 <= n <= |q|
      requires blocks.activeChain.Holds(q[..n]) && Backwards(branch, q, n)
      modifies blocks.activeChain
      ensures n <= k <= |q| && blocks.activeChain.Holds(q[..k])
      ensures ok <==> forall i :: n <= i < |q| ==> env.connects(q[i])
      ensures ok ==> k == |q|
      ensures Replay(q[..n], ev) == Some(q[..k])
    {
      hide Linked, Path, Replay, Backwards, IsPath;
      ev, k := [], n;
      ReplayNothing(q[..n]);
      BackwardsLength(branch, q, n);
      var i := |branch|;
      while i > 0
        invariant 0 <= i <= |branch| && n <= k <= |q| && k == |q| - i && blocks.activeChain.Holds(q[..k])
        invariant forall j :: n <= j < k ==> env.connects(q[j])
        invariant Replay(q[..n], ev) == Some(q[..k])
      {
        i := i - 1;
        NextOnBranch(blocks.index, branch, q, n, k);
        var done, e := ConnectTip(branch[i], q[..k]);
        if !done {
          return false, ev, k;
        }
        ReplayOne(q[..n], ev, e[0]);
        assert q[..k] + [q[k]] == q[..k + 1];
        ev := ev + e;
        k := k + 1;
      }
      return true, ev, k;
    }

    /** Moves the chain from p to the path q of m over their fork; if a block refuses, restores p without events. */
    method TrySwitch(m: Hash, fork: Hash, ghost p: seq<Hash>, ghost q: seq<Hash>, ghost n: nat)
      returns (ok: bool, ev: seq<Event>)
      requires Linked(blocks.index) && blocks.activeChain.Holds(p) && IsPath(blocks.index, p)
      requires m in blocks.index && q == Path(blocks.index, m)
      requires 1 <= n <= |p| && n <= |q| && p[..n] == q[..n] && p[n - 1] == fork == q[n - 1]
      requires forall i :: 1 <= i < |p| ==> env.connects(p[i])
      modifies blocks.activeChain
      ensures ok <==> forall i :: n <= i < |q| ==> env.connects(q[i])
      ensures ok ==> blocks.activeChain.Holds(q) && Replay(p, ev) == Some(q)
      ensures !ok ==> blocks.activeChain.Holds(p) && ev == []
    {
      hide Linked, Path, Replay, Backwards;
      var down, gone, ev1 := DisconnectTo(fork, p, n);
      var branch := BranchFrom(m, fork, q, n);
      var up, ev2, k := ConnectBranch(branch, q, n);
      assert q[..|q|] == q && p[..|p|] == p;
      if up {
        ReplayConcat(p, ev1, ev2);
        return true, ev1 + ev2;
      }
      PathOfPrefix(blocks.index, q, k);
      assert q[..k][..n] == q[..n];
      var back, _, _ := DisconnectTo(fork, q[..k], n);
      var restored, _, _ := ConnectBranch(gone, p, n);
      return false, [];
    }

    /** The suspicious-reorg guard, measured from the last common ancestor. */
    method GuardRefuses(tip: Hash, m: Hash) returns (refused: bool, fork: Hash)
      requires Shaped() && Ready(View()) && m in blocks.index && tip == Tip(View())
      ensures refused <==> Guarded(env, View(), m)
      ensures var p, q := View().chain, Path(blocks.index, m);
              var n := CommonLength(p, q);
              1 <= n <= |p| && n <= |q| && p[n - 1] == fork == q[n - 1] && p[..n] == q[..n]
    {
      hide Linked, Path, Shape, CommonLength, SkipsCorrect;
      ghost var s := View();
      ShapeFacts(env, s);
      ForkAtRoot(env, s, m);
      var f := LastCommonAncestor(blocks.index, Some(tip), Some(m));
      fork := f.value;
      refused := env.params.suspiciousReorgDepth > 0
      && blocks.index[tip].height - blocks.index[fork].height >= env.params.suspiciousReorgDepth;
    }

    /** ActivateBestChainStep: one attempt at one candidate. */
    method ActivateBestChainStep(m: Hash) returns (res: ActivateResult, ev: seq<Event>)
      requires Shaped() && m in selector.candidates
      modifies blocks.activeChain, selector`candidates
      ensures Shaped() && res != SystemError
      ensures Ready(old(View())) && Linked(old(View()).index) && m in old(View()).index
      ensures var s := old(View());
              var heavier := s.index[m].work > s.index[Tip(s)].work;
              && (res == PolicyRefused <==> heavier && Guarded(env, s, m))
              && (res == ConsensusInvalid <==> heavier && !Guarded(env, s, m) && !BranchConnects(env, s, m))
              && (View() == if heavier && res == OK then Switched(s, m) else s)
      ensures res != OK ==> ev == []
      ensures Replay(old(View()).chain, ev) == Some(View().chain)
    {
      hide Linked, Path, Replay, Shape, CommonLength, Pruned, SkipsCorrect, Guarded, BranchConnects, Switched;
      ghost var s := View();
      ShapeFacts(env, s);
      ReplayNothing(s.chain);
      var tip := blocks.activeChain.Tip();
      if tip == Some(m) || blocks.index[m].work <= blocks.index[tip.value].work {
        return OK, [];
      }
      var refused, fork := GuardRefuses(tip.value, m);
      if refused {
        return PolicyRefused, [];
      }
      var switched, local := SwitchTo(m, fork);
      if !switched {
        return ConsensusInvalid, [];
      }
      return OK, local;
    }

    /** Switches the chain to m, announces the new tip and prunes the candidates; or changes nothing. */
    method SwitchTo(m: Hash, fork: Hash) returns (ok: bool, ev: seq<Event>)
      requires Shaped() && Ready(View()) && m in selector.candidates
      requires var p, q := View().chain, Path(blocks.index, m);
               var n := CommonLength(p, q);
               1 <= n <= |p| && n <= |q| && p[n - 1] == fork == q[n - 1] && p[..n] == q[..n]
      modifies blocks.activeChain, selector`candidates
      ensures Shaped() && Ready(old(View())) && m in old(View()).index
      ensures ok <==> BranchConnects(env, old(View()), m)
      ensures View() == if ok then Switched(old(View()), m) else old(View())
      ensures !ok ==> ev == []
      ensures Replay(old(View()).chain, ev) == Some(View().chain)
    {
      hide Linked, Path, Replay, Shape, CommonLength, Pruned, SkipsCorrect;
      ghost var s := View();
      ShapeFacts(env, s);
      ReplayNothing(s.chain);
      ghost var q := Path(blocks.index, m);
      ghost var n := CommonLength(s.chain, q);
      ok, ev := TrySwitch(m, fork, s.chain, q, n);
      if ok {
        ev := FinishSwitch(m, ev, s);
      } else {
        blocks.activeChain.HoldsHashes(s.chain);
      }
    }

    /** The chain holds the path to m: announces the new tip and prunes the candidates. */
    method FinishSwitch(m: Hash, moves: seq<Event>, ghost s: State) returns (ev: seq<Event>)
      requires Shape(env, s) && Ready(s) && m in s.candidates && m in s.index && BranchConnects(env, s, m)
      requires blocks.index == s.index && selector.candidates == s.candidates && failed == s.failed
      requires blocks.activeChain.Holds(Path(s.index, m)) && Replay(s.chain, moves) == Some(Path(s.index, m))
      modifies selector`candidates
      ensures Shaped() && View() == Switched(s, m) && Replay(s.chain, ev) == Some(View().chain)
    {
      hide Linked, Path, Replay, Shape, CommonLength, Pruned, SkipsCorrect, BranchConnects;
      ghost var q := Path(s.index, m);
      ReplayOne(s.chain, moves, ChainTip(m, blocks.index[m].height));
      ev := moves + [ChainTip(m, blocks.index[m].height)];
      selector.PruneBlockIndexCandidates(blocks.index, blocks.activeChain, q);
      SwitchedShape(env, s, m);
      blocks.activeChain.HoldsHashes(q);
      assert View() == Switched(s, m);
    }

    /**
     * ActivateBestChain(nullptr): tries candidates until one is activated or none is left with more work. An
     * observer that replays the events holds the new active chain.
     */
    method ActivateBestChain() returns (ok: bool, ev: seq<Event>)
      requires Shaped()
      modifies blocks`index, blocks.activeChain, selector`candidates, this`failed
      ensures Shaped() && ok
      ensures Ready(old(View())) && View() == Activated(env, old(View()))
      ensures Replay(old(View()).chain, ev) == Some(View().chain)
    {
      hide Linked, Path, Replay, Shape, Guarded, BranchConnects, Activated, Switched, Better, IsPath, SkipsCorrect, BestValid;
      ghost var s0 := View();
      ShapeFacts(env, s0);
      while true
        invariant Shaped() && Ready(View()) && View().chain == s0.chain
        invariant Activated(env, View()) == Activated(env, s0)
        decreases |selector.candidates|
      {
        ghost var s := View();
        ShapeFacts(env, s);
        ReplayNothing(s.chain);
        var m := selector.FindMostWorkChain(blocks.index);
        FoundFirst(s.index, s.candidates, m, selector.candidates);
        if m.None? {
          NoAttempt(env, s);
          return true, [];
        }
        Attempt(env, s, m.value);
        if blocks.activeChain.Tip() == m {
          return true, [];
        }
        var res, events := ActivateBestChainStep(m.value);
        match res
        case OK => return true, events;
        case PolicyRefused => Drop(m.value);
        case ConsensusInvalid => MarkFailed(m.value);
        case SystemError => return false, [];
      }
    }

    /** Demotes a candidate that policy refuses. */
    method Drop(m: Hash)
      requires Shaped() && m in selector.candidates
      modifies selector`candidates
      ensures Shaped() && Ready(View()) && View() == Dropped(old(View()), m)
      ensures |selector.candidates| < |old(selector.candidates)|
    {
      hide Shape;
      DroppedShape(env, View(), m);
      ShapeReady(env, Dropped(View(), m));
      selector.RemoveCandidate(m);
    }

    /** Marks a candidate that did not connect. */
    method MarkFailed(m: Hash)
      requires Shaped() && m in selector.candidates && Ready(View()) && m != Tip(View())
      modifies blocks`index, selector`candidates, this`failed
      ensures m in old(View()).index
      ensures Shaped() && Ready(View()) && View() == Marked(old(View()), m)
      ensures |selector.candidates| < |old(selector.candidates)|
    {
      hide Shape, Linked;
      MarkedShape(env, View(), m);
      ShapeReady(env, Marked(View(), m));
      var b := blocks.index[m];
      blocks.index := blocks.index[m := b.(status := b.status.(failedValid := true))];
      failed := failed + {m};
      selector.RemoveCandidate(m);
    }

    // ---- Accepting headers ----

    ghost predicate Valid()
      reads this, blocks, blocks.activeChain, selector, orphans
    {
      && Shaped() && IndexInv(env, blocks.index)
      && PoolInv(env.oracle, orphans.headers, orphans.counts)
      && BestKnown()
    }

    /** AcceptBlockHeader up to insertion. */
    method CheckHeader(header: Header, now: int, minPowChecked: bool) returns (v: Verdict)
      requires Linked(blocks.index) && SkipsCorrect(blocks.index)
      ensures v == Check(env, blocks.index, header, now, minPowChecked)
    {
      hide Linked, SkipsCorrect, ContextualCheck, CommitmentPow, FullPow;
      var hash := env.oracle.hash(header);
      if hash in blocks.index {
        return if blocks.index[hash].status.Failed() then Rejected(Duplicate) else Known;
      }
      if !CommitmentPow(env.oracle, header) {
        return Rejected(HighHash);
      }
      if header.prev == NULL_HASH {
        return Rejected(if hash != env.params.genesisHash then BadGenesis else GenesisViaAccept);
      }
      if header.prev !in blocks.index {
        return Rejected(PrevNotFound);
      }
      if blocks.index[header.prev].status.Failed() {
        return Rejected(BadPrev);
      }
      var reason := ContextualCheckBlockHeader(env.params, blocks.index, header.prev, header, now);
      if reason.Some? {
        return Rejected(reason.value);
      }
      if !FullPow(env.oracle, header) {
        return Rejected(HighHash);
      }
      return if !minPowChecked then Rejected(TooLittleChainwork) else Fresh;
    }

    /** Inserts a checked header, raises its validity and updates the best header. */
    method InsertHeader(header: Header, ghost now: int)
      requires Valid() && Check(env, blocks.index, header, now, true) == Fresh
      modifies blocks`index, selector`bestHeader
      ensures Linked(old(blocks.index))
      ensures Valid() && blocks.index == Inserted(env.oracle, old(blocks.index), header)
      ensures old(Crowned()) ==> Crowned()
    {
      hide Shape, Linked, SkipsCorrect, Check, PoolInv, IndexInv, Inserted, TopsLeaves, TopsAll, Below, Tops, Extends;
      ghost var s, best := View(), selector.bestHeader;
      ShapeFacts(env, s);
      FreshEffect(env, s, header, now);
      AddValidated(header);
      BelowTops(s.index, blocks.index, env.oracle.hash(header), best);
      selector.UpdateBestHeader(blocks.index, env.oracle.hash(header), Below(s.index, best));
      StillTops(s.index, blocks.index, env.oracle.hash(header), best, selector.bestHeader);
    }

    /** AddToBlockIndex, then RaiseValidity to TREE level. */
    method AddValidated(header: Header)
      requires Linked(blocks.index) && SkipsCorrect(blocks.index)
      requires header.prev in blocks.index && env.oracle.hash(header) !in blocks.index
      modifies blocks`index
      ensures blocks.index == Inserted(env.oracle, old(blocks.index), header)
    {
      hide Linked, SkipsCorrect, Path, BlockProof, AddWork, GetSkipHeight;
      var h := blocks.AddToBlockIndex(env.oracle, header);
      var b := blocks.index[h.value];
      if !b.status.Failed() && b.status.level < VALID_TREE {
        blocks.index := blocks.index[h.value := b.(status := b.status.(level := VALID_TREE))];
      }
    }

    /**
     * AcceptBlockHeader, with the orphans it promotes. `added` lists what was inserted. Termination of the
     * recursion with ProcessOrphanHeaders rests on the pool shrinking before each nested call.
     */
    method AcceptBlockHeader(header: Header, now: int, minPowChecked: bool)
      returns (r: Option<Hash>, reject: Option<Reject>, ghost added: seq<Header>)
      requires Valid()
      modifies blocks`index, selector`bestHeader, orphans
      ensures Valid() && Linked(old(blocks.index)) && (old(Crowned()) ==> Crowned())
      ensures Drained(env, old(blocks.index), old(orphans.headers), {}, added, now, blocks.index, orphans.headers)
      ensures match Check(env, old(blocks.index), header, now, minPowChecked)
              case Known => r == Some(env.oracle.hash(header)) && reject == None && added == []
              case Rejected(why) => r == None && reject == Some(why) && added == []
              case Fresh =>
                && r == Some(env.oracle.hash(header)) && reject == None
                && |added| > 0 && added[0] == header && Under(env, env.oracle.hash(header), added[1..])
      ensures added == [] ==> blocks.index == old(blocks.index) && orphans.headers == old(orphans.headers)
      ensures added != [] ==> Pooled(old(orphans.headers), added[1..])
      decreases |orphans.headers|, 2
    {
      hide Shape, Linked, SkipsCorrect, Check, PoolInv, IndexInv, Drained, Inserted, Pooled, Under, TopsLeaves, TopsAll;
      ShapeFacts(env, View());
      var v := CheckHeader(header, now, minPowChecked);
      match v
      case Known =>
        NothingDrained(env, blocks.index, orphans.headers, now);
        return Some(env.oracle.hash(header)), None, [];
      case Rejected(why) =>
        NothingDrained(env, blocks.index, orphans.headers, now);
        return None, Some(why), [];
      case Fresh =>
        FreshAnyway(env, blocks.index, header, now, minPowChecked);
        InsertHeader(header, now);
        OneNew(env.oracle, old(blocks.index), header);
        ghost var promoted, taken := ProcessOrphanHeaders(env.oracle.hash(header), now);
        DrainFirst(env, old(blocks.index), old(orphans.headers), header, taken, promoted, now, blocks.index, orphans.headers);
        added := [header] + promoted;
        assert added[1..] == promoted;
        return Some(env.oracle.hash(header)), None, added;
    }

    /** Takes one orphan out of the pool and accepts it. */
    method TakeOrphan(h: Hash, now: int) returns (ghost more: seq<Header>)
      requires Valid() && h in orphans.headers && orphans.headers[h].header.prev in blocks.index
      modifies blocks`index, selector`bestHeader, orphans
      ensures Valid() && Linked(old(blocks.index)) && (old(Crowned()) ==> Crowned())
      ensures Drained(env, old(blocks.index), old(orphans.headers), {h}, more, now, blocks.index, orphans.headers)
      ensures more != [] ==> more[0] == old(orphans.headers)[h].header && Pooled(old(orphans.headers) - {h}, more[1..])
      ensures more != [] ==> Under(env, env.oracle.hash(more[0]), more[1..])
      ensures |orphans.headers| < |old(orphans.headers)|
      decreases |orphans.headers|, 0
    {
      hide Shape, Linked, Check, PoolInv, IndexInv, Drained, Settled, Insertable, Pooled, Under, TopsLeaves, TopsAll;
      ghost var idx, pool := blocks.index, orphans.headers;
      ShapeFacts(env, View());
      var header := orphans.headers[h].header;
      orphans.Remove(env.oracle, h);
      var _, _, inserted := AcceptBlockHeader(header, now, true);
      more := inserted;
      SubPool(env, idx, pool - {h}, {}, more, now, blocks.index, orphans.headers);
      DrainTaken(env, idx, pool, h, more, now, blocks.index, orphans.headers);
    }

    /**
     * ProcessOrphanHeaders for an indexed parent: in the order of the hashes, takes every orphan waiting for it out of
     * the pool and accepts it.
     * `taken` are the orphans of the parent.
     */
    method ProcessOrphanHeaders(parent: Hash, now: int) returns (ghost added: seq<Header>, ghost taken: set<Hash>)
      requires Valid() && parent in blocks.index
      modifies blocks`index, selector`bestHeader, orphans
      ensures Valid() && Linked(old(blocks.index)) && (old(Crowned()) ==> Crowned())
      ensures Drained(env, old(blocks.index), old(orphans.headers), taken, added, now, blocks.index, orphans.headers)
      ensures forall h :: h in taken <==> h in old(orphans.headers) && old(orphans.headers)[h].header.prev == parent
      ensures Under(env, parent, added) && Pooled(old(orphans.headers), added)
      decreases |orphans.headers|, 1
    {
      hide Shape, Linked, PoolInv, IndexInv, TopsLeaves, TopsAll, Promoting, Drained, Pooled, Under, IsPath, SkipsCorrect;
      ghost var idx, pool := blocks.index, orphans.headers;
      ShapeFacts(env, View());
      PromotingStarts(env, parent, idx, pool, now);
      added, taken := [], {};
      var todo := orphans.WaitingFor(parent);
      ghost var all := todo;
      while todo != {}
        invariant Valid() && (old(Crowned()) ==> Crowned())
        invariant Promoting(env, parent, idx, pool, taken, added, now, blocks.index, orphans.headers)
        invariant todo <= all && taken == all - todo
        decreases |todo|
      {
        var h := Smallest(todo);
        todo := todo - {h};
        PromotingReady(env, parent, idx, pool, taken, added, now, blocks.index, orphans.headers, h);
        if h in orphans.headers {
          ghost var mid, rest := blocks.index, orphans.headers;
          ghost var more := TakeOrphan(h, now);
          PromotingStep(env, parent, idx, pool, taken, added, now, mid, rest, h, more, blocks.index, orphans.headers);
          added, taken := added + more, taken + {h};
        }
      }
      PromotingEnds(env, parent, idx, pool, taken, added, now, blocks.index, orphans.headers);
    }

    /** ProcessNewBlockHeader: accept, offer as a candidate, activate. */
    method ProcessNewBlockHeader(header: Header, now: int)
      returns (ok: bool, reject: Option<Reject>, ev: seq<Event>, ghost added: seq<Header>)
      requires Valid()
      modifies blocks`index, blocks.activeChain, selector, orphans, this`failed
      ensures Shaped() && (AlwaysConnects(env) ==> Valid())
      ensures Linked(old(blocks.index))
      ensures ok <==> !Check(env, old(blocks.index), header, now, true).Rejected?
      ensures !ok ==>
                View() == old(View()) && ev == [] && reject.Some? && Check(env, old(blocks.index), header, now, true) == Rejected(reject.value)
      ensures ok ==> Processed(env, old(View()), added, env.oracle.hash(header), now, View())
      ensures Replay(old(View()).chain, ev) == Some(View().chain)
      ensures Insertable(env, old(blocks.index), added, now)
      ensures Drained(env, old(blocks.index), old(orphans.headers), {}, added, now,
                      InsertAll(env, old(blocks.index), added, now), orphans.headers)
      ensures added != [] ==> added[0] == header && Pooled(old(orphans.headers), added[1..]) && Under(env, env.oracle.hash(header), added[1..])
      ensures NoneReady(old(orphans.headers), old(blocks.index)) ==> NoneReady(orphans.headers, blocks.index)
      ensures old(Crowned()) ==> Crowned()
    {
      hide Shape, Linked, Check, PoolInv, IndexInv, Drained, Settled, Insertable, InsertAll, Activated, Replay, Offered, NoneReady, Pooled, Under, TopsLeaves, TopsAll;
      ghost var s, pool := View(), orphans.headers;
      ReplayNothing(s.chain);
      var r, why, inserted := AcceptBlockHeader(header, now, true);
      added := inserted;
      SubPool(env, s.index, pool, {}, added, now, blocks.index, orphans.headers);
      SecondBelow(env, added);
      DrainKeepsNoneReady(env, s.index, pool, added, now, blocks.index, orphans.headers);
      if r.None? {
        return false, why, [], added;
      }
      KnownIsSound(env, s.index, header, now);
      SubmittedInv(env, s, added, r.value, now);
      ghost var m := Submitted(env, s, added, r.value, now);
      selector.TryAddBlockIndexCandidate(blocks.index, r.value);
      assert View() == m;
      var done, events := ActivateBestChain();
      if AlwaysConnects(env) {
        ActivatedInv(env, m);
        ActivatedKeeps(env, m);
      }
      ActivatedShape(env, m);
      SameKeysNoneReady(m.index, blocks.index, orphans.headers);
      SameButStatusTops(m.index, blocks.index, selector.bestHeader);
      return true, None, events, added;
    }

    // ---- Invalidating a block ----

    /** Valid blocks off the chain with at least the work of the parent of x. */
    method CollectCompetitors(x: Hash, parent: Hash) returns (comps: set<Hash>)
      requires Shaped() && Ready(View()) && Invalidatable(View(), x) && parent in blocks.index
      requires blocks.index[x].prev == Some(parent)
      ensures comps == Competitors(View(), x)
    {
      hide Shape, Linked;
      ghost var s := View();
      ShapeFacts(env, s);
      comps := {};
      var rest := blocks.index.Keys;
      while rest != {}
        invariant rest <= blocks.index.Keys
        invariant forall b :: b in comps <==> b in Competitors(s, x) && b !in rest
        decreases |rest|
      {
        var b :| b in rest;
        rest := rest - {b};
        OnChain(blocks.index, blocks.activeChain, s.chain, b);
        if !blocks.activeChain.Contains(blocks.index, b) && blocks.index[b].work >= blocks.index[parent].work
           && blocks.index[b].status.IsValid()
        {
          comps := comps + {b};
        }
      }
    }

    /** The disconnect loop: the tip leaves the candidates, its parent joins, and so do forks that now compete. */
    method Unwind(x: Hash, comps: set<Hash>) returns (ok: bool, ev: seq<Event>)
      requires Shaped() && Ready(View()) && Invalidatable(View(), x) && comps == Competitors(View(), x)
      requires ParentSits(View(), x)
      modifies blocks.activeChain, selector`candidates
      ensures ok && blocks.activeChain.Holds(ChainAfter(old(View()), x))
      ensures selector.candidates == Unwound(old(View()), x)
      ensures Replay(old(View()).chain, ev) == Some(ChainAfter(old(View()), x))
    {
      hide Shape, Linked, Path, Replay, SkipsCorrect, Competitors, Unwinding, Unwound, ParentSits;
      ghost var s := View();
      ShapeFacts(env, s);
      ghost var p, k := s.chain, |s.chain|;
      var left := comps;
      ev := [];
      ReplayNothing(p);
      assert p[..k] == p;
      UnwindStarts(s, x, comps);
      while true
        invariant 1 <= k <= |p| && blocks.activeChain.Holds(p[..k]) && Replay(p, ev) == Some(p[..k])
        invariant Unwinding(s, x, comps, left, k, selector.candidates)
        decreases k
      {
        PathOfPrefix(blocks.index, p, k);
        OnChain(blocks.index, blocks.activeChain, p[..k], x);
        PrefixHas(blocks.index, p, k, x);
        if !blocks.activeChain.Contains(blocks.index, x) {
          break;
        }
        UnwindGoesOn(s, x, comps, left, k, selector.candidates);
        ghost var before, cands := left, selector.candidates;
        var done, e, still := UnwindOne(left, p[..k]);
        if !done {
          return false, ev;
        }
        UnwindNext(s, x, comps, before, still, k, cands, selector.candidates);
        ReplayOne(p, ev, e);
        TakeLess(p, k, k - 1);
        ev, left := ev + [e], still;
        k := k - 1;
      }
      UnwindEnds(s, x, comps, left, k, selector.candidates);
      return true, ev;
    }

    /** Disconnects the tip, offers its parent instead and lets the forks that now compete join. */
    method UnwindOne(waiting: set<Hash>, ghost p: seq<Hash>) returns (ok: bool, ev: Event, left: set<Hash>)
      requires Linked(blocks.index) && blocks.activeChain.Holds(p) && IsPath(blocks.index, p)
      requires Indexed(blocks.index, waiting)
      modifies blocks.activeChain, selector`candidates
      ensures ok <==> |p| > 1
      ensures ok ==>
                && blocks.activeChain.Holds(p[..|p| - 1]) && ev == Disconnected(p[|p| - 1]) && p[|p| - 2] in blocks.index
                && left == (set b | b in waiting && blocks.index[b].work < blocks.index[p[|p| - 2]].work)
                && selector.candidates == old(selector.candidates) - {p[|p| - 1]} + {p[|p| - 2]} + (waiting - left)
    {
      hide Linked, Path;
      var tip := blocks.activeChain.Tip().value;
      ev, left := Disconnected(tip), waiting;
      var done, _ := DisconnectTip(p);
      if !done {
        return false, ev, left;
      }
      ParentOnPath(blocks.index, tip, |p| - 1);
      var parent := blocks.index[tip].prev.value;
      selector.RemoveCandidate(tip);
      selector.AddCandidateUnchecked(parent);
      left := JoinForks(waiting, blocks.index[parent].work);
      return true, ev, left;
    }

    /** Adds the waiting forks that have at least the given work; returns those still waiting. */
    method JoinForks(waiting: set<Hash>, work: nat) returns (left: set<Hash>)
      requires Indexed(blocks.index, waiting)
      modifies selector`candidates
      ensures left == set b | b in waiting && blocks.index[b].work < work
      ensures selector.candidates == old(selector.candidates) + (waiting - left)
    {
      left := waiting;
      var rest := waiting;
      while rest != {}
        invariant rest <= left <= waiting
        invariant forall b :: b in left <==> b in waiting && (b in rest || blocks.index[b].work < work)
        invariant selector.candidates == old(selector.candidates) + (waiting - left)
        decreases |rest|
      {
        var b :| b in rest;
        rest := rest - {b};
        if blocks.index[b].work >= work {
          selector.AddCandidateUnchecked(b);
          left := left - {b};
        }
      }
    }

    /** Fails h if x is its ancestor. */
    method MarkIfDescends(x: Hash, h: Hash, ghost idx: Index, ghost rest: set<Hash>)
      requires Linked(idx) && SkipsCorrect(idx) && Marking(idx, x, rest, blocks.index) && h in rest && h in idx
      modifies blocks`index, this`failed, selector`candidates
      ensures Marking(idx, x, rest - {h}, blocks.index)
      ensures failed == old(failed) + (if h in Descendants(idx, x) then {h} else {})
      ensures selector.candidates == old(selector.candidates) - (if h in Descendants(idx, x) then {h} else {})
    {
      hide Linked, SkipsCorrect, Path, Marking, Descendants;
      MarkingFacts(idx, x, rest, blocks.index, h);
      var ancestor := GetAncestor(blocks.index, h, blocks.index[x].height);
      if ancestor == Some(x) {
        var d := blocks.index[h];
        blocks.index := blocks.index[h := d.(status := d.status.(failedValid := false, failedChild := true))];
        failed := failed + {h};
        selector.RemoveCandidate(h);
      }
    }

    /** Fails x and every descendant, and drops them from the candidates. */
    method MarkFailing(x: Hash)
      requires Linked(blocks.index) && SkipsCorrect(blocks.index) && x in blocks.index
      modifies blocks`index, this`failed, selector`candidates
      ensures Linked(old(blocks.index)) && blocks.index == Failing(old(blocks.index), x)
      ensures failed == old(failed) + Descendants(old(blocks.index), x)
      ensures selector.candidates == old(selector.candidates) - Descendants(old(blocks.index), x)
    {
      hide Linked, SkipsCorrect, Path, Failing, Marking, Descendants, Accounted;
      ghost var idx, failed0, cands, desc := blocks.index, failed, selector.candidates, Descendants(blocks.index, x);
      var b := blocks.index[x];
      MarkingStarts(idx, x);
      blocks.index := blocks.index[x := b.(status := b.status.(failedValid := true))];
      failed := failed + {x};
      selector.RemoveCandidate(x);
      var rest := blocks.index.Keys - {x};
      assert rest == idx.Keys - {x};
      AccountStarts(desc, rest, x, failed0, cands);
      while rest != {}
        invariant rest <= idx.Keys && Marking(idx, x, rest, blocks.index)
        invariant Accounted(desc, rest, failed0, failed, cands, selector.candidates)
        decreases |rest|
      {
        var h :| h in rest;
        AccountMore(desc, rest, h, failed0, failed, cands, selector.candidates);
        MarkIfDescends(x, h, idx, rest);
        rest := rest - {h};
      }
      AccountEnds(desc, failed0, failed, cands, selector.candidates);
      MarkingEnds(idx, x, blocks.index);
    }

    /** Adds every valid leaf with at least the work of the tip. */
    method AddLeaves(work: nat)
      modifies selector`candidates
      ensures selector.candidates == old(selector.candidates) + Leaves(blocks.index, work)
    {
      ghost var cands := selector.candidates;
      var rest := blocks.index.Keys;
      while rest != {}
        invariant rest <= blocks.index.Keys
        invariant selector.candidates == cands + (Leaves(blocks.index, work) - rest)
        decreases |rest|
      {
        var h :| h in rest;
        rest := rest - {h};
        if blocks.index[h].status.IsValid() && blocks.index[h].work >= work {
          var hasChild := SomeChild(blocks.index, h);
          if !hasChild {
            selector.AddCandidateUnchecked(h);
          }
        }
      }
    }

    /** Takes x and everything above it off the active chain. */
    method StepBackBelow(x: Hash) returns (ok: bool, ev: seq<Event>)
      requires Valid() && Invalidatable(View(), x)
      modifies blocks.activeChain, selector`candidates
      ensures ok && selector.candidates == Unwound(old(View()), x)
      ensures blocks.activeChain.Holds(ChainAfter(old(View()), x)) && View().chain == ChainAfter(old(View()), x)
      ensures Replay(old(View()).chain, ev) == Some(ChainAfter(old(View()), x))
    {
      hide Shape, SkipsCorrect, IndexInv, Path, Replay, PoolInv, Unwound, ChainAfter, Competitors;
      ghost var s := View();
      ShapeFacts(env, s);
      ParentSitsThere(env, s, x);
      var comps := CollectCompetitors(x, blocks.index[x].prev.value);
      ok, ev := Unwind(x, comps);
      blocks.activeChain.HoldsHashes(ChainAfter(s, x));
      StillOnChain(env, s, x, blocks.activeChain);
      if ok && blocks.activeChain.Contains(blocks.index, x) {
        return false, ev;
      }
    }

    /** Marks x and its descendants, then offers the valid leaves that reach the work of the tip. */
    method FailBlock(x: Hash, ghost p: seq<Hash>)
      requires Linked(blocks.index) && SkipsCorrect(blocks.index) && x in blocks.index
      requires blocks.activeChain.Holds(p) && p != [] && p[|p| - 1] in blocks.index
      modifies blocks`index, this`failed, selector`candidates
      ensures Linked(old(blocks.index)) && blocks.index == Failing(old(blocks.index), x)
      ensures failed == old(failed) + Descendants(old(blocks.index), x)
      ensures p[|p| - 1] in blocks.index
      ensures selector.candidates ==
              old(selector.candidates) - Descendants(old(blocks.index), x) + Leaves(blocks.index, blocks.index[p[|p| - 1]].work)
    {
      hide Linked, SkipsCorrect, Descendants, Leaves, StatusAfter;
      MarkFailing(x);
      var tip := blocks.activeChain.Tip();
      AddLeaves(blocks.index[tip.value].work);
    }

    /** InvalidateBlock: refused for unknown blocks and roots; it does not activate anything. */
    method InvalidateBlock(x: Hash) returns (ok: bool, ev: seq<Event>)
      requires Valid()
      modifies blocks`index, blocks.activeChain, selector`candidates, this`failed
      ensures Valid()
      ensures ok <==> Invalidatable(old(View()), x)
      ensures !ok ==> View() == old(View()) && ev == []
      ensures ok ==> InvalidatedTo(old(View()), x, View())
      ensures Replay(old(View()).chain, ev) == Some(View().chain)
      ensures NoneReady(orphans.headers, old(blocks.index)) ==> NoneReady(orphans.headers, blocks.index)
      ensures old(Crowned()) ==> Crowned()
    {
      hide Shape, Linked, SkipsCorrect, IndexInv, Path, Replay, PoolInv, Failing, Unwound, ChainAfter, Invalidated, TopsLeaves, TopsAll, NoneReady;
      ghost var s := View();
      ShapeFacts(env, s);
      ReplayNothing(s.chain);
      if x !in blocks.index {
        return false, [];
      }
      StepBack(blocks.index, x);
      if blocks.index[x].height == 0 {
        return false, [];
      }
      InvalidatedInv(env, s, x);
      var done, events := StepBackBelow(x);
      if !done {
        return false, events;
      }
      FinishInvalidation(x, s);
      FailingTops(s.index, x, selector.bestHeader);
      FailingKeys(s.index, x, orphans.headers);
      return true, events;
    }

    /** Below x the chain is cut back: fails the blocks and offers the leaves. */
    method FinishInvalidation(x: Hash, ghost s: State)
      requires Invalidatable(s, x) && CanStepBack(s, x) && SkipsCorrect(s.index)
      requires blocks.index == s.index && selector.candidates == Unwound(s, x) && failed == s.failed
      requires blocks.activeChain.Holds(ChainAfter(s, x)) && View().chain == ChainAfter(s, x)
      modifies blocks`index, this`failed, selector`candidates
      ensures View() == Invalidated(s, x) && blocks.index == Failing(s.index, x)
    {
      hide Shape, Linked, SkipsCorrect, IndexInv, Failing, Unwound, Descendants, ChainAfter, Leaves, Invalidated, StatusAfter;
      FailBlock(x, ChainAfter(s, x));
      InvalidatedParts(s, x, blocks.index, selector.candidates, failed);
    }
  }

  /** A recent tip above the root with at least the minimum chain work. */
  predicate CaughtUp(p: Params, tip: Block, now: int)
  {
    tip.height > 0 && tip.header.time >= now - 43200 && tip.work >= p.minimumChainWork
  }

  ghost predicate InvalidatedTo(s: State, x: Hash, s': State)
  {
    Invalidatable(s, x) && CanStepBack(s, x) && s' == Invalidated(s, x)
  }

  lemma InvalidatedParts(s: State, x: Hash, idx: Index, cands: set<Hash>, failed: set<Hash>)
    requires Invalidatable(s, x) && CanStepBack(s, x) && idx == Failing(s.index, x)
    requires var c := ChainAfter(s, x);
             c[|c| - 1] in idx && cands == Unwound(s, x) - Descendants(s.index, x) + Leaves(idx, idx[c[|c| - 1]].work)
    requires failed == s.failed + Descendants(s.index, x)
    ensures Invalidated(s, x) == State(idx, ChainAfter(s, x), cands, failed)
  {
    hide Linked, Failing, Unwound, Descendants, ChainAfter, Leaves, StatusAfter;
  }

  /** A header was accepted with the orphans it promotes, offered, and the best chain activated. */
  ghost predicate Processed(e: Env, s: State, added: seq<Header>, h: Hash, now: int, s': State)
  {
    && Submittable(e, s, added, h, now)
    && Ready(Submitted(e, s, added, h, now))
    && s' == Activated(e, Submitted(e, s, added, h, now))
  }

  /** p is the path to its last block. */
  ghost predicate IsPath(idx: Index, p: seq<Hash>)
    requires Linked(idx)
  {
    p != [] && p[|p| - 1] in idx && p == Path(idx, p[|p| - 1])
  }

  /** s lists p from its end down to height n. */
  ghost predicate Backwards(s: seq<Hash>, p: seq<Hash>, n: nat)
  {
    n <= |p| && |s| == |p| - n && forall i :: 0 <= i < |s| ==> s[i] == p[|p| - 1 - i]
  }

  lemma TakeLess(p: seq<Hash>, k: nat, j: nat)
    requires j <= k <= |p|
    ensures p[..k][..j] == p[..j]
  {
  }

  lemma NothingBackwards(p: seq<Hash>)
    ensures Backwards([], p, |p|)
  {
  }

  lemma BackwardsMore(s: seq<Hash>, p: seq<Hash>, k: nat)
    requires Backwards(s, p, k) && k > 0
    ensures Backwards(s + [p[k - 1]], p, k - 1)
  {
  }

  lemma BackwardsLength(s: seq<Hash>, p: seq<Hash>, n: nat)
    requires Backwards(s, p, n)
    ensures n <= |p| && |s| == |p| - n
  {
  }

  /** The branch entry due at height k is the block of q there, a child of the block below. */
  lemma NextOnBranch(idx: Index, branch: seq<Hash>, q: seq<Hash>, n: nat, k: nat)
    requires Linked(idx) && IsPath(idx, q) && Backwards(branch, q, n) && 1 <= n <= k < |q|
    ensures |q| - 1 - k < |branch| && branch[|q| - 1 - k] == q[k] && q[k] in idx
    ensures q[..k] != [] && q[..k][k - 1] in idx && q[..k] == Path(idx, q[..k][k - 1]) && idx[q[k]].prev == Some(q[..k][k - 1])
  {
    hide Linked, Path;
    PathOfPrefix(idx, q, k);
    ParentOnPath(idx, q[|q| - 1], k);
  }

  lemma PathFacts(idx: Index, p: seq<Hash>)
    requires Linked(idx) && IsPath(idx, p)
    ensures p != [] && p[|p| - 1] in idx && p == Path(idx, p[|p| - 1])
  {
    hide Path, Linked;
  }

  lemma ReplayNothing(p: seq<Hash>)
    ensures Replay(p, []) == Some(p)
  {
  }

  lemma PathOfPrefix(idx: Index, p: seq<Hash>, n: nat)
    requires Linked(idx) && IsPath(idx, p) && 1 <= n <= |p|
    ensures IsPath(idx, p[..n])
  {
    hide Linked, Path;
    PathPrefix(idx, p[|p| - 1], n - 1);
  }

  lemma SameHeight(idx: Index, p: seq<Hash>, i: nat, j: nat)
    requires Linked(idx) && IsPath(idx, p) && i < |p| && j < |p|
    ensures p[i] == p[j] <==> i == j
  {
    hide Linked, Path;
    assert idx[p[i]].height == i && idx[p[j]].height == j;
  }

  /** What disconnecting entry k - 1 of a path needs, while that is not entry n - 1. */
  lemma PathToThere(idx: Index, p: seq<Hash>, k: nat, n: nat)
    requires Linked(idx) && IsPath(idx, p) && 1 <= n <= k <= |p| && p[k - 1] != p[n - 1]
    ensures n < k && p[..k] != [] && p[k - 1] in idx && p[..k] == Path(idx, p[k - 1]) && p[..k][..k - 1] == p[..k - 1]
  {
    hide Linked, Path;
    PathOfPrefix(idx, p, k);
    PathFacts(idx, p[..k]);
  }

  lemma ShapeFacts(e: Env, s: State)
    requires Shape(e, s)
    ensures Ready(s) && IsPath(s.index, s.chain) && SkipsCorrect(s.index)
    ensures forall c :: c in s.candidates ==> Valid(s.index, c)
    ensures forall i :: 1 <= i < |s.chain| ==> e.connects(s.chain[i])
  {
    hide EntryOk, Path, Rooted, AllTree;
    InvSkips(e.oracle, e.genesis, s.index);
  }

  /** The chain and any branch share at least the root; the fork is the last block they share. */
  lemma ForkAtRoot(e: Env, s: State, m: Hash)
    requires Shape(e, s) && m in s.index
    ensures var n := CommonLength(s.chain, Path(s.index, m));
            && 1 <= n <= |s.chain| && n <= |Path(s.index, m)|
            && ForkPoint(s.index, Tip(s), m) == Some(s.chain[n - 1])
            && s.chain[n - 1] == Path(s.index, m)[n - 1] && s.index[s.chain[n - 1]].height == n - 1
  {
    hide EntryOk, Linked, AllTree, Path;
    var p, q := s.chain, Path(s.index, m);
    PathFromRoot(s.index, e.genesis, Tip(s));
    PathFromRoot(s.index, e.genesis, m);
    assert p[..1] == [e.genesis] == q[..1];
    SharedPrefix(p, q, 1);
    SameEntry(p, q, CommonLength(p, q), CommonLength(p, q) - 1);
  }

  /** Among valid candidates the front of the set is the first one, and nothing is dropped to find it. */
  lemma FoundFirst(idx: Index, before: set<Hash>, m: Option<Hash>, after: set<Hash>)
    requires Indexed(idx, before) && forall c :: c in before ==> Valid(idx, c)
    requires m.None? ==> after == {} && forall c :: c in before ==> !idx[c].status.IsValid()
    requires m.Some? ==>
               && BestValid(idx, before, m.value)
               && after == set c | c in before && (c == m.value || Better(idx, m.value, c))
    ensures after == before
    ensures m.Some? ==> m.value == First(idx, before)
  {
    if m.Some? {
      var f := First(idx, before);
    } else {
      forall c | c in before
        ensures false
      {
      }
    }
  }

  lemma SecondBelow(e: Env, added: seq<Header>)
    ensures |added| > 1 && Under(e, e.oracle.hash(added[0]), added[1..]) ==> added[1].prev == e.oracle.hash(added[0])
  {
    if |added| > 1 {
      assert added[1..][0] == added[1];
    }
  }

  lemma NonePooled(pool: Pool)
    ensures Pooled(pool, [])
  {
  }

  lemma NothingDrained(e: Env, idx: Index, pool: Pool, now: int)
    requires Linked(idx)
    ensures Drained(e, idx, pool, {}, [], now, idx, pool)
  {
    hide Linked, Check;
  }

  /** An orphan whose parent was indexed from the start leaves only when it is taken. */
  lemma WaitingStays(e: Env, idx: Index, pool: Pool, taken: set<Hash>, added: seq<Header>, now: int,
                     idx': Index, pool': Pool, h: Hash)
    requires Linked(idx) && Drained(e, idx, pool, taken, added, now, idx', pool')
    requires h in pool && h !in taken && pool[h].header.prev in idx
    ensures h in pool' && pool'[h] == pool[h]
  {
    hide Linked, Insertable, Settled;
  }

  /** The account while the orphans of an indexed parent are taken one by one. */
  ghost predicate Promoting(e: Env, parent: Hash, idx: Index, pool: Pool, taken: set<Hash>, added: seq<Header>, now: int,
                            idx': Index, pool': Pool)
  {
    && IndexInv(e, idx) && parent in idx && Drained(e, idx, pool, taken, added, now, idx', pool') && |pool'| <= |pool|
    && Under(e, parent, added) && Pooled(pool, added)
  }

  lemma PromotingStarts(e: Env, parent: Hash, idx: Index, pool: Pool, now: int)
    requires IndexInv(e, idx) && parent in idx
    ensures Promoting(e, parent, idx, pool, {}, [], now, idx, pool)
  {
    hide Drained, EntryOk, Rooted, AllTree, Closed, AcceptedPaths;
    NonePooled(pool);
    NothingDrained(e, idx, pool, now);
  }

  lemma PromotingReady(e: Env, parent: Hash, idx: Index, pool: Pool, taken: set<Hash>, added: seq<Header>, now: int,
                       idx': Index, pool': Pool, h: Hash)
    requires Promoting(e, parent, idx, pool, taken, added, now, idx', pool')
    requires h in pool && h !in taken && pool[h].header.prev == parent
    ensures h in pool' && pool'[h] == pool[h] && parent in idx' && |pool'| <= |pool|
  {
    hide Drained, EntryOk, Rooted, AllTree, Closed, AcceptedPaths, Pooled, Linked;
    WaitingStays(e, idx, pool, taken, added, now, idx', pool', h);
    SubPool(e, idx, pool, taken, added, now, idx', pool');
    DrainFacts(e, idx, added, idx', now);
  }

  lemma PromotingStep(e: Env, parent: Hash, idx: Index, pool: Pool, taken: set<Hash>, added: seq<Header>, now: int,
                      mid: Index, rest: Pool, h: Hash, more: seq<Header>, idx': Index, pool': Pool)
    requires Promoting(e, parent, idx, pool, taken, added, now, mid, rest) && IndexInv(e, mid)
    requires h in rest && h in pool && rest[h] == pool[h] && pool[h].header.prev == parent
    requires Linked(mid) && Drained(e, mid, rest, {h}, more, now, idx', pool')
    requires more != [] ==> more[0] == rest[h].header && Pooled(rest - {h}, more[1..])
    requires more != [] ==> Under(e, e.oracle.hash(more[0]), more[1..])
    ensures Promoting(e, parent, idx, pool, taken + {h}, added + more, now, idx', pool')
  {
    hide Drained, EntryOk, Rooted, AllTree, Closed, AcceptedPaths, Pooled, Linked, Under;
    SubPool(e, mid, rest, {h}, more, now, idx', pool');
    SubPool(e, idx, pool, taken, added, now, mid, rest);
    DrainMore(e, idx, pool, taken, added, mid, rest, h, more, now, idx', pool');
    PooledMore(pool, rest - {h}, h, added, more);
    UnderMore(e, parent, added, more);
  }

  lemma PromotingEnds(e: Env, parent: Hash, idx: Index, pool: Pool, taken: set<Hash>, added: seq<Header>, now: int,
                      idx': Index, pool': Pool)
    requires Promoting(e, parent, idx, pool, taken, added, now, idx', pool') && Linked(idx)
    ensures Drained(e, idx, pool, taken, added, now, idx', pool')
    ensures Under(e, parent, added) && Pooled(pool, added)
  {
    hide Drained, IndexInv, Pooled, Linked, Under;
  }

  // ---- The best header ----

  /** The blocks that the best header tops. */
  ghost function Below(idx: Index, best: Option<Hash>): (seen: set<Hash>)
  {
    set h | h in idx && best.Some? && best.value in idx && idx[h].work <= idx[best.value].work
  }

  /** The valid leaves of an index with one more block are that block and old ones. */
  lemma NewLeaves(idx: Index, idx': Index, x: Hash)
    requires idx'.Keys == idx.Keys + {x} && Extends(idx, idx')
    ensures Leaves(idx', 0) <= Leaves(idx, 0) + {x}
  {
  }

  /** The best header is indexed and has at least the work of every valid leaf. */
  ghost predicate TopsLeaves(idx: Index, best: Option<Hash>)
  {
    && (best.Some? ==> best.value in idx)
    && forall h :: h in Leaves(idx, 0) ==> best.Some? && idx[h].work <= idx[best.value].work
  }

  ghost predicate TopsAll(idx: Index, best: Option<Hash>)
  {
    best.Some? && best.value in idx && forall h :: h in idx ==> idx[h].work <= idx[best.value].work
  }

  lemma BelowTops(idx: Index, idx': Index, x: Hash, best: Option<Hash>)
    requires idx'.Keys == idx.Keys + {x} && Extends(idx, idx') && TopsLeaves(idx, best)
    ensures Indexed(idx', Below(idx, best)) && Tops(idx', Below(idx, best), best)
  {
    hide Leaves;
  }

  lemma StillTops(idx: Index, idx': Index, x: Hash, best: Option<Hash>, best': Option<Hash>)
    requires idx'.Keys == idx.Keys + {x} && Extends(idx, idx') && TopsLeaves(idx, best)
    requires Indexed(idx', Below(idx, best) + {x}) && Tops(idx', Below(idx, best) + {x}, best')
    ensures TopsLeaves(idx', best') && (TopsAll(idx, best) ==> TopsAll(idx', best'))
  {
    hide Leaves;
    NewLeaves(idx, idx', x);
    forall h | h in Leaves(idx', 0)
      ensures h in idx' && best'.Some? && idx'[h].work <= idx'[best'.value].work
    {
      LeavesIndexed(idx', h);
      if h != x {
        assert h in Leaves(idx, 0);
        LeavesIndexed(idx, h);
        assert h in Below(idx, best);
      }
    }
  }

  lemma LeavesIndexed(idx: Index, h: Hash)
    requires h in Leaves(idx, 0)
    ensures h in idx
  {
    hide HasChild;
  }

  /** Failing blocks removes valid leaves and changes no work. */
  lemma FailingTops(idx: Index, x: Hash, best: Option<Hash>)
    requires Linked(idx)
    ensures TopsLeaves(idx, best) ==> TopsLeaves(Failing(idx, x), best)
    ensures TopsAll(idx, best) ==> TopsAll(Failing(idx, x), best)
  {
    hide Linked, HasChild;
    forall h
      ensures HasChild(Failing(idx, x), h) <==> HasChild(idx, h)
    {
      SameChildren(idx, Failing(idx, x), h);
    }
  }

  lemma SameButStatusTops(idx: Index, idx': Index, best: Option<Hash>)
    requires SameButStatus(idx, idx')
    ensures TopsAll(idx, best) ==> TopsAll(idx', best)
  {
  }

  /** What TryAddOrphanHeader leaves in the pool. */
  ghost predicate AddedTo(e: Env, pool: Pool, header: Header, peer: int, now: int, ok: bool, pool': Pool)
  {
    if !ok || e.oracle.hash(header) in pool then pool' == pool
    else
      exists rest: Pool ::
        RoomyTo(pool, now, e.params.orphanExpireTime, rest) && pool' == rest[e.oracle.hash(header) := Orphan(header, now, peer)]
  }

  lemma AddingLeavesNoneReady(e: Env, pool: Pool, header: Header, peer: int, now: int, ok: bool, pool': Pool, idx: Index)
    requires AddedTo(e, pool, header, peer, now, ok, pool')
    ensures header.prev !in idx && NoneReady(pool, idx) ==> NoneReady(pool', idx)
  {
  }

  /** A loaded index with a heaviest sound block as tip is a well-shaped state. */
  lemma LoadedShape(e: Env, idx: Index, t: Hash, failed: set<Hash>)
    requires Linked(idx) && Heaviest(idx, t)
    ensures IndexInv(e, idx) && AlwaysConnects(e) ==> Shape(e, State(idx, Path(idx, t), Leaves(idx, 0), failed))
  {
    hide EntryOk, Rooted, Closed, AcceptedPaths, HasChild, Linked, Path, ValidBits;
  }

  lemma FreshAnyway(e: Env, idx: Index, header: Header, now: int, minPowChecked: bool)
    requires Linked(idx) && Check(e, idx, header, now, minPowChecked) == Fresh
    ensures Check(e, idx, header, now, true) == Fresh
  {
    hide Linked, ContextualCheck, Headers;
  }

  /** A grown index leaves the active chain and the candidates as they were. */
  lemma GrownShape(e: Env, s: State, idx': Index)
    requires Shape(e, s) && IndexInv(e, idx') && Extends(s.index, idx')
    ensures Shape(e, s.(index := idx'))
  {
    hide EntryOk, Rooted, AllTree, Closed, AcceptedPaths, Linked, Path;
    ExtendsPath(s.index, idx', Tip(s));
  }

  lemma FreshEffect(e: Env, s: State, header: Header, now: int)
    requires Shape(e, s) && IndexInv(e, s.index) && Check(e, s.index, header, now, true) == Fresh
    ensures header.prev in s.index && e.oracle.hash(header) !in s.index
    ensures var idx' := Inserted(e.oracle, s.index, header);
            && IndexInv(e, idx') && Shape(e, s.(index := idx')) && idx'.Keys == s.index.Keys + {e.oracle.hash(header)}
            && Extends(s.index, idx')
  {
    hide Shape, EntryOk, Rooted, Linked, Check, Inserted, AllTree, Closed, AcceptedPaths;
    FreshFacts(e, s.index, header, now);
    FreshInserts(e, s.index, header, now);
    FreshStatus(e.oracle, s.index, header);
    OneNew(e.oracle, s.index, header);
    GrownShape(e, s, Inserted(e.oracle, s.index, header));
  }

  lemma SubPool(e: Env, idx: Index, pool: Pool, taken: set<Hash>, added: seq<Header>, now: int, idx': Index, pool': Pool)
    requires Linked(idx) && Drained(e, idx, pool, taken, added, now, idx', pool')
    ensures |pool'| <= |pool| && forall h :: h in pool' ==> h in pool && pool'[h] == pool[h]
    ensures Insertable(e, idx, added, now) && idx' == InsertAll(e, idx, added, now)
  {
    hide Linked, Insertable, Settled;
    assert pool'.Keys <= pool.Keys;
    SubsetSize(pool'.Keys, pool.Keys);
  }

  lemma DrainKeepsNoneReady(e: Env, idx: Index, pool: Pool, added: seq<Header>, now: int, idx': Index, pool': Pool)
    requires Linked(idx) && Drained(e, idx, pool, {}, added, now, idx', pool')
    ensures NoneReady(pool, idx) ==> NoneReady(pool', idx')
  {
    hide Linked, Drained, NoneReady;
    if NoneReady(pool, idx) {
      DrainedLeavesNoneReady(e, idx, pool, added, now, idx', pool');
    }
  }

  lemma FailingKeys(idx: Index, x: Hash, pool: Pool)
    requires Linked(idx)
    ensures NoneReady(pool, idx) ==> NoneReady(pool, Failing(idx, x))
  {
    hide Linked, StatusAfter, NoneReady;
    SameKeysNoneReady(idx, Failing(idx, x), pool);
  }

  lemma SameKeysNoneReady(idx: Index, idx': Index, pool: Pool)
    requires SameButStatus(idx, idx')
    ensures NoneReady(pool, idx) ==> NoneReady(pool, idx')
  {
  }

  lemma KnownIsSound(e: Env, idx: Index, header: Header, now: int)
    requires Linked(idx)
    ensures Check(e, idx, header, now, true) == Known ==>
              e.oracle.hash(header) in idx && !idx[e.oracle.hash(header)].status.Failed()
  {
    hide Linked, ContextualCheck, Headers;
  }

  // ---- The candidates while blocks are disconnected ----

  /** The candidates once the chain was cut back to height k, before any fork joined. */
  ghost function TailOff(s: State, k: nat): (r: set<Hash>)
    requires 1 <= k <= |s.chain|
  {
    if k == |s.chain| then s.candidates
    else s.candidates - Elements(s.chain[k..]) + {s.chain[k - 1]}
  }

  ghost function Lighter(s: State, comps: set<Hash>, p: Hash): (r: set<Hash>)
    requires Indexed(s.index, comps) && p in s.index
  {
    set b | b in comps && s.index[b].work < s.index[p].work
  }

  /** If x is on the chain it sits at its height, right above its parent. */
  ghost predicate ParentSits(s: State, x: Hash)
    requires x in s.index && s.index[x].prev.Some?
  {
    x in s.chain ==>
      && 0 < s.index[x].height < |s.chain| && s.chain[s.index[x].height] == x
      && s.chain[s.index[x].height - 1] == s.index[x].prev.value && s.index[x].prev.value in s.index
  }

  /** The candidates after the chain was cut back to height k with the forks in `left` still waiting. */
  ghost predicate Unwinding(s: State, x: Hash, comps: set<Hash>, left: set<Hash>, k: nat, cands: set<Hash>)
    requires x in s.index
  {
    && 1 <= k <= |s.chain| && Indexed(s.index, comps)
    && (x in s.chain ==> s.index[x].height <= k) && (x !in s.chain ==> k == |s.chain|)
    && cands == TailOff(s, k) + (comps - left) && left <= comps
    && if k == |s.chain| then left == comps
       else s.chain[k - 1] in s.index && left <= Lighter(s, comps, s.chain[k - 1])
  }

  lemma UnwindStarts(s: State, x: Hash, comps: set<Hash>)
    requires Invalidatable(s, x) && comps == Competitors(s, x) && s.chain != [] && ParentSits(s, x)
    ensures Unwinding(s, x, comps, comps, |s.chain|, s.candidates)
  {
    hide Linked;
  }

  lemma UnwindGoesOn(s: State, x: Hash, comps: set<Hash>, left: set<Hash>, k: nat, cands: set<Hash>)
    requires Invalidatable(s, x) && ParentSits(s, x) && Unwinding(s, x, comps, left, k, cands)
    requires x in s.chain && s.index[x].height < k
    ensures k >= 2 && Indexed(s.index, left)
  {
    hide Linked;
  }

  lemma UnwindNext(s: State, x: Hash, comps: set<Hash>, before: set<Hash>, left: set<Hash>, k: nat,
                   cands: set<Hash>, cands': set<Hash>)
    requires Invalidatable(s, x) && comps == Competitors(s, x) && Unwinding(s, x, comps, before, k, cands)
    requires x in s.chain && s.index[x].height < k && 2 <= k && s.chain[k - 2] in s.index && Indexed(s.index, before)
    requires left == set b | b in before && s.index[b].work < s.index[s.chain[k - 2]].work
    requires cands' == cands - {s.chain[k - 1]} + {s.chain[k - 2]} + (before - left)
    ensures Unwinding(s, x, comps, left, k - 1, cands')
  {
    hide Linked;
    TailStep(s, comps, before, left, k - 1);
  }

  lemma UnwindEnds(s: State, x: Hash, comps: set<Hash>, left: set<Hash>, k: nat, cands: set<Hash>)
    requires Invalidatable(s, x) && comps == Competitors(s, x) && Unwinding(s, x, comps, left, k, cands)
    requires ParentSits(s, x) && !(x in s.chain && s.index[x].height < k)
    ensures cands == Unwound(s, x) && s.chain[..k] == ChainAfter(s, x)
  {
    hide Linked;
    if x in s.chain {
      assert left == {};
    }
  }

  lemma ChainTail(p: seq<Hash>, k: nat)
    requires k < |p|
    ensures Elements(p[k..]) == Elements(p[k + 1..]) + {p[k]}
  {
    assert p[k..] == [p[k]] + p[k + 1..];
  }

  /** One more block disconnected: the forks that now compete join. */
  lemma TailStep(s: State, comps: set<Hash>, before: set<Hash>, left: set<Hash>, k: nat)
    requires 1 <= k < |s.chain| && s.chain[k - 1] in s.index && Indexed(s.index, comps)
    requires forall b :: b in comps ==> b !in s.chain
    requires left <= before <= comps
    ensures TailOff(s, k + 1) + (comps - before) - {s.chain[k]} + {s.chain[k - 1]} + (before - left)
            == TailOff(s, k) + (comps - left)
  {
    ChainTail(s.chain, k);
    assert s.chain[k] in s.chain && s.chain[k] !in comps;
    assert s.chain[|s.chain|..] == [];
    TailCut(s, k);
  }

  lemma TailCut(s: State, k: nat)
    requires 1 <= k < |s.chain|
    ensures TailOff(s, k + 1) - {s.chain[k]} + {s.chain[k - 1]} == TailOff(s, k)
  {
    ChainTail(s.chain, k);
    if k + 1 == |s.chain| {
      assert s.chain[k + 1..] == [];
    }
  }

  lemma PrefixHas(idx: Index, p: seq<Hash>, k: nat, x: Hash)
    requires Linked(idx) && IsPath(idx, p) && k <= |p| && x in idx
    ensures x in p[..k] <==> x in p && idx[x].height < k
  {
    hide Linked, Path;
    if x in p && idx[x].height < k {
      AncestorAtHeight(idx, x, p[|p| - 1]);
      assert p[..k][idx[x].height] == x;
    }
  }

  // ---- Marking descendants ----

  /** Every entry has its final status except those in rest, which have their old one. */
  ghost predicate Marking(idx: Index, x: Hash, rest: set<Hash>, idx': Index)
    requires Linked(idx)
  {
    && x in idx && x !in rest && SameButStatus(idx, idx')
    && forall h {:trigger idx'[h].status} :: h in idx ==> idx'[h].status == if h in rest then idx[h].status else StatusAfter(idx, x, h)
  }

  /** The descendants outside rest were added to the failed blocks and dropped from the candidates. */
  ghost predicate Accounted(desc: set<Hash>, rest: set<Hash>, failed0: set<Hash>, failed: set<Hash>, cands0: set<Hash>, cands: set<Hash>)
  {
    failed == failed0 + (desc - rest) && cands == cands0 - (desc - rest)
  }

  lemma AccountStarts(desc: set<Hash>, rest: set<Hash>, x: Hash, failed0: set<Hash>, cands0: set<Hash>)
    requires desc - rest == {x}
    ensures Accounted(desc, rest, failed0, failed0 + {x}, cands0, cands0 - {x})
  {
  }

  lemma AccountMore(desc: set<Hash>, rest: set<Hash>, h: Hash, failed0: set<Hash>, failed: set<Hash>, cands0: set<Hash>, cands: set<Hash>)
    requires Accounted(desc, rest, failed0, failed, cands0, cands) && h in rest
    ensures var one := if h in desc then {h} else {};
            Accounted(desc, rest - {h}, failed0, failed + one, cands0, cands - one)
  {
    assert desc - (rest - {h}) == (desc - rest) + (if h in desc then {h} else {});
  }

  lemma AccountEnds(desc: set<Hash>, failed0: set<Hash>, failed: set<Hash>, cands0: set<Hash>, cands: set<Hash>)
    requires Accounted(desc, {}, failed0, failed, cands0, cands)
    ensures failed == failed0 + desc && cands == cands0 - desc
  {
    assert desc - {} == desc;
  }

  lemma MarkingStarts(idx: Index, x: Hash)
    requires Linked(idx) && x in idx
    ensures Marking(idx, x, idx.Keys - {x}, idx[x := idx[x].(status := idx[x].status.(failedValid := true))])
    ensures Descendants(idx, x) - (idx.Keys - {x}) == {x}
  {
    hide Path, Linked;
    SelfAncestor(idx, x);
  }

  lemma MarkingFacts(idx: Index, x: Hash, rest: set<Hash>, idx': Index, h: Hash)
    requires Linked(idx) && SkipsCorrect(idx) && Marking(idx, x, rest, idx') && h in rest && h in idx
    ensures Linked(idx') && SkipsCorrect(idx') && h in idx' && x in idx' && idx'[x].height == idx[x].height
    ensures AncestorAt(idx', h, idx[x].height) == Some(x) <==> h in Descendants(idx, x)
    ensures h !in Descendants(idx, x) ==> Marking(idx, x, rest - {h}, idx')
    ensures h in Descendants(idx, x) ==>
              Marking(idx, x, rest - {h}, idx'[h := idx'[h].(status := idx'[h].status.(failedValid := false, failedChild := true))])
  {
    hide Path, Linked, SkipsCorrect, Marking;
    MarkingLooks(idx, x, rest, idx', h);
    if h in Descendants(idx, x) {
      MarkingSets(idx, x, rest, idx', h);
    } else {
      MarkingSkips(idx, x, rest, idx', h);
    }
  }

  lemma MarkingLooks(idx: Index, x: Hash, rest: set<Hash>, idx': Index, h: Hash)
    requires Linked(idx) && SkipsCorrect(idx) && Marking(idx, x, rest, idx') && h in idx
    ensures Linked(idx') && SkipsCorrect(idx') && h in idx' && x in idx' && idx'[x].height == idx[x].height
    ensures AncestorAt(idx', h, idx[x].height) == Some(x) <==> h in Descendants(idx, x)
  {
    hide Path, Linked, SkipsCorrect, StatusAfter;
    RestatusSkips(idx, idx');
    RestatusLinks(idx, idx');
    AncestorAtHeight(idx, x, h);
  }

  lemma MarkingSkips(idx: Index, x: Hash, rest: set<Hash>, idx': Index, h: Hash)
    requires Linked(idx) && Marking(idx, x, rest, idx') && h in rest && h in idx && h !in Descendants(idx, x)
    ensures Marking(idx, x, rest - {h}, idx')
  {
    hide Path, Linked, SameButStatus;
  }

  lemma MarkingSets(idx: Index, x: Hash, rest: set<Hash>, idx': Index, h: Hash)
    requires Linked(idx) && Marking(idx, x, rest, idx') && h in rest && h in idx && h in Descendants(idx, x)
    ensures h in idx'
    ensures Marking(idx, x, rest - {h}, idx'[h := idx'[h].(status := idx'[h].status.(failedValid := false, failedChild := true))])
  {
    hide Path, Linked;
    var st := idx'[h].status.(failedValid := false, failedChild := true);
    assert st == StatusAfter(idx, x, h);
    var r := idx'[h := idx'[h].(status := st)];
    forall g | g in idx
      ensures r[g] == idx[g].(status := r[g].status)
      ensures r[g].status == if g in rest - {h} then idx[g].status else StatusAfter(idx, x, g)
    {
      assert idx'[g] == idx[g].(status := idx'[g].status);
    }
  }

  lemma RestatusSkips(idx: Index, idx': Index)
    requires Linked(idx) && SkipsCorrect(idx) && SameButStatus(idx, idx')
    ensures Linked(idx') && SkipsCorrect(idx')
  {
    hide Path, Linked, GetSkipHeight;
    RestatusLinks(idx, idx');
  }

  lemma MarkingEnds(idx: Index, x: Hash, idx': Index)
    requires Linked(idx) && Marking(idx, x, {}, idx')
    ensures idx' == Failing(idx, x)
  {
    hide Path, Linked, StatusAfter;
    var f := Failing(idx, x);
    forall h | h in idx
      ensures idx'[h] == f[h]
    {
      assert idx'[h].status == StatusAfter(idx, x, h);
    }
  }

  lemma ParentSitsThere(e: Env, s: State, x: Hash)
    requires Inv(e, s) && Invalidatable(s, x)
    ensures ParentSits(s, x)
  {
    hide EntryOk, Rooted, Closed, AcceptedPaths, AllTree, Path;
    if x in s.chain {
      AncestorAtHeight(s.index, x, Tip(s));
      ParentOnPath(s.index, Tip(s), s.index[x].height);
      LinkedAt(s.index, x);
    }
  }

  lemma StillOnChain(e: Env, s: State, x: Hash, chain: CChain)
    requires Inv(e, s) && Invalidatable(s, x) && chain.Holds(ChainAfter(s, x))
    ensures !chain.Contains(s.index, x)
  {
    hide Shape, IndexInv, Path, Linked;
    ChainSteps(e, s, x);
    var c := ChainAfter(s, x);
    OnChain(s.index, chain, c, x);
  }
}
