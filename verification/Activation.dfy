/** ActivateBestChain: switching the active chain to the first candidate that may be switched to. */
module Activation {
  import opened Work
  import opened Primitives
  import opened BlockTree
  import opened TreeGrowth
  import opened ActiveChain
  import opened Selector
  import opened Chainstate

  // ---- The first candidate ----

  ghost predicate IsFirst(idx: Index, s: set<Hash>, m: Hash)
    requires Indexed(idx, s)
  {
    m in s && forall c :: c in s && c != m ==> Better(idx, m, c)
  }

  lemma {:induction false} FirstExists(idx: Index, s: set<Hash>)
    requires Indexed(idx, s) && s != {}
    ensures exists m :: IsFirst(idx, s, m)
    decreases |s|
  {
    var x :| x in s;
    if s == {x} {
      assert IsFirst(idx, s, x);
    } else {
      FirstExists(idx, s - {x});
      var m :| IsFirst(idx, s - {x}, m);
      var f := if Better(idx, x, m) then x else m;
      forall c | c in s && c != f
        ensures Better(idx, f, c)
      {
        assert c != x ==> c in s - {x};
      }
      assert IsFirst(idx, s, f);
    }
  }

  ghost function First(idx: Index, s: set<Hash>): (m: Hash)
    requires Indexed(idx, s) && s != {}
    ensures IsFirst(idx, s, m)
  {
    FirstExists(idx, s);
    var m :| IsFirst(idx, s, m);
    m
  }

  // ---- One activation ----

  /** How many blocks a switch to m disconnects. */
  ghost function ReorgDepth(s: State, m: Hash): (d: nat)
    requires Linked(s.index) && m in s.index
  {
    |s.chain| - CommonLength(s.chain, Path(s.index, m))
  }

  /** The suspicious-reorg guard refuses m. */
  ghost predicate Guarded(e: Env, s: State, m: Hash)
    requires Linked(s.index) && m in s.index
  {
    0 < e.params.suspiciousReorgDepth <= ReorgDepth(s, m)
  }

  /** It refuses m exactly if the block the limit less one below the tip is not an ancestor of m. */
  lemma GuardedExactly(e: Env, s: State, m: Hash)
    requires Linked(s.index) && m in s.index && s.chain != [] && Tip(s) in s.index && s.chain == Path(s.index, Tip(s))
    ensures var d := e.params.suspiciousReorgDepth;
            Guarded(e, s, m) <==> 0 < d <= |s.chain| && !IsAncestor(s.index, s.chain[|s.chain| - d], m)
  {
    hide Path, Linked, CommonLength;
    var d, q := e.params.suspiciousReorgDepth, Path(s.index, m);
    var n := CommonLength(s.chain, q);
    if 0 < d <= |s.chain| {
      var k := |s.chain| - d;
      PathPrefix(s.index, Tip(s), k);
      AncestorAtHeight(s.index, s.chain[k], m);
      TipHeight(s.index, s.chain[k], k, s.chain);
      if n <= k && IsAncestor(s.index, s.chain[k], m) {
        PathsMeet(s.index, Tip(s), m, k);
        SharedPrefix(s.chain, q, k + 1);
      } else if k < n {
        SameEntry(s.chain, q, n, k);
      }
    }
  }

  lemma TipHeight(idx: Index, h: Hash, k: nat, p: seq<Hash>)
    requires Linked(idx) && h in idx && k < |p| && Path(idx, h) == p[..k + 1]
    ensures idx[h].height == k
  {
    hide Linked;
  }

  /** Every block that a switch to m connects does connect. */
  ghost predicate BranchConnects(e: Env, s: State, m: Hash)
    requires Linked(s.index) && m in s.index
  {
    var p := Path(s.index, m);
    forall i :: CommonLength(s.chain, p) <= i < |p| ==> e.connects(p[i])
  }

  /** The candidate failed to connect. */
  ghost function Marked(s: State, m: Hash): (r: State)
    requires m in s.index
  {
    State(s.index[m := s.index[m].(status := s.index[m].status.(failedValid := true))], s.chain,
          s.candidates - {m}, s.failed + {m})
  }

  ghost function Switched(s: State, m: Hash): (r: State)
    requires Linked(s.index) && m in s.index && Indexed(s.index, s.candidates)
  {
    var p := Path(s.index, m);
    s.(chain := p, candidates := Pruned(s.index, p, s.candidates))
  }

  ghost function Dropped(s: State, m: Hash): (r: State)
  {
    s.(candidates := s.candidates - {m})
  }

  ghost predicate Ready(s: State)
  {
    && Linked(s.index) && s.chain != [] && Tip(s) in s.index
    && Indexed(s.index, s.candidates)
  }

  lemma ReadyFacts(s: State)
    requires Ready(s)
    ensures Linked(s.index) && s.chain != [] && Tip(s) in s.index && Indexed(s.index, s.candidates)
  {
  }

  lemma RefusedReady(s: State, m: Hash)
    requires Ready(s) && m in s.candidates && m in s.index
    ensures Ready(Dropped(s, m)) && Ready(Marked(s, m)) && SameButStatus(s.index, Marked(s, m).index)
    ensures |Dropped(s, m).candidates| < |s.candidates| && |Marked(s, m).candidates| < |s.candidates|
  {
    hide Linked, SameButStatus, Ready;
    MarkedReady(s, m);
    DroppedReady(s, m);
    OneLess(s.candidates, m);
  }

  lemma DroppedReady(s: State, m: Hash)
    requires Ready(s)
    ensures Ready(Dropped(s, m))
  {
    hide Linked;
  }

  lemma MarkedReady(s: State, m: Hash)
    requires Ready(s) && m in s.index
    ensures Ready(Marked(s, m)) && SameButStatus(s.index, Marked(s, m).index)
  {
    hide Linked, SameButStatus;
    SetStatus(s.index, m, s.index[m].status.(failedValid := true));
    RestatusLinked(s.index, Marked(s, m).index);
  }

  lemma OneLess(s: set<Hash>, m: Hash)
    requires m in s
    ensures |s - {m}| < |s|
  {
  }

  /** ActivateBestChain(nullptr): tries candidates in order until one is activated or none has more work. */
  ghost function Activated(e: Env, s: State): (r: State)
    requires Ready(s)
    decreases |s.candidates|
  {
    hide Ready, Guarded, BranchConnects, Better, Path, Marked, Dropped;
    if s.candidates == {} then s
    else
      ReadyFacts(s);
      var m := First(s.index, s.candidates);
      RefusedReady(s, m);
      if s.index[m].work <= s.index[Tip(s)].work then s
      else if Guarded(e, s, m) then Activated(e, Dropped(s, m))
      else if BranchConnects(e, s, m) then Switched(s, m)
      else Activated(e, Marked(s, m))
  }

  /** The four ways one attempt can go. */
  lemma Attempt(e: Env, s: State, m: Hash)
    requires Ready(s) && s.candidates != {} && m == First(s.index, s.candidates)
    ensures Ready(Dropped(s, m)) && Ready(Marked(s, m)) && SameButStatus(s.index, Marked(s, m).index)
    ensures Activated(e, s) ==
            if s.index[m].work <= s.index[Tip(s)].work then s
            else if Guarded(e, s, m) then Activated(e, Dropped(s, m))
            else if BranchConnects(e, s, m) then Switched(s, m)
            else Activated(e, Marked(s, m))
  {
    hide Path, Guarded, BranchConnects, Better, Linked, Marked, Dropped, Switched, SameButStatus;
    RefusedReady(s, m);
  }

  lemma NoAttempt(e: Env, s: State)
    requires Ready(s) && s.candidates == {}
    ensures Activated(e, s) == s
  {
    hide Ready, Guarded, BranchConnects;
  }

  // ---- What it keeps ----

  lemma ShapeReady(e: Env, s: State)
    requires Shape(e, s)
    ensures Ready(s) && forall c :: c in s.candidates ==> Valid(s.index, c)
  {
    hide EntryOk, Path;
  }

  lemma SwitchedShape(e: Env, s: State, m: Hash)
    requires Shape(e, s) && m in s.candidates && BranchConnects(e, s, m)
    ensures Shape(e, Switched(s, m)) && Tip(Switched(s, m)) == m
  {
    hide EntryOk, Rooted, Linked, AllTree, CommonLength, HasChild;
    var p := Path(s.index, m);
    var n := CommonLength(s.chain, p);
    forall i | 1 <= i < |p|
      ensures e.connects(p[i])
    {
      if i < n {
        SameEntry(s.chain, p, n, i);
      }
    }
  }

  lemma DroppedShape(e: Env, s: State, m: Hash)
    requires Shape(e, s)
    ensures Shape(e, Dropped(s, m))
  {
    hide TreeInv, AllTree, Path;
  }

  lemma MarkedShape(e: Env, s: State, m: Hash)
    requires Shape(e, s) && m in s.candidates && m != Tip(s)
    ensures Shape(e, Marked(s, m))
  {
    hide EntryOk, Rooted, Linked, Path, Headers, AllTree, SameButStatus;
    SetStatus(s.index, m, s.index[m].status.(failedValid := true));
    RestatusInv(e.oracle, e.genesis, s.index, Marked(s, m).index);
    MarkedTree(s, m);
  }

  lemma MarkedTree(s: State, m: Hash)
    requires AllTree(s.index) && m in s.index
    ensures AllTree(Marked(s, m).index)
    ensures forall h :: h in s.index && h != m ==> h in Marked(s, m).index && Marked(s, m).index[h] == s.index[h]
  {
    hide ValidBits;
  }

  /** Activation leaves a well-shaped state and touches nothing of the index but status flags. */
  lemma {:induction false} ActivatedShape(e: Env, s: State)
    requires Shape(e, s)
    ensures Ready(s) && Shape(e, Activated(e, s)) && SameButStatus(s.index, Activated(e, s).index)
    decreases |s.candidates|
  {
    hide Shape, Activated, Better, Guarded, BranchConnects;
    ShapeReady(e, s);
    if s.candidates == {} {
      NoAttempt(e, s);
    } else {
      var m := First(s.index, s.candidates);
      Attempt(e, s, m);
      if s.index[m].work > s.index[Tip(s)].work {
        if Guarded(e, s, m) {
          DroppedShape(e, s, m);
          ActivatedShape(e, Dropped(s, m));
        } else if BranchConnects(e, s, m) {
          SwitchedShape(e, s, m);
        } else {
          MarkedShape(e, s, m);
          ActivatedShape(e, Marked(s, m));
        }
      }
    }
  }

  lemma ShapeAfter(e: Env, s: State)
    requires Shape(e, s)
    ensures Ready(s) && Ready(Activated(e, s))
  {
    hide Shape, Activated, Ready;
    ActivatedShape(e, s);
    ShapeReady(e, s);
    ShapeReady(e, Activated(e, s));
  }

  /** Whatever was refused on the way, the tip ends with at least the work of every remaining candidate. */
  lemma {:induction false} ActivatedBeatsCandidates(e: Env, s: State)
    requires Shape(e, s)
    ensures Ready(s) && Ready(Activated(e, s))
    ensures var r := Activated(e, s);
            forall c :: c in r.candidates ==> r.index[c].work <= r.index[Tip(r)].work
    decreases |s.candidates|
  {
    hide Shape, Activated, Guarded, BranchConnects, Path, Survives, Linked, SameButStatus;
    ShapeAfter(e, s);
    if s.candidates == {} {
      NoAttempt(e, s);
    } else {
      var m := First(s.index, s.candidates);
      Attempt(e, s, m);
      if s.index[m].work > s.index[Tip(s)].work {
        if Guarded(e, s, m) {
          DroppedShape(e, s, m);
          ActivatedBeatsCandidates(e, Dropped(s, m));
        } else if !BranchConnects(e, s, m) {
          MarkedShape(e, s, m);
          ActivatedBeatsCandidates(e, Marked(s, m));
        }
      }
    }
  }

  /** The tip changes only to strictly more work, and never by disconnecting as many blocks as the limit. */
  lemma {:induction false} ActivatedMoves(e: Env, s: State)
    requires Shape(e, s)
    ensures Ready(s) && Ready(Activated(e, s))
    ensures var r := Activated(e, s);
            && (r.chain == s.chain || r.index[Tip(r)].work > s.index[Tip(s)].work)
            && (e.params.suspiciousReorgDepth > 0 ==>
                  |s.chain| - CommonLength(s.chain, r.chain) < e.params.suspiciousReorgDepth)
    decreases |s.candidates|
  {
    hide Shape, Activated, BranchConnects, Path, CommonLength, Pruned, Linked, Better, SameButStatus;
    ShapeAfter(e, s);
    SharedPrefix(s.chain, s.chain, |s.chain|);
    if s.candidates == {} {
      NoAttempt(e, s);
    } else {
      var m := First(s.index, s.candidates);
      Attempt(e, s, m);
      if s.index[m].work > s.index[Tip(s)].work {
        if Guarded(e, s, m) {
          DroppedShape(e, s, m);
          ActivatedMoves(e, Dropped(s, m));
        } else if !BranchConnects(e, s, m) {
          MarkedShape(e, s, m);
          ActivatedMoves(e, Marked(s, m));
        }
      }
    }
  }

  // ---- The shipped node, where every connect succeeds ----

  ghost predicate AlwaysConnects(e: Env)
  {
    forall h :: e.connects(h)
  }

  /** Activation then only moves the chain and drops candidates. */
  lemma {:induction false} ActivatedKeeps(e: Env, s: State)
    requires Shape(e, s) && AlwaysConnects(e)
    ensures Ready(s)
    ensures Activated(e, s).index == s.index && Activated(e, s).failed == s.failed
    ensures Activated(e, s).candidates <= s.candidates
    decreases |s.candidates|
  {
    hide Shape, Activated, Guarded, Path, CommonLength, Survives, Better;
    ShapeReady(e, s);
    if s.candidates == {} {
      NoAttempt(e, s);
    } else {
      var m := First(s.index, s.candidates);
      Attempt(e, s, m);
      if s.index[m].work > s.index[Tip(s)].work && Guarded(e, s, m) {
        DroppedShape(e, s, m);
        ActivatedKeeps(e, Dropped(s, m));
      }
    }
  }

  lemma ActivatedInv(e: Env, s: State)
    requires Inv(e, s) && AlwaysConnects(e)
    ensures Ready(s) && Inv(e, Activated(e, s))
  {
    hide Shape, Activated, IndexInv;
    ActivatedKeeps(e, s);
    ActivatedShape(e, s);
  }

  // ---- Maximal work ----

  /** The tip has at least as much work as every valid block of the whole index. */
  ghost predicate TipIsBest(s: State)
    requires s.chain != [] && Tip(s) in s.index
  {
    forall b :: Valid(s.index, b) ==> s.index[b].work <= s.index[Tip(s)].work
  }

  /** Every valid block with more work than the tip is matched by a candidate of at least that work. */
  ghost predicate Covered(s: State)
    requires s.chain != [] && Tip(s) in s.index && Indexed(s.index, s.candidates)
  {
    forall b :: Valid(s.index, b) && s.index[b].work > s.index[Tip(s)].work ==>
                  exists c :: c in s.candidates && s.index[c].work >= s.index[b].work
  }

  /** Every valid block with more work than the tip is itself a candidate. */
  ghost predicate Listed(s: State)
    requires s.chain != [] && Tip(s) in s.index
  {
    forall b :: Valid(s.index, b) && s.index[b].work > s.index[Tip(s)].work ==> b in s.candidates
  }

  lemma ListedIsCovered(s: State)
    requires Ready(s) && Listed(s)
    ensures Covered(s)
  {
  }

  // ---- Which candidate is taken ----

  /** The candidates with more work than the tip that the guard lets pass. */
  ghost function Open(e: Env, s: State): (r: set<Hash>)
    requires Ready(s)
  {
    set c | c in s.candidates && s.index[c].work > s.index[Tip(s)].work && !Guarded(e, s, c)
  }

  lemma OpenIndexed(e: Env, s: State)
    requires Ready(s)
    ensures Indexed(s.index, Open(e, s))
  {
    hide Linked, Guarded;
  }

  /** Two sets with the same members have the same first one. */
  lemma FirstIs(idx: Index, s: set<Hash>, m: Hash)
    requires Indexed(idx, s) && IsFirst(idx, s, m)
    ensures s != {} && First(idx, s) == m
  {
    var f := First(idx, s);
  }

  /** A guarded first candidate is dropped, which leaves the open ones as they were. */
  lemma DroppedOpen(e: Env, s: State, m: Hash)
    requires Ready(s) && Ready(Dropped(s, m)) && m in s.candidates && Guarded(e, s, m)
    ensures Open(e, Dropped(s, m)) == Open(e, s)
  {
    hide Linked, Path, CommonLength;
  }

  /** The first candidate has the most work; if it has no more than the tip then no candidate is open. */
  lemma NoneOpen(e: Env, s: State)
    requires Ready(s)
    requires s.candidates == {} || s.index[First(s.index, s.candidates)].work <= s.index[Tip(s)].work
    ensures Open(e, s) == {}
  {
    hide Linked, Guarded;
  }

  lemma FirstOpen(e: Env, s: State)
    requires Ready(s) && s.candidates != {}
    requires var m := First(s.index, s.candidates); s.index[m].work > s.index[Tip(s)].work && !Guarded(e, s, m)
    ensures Indexed(s.index, Open(e, s)) && Open(e, s) != {} && First(s.index, Open(e, s)) == First(s.index, s.candidates)
  {
    hide Linked, Guarded, Better;
    FirstIs(s.index, Open(e, s), First(s.index, s.candidates));
  }

  /** Activation moves to the first open candidate, whatever was refused before it, and stays if none is open. */
  lemma {:induction false} ActivatedTip(e: Env, s: State)
    requires Shape(e, s) && AlwaysConnects(e)
    ensures Ready(s) && Ready(Activated(e, s)) && Indexed(s.index, Open(e, s))
    ensures Tip(Activated(e, s)) == if Open(e, s) == {} then Tip(s) else First(s.index, Open(e, s))
    ensures forall c :: c in Open(e, s) && c != Tip(Activated(e, s)) ==> Tip(Activated(e, s)) in s.index && Precedes(s.index, Tip(Activated(e, s)), c)
    decreases |s.candidates|
  {
    hide Shape, Activated, Path, CommonLength, Pruned, Guarded, Linked, Better, Precedes, Open, First, SameButStatus;
    ShapeAfter(e, s);
    OpenIndexed(e, s);
    FirstPrecedes(s.index, Open(e, s));
    if s.candidates == {} {
      NoAttempt(e, s);
      NoneOpen(e, s);
    } else {
      var m := First(s.index, s.candidates);
      FirstMember(s.index, s.candidates);
      Attempt(e, s, m);
      if s.index[m].work <= s.index[Tip(s)].work {
        NoneOpen(e, s);
      } else if Guarded(e, s, m) {
        DroppedShape(e, s, m);
        DroppedOpen(e, s, m);
        ActivatedTip(e, Dropped(s, m));
      } else {
        FirstOpen(e, s);
        SwitchedShape(e, s, m);
      }
    }
  }

  /** A block that ties with the tip: off the active chain, with the same work, valid and without children. */
  ghost predicate Rivals(r: State, c: Hash)
    requires r.chain != [] && Tip(r) in r.index
  {
    c in r.index && c !in r.chain && r.index[c].work == r.index[Tip(r)].work && r.index[c].status.IsValid() && !HasChild(r.index, c)
  }

  /**
   * After a switch the candidates are exactly those before that tie with the new tip, less the ones the guard refused,
   * which come before the tip in the order.
   */
  lemma {:induction false} RivalsStay(e: Env, s: State, c: Hash)
    requires Shape(e, s) && AlwaysConnects(e) && c in s.candidates
    ensures Ready(s) && Ready(Activated(e, s)) && c in s.index && Tip(Activated(e, s)) in s.index
    ensures var r := Activated(e, s);
            r.chain != s.chain ==>
              (c in r.candidates <==> Rivals(r, c) && !(Guarded(e, s, c) && c != Tip(r) && Precedes(s.index, c, Tip(r))))
    decreases |s.candidates|
  {
    hide Shape, Activated, Path, CommonLength, Pruned, Guarded, Linked, Better, Precedes, Rivals, First, SameButStatus;
    ActivatedKeeps(e, s);
    ShapeAfter(e, s);
    ReadyFacts(s);
    var m := First(s.index, s.candidates);
    FirstMember(s.index, s.candidates);
    Attempt(e, s, m);
    if s.index[m].work > s.index[Tip(s)].work {
      if Guarded(e, s, m) {
        DroppedShape(e, s, m);
        if c != m {
          RivalsStay(e, Dropped(s, m), c);
          DroppedGuards(e, s, m, c);
        } else {
          RefusedGone(e, s, m);
        }
      } else {
        SwitchedShape(e, s, m);
        SwitchedRivals(e, s, m, c);
      }
    }
  }

  lemma DroppedGuards(e: Env, s: State, m: Hash, c: Hash)
    requires Ready(s) && Ready(Dropped(s, m)) && c in s.index
    ensures Guarded(e, Dropped(s, m), c) <==> Guarded(e, s, c)
  {
    hide Linked, Path, CommonLength;
  }

  /** A first candidate that was dropped comes before the tip that was taken, and is no candidate any more. */
  lemma RefusedGone(e: Env, s: State, m: Hash)
    requires Shape(e, s) && AlwaysConnects(e) && Ready(s) && m in s.candidates && IsFirst(s.index, s.candidates, m)
    requires Guarded(e, s, m) && Ready(Dropped(s, m)) && Activated(e, s) == Activated(e, Dropped(s, m))
    requires Shape(e, Dropped(s, m)) && Ready(Activated(e, s)) && Activated(e, s).index == s.index
    ensures m !in Activated(e, s).candidates
    ensures Activated(e, s).chain != s.chain ==> m != Tip(Activated(e, s)) && Precedes(s.index, m, Tip(Activated(e, s)))
  {
    hide Shape, Activated, Path, CommonLength, Pruned, Linked, Better, Precedes, First, SameButStatus, Guarded;
    FewerCandidates(e, Dropped(s, m));
    ActivatedTip(e, Dropped(s, m));
    OpenMember(e, Dropped(s, m));
    if Activated(e, s).chain != s.chain {
      SameTipSameChain(e, s, Activated(e, s));
      BetterPrecedes(s.index, m, Tip(Activated(e, s)));
    }
  }

  lemma OpenMember(e: Env, s: State)
    requires Ready(s) && Indexed(s.index, Open(e, s))
    ensures Open(e, s) != {} ==> First(s.index, Open(e, s)) in s.candidates
  {
    hide Linked, Guarded, First, Better;
    if Open(e, s) != {} {
      FirstMember(s.index, Open(e, s));
    }
  }

  lemma SameTipSameChain(e: Env, s: State, r: State)
    requires Shape(e, s) && Shape(e, r) && r.index == s.index
    ensures Tip(r) == Tip(s) ==> r.chain == s.chain
  {
    hide EntryOk, Rooted, AllTree, Linked;
  }

  lemma {:induction false} FewerCandidates(e: Env, s: State)
    requires Shape(e, s)
    ensures Ready(s) && Activated(e, s).candidates <= s.candidates && Shape(e, Activated(e, s))
    decreases |s.candidates|
  {
    hide Shape, Activated, Better, Guarded, BranchConnects;
    ActivatedShape(e, s);
    ShapeReady(e, s);
    if s.candidates == {} {
      NoAttempt(e, s);
    } else {
      var m := First(s.index, s.candidates);
      Attempt(e, s, m);
      if s.index[m].work > s.index[Tip(s)].work {
        if Guarded(e, s, m) {
          DroppedShape(e, s, m);
          FewerCandidates(e, Dropped(s, m));
        } else if !BranchConnects(e, s, m) {
          MarkedShape(e, s, m);
          FewerCandidates(e, Marked(s, m));
        }
      }
    }
  }

  lemma SwitchedRivals(e: Env, s: State, m: Hash, c: Hash)
    requires Ready(s) && c in s.candidates && IsFirst(s.index, s.candidates, m) && Ready(Switched(s, m)) && Tip(Switched(s, m)) == m
    ensures c in Switched(s, m).candidates <==> Rivals(Switched(s, m), c)
    ensures c != m ==> !Precedes(s.index, c, m)
  {
    hide Linked, Path, HasChild;
    if c != m {
      BetterPrecedes(s.index, m, c);
      BetterPrecedes(s.index, c, m);
    }
  }

  lemma FirstPrecedes(idx: Index, s: set<Hash>)
    requires Indexed(idx, s)
    ensures s != {} ==> forall c :: c in s && c != First(idx, s) ==> Precedes(idx, First(idx, s), c)
  {
    hide Precedes, Better, First;
    if s != {} {
      forall c | c in s && c != First(idx, s)
        ensures Precedes(idx, First(idx, s), c)
      {
        BetterPrecedes(idx, First(idx, s), c);
      }
    }
  }

  lemma FirstMember(idx: Index, s: set<Hash>)
    requires Indexed(idx, s) && s != {}
    ensures First(idx, s) in s
  {
    hide Better;
  }

  /** Every valid block with more work than the tip is matched by an open candidate of at least that work. */
  ghost predicate OpenlyCovered(e: Env, s: State)
    requires Ready(s)
  {
    forall b :: Valid(s.index, b) && s.index[b].work > s.index[Tip(s)].work ==>
                  exists c :: c in Open(e, s) && s.index[c].work >= s.index[b].work
  }

  /** If a candidate outweighs the tip, the guard lets one of the heaviest candidates pass. */
  ghost predicate Passable(e: Env, s: State)
    requires Ready(s)
  {
    (exists c :: c in s.candidates && s.index[c].work > s.index[Tip(s)].work) ==>
      exists c :: c in s.candidates && !Guarded(e, s, c) && forall d :: d in s.candidates ==> s.index[d].work <= s.index[c].work
  }

  /** Open candidates cover exactly if candidates cover and a heaviest one passes the guard. */
  lemma OpenlyExactly(e: Env, s: State)
    requires Shape(e, s) && Ready(s)
    ensures OpenlyCovered(e, s) <==> Covered(s) && Passable(e, s)
  {
    hide Linked, Guarded, Shape, First;
    ShapeReady(e, s);
    if OpenlyCovered(e, s) {
      OpenIsPassable(e, s);
    }
    if Covered(s) && Passable(e, s) {
      PassableIsOpen(e, s);
    }
  }

  lemma OpenIsPassable(e: Env, s: State)
    requires Ready(s) && OpenlyCovered(e, s) && forall c :: c in s.candidates ==> Valid(s.index, c)
    ensures Covered(s) && Passable(e, s)
  {
    hide Linked, Guarded, First;
    if c :| c in s.candidates && s.index[c].work > s.index[Tip(s)].work {
      OpenIndexed(e, s);
      var t := First(s.index, Open(e, s));
      forall d | d in s.candidates
        ensures s.index[d].work <= s.index[t].work
      {
        if s.index[d].work > s.index[Tip(s)].work {
          var o :| o in Open(e, s) && s.index[o].work >= s.index[d].work;
          assert o == t || Better(s.index, t, o);
        }
      }
    }
  }

  lemma PassableIsOpen(e: Env, s: State)
    requires Ready(s) && Covered(s) && Passable(e, s)
    ensures OpenlyCovered(e, s)
  {
    hide Linked, Guarded;
    forall b | Valid(s.index, b) && s.index[b].work > s.index[Tip(s)].work
      ensures exists c :: c in Open(e, s) && s.index[c].work >= s.index[b].work
    {
      var d :| d in s.candidates && s.index[d].work >= s.index[b].work;
      var c :| c in s.candidates && !Guarded(e, s, c) && forall d :: d in s.candidates ==> s.index[d].work <= s.index[c].work;
      assert c in Open(e, s);
    }
  }

  /** With the guard off the heaviest candidate always passes. */
  lemma UnguardedPasses(e: Env, s: State)
    requires Ready(s) && e.params.suspiciousReorgDepth <= 0
    ensures Passable(e, s)
  {
    hide Linked, Path, CommonLength, First;
    if c :| c in s.candidates && s.index[c].work > s.index[Tip(s)].work {
      var t := First(s.index, s.candidates);
      assert forall d :: d in s.candidates ==> d == t || Better(s.index, t, d);
    }
  }

  /**
   * Activation makes the tip the best valid block of the whole index exactly when an open candidate covers every
   * heavier valid block: the candidates cover them and the guard lets a heaviest candidate pass. With the guard off
   * that is Covered.
   */
  lemma ActivationExact(e: Env, s: State)
    requires Shape(e, s) && AlwaysConnects(e)
    ensures Ready(s) && Ready(Activated(e, s))
    ensures TipIsBest(Activated(e, s)) <==> OpenlyCovered(e, s)
    ensures TipIsBest(Activated(e, s)) <==> Covered(s) && Passable(e, s)
    ensures e.params.suspiciousReorgDepth <= 0 ==> (TipIsBest(Activated(e, s)) <==> Covered(s))
    ensures TipIsBest(Activated(e, s)) <==> Covered(Activated(e, s))
    ensures TipIsBest(Activated(e, s)) ==> Listed(Activated(e, s))
  {
    hide Shape, Activated, Path, Open, Covered, Linked, First, Indexed, Passable, TipIsBest, Listed;
    ActivatedKeeps(e, s);
    ActivatedTip(e, s);
    OpenlyExactly(e, s);
    if e.params.suspiciousReorgDepth <= 0 {
      UnguardedPasses(e, s);
    }
    OpenCoverage(e, s, Tip(Activated(e, s)));
    ActivatedBeatsCandidates(e, s);
    BestAfter(s, Activated(e, s));
  }

  /** Where no candidate outweighs the tip, the heavier blocks are covered only if there are none. */
  lemma BestAfter(s: State, r: State)
    requires Ready(s) && Ready(r) && r.index == s.index
    requires forall c :: c in r.candidates ==> r.index[c].work <= r.index[Tip(r)].work
    ensures TipIsBest(r) <==> forall b :: Valid(s.index, b) ==> s.index[b].work <= s.index[Tip(r)].work
    ensures TipIsBest(r) <==> Covered(r)
    ensures TipIsBest(r) ==> Listed(r)
  {
    hide Linked;
  }

  lemma OpenCoverage(e: Env, s: State, t: Hash)
    requires Ready(s) && Indexed(s.index, Open(e, s)) && t in s.index
    requires t == if Open(e, s) == {} then Tip(s) else First(s.index, Open(e, s))
    ensures (forall b :: Valid(s.index, b) ==> s.index[b].work <= s.index[t].work) <==> OpenlyCovered(e, s)
  {
    hide Linked, Guarded;
    if OpenlyCovered(e, s) {
      forall b | Valid(s.index, b)
        ensures s.index[b].work <= s.index[t].work
      {
        if s.index[b].work > s.index[Tip(s)].work {
          var c :| c in Open(e, s) && s.index[c].work >= s.index[b].work;
          assert c == t || Better(s.index, t, c);
        } else {
          assert Open(e, s) == {} || t in Open(e, s);
        }
      }
    }
  }
}
