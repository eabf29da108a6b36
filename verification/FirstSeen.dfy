/** Runs of ProcessNewBlockHeader alone: the candidate set refines a scan for the first block of most work. */
module FirstSeen {
  import opened Work
  import opened Primitives
  import opened BlockTree
  import opened TreeGrowth
  import opened ActiveChain
  import opened Selector
  import opened Chainstate
  import opened Activation
  import opened Submission
  import opened Runs
  import opened Invalidation

  /** One ProcessNewBlockHeader: the headers it inserted, the submitted one first, or none if it was known. */
  datatype Input = Input(headers: seq<Header>, hash: Hash, now: int)

  ghost predicate Process(e: Env, s: State, input: Input, s': State)
  {
    && Submittable(e, s, input.headers, input.hash, input.now)
    && var m := Submitted(e, s, input.headers, input.hash, input.now);
       Ready(m) && s' == Activated(e, m)
  }

  ghost predicate IsFeed(e: Env, states: seq<State>, inputs: seq<Input>)
  {
    && |states| == |inputs| + 1 && Initial(e, states[0])
    && forall i :: 0 <= i < |inputs| ==> Process(e, states[i], inputs[i], states[i + 1])
  }

  /** The blocks indexed by the first i inputs, in the order they were accepted. */
  ghost function AcceptOrder(e: Env, inputs: seq<Input>, i: nat): (order: seq<Hash>)
    requires i <= |inputs|
    ensures |order| > 0
  {
    if i == 0 then [e.genesis] else AcceptOrder(e, inputs, i - 1) + HashesOf(e.oracle, inputs[i - 1].headers)
  }

  /** Walks the order once, moving on only to strictly more work. */
  ghost function Scan(idx: Index, order: seq<Hash>): (t: Hash)
    requires |order| > 0 && forall k :: 0 <= k < |order| ==> order[k] in idx
    ensures t in idx
  {
    var n := |order| - 1;
    if n == 0 then order[0]
    else
      var t := Scan(idx, order[..n]);
      if idx[order[n]].work > idx[t].work then order[n] else t
  }

  /** The scan finds the earliest entry of maximal work. */
  lemma {:induction false} ScanFindsEarliest(idx: Index, order: seq<Hash>)
    requires |order| > 0 && forall k :: 0 <= k < |order| ==> order[k] in idx
    ensures exists j :: && 0 <= j < |order| && order[j] == Scan(idx, order)
                        && (forall k :: 0 <= k < |order| ==> idx[order[k]].work <= idx[order[j]].work)
                        && (forall k :: 0 <= k < j ==> idx[order[k]].work < idx[order[j]].work)
  {
    var n := |order| - 1;
    if n == 0 {
      assert order[0] == Scan(idx, order);
    } else {
      var front := order[..n];
      ScanFindsEarliest(idx, front);
      var j :| && 0 <= j < |front| && front[j] == Scan(idx, front)
               && (forall k :: 0 <= k < |front| ==> idx[front[k]].work <= idx[front[j]].work)
               && (forall k :: 0 <= k < j ==> idx[front[k]].work < idx[front[j]].work);
      var j' := if idx[order[n]].work > idx[front[j]].work then n else j;
      assert order[j'] == Scan(idx, order);
      forall k | 0 <= k < |order|
        ensures idx[order[k]].work <= idx[order[j']].work
        ensures k < j' ==> idx[order[k]].work < idx[order[j']].work
      {
        if k < n {
          assert order[k] == front[k];
        }
      }
    }
  }

  lemma {:induction false} ScanStable(idx: Index, idx': Index, order: seq<Hash>)
    requires |order| > 0 && Extends(idx, idx') && forall k :: 0 <= k < |order| ==> order[k] in idx
    ensures forall k :: 0 <= k < |order| ==> order[k] in idx'
    ensures Scan(idx', order) == Scan(idx, order)
  {
    if |order| > 1 {
      ScanStable(idx, idx', order[..|order| - 1]);
    }
  }

  /** Blocks that do not outweigh the result so far change nothing. */
  lemma {:induction false} ScanSkips(idx: Index, order: seq<Hash>, more: seq<Hash>)
    requires |order| > 0 && forall k :: 0 <= k < |order| ==> order[k] in idx
    requires forall k :: 0 <= k < |more| ==> more[k] in idx && idx[more[k]].work <= idx[Scan(idx, order)].work
    ensures forall k :: 0 <= k < |order + more| ==> (order + more)[k] in idx
    ensures Scan(idx, order + more) == Scan(idx, order)
    decreases more
  {
    if more == [] {
      assert order + more == order;
    } else {
      var n := |more| - 1;
      ScanSkips(idx, order, more[..n]);
      assert (order + more)[..|order| + n] == order + more[..n];
    }
  }

  // ---- One call ----

  /** The guard would refuse a child of p: as many blocks as the limit lie above its fork from the active chain. */
  ghost predicate DeepFork(e: Env, s: State, p: Hash)
    requires Linked(s.index) && p in s.index
  {
    0 < e.params.suspiciousReorgDepth <= |s.chain| - CommonLength(s.chain, Path(s.index, p))
  }

  /** No inserted header outweighs the tip, or there is only the submitted one and the guard lets it pass. */
  ghost predicate Quiet(e: Env, s: State, input: Input)
    requires Ready(s)
  {
    || Outweighing(e, s.index, input.headers, s.index[Tip(s)].work) == {}
    || (|input.headers| == 1 && input.headers[0].prev in s.index && !DeepFork(e, s, input.headers[0].prev))
  }

  lemma CommonWithout(p: seq<Hash>, q: seq<Hash>, x: Hash)
    requires x !in p
    ensures CommonLength(p, q + [x]) == CommonLength(p, q)
  {
    hide CommonLength;
    var n, m := CommonLength(p, q), CommonLength(p, q + [x]);
    assert (q + [x])[..n] == q[..n];
    SharedPrefix(p, q + [x], n);
    if m > |q| {
      SameEntry(p, q + [x], m, |q|);
    } else {
      assert (q + [x])[..m] == q[..m];
      SharedPrefix(p, q, m);
    }
  }

  /** What one new header without promoted orphans does before activation. */
  lemma OneMore(e: Env, s: State, header: Header, h: Hash, now: int)
    requires Inv(e, s) && Ready(s) && Submittable(e, s, [header], h, now)
    ensures var m := Submitted(e, s, [header], h, now);
            && Inv(e, m) && Ready(m) && m.chain == s.chain && Extends(s.index, m.index)
            && h !in s.index && m.index.Keys == s.index.Keys + {h} && Valid(m.index, h)
            && h in m.candidates && m.candidates <= s.candidates + {h}
            && header.prev in s.index && (Guarded(e, m, h) <==> DeepFork(e, s, header.prev))
  {
    hide Shape, IndexInv, Insertable, InsertAll, Linked, Path, CommonLength, Inserted, Check, HasChild;
    var hs := [header];
    SubmittedInv(e, s, hs, h, now);
    SubmittedExtends(e, s, hs, h, now);
    OneInserted(e, s, hs, h, now);
    InsertOne(e, s.index, hs, now);
    InsertedPath(e.oracle, s.index, header);
    NotOnChain(e, s, h);
    CommonWithout(s.chain, Path(s.index, header.prev), h);
  }

  lemma NotOnChain(e: Env, s: State, h: Hash)
    requires Inv(e, s) && h !in s.index
    ensures h !in s.chain
  {
    hide IndexInv, EntryOk, AllTree;
  }

  /** The weight of a lone new header, computed from its parent, is its recorded work. */
  lemma LoneWeight(e: Env, s: State, header: Header, h: Hash, now: int, work: nat)
    requires Inv(e, s) && Submittable(e, s, [header], h, now)
    ensures var m := Submitted(e, s, [header], h, now);
            h in m.index && (Outweighing(e, s.index, [header], work) == {} <==> m.index[h].work <= work)
  {
    hide Shape, IndexInv, Insertable, InsertAll, Linked, Weigh;
    var hs := [header];
    var m := Submitted(e, s, hs, h, now);
    SubmittedInv(e, s, hs, h, now);
    InsertAllWeighs(e, s.index, hs, now);
    OnlyHash(e, header);
    assert h in Hashes(e, hs) && WorksOf(m.index)[h] == m.index[h].work;
    if m.index[h].work > work {
      assert h in Outweighing(e, s.index, hs, work);
    }
  }

  lemma OnlyHash(e: Env, header: Header)
    ensures Hashes(e, [header]) == {e.oracle.hash(header)}
  {
    var hs := [header];
    assert hs[0] == header;
  }

  /** A candidate above a best tip can only be the new block. */
  lemma OnlyNewIsOpen(e: Env, s: State, m: State, h: Hash)
    requires Inv(e, s) && Ready(s) && TipIsBest(s) && Inv(e, m) && Ready(m) && m.chain == s.chain
    requires Extends(s.index, m.index) && m.candidates <= s.candidates + {h}
    ensures Open(e, m) == if h in m.candidates && m.index[h].work > m.index[Tip(s)].work && !Guarded(e, m, h) then {h} else {}
  {
    hide TreeInv, AllTree, IndexInv, Path, Guarded, Linked;
    forall c | c in m.candidates && c != h
      ensures m.index[c].work <= m.index[Tip(s)].work
    {
      assert Valid(s.index, c);
    }
  }

  /**
   * From a state whose tip is best, one call with any number of promoted orphans moves the tip exactly to a lone new
   * header of more work that the guard lets pass; and the tip is best afterwards exactly if the call was quiet.
   */
  lemma ProcessMoves(e: Env, s: State, input: Input, s': State)
    requires Inv(e, s) && AlwaysConnects(e) && Ready(s) && TipIsBest(s) && Process(e, s, input, s')
    ensures Inv(e, s') && Ready(s') && Extends(s.index, s'.index)
    ensures s'.index.Keys == s.index.Keys + Hashes(e, input.headers)
    ensures TipIsBest(s') <==> Quiet(e, s, input)
    ensures Tip(s') == if |input.headers| == 1 && Quiet(e, s, input) && s'.index[input.hash].work > s.index[Tip(s)].work
                       then input.hash else Tip(s)
    ensures Quiet(e, s, input) && |input.headers| > 1 ==>
              forall b :: b in Hashes(e, input.headers) ==> s'.index[b].work <= s.index[Tip(s)].work
  {
    hide Shape, IndexInv, Linked, Activated, Submitted, InsertAll, Insertable, Outweighing, DeepFork, Guarded, Hashes, TipIsBest, Extends;
    var hs, h, now := input.headers, input.hash, input.now;
    var m := Submitted(e, s, hs, h, now);
    SubmittedInv(e, s, hs, h, now);
    SubmittedExtends(e, s, hs, h, now);
    ActivatedKeeps(e, m);
    ActivatedInv(e, m);
    if |hs| == 0 {
      KnownMoves(e, s, h, now);
    } else if |hs| == 1 {
      assert hs == [hs[0]];
      LoneMoves(e, s, hs[0], h, now);
    } else {
      PromotionExact(e, s, hs, h, now);
      if Quiet(e, s, input) {
        NewNotHeavier(e, s, hs, h, now);
      }
    }
  }

  lemma NewNotHeavier(e: Env, s: State, hs: seq<Header>, h: Hash, now: int)
    requires Inv(e, s) && Ready(s) && Submittable(e, s, hs, h, now)
    requires Outweighing(e, s.index, hs, s.index[Tip(s)].work) == {}
    ensures forall b :: b in Hashes(e, hs) ==> b in Submitted(e, s, hs, h, now).index
    ensures forall b :: b in Hashes(e, hs) ==> Submitted(e, s, hs, h, now).index[b].work <= s.index[Tip(s)].work
  {
    hide Shape, IndexInv, Insertable, InsertAll, Linked, Hashes, Weigh;
    InsertAllAdds(e, s.index, hs, now);
    InsertAllWeighs(e, s.index, hs, now);
    var m := Submitted(e, s, hs, h, now);
    forall b | b in Hashes(e, hs)
      ensures b in m.index && m.index[b].work <= s.index[Tip(s)].work
    {
      assert WorksOf(m.index)[b] == m.index[b].work;
      assert b !in Outweighing(e, s.index, hs, s.index[Tip(s)].work);
    }
  }

  /** A known header moves nothing. */
  lemma KnownMoves(e: Env, s: State, h: Hash, now: int)
    requires Inv(e, s) && AlwaysConnects(e) && Ready(s) && TipIsBest(s) && Submittable(e, s, [], h, now)
    ensures var m := Submitted(e, s, [], h, now);
            && Ready(m) && Ready(Activated(e, m)) && m.index == s.index && Hashes(e, []) == {}
            && Tip(Activated(e, m)) == Tip(s) && TipIsBest(Activated(e, m))
            && Outweighing(e, s.index, [], s.index[Tip(s)].work) == {}
  {
    hide Shape, IndexInv, Insertable, InsertAll, Linked, Activated, HasChild, Weigh;
    var m := Submitted(e, s, [], h, now);
    SubmittedInv(e, s, [], h, now);
    SubmittedExtends(e, s, [], h, now);
    assert m.candidates <= s.candidates + {h};
    OnlyNewIsOpen(e, s, m, h);
    OpenIsHeavier(e, m, h);
    ActivatedTip(e, m);
    ActivatedKeeps(e, m);
    assert Hashes(e, []) == {};
  }

  lemma OpenIsHeavier(e: Env, m: State, h: Hash)
    requires Inv(e, m) && Ready(m) && TipIsBest(m)
    ensures h in m.candidates ==> m.index[h].work <= m.index[Tip(m)].work
  {
    hide IndexInv, TreeInv, AllTree, Path;
  }

  /** A lone new header is taken exactly if it has more work and the guard lets it pass. */
  lemma LoneMoves(e: Env, s: State, header: Header, h: Hash, now: int)
    requires Inv(e, s) && AlwaysConnects(e) && Ready(s) && TipIsBest(s) && Submittable(e, s, [header], h, now)
    ensures header.prev in s.index && Hashes(e, [header]) == {h}
    ensures var m := Submitted(e, s, [header], h, now);
            var heavier := Outweighing(e, s.index, [header], s.index[Tip(s)].work) != {};
            && Ready(m) && Ready(Activated(e, m)) && h in m.index && (heavier <==> m.index[h].work > s.index[Tip(s)].work)
            && Tip(Activated(e, m)) == (if heavier && !DeepFork(e, s, header.prev) then h else Tip(s))
            && (TipIsBest(Activated(e, m)) <==> !heavier || !DeepFork(e, s, header.prev))
  {
    hide Shape, IndexInv, Insertable, InsertAll, Linked, Activated, HasChild, Weigh, Outweighing, DeepFork, Guarded, Submitted, First, Open, Submittable;
    var m := Submitted(e, s, [header], h, now);
    OneMore(e, s, header, h, now);
    LoneWeight(e, s, header, h, now, s.index[Tip(s)].work);
    OnlyNewIsOpen(e, s, m, h);
    ActivatedTip(e, m);
    ActivatedKeeps(e, m);
    SubmittedHash(e, s, header, h, now);
    OnlyHash(e, header);
    if Open(e, m) != {} {
      SingleFirst(m.index, Open(e, m), h);
    }
    BestOfTwo(e, s, m, h, Tip(Activated(e, m)));
  }

  lemma SubmittedHash(e: Env, s: State, header: Header, h: Hash, now: int)
    requires Submittable(e, s, [header], h, now)
    ensures h == e.oracle.hash(header)
  {
    hide Linked, Insertable;
  }

  lemma SingleFirst(idx: Index, s: set<Hash>, h: Hash)
    requires Indexed(idx, s) && s == {h}
    ensures s != {} && First(idx, s) == h
  {
    hide Better;
  }

  lemma BestOfTwo(e: Env, s: State, m: State, h: Hash, t: Hash)
    requires Ready(s) && TipIsBest(s) && Extends(s.index, m.index) && m.index.Keys == s.index.Keys + {h} && Valid(m.index, h)
    requires t == Tip(s) || t == h
    requires t == h ==> m.index[h].work > s.index[Tip(s)].work
    ensures t in m.index
    ensures (forall b :: Valid(m.index, b) ==> m.index[b].work <= m.index[t].work) <==>
            t == h || m.index[h].work <= s.index[Tip(s)].work
  {
    hide Linked, Indexed;
    forall b | Valid(m.index, b) && b != h
      ensures m.index[b].work <= s.index[Tip(s)].work
    {
      assert Valid(s.index, b);
    }
  }

  // ---- Whole runs ----

  ghost predicate QuietAt(e: Env, states: seq<State>, inputs: seq<Input>, k: nat)
    requires k < |inputs| && |states| == |inputs| + 1
  {
    Ready(states[k]) && Quiet(e, states[k], inputs[k])
  }

  /**
   * Over every run of ProcessNewBlockHeader, with or without reorg guard and promoted orphans, as long as the calls
   * so far were quiet: the tip is the earliest-accepted block among those of maximal work in the whole index.
   */
  lemma {:induction false} FirstSeenWins(e: Env, states: seq<State>, inputs: seq<Input>, i: nat)
    requires IsFeed(e, states, inputs) && AlwaysConnects(e) && i < |states|
    requires forall k :: 0 <= k < i ==> QuietAt(e, states, inputs, k)
    ensures Inv(e, states[i]) && Ready(states[i]) && TipIsBest(states[i])
    ensures var order := AcceptOrder(e, inputs, i);
            && Elements(order) == states[i].index.Keys
            && (forall k :: 0 <= k < |order| ==> order[k] in states[i].index)
            && Tip(states[i]) == Scan(states[i].index, order)
  {
    hide Inv, TipIsBest, Initial, Process, Linked, Extends, Elements, Quiet;
    if i == 0 {
      InitialInv(e, states[0]);
      InitialKeys(e, states[0]);
      OneElement(e.genesis);
    } else {
      FirstSeenWins(e, states, inputs, i - 1);
      var s, input, s' := states[i - 1], inputs[i - 1], states[i];
      assert Process(e, s, input, s') && QuietAt(e, states, inputs, i - 1);
      ProcessMoves(e, s, input, s');
      var before := AcceptOrder(e, inputs, i - 1);
      ScanStable(s.index, s'.index, before);
      SameTipEntry(s, s');
      OrderGrows(e, before, input.headers);
      ElementsIndexed(AcceptOrder(e, inputs, i), s'.index);
      if |input.headers| == 1 {
        LoneHash(e, s, input, s');
        assert (before + HashesOf(e.oracle, input.headers))[..|before|] == before;
      } else {
        ListedWorks(e, s'.index, input.headers, s.index[Tip(s)].work);
        ScanSkips(s'.index, before, HashesOf(e.oracle, input.headers));
      }
    }
  }

  lemma SameTipEntry(s: State, s': State)
    requires Ready(s) && Extends(s.index, s'.index)
    ensures Tip(s) in s'.index && s'.index[Tip(s)].work == s.index[Tip(s)].work
  {
    hide Linked, Indexed;
  }

  lemma LoneHash(e: Env, s: State, input: Input, s': State)
    requires Process(e, s, input, s') && |input.headers| == 1
    ensures input.hash == e.oracle.hash(input.headers[0])
  {
    hide Linked, Insertable, Activated, Submitted;
  }

  lemma ListedWorks(e: Env, idx: Index, hs: seq<Header>, work: nat)
    requires Hashes(e, hs) <= idx.Keys && |hs| != 1
    requires |hs| > 1 ==> forall b :: b in Hashes(e, hs) ==> idx[b].work <= work
    ensures forall k :: 0 <= k < |hs| ==> HashesOf(e.oracle, hs)[k] in idx && idx[HashesOf(e.oracle, hs)[k]].work <= work
  {
    forall k | 0 <= k < |hs|
      ensures HashesOf(e.oracle, hs)[k] in idx && idx[HashesOf(e.oracle, hs)[k]].work <= work
    {
      assert HashesOf(e.oracle, hs)[k] in Hashes(e, hs);
    }
  }

  /**
   * The exact condition: the tip is the best valid block of the whole index in every state of a run if and only if
   * every call was quiet.
   */
  lemma FirstSeenExact(e: Env, states: seq<State>, inputs: seq<Input>)
    requires IsFeed(e, states, inputs) && AlwaysConnects(e)
    ensures (forall i :: 0 <= i < |states| ==> BestTip(states[i]))
            <==> (forall k :: 0 <= k < |inputs| ==> QuietAt(e, states, inputs, k))
  {
    hide Inv, TipIsBest, Initial, Process, Quiet, Ready;
    if forall k :: 0 <= k < |inputs| ==> QuietAt(e, states, inputs, k) {
      forall i | 0 <= i < |states|
        ensures BestTip(states[i])
      {
        FirstSeenWins(e, states, inputs, i);
      }
    }
    if forall i :: 0 <= i < |states| ==> BestTip(states[i]) {
      forall k | 0 <= k < |inputs|
        ensures QuietAt(e, states, inputs, k)
      {
        assert BestTip(states[k]) && BestTip(states[k + 1]);
        assert Process(e, states[k], inputs[k], states[k + 1]);
        FeedInv(e, states, inputs, k);
        ProcessMoves(e, states[k], inputs[k], states[k + 1]);
      }
    }
  }

  ghost predicate BestTip(s: State)
  {
    Ready(s) && TipIsBest(s)
  }

  lemma {:induction false} FeedInv(e: Env, states: seq<State>, inputs: seq<Input>, i: nat)
    requires IsFeed(e, states, inputs) && AlwaysConnects(e) && i < |states|
    requires forall k :: 0 <= k < |states| ==> BestTip(states[k])
    ensures Inv(e, states[i])
  {
    hide Inv, TipIsBest, Initial, Process, Quiet, Ready;
    if i == 0 {
      InitialInv(e, states[0]);
    } else {
      FeedInv(e, states, inputs, i - 1);
      assert BestTip(states[i - 1]) && Process(e, states[i - 1], inputs[i - 1], states[i]);
      ProcessMoves(e, states[i - 1], inputs[i - 1], states[i]);
    }
  }

  lemma InitialKeys(e: Env, s: State)
    requires Initial(e, s)
    ensures s.index.Keys == {e.genesis} && s.chain == [e.genesis]
  {
  }

  lemma OneElement(h: Hash)
    ensures Elements([h]) == {h}
  {
  }

  lemma OrderGrows(e: Env, before: seq<Hash>, hs: seq<Header>)
    ensures Elements(before + HashesOf(e.oracle, hs)) == Elements(before) + Hashes(e, hs)
  {
    var more := HashesOf(e.oracle, hs);
    forall x | x in Hashes(e, hs)
      ensures x in more
    {
      var i :| 0 <= i < |hs| && x == e.oracle.hash(hs[i]);
      assert more[i] == x;
    }
  }

  lemma ElementsIndexed(order: seq<Hash>, idx: Index)
    requires Elements(order) == idx.Keys
    ensures forall k :: 0 <= k < |order| ==> order[k] in idx
  {
    forall k | 0 <= k < |order|
      ensures order[k] in idx
    {
      assert order[k] in Elements(order);
    }
  }
}
