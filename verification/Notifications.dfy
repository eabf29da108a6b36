/** The events queued while the active chain changes, and an observer that replays them. */
module Notifications {
  import opened Primitives

  datatype Event = Connected(hash: Hash) | Disconnected(hash: Hash) | ChainTip(hash: Hash, height: int)

  /** What an observer holding the given chain holds after one event; None where the event does not fit. */
  function Observe(chain: seq<Hash>, ev: Event): (r: Option<seq<Hash>>)
  {
    match ev
    case Connected(h) => Some(chain + [h])
    case Disconnected(h) =>
      if |chain| > 0 && chain[|chain| - 1] == h then Some(chain[..|chain| - 1]) else None
    case ChainTip(h, height) =>
      if |chain| > 0 && chain[|chain| - 1] == h && height == |chain| - 1 then Some(chain) else None
  }

  function Replay(chain: seq<Hash>, events: seq<Event>): (r: Option<seq<Hash>>)
  {
    if events == [] then Some(chain)
    else
      var before := Replay(chain, events[..|events| - 1]);
      if before.None? then None else Observe(before.value, events[|events| - 1])
  }

  lemma ReplayOne(chain: seq<Hash>, events: seq<Event>, ev: Event)
    ensures Replay(chain, events + [ev]) ==
            if Replay(chain, events).None? then None else Observe(Replay(chain, events).value, ev)
  {
    assert (events + [ev])[..|events|] == events;
  }

  lemma {:induction false} ReplayConcat(chain: seq<Hash>, a: seq<Event>, b: seq<Event>)
    requires Replay(chain, a).Some?
    ensures Replay(chain, a + b) == Replay(Replay(chain, a).value, b)
  {
    if b == [] {
      assert a + b == a;
    } else {
      var n := |b| - 1;
      ReplayConcat(chain, a, b[..n]);
      assert (a + b)[..|a| + n] == a + b[..n];
    }
  }
}
