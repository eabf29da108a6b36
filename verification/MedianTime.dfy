/** Median time past: the median of the last eleven block times, and why it never decreases. */
module MedianTime {

  const MEDIAN_TIME_SPAN: nat := 11

  function Insert(x: nat, s: seq<nat>): (r: seq<nat>)
  {
    if |s| == 0 || x <= s[0] then [x] + s else [s[0]] + Insert(x, s[1..])
  }

  /** What std::sort leaves behind: the same times in ascending order. */
  function Sort(s: seq<nat>): (r: seq<nat>)
  {
    if |s| == 0 then [] else Insert(s[0], Sort(s[1..]))
  }

  ghost predicate Ascending(s: seq<nat>)
  {
    forall i, j :: 0 <= i < j < |s| ==> s[i] <= s[j]
  }

  lemma {:induction false} InsertMultiset(x: nat, s: seq<nat>)
    ensures multiset(Insert(x, s)) == multiset(s) + multiset{x}
  {
    if |s| > 0 && x > s[0] {
      InsertMultiset(x, s[1..]);
      assert s == [s[0]] + s[1..];
      assert Insert(x, s) == [s[0]] + Insert(x, s[1..]);
    }
  }

  lemma {:induction false} InsertAscending(x: nat, s: seq<nat>)
    requires Ascending(s)
    ensures Ascending(Insert(x, s))
  {
    if |s| > 0 && x > s[0] {
      InsertAscending(x, s[1..]);
      InsertMultiset(x, s[1..]);
      LowerBound(s[0], x, s[1..], Insert(x, s[1..]));
      ConsAscending(s[0], Insert(x, s[1..]));
    } else {
      ConsAscending(x, s);
    }
  }

  lemma ConsAscending(a: nat, r: seq<nat>)
    requires Ascending(r) && forall j :: 0 <= j < |r| ==> a <= r[j]
    ensures Ascending([a] + r)
  {
  }

  lemma LowerBound(low: nat, x: nat, s: seq<nat>, r: seq<nat>)
    requires multiset(r) == multiset(s) + multiset{x} && low <= x && forall j :: 0 <= j < |s| ==> low <= s[j]
    ensures forall j :: 0 <= j < |r| ==> low <= r[j]
  {
    forall j | 0 <= j < |r|
      ensures low <= r[j]
    {
      assert r[j] in multiset(r);
      assert r[j] == x || r[j] in s;
    }
  }

  lemma {:induction false} SortSorts(s: seq<nat>)
    ensures Ascending(Sort(s)) && multiset(Sort(s)) == multiset(s) && |Sort(s)| == |s|
  {
    if |s| > 0 {
      SortSorts(s[1..]);
      InsertAscending(s[0], Sort(s[1..]));
      InsertMultiset(s[0], Sort(s[1..]));
      assert s == [s[0]] + s[1..];
    }
    assert |multiset(Sort(s))| == |Sort(s)|;
  }

  function Window(times: seq<nat>): (w: seq<nat>)
  {
    if |times| <= MEDIAN_TIME_SPAN then times else times[|times| - MEDIAN_TIME_SPAN..]
  }

  function MedianTimePast(times: seq<nat>): (m: nat)
    requires |times| > 0
  {
    SortSorts(Window(times));
    Sort(Window(times))[|Window(times)| / 2]
  }

  /** How many entries lie strictly below v. */
  function CountBelow(s: seq<nat>, v: nat): (n: nat)
    ensures n <= |s|
  {
    if |s| == 0 then 0 else (if s[0] < v then 1 else 0) + CountBelow(s[1..], v)
  }

  lemma {:induction false} InsertCount(x: nat, s: seq<nat>, v: nat)
    ensures CountBelow(Insert(x, s), v) == CountBelow(s, v) + (if x < v then 1 else 0)
  {
    if |s| == 0 || x <= s[0] {
      assert ([x] + s)[1..] == s;
    } else {
      InsertCount(x, s[1..], v);
      assert Insert(x, s)[1..] == Insert(x, s[1..]);
    }
  }

  lemma {:induction false} SortCount(s: seq<nat>, v: nat)
    ensures CountBelow(Sort(s), v) == CountBelow(s, v)
  {
    if |s| > 0 {
      SortCount(s[1..], v);
      InsertCount(s[0], Sort(s[1..]), v);
    }
  }

  /** In an ascending sequence, entry k is at least v exactly when at most k entries lie below v. */
  lemma {:induction false} RankOfEntry(s: seq<nat>, k: nat, v: nat)
    requires Ascending(s) && k < |s|
    ensures s[k] >= v <==> CountBelow(s, v) <= k
  {
    if s[0] >= v {
      NoneBelow(s, v);
    } else if k > 0 {
      RankOfEntry(s[1..], k - 1, v);
    }
  }

  lemma {:induction false} NoneBelow(s: seq<nat>, v: nat)
    requires forall i :: 0 <= i < |s| ==> s[i] >= v
    ensures CountBelow(s, v) == 0
  {
    if |s| > 0 {
      NoneBelow(s[1..], v);
    }
  }

  lemma {:induction false} CountAppend(s: seq<nat>, t: nat, v: nat)
    ensures CountBelow(s + [t], v) == CountBelow(s, v) + (if t < v then 1 else 0)
  {
    if |s| == 0 {
      assert s + [t] == [t];
    } else {
      CountAppend(s[1..], t, v);
      assert (s + [t])[1..] == s[1..] + [t];
    }
  }

  /** The median is at least v exactly when at most half of the window lies below v. */
  lemma MedianRank(times: seq<nat>, v: nat)
    requires |times| > 0
    ensures MedianTimePast(times) >= v <==> CountBelow(Window(times), v) <= |Window(times)| / 2
  {
    var w := Window(times);
    SortSorts(w);
    SortCount(w, v);
    RankOfEntry(Sort(w), |w| / 2, v);
  }

  /** Appending a block later than the median never lowers it, whether the window grows or slides. */
  lemma MedianStep(times: seq<nat>, t: nat)
    requires |times| > 0 && t > MedianTimePast(times)
    ensures MedianTimePast(times + [t]) >= MedianTimePast(times)
  {
    var v, w := MedianTimePast(times), Window(times);
    MedianRank(times, v);
    MedianRank(times + [t], v);
    if |times| < MEDIAN_TIME_SPAN {
      CountAppend(times, t, v);
    } else {
      assert Window(times + [t]) == w[1..] + [t];
      CountAppend(w[1..], t, v);
    }
  }

  /** Every block is later than the median of the blocks before it. */
  ghost predicate AfterMedian(times: seq<nat>)
  {
    forall i :: 1 <= i < |times| ==> times[i] > MedianTimePast(times[..i])
  }

  /** Along such a chain median time past never decreases. */
  lemma {:induction false} MedianMonotone(times: seq<nat>, i: nat, j: nat)
    requires AfterMedian(times) && 1 <= i <= j <= |times|
    ensures MedianTimePast(times[..i]) <= MedianTimePast(times[..j])
  {
    hide MedianTimePast;
    if i < j {
      MedianMonotone(times, i, j - 1);
      assert times[..j] == times[..j - 1] + [times[j - 1]];
      MedianStep(times[..j - 1], times[j - 1]);
    }
  }

  /** Every block above height one is strictly later than block one. */
  lemma LaterThanBlockOne(times: seq<nat>, k: nat)
    requires AfterMedian(times) && 2 <= k < |times|
    ensures times[k] > times[1]
  {
    hide MedianTimePast;
    MedianMonotone(times, 2, k);
    FirstTwo(times);
  }

  lemma FirstTwo(times: seq<nat>)
    requires AfterMedian(times) && |times| >= 2
    ensures MedianTimePast(times[..2]) == times[1]
  {
    assert times[..1] == [times[0]] && times[..2] == [times[0], times[1]];
    assert Sort([times[0]]) == [times[0]];
    assert times[1] > MedianTimePast(times[..1]) == times[0];
    assert [times[0], times[1]][1..] == [times[1]];
    assert Sort([times[1]]) == [times[1]];
    assert Sort(times[..2]) == [times[0], times[1]];
  }
}
