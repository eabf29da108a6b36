/** Contextual header checks on the block tree, down to the limb arithmetic. */
module HeaderChecks {
  import opened Bits
  import opened Limbs
  import opened ArithUint
  import opened Compact
  import opened Work
  import opened Asert
  import opened Primitives
  import opened MedianTime
  import opened Validation
  import opened BlockTree
  import opened SkipList
  import opened ActiveChain

  /** UintToArith256: splits a 256-bit number into limbs. */
  method UintToArith256(x: U256) returns (u: BaseUint)
    ensures fresh(u) && fresh(u.pn) && u.pn.Length == WIDTH_256 && u.Value() == x
  {
    hide Val, W;
    u := new BaseUint.Zero(WIDTH_256);
    var rest: nat := x;
    EmptyValue(u.pn[..]);
    for i := 0 to WIDTH_256
      invariant fresh(u) && fresh(u.pn)
      invariant x == Val(u.pn[..i]) + W(i) * rest
    {
      ghost var low := u.pn[..i];
      u.pn[i] := rest % BASE;
      assert u.pn[..i] == low && u.pn[..i + 1] == u.pn[..][..i + 1] && u.pn[..][..i] == low;
      ValPrefix(u.pn[..], i);
      WStep(i);
      LimbPeeled(x, Val(low), W(i), rest, rest % BASE, rest / BASE);
      rest := rest / BASE;
    }
    assert u.pn[..WIDTH_256] == u.pn[..];
    FullWeight();
    NothingLeft(x, Val(u.pn[..]), rest);
  }

  lemma LimbPeeled(x: int, low: int, w: int, rest: int, digit: int, next: int)
    requires x == low + w * rest && rest == next * BASE + digit
    ensures x == low + digit * w + (BASE * w) * next
  {
  }

  lemma NothingLeft(x: nat, v: nat, rest: nat)
    requires x < TWO_256 && x == v + TWO_256 * rest
    ensures x == v
  {
  }

  /** GetNextWorkRequired for the child of prev; None where an assertion would abort the node. */
  method GetNextWorkRequired(p: Params, idx: Index, prev: Hash) returns (w: Option<nat>)
    requires Linked(idx) && SkipsCorrect(idx) && prev in idx
    ensures w == NextWorkRequired(p, Headers(idx, prev))
  {
    hide Path, Linked, SkipsCorrect, Encode, TrueValue, Drift, ShiftsFit, Target;
    ghost var hs := Headers(idx, prev);
    var limit := UintToArith256(p.powLimit);
    if p.chainType == Regtest || idx[prev].height < p.anchorHeight {
      var bits := GetCompact(limit, false);
      return Some(bits);
    }
    var anchor := GetAncestor(idx, prev, p.anchorHeight);
    var target := new BaseUint.Zero(WIDTH_256);
    var _, _ := SetCompact(target, idx[anchor.value].header.bits);
    var timeDiff := (idx[prev].header.time as int - idx[anchor.value].header.time as int) % 0x1_0000_0000;
    var heightDiff := idx[prev].height - p.anchorHeight;
    assert hs[p.anchorHeight] == idx[anchor.value].header && hs[|hs| - 1] == idx[prev].header;
    assert target.Value() == AnchorTarget(p, hs) && timeDiff == TimeDiff(p, hs) && heightDiff == HeightDiff(p, hs);
    var zero := new BaseUint.Zero(WIDTH_256);
    var positive := target.CompareTo(zero);
    var within := target.CompareTo(limit);
    var drift := Drift(timeDiff, heightDiff, p.spacing);
    if positive <= 0 || within > 0 || heightDiff < 0 || !(-0x8000_0000_0000 < drift < 0x8000_0000_0000)
       || !ShiftsFit(drift, p.halfLife)
    {
      return None;
    }
    w := AsertBits(p, target, timeDiff, heightDiff, limit);
  }

  method AsertBits(p: Params, target: BaseUint, timeDiff: int, heightDiff: int, limit: BaseUint) returns (w: Option<nat>)
    requires target.pn.Length == WIDTH_256 == limit.pn.Length && limit.Value() == p.powLimit
    requires 0 < target.Value() <= p.powLimit && heightDiff >= 0
    requires -0x8000_0000_0000 < Drift(timeDiff, heightDiff, p.spacing) < 0x8000_0000_0000
    requires ShiftsFit(Drift(timeDiff, heightDiff, p.spacing), p.halfLife)
    ensures var t := Target(target.Value(), p.spacing, timeDiff, heightDiff, p.powLimit, p.halfLife);
            w == Some(Encode(if t < 0 then 0 else t))
  {
    hide Encode, Drift, Target, Val;
    assert p.halfLife > 0;
    var next := CalculateAsert(target, p.spacing, timeDiff, heightDiff, limit, p.halfLife);
    ValueNonNegative(next);
    var bits := GetCompact(next, false);
    return Some(bits);
  }

  lemma ValueNonNegative(u: BaseUint)
    ensures u.Value() >= 0
  {
  }

  /** ContextualCheckBlockHeader against an indexed parent. */
  method ContextualCheckBlockHeader(p: Params, idx: Index, prev: Hash, header: Header, now: int)
    returns (r: Option<Reject>)
    requires Linked(idx) && SkipsCorrect(idx) && prev in idx
    ensures r == ContextualCheck(p, Headers(idx, prev), header, now)
  {
    hide Path, Linked, SkipsCorrect, NextWorkRequired, MedianTimePast;
    var expected := GetNextWorkRequired(p, idx, prev);
    if Some(header.bits) != expected {
      return Some(BadDiffbits);
    }
    var median := GetMedianTimePast(idx, prev);
    if header.time <= median {
      return Some(TimeTooOld);
    }
    if header.time > now + MAX_FUTURE_BLOCK_TIME {
      return Some(TimeTooNew);
    }
    if header.version < 1 {
      return Some(BadVersion);
    }
    if p.expirationInterval > 0 && idx[prev].height + 1 >= p.expirationInterval {
      return Some(NetworkExpired);
    }
    return None;
  }
}
