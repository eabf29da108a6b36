/** Contextual header validation, as a function of the chain of headers up to the parent. */
module Validation {
  import opened Bits
  import opened Compact
  import opened Work
  import opened Asert
  import opened Primitives
  import opened MedianTime

  const MAX_FUTURE_BLOCK_TIME: int := 2 * 60 * 60

  datatype Reject =
    | Duplicate | HighHash | BadGenesis | GenesisViaAccept | PrevNotFound | BadPrev
    | BadDiffbits | TimeTooOld | TimeTooNew | BadVersion | NetworkExpired | TooLittleChainwork

  /** Block times along a chain of headers. */
  function Times(hs: seq<Header>): (t: seq<nat>)
    ensures |t| == |hs| && forall i :: 0 <= i < |hs| ==> t[i] == hs[i].time
  {
    seq(|hs|, i requires 0 <= i < |hs| => hs[i].time)
  }

  /** The unsigned 32-bit difference between the parent's and the anchor's time. */
  function TimeDiff(p: Params, hs: seq<Header>): (d: int)
    requires p.anchorHeight < |hs|
  {
    (hs[|hs| - 1].time as int - hs[p.anchorHeight].time as int) % 0x1_0000_0000
  }

  function HeightDiff(p: Params, hs: seq<Header>): (d: int)
  {
    |hs| - 1 - p.anchorHeight
  }

  /** The anchor's target, read without looking at the flags. */
  function AnchorTarget(p: Params, hs: seq<Header>): (t: nat)
    requires p.anchorHeight < |hs|
  {
    TrueValue(hs[p.anchorHeight].bits) % TWO_256
  }

  /** The assertions in CalculateASERT and the range of its shift counts. */
  predicate AsertAsserts(p: Params, hs: seq<Header>)
    requires p.anchorHeight < |hs|
  {
    var drift := Drift(TimeDiff(p, hs), HeightDiff(p, hs), p.spacing);
    && 0 < AnchorTarget(p, hs) <= p.powLimit
    && HeightDiff(p, hs) >= 0
    && -0x8000_0000_0000 < drift < 0x8000_0000_0000
    && ShiftsFit(drift, p.halfLife)
  }

  predicate UsesAsert(p: Params, hs: seq<Header>)
  {
    |hs| > 0 && p.chainType != Regtest && p.anchorHeight < |hs|
  }

  function NextTarget(p: Params, hs: seq<Header>): (t: int)
    requires UsesAsert(p, hs) && p.halfLife > 0
  {
    Target(AnchorTarget(p, hs), p.spacing, TimeDiff(p, hs), HeightDiff(p, hs), p.powLimit, p.halfLife)
  }

  /** GetNextWorkRequired for the block after hs; None where an assertion would abort the node. */
  function NextWorkRequired(p: Params, hs: seq<Header>): (w: Option<nat>)
  {
    if !UsesAsert(p, hs) then Some(Encode(p.powLimit))
    else if AsertAsserts(p, hs) then
      var t := NextTarget(p, hs);
      Some(Encode(if t < 0 then 0 else t))
    else None
  }

  /** ContextualCheckBlockHeader; None means the header passes. */
  function ContextualCheck(p: Params, hs: seq<Header>, h: Header, adjustedTime: int): (r: Option<Reject>)
  {
    if NextWorkRequired(p, hs) != Some(h.bits) then Some(BadDiffbits)
    else if |hs| > 0 && h.time <= MedianTimePast(Times(hs)) then Some(TimeTooOld)
    else if h.time > adjustedTime + MAX_FUTURE_BLOCK_TIME then Some(TimeTooNew)
    else if h.version < 1 then Some(BadVersion)
    else if p.expirationInterval > 0 && |hs| >= p.expirationInterval then Some(NetworkExpired)
    else None
  }

  /** CheckProofOfWork in commitment-only mode: the bits must decode, then the commitment must meet them. */
  predicate CommitmentPow(o: Oracle, h: Header)
  {
    ValidBits(h.bits) && o.commitmentOk(h)
  }

  /** CheckProofOfWork in full mode. */
  predicate FullPow(o: Oracle, h: Header)
  {
    CommitmentPow(o, h) && o.randomxOk(h)
  }

  /** Every header after the first carried the required bits and a time after the median. */
  ghost predicate AcceptedChain(p: Params, hs: seq<Header>)
  {
    && |hs| > 0
    && forall i :: 1 <= i < |hs| ==>
                     NextWorkRequired(p, hs[..i]) == Some(hs[i].bits) && hs[i].time > MedianTimePast(Times(hs[..i]))
  }

  /** Parameter ranges under which the difficulty code is total; mainnet and testnet meet them. */
  predicate SaneParams(p: Params)
  {
    && 0 < p.powLimit < TWO_256
    && p.anchorHeight == 1
    && p.halfLife > 0
    && p.spacing * 0x8000_0000 < 0x4000_0000_0000
    && p.spacing * 0x8000_0000 <= 0x7fff_0000 * p.halfLife
    && 0x1_0000_0000 <= 0x7fff_0000 * p.halfLife
  }

  lemma TimesAfterMedian(p: Params, hs: seq<Header>)
    requires AcceptedChain(p, hs)
    ensures AfterMedian(Times(hs))
  {
    hide NextWorkRequired, MedianTimePast;
    forall i | 1 <= i < |hs|
      ensures Times(hs)[i] > MedianTimePast(Times(hs)[..i])
    {
      assert Times(hs)[..i] == Times(hs[..i]);
    }
  }

  /** On an accepted chain the subtraction giving nTimeDiff never wraps around. */
  lemma TimeDiffNeverWraps(p: Params, hs: seq<Header>)
    requires p.anchorHeight == 1 < |hs| && AcceptedChain(p, hs)
    ensures TimeDiff(p, hs) == hs[|hs| - 1].time as int - hs[1].time as int
    ensures |hs| > 2 ==> TimeDiff(p, hs) > 0
  {
    hide NextWorkRequired, MedianTimePast;
    TimesAfterMedian(p, hs);
    if |hs| > 2 {
      LaterThanBlockOne(Times(hs), |hs| - 1);
    }
  }

  /** The anchor's bits are the encoded limit, so its target is positive and within the limit. */
  lemma AnchorWithinLimit(p: Params, hs: seq<Header>)
    requires SaneParams(p) && UsesAsert(p, hs) && AcceptedChain(p, hs)
    ensures 0 < AnchorTarget(p, hs) <= p.powLimit
  {
    hide TrueValue, Encode, Negative, Overflow, MedianTimePast;
    assert NextWorkRequired(p, hs[..1]) == Some(hs[1].bits);
    assert !UsesAsert(p, hs[..1]);
    CompactRoundTrip(p.powLimit);
  }

  lemma DriftInRange(p: Params, timeDiff: int, heightDiff: int)
    requires SaneParams(p) && 0 <= timeDiff < 0x1_0000_0000 && 0 <= heightDiff < 0x7fff_ffff
    ensures -0x8000_0000_0000 < Drift(timeDiff, heightDiff, p.spacing) < 0x8000_0000_0000
    ensures ShiftsFit(Drift(timeDiff, heightDiff, p.spacing), p.halfLife)
  {
    MulMono(heightDiff + 1, 0x8000_0000, p.spacing);
    MulMono(0, heightDiff + 1, p.spacing);
  }

  /**
   * On every accepted chain of at most 2^31 headers none of the difficulty assertions can fail, and
   * the bits required of the next block decode to a target between one and the limit.
   */
  lemma DifficultyIsTotal(p: Params, hs: seq<Header>)
    requires SaneParams(p) && AcceptedChain(p, hs) && |hs| <= 0x8000_0000
    ensures UsesAsert(p, hs) ==> AsertAsserts(p, hs)
    ensures NextWorkRequired(p, hs).Some?
    ensures var w := NextWorkRequired(p, hs).value;
            w < 0x1_0000_0000 && ValidBits(w) && TrueValue(w) <= p.powLimit
  {
    hide TrueValue, Encode, Negative, Overflow, MedianTimePast, Drift, ShiftsFit, RawTarget, FixedExponent, AcceptedChain;
    if UsesAsert(p, hs) {
      AnchorWithinLimit(p, hs);
      TimeDiffNeverWraps(p, hs);
      DriftInRange(p, TimeDiff(p, hs), HeightDiff(p, hs));
      CompactRoundTrip(NextTarget(p, hs));
    } else {
      CompactRoundTrip(p.powLimit);
    }
  }

  function MainnetParams(genesis: Hash): (p: Params)
  {
    Params(Main, 0x000fffff00000000000000000000000000000000000000000000000000000000, 3600, 172800, 1, genesis,
           0, 0, 21600, 2, 6)
  }

  function TestnetParams(genesis: Hash): (p: Params)
  {
    Params(Testnet, 0x007fffff00000000000000000000000000000000000000000000000000000000, 120, 3600, 1, genesis,
           0, 2160, 720, 100, 144)
  }

  lemma ShippedParamsAreSane(genesis: Hash)
    ensures SaneParams(MainnetParams(genesis)) && SaneParams(TestnetParams(genesis))
  {
  }
}
