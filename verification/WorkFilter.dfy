/** The anti-DoS work threshold and the total work of a batch, on limbs. */
module WorkFilter {
  import opened Bits
  import opened Limbs
  import opened ArithUint
  import opened Compact
  import opened Work
  import opened Primitives
  import opened TreeGrowth
  import opened HeaderChecks
  import opened SyncSpec

  lemma Subtracted(a: nat, b: nat)
    requires b <= a < TWO_256
    ensures (a - b) % TWO_256 == a - b
  {
  }

  lemma ThresholdIs(p: Params, tipWork: nat, tipBits: Word, buffer: nat)
    requires buffer == BlockProof(tipBits) * p.antiDosBufferBlocks % TWO_256
    ensures AntiDosThreshold(p, tipWork, tipBits, false) == Max(tipWork - Min(buffer, tipWork), p.minimumChainWork)
  {
    hide BlockProof;
  }

  /** GetAntiDoSWorkThreshold. */
  method GetAntiDoSWorkThreshold(p: Params, tipWork: U256, tipBits: Word, ibd: bool) returns (w: BaseUint)
    ensures fresh(w) && fresh(w.pn) && w.pn.Length == WIDTH_256
    ensures w.Value() == AntiDosThreshold(p, tipWork, tipBits, ibd)
  {
    hide Val, W, BlockProof, AntiDosThreshold;
    FullWeight();
    w := new BaseUint.Zero(WIDTH_256);
    if ibd {
      return;
    }
    var buffer := GetBlockProof(tipBits);
    buffer.MulU32(p.antiDosBufferBlocks);
    ThresholdIs(p, tipWork, tipBits, buffer.Value());
    var near := UintToArith256(tipWork);
    var order := near.CompareTo(buffer);
    var less := if order < 0 then near else buffer;
    var rest := new BaseUint.Copy(near);
    rest.SubAssign(less);
    Subtracted(tipWork, less.Value());
    var floor := UintToArith256(p.minimumChainWork);
    var below := rest.CompareTo(floor);
    return if below < 0 then floor else rest;
  }

  /** Whether the work of a block plus that of the headers after it stays below the threshold. */
  method BatchBelow(startWork: U256, headers: seq<Header>, threshold: BaseUint) returns (low: bool)
    requires threshold.pn.Length == WIDTH_256
    ensures low <==> AddWork(startWork, ProofSum(BitsOf(headers)) % TWO_256) < threshold.Value()
  {
    hide Val, W, ProofSum;
    FullWeight();
    var total := UintToArith256(startWork);
    var more := CalculateHeadersWork(BitsOf(headers));
    total.AddAssign(more);
    var order := total.CompareTo(threshold);
    return order < 0;
  }
}
