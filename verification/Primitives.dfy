/** Values shared by the whole node: hashes, headers, consensus parameters and the unseen hash functions. */
module Primitives {
  import opened Bits
  import opened Compact

  datatype Option<+T> = None | Some(value: T)

  type Int32 = x: int | -0x8000_0000 <= x < 0x8000_0000

  /** A uint256 read as the big-endian number its bytes spell, so that `<` is the byte-wise operator<. */
  type Hash = h: nat | h < TWO_256

  /** A uint256 read as the number its little-endian bytes spell. */
  type U256 = x: nat | x < TWO_256

  type Hash160 = h: nat | h < 0x1_0000_0000_0000_0000_0000_0000_0000_0000_0000_0000

  const NULL_HASH: Hash := 0

  datatype Header = Header(
    version: Int32, prev: Hash, miner: Hash160, time: Word, bits: Word, nonce: Word, randomx: Hash)

  /** The parts of header validation whose code is not modelled: block hash and RandomX verdicts. */
  datatype Oracle = Oracle(hash: Header -> Hash, commitmentOk: Header -> bool, randomxOk: Header -> bool)

  datatype ChainType = Main | Testnet | Regtest

  datatype Params = Params(
    chainType: ChainType,
    powLimit: U256,
    spacing: nat,
    halfLife: nat,
    anchorHeight: nat,
    genesisHash: Hash,
    minimumChainWork: U256,
    expirationInterval: int,
    orphanExpireTime: int,
    suspiciousReorgDepth: int,
    antiDosBufferBlocks: Word)

  /** The first of the hashes in their order. */
  method Smallest(s: set<Hash>) returns (m: Hash)
    requires s != {}
    ensures m in s && forall h :: h in s ==> m <= h
  {
    m :| m in s;
    var rest := s - {m};
    while rest != {}
      invariant m in s && rest <= s && forall h :: h in s && h !in rest ==> m <= h
      decreases |rest|
    {
      var h :| h in rest;
      rest := rest - {h};
      if h < m {
        m := h;
      }
    }
  }
}
