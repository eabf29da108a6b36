/** The wire format: what each message looks like in bytes and how bytes are read back. */
module Wire {
  import opened Bits
  import opened Compact
  import opened Primitives
  import opened Bytes
  import opened Protocol

  const HEADER_SIZE: nat := 100

  type U16 = x: nat | x < 0x1_0000
  type U64 = x: nat | x < 0x1_0000_0000_0000_0000
  type Int64 = x: int | -0x8000_0000_0000_0000 <= x < 0x8000_0000_0000_0000
  type Ip = s: seq<Byte> | |s| == 16 witness seq(16, _ => 0)

  datatype NetAddr = NetAddr(services: U64, ip: Ip, port: U16)
  datatype TimedAddr = TimedAddr(timestamp: Word, address: NetAddr)
  datatype InvItem = InvItem(kind: Word, hash: Hash)

  datatype Msg =
    | Version(version: Int32, services: U64, timestamp: Int64, recv: NetAddr, from: NetAddr, nonce: U64,
              userAgent: seq<Byte>, startHeight: Int32)
    | Verack
    | Ping(nonce: U64)
    | Pong(nonce: U64)
    | Addr(addresses: seq<TimedAddr>)
    | GetAddr
    | Inv(items: seq<InvItem>)
    | GetHeaders(protocol: Word, locator: seq<Hash>, stop: Hash)
    | Headers(headers: seq<Header>)

  /** The limits a receiver enforces. */
  predicate WithinLimits(m: Msg)
  {
    match m
    case Version(_, _, _, _, _, _, agent, _) => |agent| <= MAX_SUBVERSION_LENGTH
    case Addr(addresses) => |addresses| <= MAX_ADDR_SIZE
    case Inv(items) => |items| <= MAX_INV_SIZE
    case GetHeaders(_, locator, _) => |locator| <= MAX_LOCATOR_SZ
    case Headers(headers) => |headers| <= MAX_HEADERS_SIZE
    case _ => true
  }

  /** Lengths fit the counters they are written to, as every length in memory does. */
  predicate Countable(m: Msg)
  {
    match m
    case Version(_, _, _, _, _, _, agent, _) => |agent| < 0x1_0000_0000_0000_0000
    case Addr(addresses) => |addresses| < 0x1_0000_0000_0000_0000
    case Inv(items) => |items| < 0x1_0000_0000_0000_0000
    case GetHeaders(_, locator, _) => |locator| < 0x1_0000_0000_0000_0000
    case Headers(headers) => |headers| < 0x1_0000_0000_0000_0000
    case _ => true
  }

  // ---- Writing ----

  function VarIntBytes(x: U64): (s: seq<Byte>)
    ensures 1 <= |s| <= 9
    ensures x <= 0xffff ==> |s| <= 3
  {
    if x < 0xfd then [x]
    else if x <= 0xffff then [0xfd] + LeBytes(x, 2)
    else if x <= 0xffff_ffff then [0xfe] + LeBytes(x, 4)
    else [0xff] + LeBytes(x, 8)
  }

  /** The unsigned 32-bit word with the same bits. */
  function Bits32(x: Int32): (w: Word)
  {
    if x < 0 then x + 0x1_0000_0000 else x
  }

  function Signed32(w: Word): (x: Int32)
    ensures Bits32(x) == w
  {
    if w < 0x8000_0000 then w else w - 0x1_0000_0000
  }

  function Bits64(x: Int64): (w: U64)
  {
    if x < 0 then x + 0x1_0000_0000_0000_0000 else x
  }

  function Signed64(w: U64): (x: Int64)
    ensures Bits64(x) == w
  {
    if w < 0x8000_0000_0000_0000 then w else w - 0x1_0000_0000_0000_0000
  }

  function AddrBytes(a: NetAddr): (s: seq<Byte>)
    ensures |s| == 26
  {
    LeBytes(a.services, 8) + a.ip + BeBytes(a.port, 2)
  }

  function TimedAddrBytes(a: TimedAddr): (s: seq<Byte>)
    ensures |s| == 30
  {
    LeBytes(a.timestamp, 4) + AddrBytes(a.address)
  }

  function InvBytes(i: InvItem): (s: seq<Byte>)
    ensures |s| == 36
  {
    LeBytes(i.kind, 4) + BeBytes(i.hash, 32)
  }

  function HashBytes(h: Hash): (s: seq<Byte>)
    ensures |s| == 32
  {
    BeBytes(h, 32)
  }

  /** SerializeFixed: the hundred bytes of a block header. */
  function HeaderBytes(h: Header): (s: seq<Byte>)
    ensures |s| == HEADER_SIZE
  {
    LeBytes(Bits32(h.version), 4) + BeBytes(h.prev, 32) + BeBytes(h.miner, 20) + LeBytes(h.time, 4)
    + LeBytes(h.bits, 4) + LeBytes(h.nonce, 4) + BeBytes(h.randomx, 32)
  }

  function Many<T>(write: T -> seq<Byte>, xs: seq<T>): (s: seq<Byte>)
  {
    if xs == [] then [] else Many(write, xs[..|xs| - 1]) + write(xs[|xs| - 1])
  }

  function Payload(m: Msg): (s: seq<Byte>)
    requires Countable(m)
  {
    match m
    case Version(v, services, timestamp, recv, from, nonce, agent, height) =>
      LeBytes(Bits32(v), 4) + LeBytes(services, 8) + LeBytes(Bits64(timestamp), 8) + AddrBytes(recv) + AddrBytes(from)
      + LeBytes(nonce, 8) + VarIntBytes(|agent|) + agent + LeBytes(Bits32(height), 4)
    case Verack => []
    case Ping(nonce) => LeBytes(nonce, 8)
    case Pong(nonce) => LeBytes(nonce, 8)
    case Addr(addresses) => VarIntBytes(|addresses|) + Many(TimedAddrBytes, addresses)
    case GetAddr => []
    case Inv(items) => VarIntBytes(|items|) + Many(InvBytes, items)
    case GetHeaders(v, locator, stop) =>
      LeBytes(v, 4) + VarIntBytes(|locator|) + Many(HashBytes, locator) + HashBytes(stop)
    case Headers(headers) => VarIntBytes(|headers|) + Many(HeaderBytes, headers)
  }

  // ---- Reading ----

  /** Reading fails, or gives a value and what is left. */
  datatype Read<+T> = Fail | Got(value: T, rest: seq<Byte>)

  function TakeBytes(s: seq<Byte>, n: nat): (r: Read<seq<Byte>>)
    ensures r.Got? ==> |r.value| == n
  {
    if |s| < n then Fail else Got(s[..n], s[n..])
  }

  function TakeLe(s: seq<Byte>, n: nat): (r: Read<nat>)
    ensures r.Got? ==> r.value < Pow256(n)
  {
    if |s| < n then Fail
    else
      LeInjective(s[..n]);
      Got(LeVal(s[..n]), s[n..])
  }

  function TakeBe(s: seq<Byte>, n: nat): (r: Read<nat>)
    ensures r.Got? ==> r.value < Pow256(n)
  {
    if |s| < n then Fail
    else
      BeInjective(s[..n]);
      Got(BeVal(s[..n]), s[n..])
  }

  function TakeU32(s: seq<Byte>): (r: Read<Word>)
  {
    PowersOf256();
    match TakeLe(s, 4)
    case Fail => Fail
    case Got(v, rest) => Got(v, rest)
  }

  function TakeU64(s: seq<Byte>): (r: Read<U64>)
  {
    PowersOf256();
    match TakeLe(s, 8)
    case Fail => Fail
    case Got(v, rest) => Got(v, rest)
  }

  function TakeHash(s: seq<Byte>): (r: Read<Hash>)
  {
    Pow256Of32();
    match TakeBe(s, 32)
    case Fail => Fail
    case Got(v, rest) => Got(v, rest)
  }

  lemma PowersOf256()
    ensures Pow256(2) == 0x1_0000 && Pow256(4) == 0x1_0000_0000 && Pow256(8) == 0x1_0000_0000_0000_0000
  {
    assert Pow256(8) == 0x1_0000_0000_0000_0000;
  }

  /** VarInt::decode, with the size limit read_varint adds. */
  function TakeVarInt(s: seq<Byte>): (r: Read<nat>)
    ensures r.Got? ==> r.value <= MAX_SIZE
  {
    if |s| < 1 then Fail
    else
      var r := if s[0] < 0xfd then Got(s[0] as nat, s[1..])
               else if s[0] == 0xfd then TakeLe(s[1..], 2)
               else if s[0] == 0xfe then TakeLe(s[1..], 4)
               else TakeLe(s[1..], 8);
      if r.Fail? || r.value > MAX_SIZE then Fail else r
  }

  lemma VarIntRoundTrip(x: nat, tail: seq<Byte>)
    requires x <= MAX_SIZE
    ensures TakeVarInt(VarIntBytes(x) + tail) == Got(x, tail)
  {
    hide LeBytes, TakeLe, Pow256;
    PowersOf256();
    var s := VarIntBytes(x) + tail;
    if x < 0xfd {
      assert s[1..] == tail;
    } else {
      var n := if x <= 0xffff then 2 else 4;
      LeTake(x, n, tail);
      assert s[1..] == LeBytes(x, n) + tail;
    }
  }

  lemma LeTake(x: nat, n: nat, tail: seq<Byte>)
    requires x < Pow256(n)
    ensures TakeLe(LeBytes(x, n) + tail, n) == Got(x, tail)
  {
    hide LeBytes, LeVal;
    var s := LeBytes(x, n) + tail;
    assert s[..n] == LeBytes(x, n) && s[n..] == tail;
    LeRoundTrip(x, n);
  }

  lemma BeTake(x: nat, n: nat, tail: seq<Byte>)
    requires x < Pow256(n)
    ensures TakeBe(BeBytes(x, n) + tail, n) == Got(x, tail)
  {
    hide BeBytes, BeVal;
    var s := BeBytes(x, n) + tail;
    assert s[..n] == BeBytes(x, n) && s[n..] == tail;
    BeRoundTrip(x, n);
  }

  lemma BytesTake(b: seq<Byte>, tail: seq<Byte>)
    ensures TakeBytes(b + tail, |b|) == Got(b, tail)
  {
    var s := b + tail;
    assert s[..|b|] == b && s[|b|..] == tail;
  }

  function TakeAddr(s: seq<Byte>): (r: Read<NetAddr>)
  {
    PowersOf256();
    match TakeU64(s)
    case Fail => Fail
    case Got(services, s1) =>
      match TakeBytes(s1, 16)
      case Fail => Fail
      case Got(ip, s2) =>
        match TakeBe(s2, 2)
        case Fail => Fail
        case Got(port, s3) => Got(NetAddr(services, ip, port), s3)
  }

  lemma AddrRoundTrip(a: NetAddr, tail: seq<Byte>)
    ensures TakeAddr(AddrBytes(a) + tail) == Got(a, tail)
  {
    hide LeBytes, BeBytes, TakeLe, TakeBe;
    PowersOf256();
    var s3 := BeBytes(a.port, 2) + tail;
    var s2 := a.ip + s3;
    assert AddrBytes(a) + tail == LeBytes(a.services, 8) + s2;
    LeTake(a.services, 8, s2);
    BytesTake(a.ip, s3);
    BeTake(a.port, 2, tail);
  }

  function TakeTimedAddr(s: seq<Byte>): (r: Read<TimedAddr>)
  {
    match TakeU32(s)
    case Fail => Fail
    case Got(t, s1) =>
      match TakeAddr(s1)
      case Fail => Fail
      case Got(a, s2) => Got(TimedAddr(t, a), s2)
  }

  lemma TimedAddrRoundTrip(a: TimedAddr, tail: seq<Byte>)
    ensures TakeTimedAddr(TimedAddrBytes(a) + tail) == Got(a, tail)
  {
    hide LeBytes, AddrBytes, TakeLe, TakeAddr;
    PowersOf256();
    var s1 := AddrBytes(a.address) + tail;
    assert TimedAddrBytes(a) + tail == LeBytes(a.timestamp, 4) + s1;
    LeTake(a.timestamp, 4, s1);
    AddrRoundTrip(a.address, tail);
  }

  function TakeInv(s: seq<Byte>): (r: Read<InvItem>)
  {
    match TakeU32(s)
    case Fail => Fail
    case Got(kind, s1) =>
      match TakeHash(s1)
      case Fail => Fail
      case Got(h, s2) => Got(InvItem(kind, h), s2)
  }

  lemma HashTake(h: Hash, tail: seq<Byte>)
    ensures TakeHash(HashBytes(h) + tail) == Got(h, tail)
  {
    hide BeBytes, TakeBe;
    Pow256Of32();
    BeTake(h, 32, tail);
  }

  lemma InvRoundTrip(i: InvItem, tail: seq<Byte>)
    ensures TakeInv(InvBytes(i) + tail) == Got(i, tail)
  {
    hide LeBytes, BeBytes, TakeLe, TakeHash;
    PowersOf256();
    var s1 := HashBytes(i.hash) + tail;
    assert InvBytes(i) + tail == LeBytes(i.kind, 4) + s1;
    LeTake(i.kind, 4, s1);
    HashTake(i.hash, tail);
  }

  /** Deserialize: reads the fields of a block header at their fixed offsets. */
  function ParseHeader(b: seq<Byte>): (h: Header)
    requires |b| == HEADER_SIZE
  {
    FieldBounds(b);
    Header(Signed32(LeVal(b[..4])), BeVal(b[4..36]), BeVal(b[36..56]), LeVal(b[56..60]), LeVal(b[60..64]),
           LeVal(b[64..68]), BeVal(b[68..]))
  }

  lemma FieldBounds(b: seq<Byte>)
    requires |b| == HEADER_SIZE
    ensures LeVal(b[..4]) < 0x1_0000_0000 && LeVal(b[56..60]) < 0x1_0000_0000 && LeVal(b[60..64]) < 0x1_0000_0000
    ensures LeVal(b[64..68]) < 0x1_0000_0000 && BeVal(b[4..36]) < TWO_256 && BeVal(b[68..]) < TWO_256
    ensures BeVal(b[36..56]) < 0x1_0000_0000_0000_0000_0000_0000_0000_0000_0000_0000
  {
    hide LeVal, BeVal, Pow256;
    PowersOf256();
    Pow256Of32();
    Pow256Of20();
    LeInjective(b[..4]);
    LeInjective(b[56..60]);
    LeInjective(b[60..64]);
    LeInjective(b[64..68]);
    BeInjective(b[4..36]);
    BeInjective(b[36..56]);
    BeInjective(b[68..]);
  }

  /** The fields of a serialised header sit where Deserialize looks for them. */
  lemma HeaderLayout(h: Header)
    ensures var b := HeaderBytes(h);
            && b[..4] == LeBytes(Bits32(h.version), 4) && b[4..36] == BeBytes(h.prev, 32)
            && b[36..56] == BeBytes(h.miner, 20) && b[56..60] == LeBytes(h.time, 4)
            && b[60..64] == LeBytes(h.bits, 4) && b[64..68] == LeBytes(h.nonce, 4) && b[68..] == BeBytes(h.randomx, 32)
  {
    hide LeBytes, BeBytes;
  }

  lemma HeaderRoundTrip(h: Header)
    ensures ParseHeader(HeaderBytes(h)) == h
  {
    hide LeBytes, BeBytes, LeVal, BeVal, Pow256, HeaderBytes;
    PowersOf256();
    Pow256Of32();
    Pow256Of20();
    HeaderLayout(h);
    LeRoundTrip(Bits32(h.version), 4);
    BeRoundTrip(h.prev, 32);
    BeRoundTrip(h.miner, 20);
    LeRoundTrip(h.time, 4);
    LeRoundTrip(h.bits, 4);
    LeRoundTrip(h.nonce, 4);
    BeRoundTrip(h.randomx, 32);
  }

  /** Different headers never serialise to the same bytes, so the hash sees every field. */
  lemma HeaderBytesInjective(g: Header, h: Header)
    requires HeaderBytes(g) == HeaderBytes(h)
    ensures g == h
  {
    hide HeaderBytes, ParseHeader;
    HeaderRoundTrip(g);
    HeaderRoundTrip(h);
  }

  function TakeHeader(s: seq<Byte>): (r: Read<Header>)
  {
    match TakeBytes(s, HEADER_SIZE)
    case Fail => Fail
    case Got(b, rest) => Got(ParseHeader(b), rest)
  }

  lemma TakeHeaderRoundTrip(h: Header, tail: seq<Byte>)
    ensures TakeHeader(HeaderBytes(h) + tail) == Got(h, tail)
  {
    hide HeaderBytes, ParseHeader;
    BytesTake(HeaderBytes(h), tail);
    HeaderRoundTrip(h);
  }

  // ---- Lists ----

  function TakeMany<T>(take: seq<Byte> -> Read<T>, n: nat, s: seq<Byte>): (r: Read<seq<T>>)
  {
    if n == 0 then Got([], s)
    else
      match TakeMany(take, n - 1, s)
      case Fail => Fail
      case Got(xs, rest) =>
        match take(rest)
        case Fail => Fail
        case Got(x, rest') => Got(xs + [x], rest')
  }

  lemma {:induction false} ManyRoundTrip<T(!new)>(write: T -> seq<Byte>, take: seq<Byte> -> Read<T>, xs: seq<T>, tail: seq<Byte>)
    requires forall x: T, t: seq<Byte> :: take(write(x) + t) == Got(x, t)
    ensures TakeMany(take, |xs|, Many(write, xs) + tail) == Got(xs, tail)
    decreases |xs|
  {
    if xs == [] {
      assert Many(write, xs) + tail == tail;
    } else {
      var n := |xs| - 1;
      var last := write(xs[n]) + tail;
      assert Many(write, xs) + tail == Many(write, xs[..n]) + last;
      ManyRoundTrip(write, take, xs[..n], last);
      assert xs == xs[..n] + [xs[n]];
    }
  }
}
