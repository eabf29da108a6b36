/** Message payloads: what each kind of message is on the wire, and that decoding undoes encoding. */
module Messages {
  import opened Bits
  import opened Compact
  import opened Primitives
  import opened Bytes
  import opened Protocol
  import opened Wire

  datatype Kind =
    VersionKind | VerackKind | PingKind | PongKind | AddrKind | GetAddrKind | InvKind | GetHeadersKind | HeadersKind

  /** The command text of each kind, as ASCII codes. */
  function Name(k: Kind): (s: seq<Byte>)
    ensures 3 <= |s| <= 10
  {
    match k
    case VersionKind => [118, 101, 114, 115, 105, 111, 110]
    case VerackKind => [118, 101, 114, 97, 99, 107]
    case PingKind => [112, 105, 110, 103]
    case PongKind => [112, 111, 110, 103]
    case AddrKind => [97, 100, 100, 114]
    case GetAddrKind => [103, 101, 116, 97, 100, 100, 114]
    case InvKind => [105, 110, 118]
    case GetHeadersKind => [103, 101, 116, 104, 101, 97, 100, 101, 114, 115]
    case HeadersKind => [104, 101, 97, 100, 101, 114, 115]
  }

  /** create_message: the kind a command names. */
  function KindOf(name: seq<Byte>): (k: Option<Kind>)
  {
    if name == Name(VersionKind) then Some(VersionKind)
    else if name == Name(VerackKind) then Some(VerackKind)
    else if name == Name(PingKind) then Some(PingKind)
    else if name == Name(PongKind) then Some(PongKind)
    else if name == Name(AddrKind) then Some(AddrKind)
    else if name == Name(GetAddrKind) then Some(GetAddrKind)
    else if name == Name(InvKind) then Some(InvKind)
    else if name == Name(GetHeadersKind) then Some(GetHeadersKind)
    else if name == Name(HeadersKind) then Some(HeadersKind)
    else None
  }

  /** Commands are told apart by their names. */
  lemma NameIdentifies(k: Kind)
    ensures KindOf(Name(k)) == Some(k)
  {
    NamesDiffer();
  }

  lemma NamesDiffer()
    ensures forall j: Kind, k: Kind :: Name(j) == Name(k) ==> j == k
  {
    forall j: Kind, k: Kind | Name(j) == Name(k)
      ensures j == k
    {
      assert |Name(j)| == |Name(k)| && Name(j)[0] == Name(k)[0] && Name(j)[1] == Name(k)[1];
    }
  }

  function MsgKind(m: Msg): (k: Kind)
  {
    match m
    case Version(_, _, _, _, _, _, _, _) => VersionKind
    case Verack => VerackKind
    case Ping(_) => PingKind
    case Pong(_) => PongKind
    case Addr(_) => AddrKind
    case GetAddr => GetAddrKind
    case Inv(_) => InvKind
    case GetHeaders(_, _, _) => GetHeadersKind
    case Headers(_) => HeadersKind
  }

  // ---- What a payload means ----

  function DecodeVersion(s: seq<Byte>): (r: Option<Msg>)
  {
    match TakeU32(s)
    case Fail => None
    case Got(v, s1) =>
      match TakeU64(s1)
      case Fail => None
      case Got(services, s2) =>
        match TakeU64(s2)
        case Fail => None
        case Got(timestamp, s3) =>
          match TakeAddr(s3)
          case Fail => None
          case Got(recv, s4) =>
            match TakeAddr(s4)
            case Fail => None
            case Got(from, s5) =>
              match TakeU64(s5)
              case Fail => None
              case Got(nonce, s6) =>
                match TakeAgent(s6)
                case Fail => None
                case Got(agent, s7) =>
                  match TakeU32(s7)
                  case Fail => None
                  case Got(height, _) =>
                    Some(Version(Signed32(v), services, Signed64(timestamp), recv, from, nonce, agent, Signed32(height)))
  }

  /** read_string with the user agent limit. */
  function TakeAgent(s: seq<Byte>): (r: Read<seq<Byte>>)
  {
    match TakeVarInt(s)
    case Fail => Fail
    case Got(n, s1) => if n > MAX_SUBVERSION_LENGTH then Fail else TakeBytes(s1, n)
  }

  /** A counted list with a limit on the count. */
  function TakeList<T>(take: seq<Byte> -> Read<T>, limit: nat, s: seq<Byte>): (r: Read<seq<T>>)
  {
    match TakeVarInt(s)
    case Fail => Fail
    case Got(n, s1) => if n > limit then Fail else TakeMany(take, n, s1)
  }

  function DecodeGetHeaders(s: seq<Byte>): (r: Option<Msg>)
  {
    match TakeU32(s)
    case Fail => None
    case Got(v, s1) =>
      match TakeList(TakeHash, MAX_LOCATOR_SZ, s1)
      case Fail => None
      case Got(locator, s2) =>
        match TakeHash(s2)
        case Fail => None
        case Got(stop, _) => Some(GetHeaders(v, locator, stop))
  }

  /** The message a payload of the given kind holds; bytes after it are ignored except where none are allowed. */
  function Decode(k: Kind, s: seq<Byte>): (r: Option<Msg>)
  {
    match k
    case VersionKind => DecodeVersion(s)
    case VerackKind => if s == [] then Some(Verack) else None
    case PingKind => (match TakeU64(s) case Fail => None case Got(nonce, _) => Some(Ping(nonce)))
    case PongKind => (match TakeU64(s) case Fail => None case Got(nonce, _) => Some(Pong(nonce)))
    case AddrKind =>
      (match TakeList(TakeTimedAddr, MAX_ADDR_SIZE, s) case Fail => None case Got(xs, _) => Some(Addr(xs)))
    case GetAddrKind => if s == [] then Some(GetAddr) else None
    case InvKind => (match TakeList(TakeInv, MAX_INV_SIZE, s) case Fail => None case Got(xs, _) => Some(Inv(xs)))
    case GetHeadersKind => DecodeGetHeaders(s)
    case HeadersKind =>
      (match TakeList(TakeHeader, MAX_HEADERS_SIZE, s) case Fail => None case Got(xs, _) => Some(Headers(xs)))
  }

  // ---- Round trips ----

  lemma ListRoundTrip<T(!new)>(write: T -> seq<Byte>, take: seq<Byte> -> Read<T>, limit: nat, xs: seq<T>, tail: seq<Byte>)
    requires |xs| <= limit <= MAX_SIZE
    requires forall x: T, t: seq<Byte> :: take(write(x) + t) == Got(x, t)
    ensures TakeList(take, limit, VarIntBytes(|xs|) + Many(write, xs) + tail) == Got(xs, tail)
  {
    hide VarIntBytes, TakeVarInt, TakeMany, Many;
    var rest := Many(write, xs) + tail;
    assert VarIntBytes(|xs|) + Many(write, xs) + tail == VarIntBytes(|xs|) + rest;
    VarIntRoundTrip(|xs|, rest);
    ManyRoundTrip(write, take, xs, tail);
  }

  lemma AgentRoundTrip(agent: seq<Byte>, tail: seq<Byte>)
    requires |agent| <= MAX_SUBVERSION_LENGTH
    ensures TakeAgent(VarIntBytes(|agent|) + (agent + tail)) == Got(agent, tail)
  {
    hide VarIntBytes, TakeVarInt;
    VarIntRoundTrip(|agent|, agent + tail);
    BytesTake(agent, tail);
  }

  lemma U32Take(w: Word, tail: seq<Byte>)
    ensures TakeU32(LeBytes(w, 4) + tail) == Got(w, tail)
  {
    hide LeBytes, TakeLe;
    PowersOf256();
    LeTake(w, 4, tail);
  }

  lemma U64Take(w: U64, tail: seq<Byte>)
    ensures TakeU64(LeBytes(w, 8) + tail) == Got(w, tail)
  {
    hide LeBytes, TakeLe;
    PowersOf256();
    LeTake(w, 8, tail);
  }

  lemma VersionRoundTrip(m: Msg)
    requires m.Version? && WithinLimits(m)
    ensures DecodeVersion(Payload(m)) == Some(m)
  {
    hide LeBytes, AddrBytes, VarIntBytes, TakeU32, TakeU64, TakeAddr, TakeAgent;
    var end: seq<Byte> := [];
    var s7 := LeBytes(Bits32(m.startHeight), 4) + end;
    var s6 := VarIntBytes(|m.userAgent|) + (m.userAgent + s7);
    var s5 := LeBytes(m.nonce, 8) + s6;
    var s4 := AddrBytes(m.from) + s5;
    var s3 := AddrBytes(m.recv) + s4;
    var s2 := LeBytes(Bits64(m.timestamp), 8) + s3;
    var s1 := LeBytes(m.services, 8) + s2;
    assert Payload(m) == LeBytes(Bits32(m.version), 4) + s1;
    U32Take(Bits32(m.version), s1);
    U64Take(m.services, s2);
    U64Take(Bits64(m.timestamp), s3);
    AddrRoundTrip(m.recv, s4);
    AddrRoundTrip(m.from, s5);
    U64Take(m.nonce, s6);
    AgentRoundTrip(m.userAgent, s7);
    U32Take(Bits32(m.startHeight), end);
    SignedInverse(m.version, m.timestamp);
    SignedInverse(m.startHeight, 0);
  }

  lemma SignedInverse(x: Int32, y: Int64)
    ensures Signed32(Bits32(x)) == x && Signed64(Bits64(y)) == y
  {
  }

  lemma GetHeadersRoundTrip(m: Msg)
    requires m.GetHeaders? && WithinLimits(m)
    ensures DecodeGetHeaders(Payload(m)) == Some(m)
  {
    hide LeBytes, HashBytes, VarIntBytes, TakeU32, TakeHash, TakeList, Many;
    var end: seq<Byte> := [];
    var s2 := HashBytes(m.stop) + end;
    var s1 := VarIntBytes(|m.locator|) + Many(HashBytes, m.locator) + s2;
    assert Payload(m) == LeBytes(m.protocol, 4) + s1;
    U32Take(m.protocol, s1);
    forall h: Hash, t: seq<Byte>
      ensures TakeHash(HashBytes(h) + t) == Got(h, t)
    {
      HashTake(h, t);
    }
    ListRoundTrip(HashBytes, TakeHash, MAX_LOCATOR_SZ, m.locator, s2);
    HashTake(m.stop, end);
  }

  lemma AddrListRoundTrip(xs: seq<TimedAddr>)
    requires |xs| <= MAX_ADDR_SIZE
    ensures TakeList(TakeTimedAddr, MAX_ADDR_SIZE, VarIntBytes(|xs|) + Many(TimedAddrBytes, xs)) == Got(xs, [])
  {
    hide TakeList, TakeTimedAddr, TimedAddrBytes, Many, VarIntBytes;
    forall x: TimedAddr, t: seq<Byte>
      ensures TakeTimedAddr(TimedAddrBytes(x) + t) == Got(x, t)
    {
      TimedAddrRoundTrip(x, t);
    }
    ListRoundTrip(TimedAddrBytes, TakeTimedAddr, MAX_ADDR_SIZE, xs, []);
    NoTail(VarIntBytes(|xs|) + Many(TimedAddrBytes, xs));
  }

  lemma NoTail(s: seq<Byte>)
    ensures s + [] == s
  {
  }

  lemma InvListRoundTrip(xs: seq<InvItem>)
    requires |xs| <= MAX_INV_SIZE
    ensures TakeList(TakeInv, MAX_INV_SIZE, VarIntBytes(|xs|) + Many(InvBytes, xs)) == Got(xs, [])
  {
    hide TakeList, TakeInv, InvBytes, Many, VarIntBytes;
    forall x: InvItem, t: seq<Byte>
      ensures TakeInv(InvBytes(x) + t) == Got(x, t)
    {
      InvRoundTrip(x, t);
    }
    ListRoundTrip(InvBytes, TakeInv, MAX_INV_SIZE, xs, []);
    NoTail(VarIntBytes(|xs|) + Many(InvBytes, xs));
  }

  lemma HeaderListRoundTrip(xs: seq<Header>)
    requires |xs| <= MAX_HEADERS_SIZE
    ensures TakeList(TakeHeader, MAX_HEADERS_SIZE, VarIntBytes(|xs|) + Many(HeaderBytes, xs)) == Got(xs, [])
  {
    hide TakeList, TakeHeader, HeaderBytes, Many, VarIntBytes;
    forall x: Header, t: seq<Byte>
      ensures TakeHeader(HeaderBytes(x) + t) == Got(x, t)
    {
      TakeHeaderRoundTrip(x, t);
    }
    ListRoundTrip(HeaderBytes, TakeHeader, MAX_HEADERS_SIZE, xs, []);
    NoTail(VarIntBytes(|xs|) + Many(HeaderBytes, xs));
  }

  /** Every message within the limits is read back as itself. */
  lemma PayloadRoundTrip(m: Msg)
    requires WithinLimits(m)
    ensures Decode(MsgKind(m), Payload(m)) == Some(m)
  {
    hide LeBytes, TakeList, TakeU64, VarIntBytes, Many, DecodeVersion, DecodeGetHeaders;
    match m
    case Version(_, _, _, _, _, _, _, _) => VersionRoundTrip(m);
    case Verack =>
    case Ping(nonce) =>
      U64Take(nonce, []);
      NoTail(LeBytes(nonce, 8));
    case Pong(nonce) =>
      U64Take(nonce, []);
      NoTail(LeBytes(nonce, 8));
    case Addr(xs) => AddrListRoundTrip(xs);
    case GetAddr =>
    case Inv(xs) => InvListRoundTrip(xs);
    case GetHeaders(_, _, _) => GetHeadersRoundTrip(m);
    case Headers(xs) => HeaderListRoundTrip(xs);
  }
}
