/** MessageSerializer and MessageDeserializer: the buffers the messages are written to and read from. */
module Codec {
  import opened Bits
  import opened Compact
  import opened Primitives
  import opened Bytes
  import opened Protocol
  import opened Wire
  import opened Messages

  class MessageSerializer {
    var buffer: seq<Byte>

    constructor ()
      ensures buffer == []
    {
      buffer := [];
    }

    method WriteLe(x: nat, n: nat)
      modifies this
      ensures buffer == old(buffer) + LeBytes(x, n)
    {
      buffer := buffer + LeBytes(x, n);
    }

    method WriteBytes(b: seq<Byte>)
      modifies this
      ensures buffer == old(buffer) + b
    {
      buffer := buffer + b;
    }

    method WriteVarInt(x: U64)
      modifies this
      ensures buffer == old(buffer) + VarIntBytes(x)
    {
      buffer := buffer + VarIntBytes(x);
    }

    method WriteNetworkAddress(a: NetAddr)
      modifies this
      ensures buffer == old(buffer) + AddrBytes(a)
    {
      WriteLe(a.services, 8);
      WriteBytes(a.ip);
      buffer := buffer + BeBytes(a.port, 2);
    }

    method WriteVersion(m: Msg)
      requires m.Version? && Countable(m) && buffer == []
      modifies this
      ensures buffer == Payload(m)
    {
      hide LeBytes, VarIntBytes, AddrBytes;
      WriteLe(Bits32(m.version), 4);
      WriteLe(m.services, 8);
      WriteLe(Bits64(m.timestamp), 8);
      WriteNetworkAddress(m.recv);
      WriteNetworkAddress(m.from);
      WriteLe(m.nonce, 8);
      WriteVarInt(|m.userAgent|);
      WriteBytes(m.userAgent);
      WriteLe(Bits32(m.startHeight), 4);
    }

    method WriteAddresses(xs: seq<TimedAddr>)
      modifies this
      ensures buffer == old(buffer) + Many(TimedAddrBytes, xs)
    {
      hide LeBytes, AddrBytes;
      ghost var before := buffer;
      for i := 0 to |xs|
        invariant buffer == before + Many(TimedAddrBytes, xs[..i])
      {
        WriteLe(xs[i].timestamp, 4);
        WriteNetworkAddress(xs[i].address);
        assert xs[..i + 1][..i] == xs[..i];
      }
      assert xs[..|xs|] == xs;
    }

    method WriteInventory(xs: seq<InvItem>)
      modifies this
      ensures buffer == old(buffer) + Many(InvBytes, xs)
    {
      hide LeBytes, BeBytes;
      ghost var before := buffer;
      for i := 0 to |xs|
        invariant buffer == before + Many(InvBytes, xs[..i])
      {
        WriteLe(xs[i].kind, 4);
        WriteBytes(BeBytes(xs[i].hash, 32));
        assert xs[..i + 1][..i] == xs[..i];
      }
      assert xs[..|xs|] == xs;
    }

    method WriteHashes(xs: seq<Hash>)
      modifies this
      ensures buffer == old(buffer) + Many(HashBytes, xs)
    {
      hide BeBytes;
      ghost var before := buffer;
      for i := 0 to |xs|
        invariant buffer == before + Many(HashBytes, xs[..i])
      {
        WriteBytes(HashBytes(xs[i]));
        assert xs[..i + 1][..i] == xs[..i];
      }
      assert xs[..|xs|] == xs;
    }

    method WriteHeaders(xs: seq<Header>)
      modifies this
      ensures buffer == old(buffer) + Many(HeaderBytes, xs)
    {
      hide HeaderBytes;
      ghost var before := buffer;
      for i := 0 to |xs|
        invariant buffer == before + Many(HeaderBytes, xs[..i])
      {
        var b := SerializeFixed(xs[i]);
        WriteBytes(b[..]);
        assert xs[..i + 1][..i] == xs[..i];
      }
      assert xs[..|xs|] == xs;
    }
  }

  /** SerializeFixed: fills a fixed array field by field. */
  method SerializeFixed(h: Header) returns (data: array<Byte>)
    ensures fresh(data) && data[..] == HeaderBytes(h)
  {
    hide LeBytes, BeBytes;
    data := new Byte[HEADER_SIZE](_ => 0);
    Copy(data, 0, LeBytes(Bits32(h.version), 4));
    Copy(data, 4, BeBytes(h.prev, 32));
    Copy(data, 36, BeBytes(h.miner, 20));
    Copy(data, 56, LeBytes(h.time, 4));
    Copy(data, 60, LeBytes(h.bits, 4));
    Copy(data, 64, LeBytes(h.nonce, 4));
    Copy(data, 68, BeBytes(h.randomx, 32));
    assert data[..] == data[..HEADER_SIZE];
  }

  method Copy(data: array<Byte>, at: nat, b: seq<Byte>)
    requires at + |b| <= data.Length
    modifies data
    ensures data[..at + |b|] == old(data[..at]) + b
  {
    ghost var before := data[..at];
    for i := 0 to |b|
      invariant data[..at] == before && forall j :: 0 <= j < i ==> data[at + j] == b[j]
    {
      data[at + i] := b[i];
    }
    assert data[..at + |b|] == before + b;
  }

  /** The serialize method of every message class. */
  method Serialize(m: Msg) returns (bytes: seq<Byte>)
    requires Countable(m)
    ensures bytes == Payload(m)
  {
    hide LeBytes, VarIntBytes, AddrBytes, HashBytes, Many;
    var s := new MessageSerializer();
    match m {
      case Version(_, _, _, _, _, _, _, _) => s.WriteVersion(m);
      case Verack =>
      case Ping(nonce) => s.WriteLe(nonce, 8);
      case Pong(nonce) => s.WriteLe(nonce, 8);
      case Addr(xs) =>
        s.WriteVarInt(|xs|);
        s.WriteAddresses(xs);
      case GetAddr =>
      case Inv(xs) =>
        s.WriteVarInt(|xs|);
        s.WriteInventory(xs);
      case GetHeaders(v, locator, stop) =>
        s.WriteLe(v, 4);
        s.WriteVarInt(|locator|);
        s.WriteHashes(locator);
        s.WriteBytes(HashBytes(stop));
      case Headers(xs) =>
        s.WriteVarInt(|xs|);
        s.WriteHeaders(xs);
    }
    return s.buffer;
  }

  // ---- Reading ----

  /** A read that was due to give `want` either set the error flag or gave it and moved on. */
  ghost predicate Outcome<T>(before: bool, want: Read<T>, after: bool, value: T, rest: seq<Byte>)
  {
    && (after <==> before || want.Fail?)
    && (!after ==> value == want.value && rest == want.rest)
  }

  class MessageDeserializer {
    const data: seq<Byte>
    var position: nat
    var error: bool

    constructor (bytes: seq<Byte>)
      ensures data == bytes && position == 0 && !error && Valid() && Rest() == bytes
    {
      data, position, error := bytes, 0, false;
    }

    ghost predicate Valid()
      reads this
    {
      position <= |data|
    }

    ghost function Rest(): (s: seq<Byte>)
      reads this
      requires Valid()
    {
      data[position..]
    }

    method CheckAvailable(n: nat)
      requires Valid()
      modifies `error
      ensures error <==> old(error) || |Rest()| < n
    {
      if |data| - position < n {
        error := true;
      }
    }

    method ReadBytes(n: nat) returns (b: seq<Byte>)
      requires Valid()
      modifies this
      ensures Valid() && Outcome(old(error), TakeBytes(old(Rest()), n), error, b, Rest())
    {
      ghost var s := Rest();
      CheckAvailable(n);
      if error {
        return [];
      }
      b := data[position..position + n];
      assert b == s[..n];
      position := position + n;
    }

    method ReadU32() returns (w: Word)
      requires Valid()
      modifies this
      ensures Valid() && Outcome(old(error), TakeU32(old(Rest())), error, w, Rest())
    {
      hide LeVal, Pow256;
      ghost var s := Rest();
      CheckAvailable(4);
      if error {
        return 0;
      }
      var b := data[position..position + 4];
      assert b == s[..4];
      LeInjective(b);
      PowersOf256();
      w := LeVal(b);
      position := position + 4;
    }

    method ReadU64() returns (w: U64)
      requires Valid()
      modifies this
      ensures Valid() && Outcome(old(error), TakeU64(old(Rest())), error, w, Rest())
    {
      hide LeVal, Pow256;
      ghost var s := Rest();
      CheckAvailable(8);
      if error {
        return 0;
      }
      var b := data[position..position + 8];
      assert b == s[..8];
      LeInjective(b);
      PowersOf256();
      w := LeVal(b);
      position := position + 8;
    }

    method ReadVarInt() returns (n: nat)
      requires Valid()
      modifies this
      ensures Valid() && Outcome(old(error), TakeVarInt(old(Rest())), error, n, Rest()) && (error ==> n == 0)
    {
      hide LeVal, Pow256;
      ghost var s := Rest();
      n := 0;
      CheckAvailable(1);
      if error {
        return;
      }
      var first := data[position];
      var size := if first < 0xfd then 0 else if first == 0xfd then 2 else if first == 0xfe then 4 else 8;
      if |data| - position < 1 + size {
        error := true;
        return;
      }
      var b := data[position + 1..position + 1 + size];
      assert b == s[1..][..size];
      var v := if size == 0 then first as nat else LeVal(b);
      if v > MAX_SIZE {
        error := true;
        return;
      }
      n := v;
      position := position + 1 + size;
    }

    method ReadString(limit: nat) returns (b: seq<Byte>)
      requires Valid() && limit == MAX_SUBVERSION_LENGTH
      modifies this
      ensures Valid() && Outcome(old(error), TakeAgent(old(Rest())), error, b, Rest())
    {
      hide TakeVarInt;
      var n := ReadVarInt();
      if error || n > limit || n > |data| - position {
        error := true;
        return [];
      }
      ghost var s := Rest();
      b := data[position..position + n];
      assert b == s[..n];
      position := position + n;
    }

    method ReadHash() returns (h: Hash)
      requires Valid()
      modifies this
      ensures Valid() && Outcome(old(error), TakeHash(old(Rest())), error, h, Rest())
    {
      hide BeVal, Pow256;
      var b := ReadBytes(32);
      if error {
        return NULL_HASH;
      }
      BeInjective(b);
      Pow256Of32();
      h := BeVal(b);
    }

    method ReadNetworkAddress() returns (a: NetAddr)
      requires Valid()
      modifies this
      ensures Valid() && Outcome(old(error), TakeAddr(old(Rest())), error, a, Rest())
    {
      hide BeVal, Pow256, TakeU64;
      var services := ReadU64();
      a := NetAddr(services, seq(16, _ => 0), 0);
      var ip := ReadBytes(16);
      if error {
        return;
      }
      a := a.(ip := ip);
      var port := ReadBytes(2);
      if error {
        return;
      }
      BeInjective(port);
      PowersOf256();
      a := a.(port := BeVal(port));
    }

    method ReadTimedAddress() returns (a: TimedAddr)
      requires Valid()
      modifies this
      ensures Valid() && Outcome(old(error), TakeTimedAddr(old(Rest())), error, a, Rest())
    {
      hide TakeU32, TakeAddr;
      var t := ReadU32();
      var address := ReadNetworkAddress();
      return TimedAddr(t, address);
    }

    method ReadInventoryVector() returns (i: InvItem)
      requires Valid()
      modifies this
      ensures Valid() && Outcome(old(error), TakeInv(old(Rest())), error, i, Rest())
    {
      hide TakeU32, TakeHash;
      var kind := ReadU32();
      var hash := ReadHash();
      return InvItem(kind, hash);
    }

    method ReadHeader() returns (h: Header)
      requires Valid()
      modifies this
      ensures Valid() && Outcome(old(error), TakeHeader(old(Rest())), error, h, Rest())
    {
      hide ParseHeader;
      h := Header(0, 0, 0, 0, 0, 0, 0);
      var b := ReadBytes(HEADER_SIZE);
      if !error {
        h := ParseHeader(b);
      }
    }

    // ---- Counted lists, read one element at a time until an error ----

    method ReadAddresses(n: nat) returns (xs: seq<TimedAddr>)
      requires Valid()
      modifies this
      ensures Valid() && Outcome(old(error), TakeMany(TakeTimedAddr, n, old(Rest())), error, xs, Rest())
    {
      hide TakeTimedAddr;
      ghost var s, e := Rest(), error;
      xs := [];
      for i := 0 to n
        invariant Valid() && |xs| == i && Outcome(e, TakeMany(TakeTimedAddr, i, s), error, xs, Rest())
      {
        var x := ReadTimedAddress();
        xs := xs + [x];
        if error {
          ManyFails(TakeTimedAddr, i + 1, n, s);
          return;
        }
      }
    }

    method ReadInventory(n: nat) returns (xs: seq<InvItem>)
      requires Valid()
      modifies this
      ensures Valid() && Outcome(old(error), TakeMany(TakeInv, n, old(Rest())), error, xs, Rest())
    {
      hide TakeInv;
      ghost var s, e := Rest(), error;
      xs := [];
      for i := 0 to n
        invariant Valid() && |xs| == i && Outcome(e, TakeMany(TakeInv, i, s), error, xs, Rest())
      {
        var x := ReadInventoryVector();
        xs := xs + [x];
        if error {
          ManyFails(TakeInv, i + 1, n, s);
          return;
        }
      }
    }

    method ReadHashes(n: nat) returns (xs: seq<Hash>)
      requires Valid()
      modifies this
      ensures Valid() && Outcome(old(error), TakeMany(TakeHash, n, old(Rest())), error, xs, Rest())
    {
      hide TakeHash;
      ghost var s, e := Rest(), error;
      xs := [];
      for i := 0 to n
        invariant Valid() && |xs| == i && Outcome(e, TakeMany(TakeHash, i, s), error, xs, Rest())
      {
        var x := ReadHash();
        xs := xs + [x];
        if error {
          ManyFails(TakeHash, i + 1, n, s);
          return;
        }
      }
    }

    /** The counted hashes of a locator; a count over the limit is refused without setting the error flag. */
    method ReadLocator() returns (fine: bool, xs: seq<Hash>)
      requires Valid()
      modifies this
      ensures Valid()
      ensures fine && !error <==> !old(error) && TakeList(TakeHash, MAX_LOCATOR_SZ, old(Rest())).Got?
      ensures fine && !error ==> TakeList(TakeHash, MAX_LOCATOR_SZ, old(Rest())) == Got(xs, Rest())
      ensures old(error) ==> error
    {
      hide TakeVarInt, TakeMany, TakeHash;
      var n := ReadVarInt();
      if n > MAX_LOCATOR_SZ {
        return false, [];
      }
      xs := ReadHashes(n);
      return true, xs;
    }

    method ReadHeaders(n: nat) returns (xs: seq<Header>)
      requires Valid()
      modifies this
      ensures Valid() && Outcome(old(error), TakeMany(TakeHeader, n, old(Rest())), error, xs, Rest())
    {
      hide TakeHeader;
      ghost var s, e := Rest(), error;
      xs := [];
      for i := 0 to n
        invariant Valid() && |xs| == i && Outcome(e, TakeMany(TakeHeader, i, s), error, xs, Rest())
      {
        var x := ReadHeader();
        xs := xs + [x];
        if error {
          ManyFails(TakeHeader, i + 1, n, s);
          return;
        }
      }
    }
  }

  lemma {:induction false} ManyFails<T>(take: seq<Byte> -> Read<T>, i: nat, n: nat, s: seq<Byte>)
    requires i <= n
    ensures TakeMany(take, i, s).Fail? ==> TakeMany(take, n, s).Fail?
    decreases n
  {
    if i < n {
      ManyFails(take, i, n - 1, s);
    }
  }

  // ---- The deserialize method of every message class ----

  method DeserializeVersion(bytes: seq<Byte>) returns (m: Option<Msg>)
    ensures m == DecodeVersion(bytes)
  {
    hide TakeU32, TakeU64, TakeAddr, TakeAgent;
    var d := new MessageDeserializer(bytes);
    var version := d.ReadU32();
    var services := d.ReadU64();
    var timestamp := d.ReadU64();
    var recv := d.ReadNetworkAddress();
    var from := d.ReadNetworkAddress();
    var nonce := d.ReadU64();
    var agent := d.ReadString(MAX_SUBVERSION_LENGTH);
    var height := d.ReadU32();
    return if d.error then None
      else Some(Version(Signed32(version), services, Signed64(timestamp), recv, from, nonce, agent, Signed32(height)));
  }

  method DeserializeGetHeaders(bytes: seq<Byte>) returns (m: Option<Msg>)
    ensures m == DecodeGetHeaders(bytes)
  {
    hide TakeU32, TakeList, TakeHash;
    var d := new MessageDeserializer(bytes);
    var version := d.ReadU32();
    var fine, locator := d.ReadLocator();
    if !fine || d.error {
      return None;
    }
    var stop := d.ReadHash();
    return if d.error then None else Some(GetHeaders(version, locator, stop));
  }

  method Deserialize(k: Kind, bytes: seq<Byte>) returns (m: Option<Msg>)
    ensures m == Decode(k, bytes)
  {
    hide TakeU64, TakeVarInt, TakeMany, DecodeVersion, DecodeGetHeaders;
    var d := new MessageDeserializer(bytes);
    match k {
      case VersionKind => m := DeserializeVersion(bytes);
      case VerackKind => m := if bytes == [] then Some(Verack) else None;
      case PingKind =>
        var nonce := d.ReadU64();
        m := if d.error then None else Some(Ping(nonce));
      case PongKind =>
        var nonce := d.ReadU64();
        m := if d.error then None else Some(Pong(nonce));
      case AddrKind =>
        var n := d.ReadVarInt();
        if n > MAX_ADDR_SIZE {
          return None;
        }
        var xs := d.ReadAddresses(n);
        m := if d.error then None else Some(Addr(xs));
      case GetAddrKind => m := if bytes == [] then Some(GetAddr) else None;
      case InvKind =>
        var n := d.ReadVarInt();
        if n > MAX_INV_SIZE {
          return None;
        }
        var xs := d.ReadInventory(n);
        m := if d.error then None else Some(Inv(xs));
      case GetHeadersKind => m := DeserializeGetHeaders(bytes);
      case HeadersKind =>
        var n := d.ReadVarInt();
        if n > MAX_HEADERS_SIZE {
          return None;
        }
        var xs := d.ReadHeaders(n);
        m := if d.error then None else Some(Headers(xs));
    }
  }
}
