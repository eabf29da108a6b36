/** The receive side of a peer: a buffer with a read offset, lazy compaction and a flood limit. */
module Stream {
  import opened Bits
  import opened Compact
  import opened Primitives
  import opened Bytes
  import opened Protocol
  import opened Wire
  import opened Messages
  import opened Codec
  import opened Framing

  const RECV_BUFFER_SIZE: nat := 262_144

  // ---- Framed messages ----

  lemma {:induction false} ManySize<T>(write: T -> seq<Byte>, width: nat, xs: seq<T>)
    requires forall i :: 0 <= i < |xs| ==> |write(xs[i])| == width
    ensures |Many(write, xs)| == |xs| * width
    decreases |xs|
  {
    if xs != [] {
      var n := |xs| - 1;
      ManySize(write, width, xs[..n]);
      Distrib(n, 1, width);
    }
  }

  /** Every message within the limits fits one frame, and only verack and getaddr are empty. */
  lemma PayloadFits(m: Msg)
    requires WithinLimits(m)
    ensures |Payload(m)| <= MAX_PROTOCOL_MESSAGE_LENGTH
    ensures |Payload(m)| == 0 ==> MsgKind(m) == VerackKind || MsgKind(m) == GetAddrKind
  {
    hide Many, LeBytes, TimedAddrBytes, InvBytes, HashBytes, HeaderBytes, AddrBytes, VarIntBytes;
    match m
    case Addr(xs) => ManySize(TimedAddrBytes, 30, xs);
    case Inv(xs) => ManySize(InvBytes, 36, xs);
    case GetHeaders(_, xs, _) => ManySize(HashBytes, 32, xs);
    case Headers(xs) => ManySize(HeaderBytes, 100, xs);
    case _ =>
  }

  /** create_header and the bytes send_message writes. */
  function Frame(net: Net, m: Msg): (s: seq<Byte>)
    requires WithinLimits(m)
  {
    PayloadFits(m);
    var payload := Payload(m);
    HeaderToBytes(MsgHeader(net.magic, Padded(Name(MsgKind(m))), |payload|, net.checksum(payload))) + payload
  }

  function Frames(net: Net, ms: seq<Msg>): (s: seq<Byte>)
    requires forall i :: 0 <= i < |ms| ==> WithinLimits(ms[i])
  {
    if ms == [] then [] else Frame(net, ms[0]) + Frames(net, ms[1..])
  }

  function DeliveryOf(m: Msg): (d: Delivery)
    requires WithinLimits(m)
  {
    Delivery(Name(MsgKind(m)), Payload(m))
  }

  function Deliveries(ms: seq<Msg>): (ds: seq<Delivery>)
    requires forall i :: 0 <= i < |ms| ==> WithinLimits(ms[i])
  {
    if ms == [] then [] else [DeliveryOf(ms[0])] + Deliveries(ms[1..])
  }

  lemma FrontOfFrame(net: Net, m: Msg, tail: seq<Byte>)
    requires WithinLimits(m)
    ensures Front(net, Frame(net, m) + tail) == Complete(DeliveryOf(m), |Frame(net, m)|)
  {
    hide Name, Payload, CommandOk, TextOf, HeaderToBytes, BytesToHeader;
    PayloadFits(m);
    var payload := Payload(m);
    var h := MsgHeader(net.magic, Padded(Name(MsgKind(m))), |payload|, net.checksum(payload));
    var s := Frame(net, m) + tail;
    NameSurvives(MsgKind(m));
    assert s == HeaderToBytes(h) + (payload + tail);
    MsgHeaderRoundTrip(h, payload + tail);
    assert s[MESSAGE_HEADER_SIZE..MESSAGE_HEADER_SIZE + |payload|] == payload;
  }

  /** A stream of framed messages parses into exactly those messages. */
  lemma {:induction false} ParseFrames(net: Net, ms: seq<Msg>)
    requires forall i :: 0 <= i < |ms| ==> WithinLimits(ms[i])
    ensures Parse(net, Frames(net, ms)) == Feed(Deliveries(ms), [], false)
    decreases |ms|
  {
    hide Frame, Front;
    if ms == [] {
      EmptyFront(net);
    } else {
      var tail := Frames(net, ms[1..]);
      FrontOfFrame(net, ms[0], tail);
      assert (Frame(net, ms[0]) + tail)[|Frame(net, ms[0])|..] == tail;
      ParseFrames(net, ms[1..]);
    }
  }

  lemma EmptyFront(net: Net)
    ensures Front(net, []) == Incomplete
  {
  }

  /** The message a delivery decodes to; None for an unknown command or a malformed payload. */
  function Received(d: Delivery): (m: Option<Msg>)
  {
    match KindOf(d.command)
    case None => None
    case Some(k) => Decode(k, d.payload)
  }

  lemma ReceivedIsSent(m: Msg)
    requires WithinLimits(m)
    ensures Received(DeliveryOf(m)) == Some(m)
  {
    hide Name, KindOf, Payload, Decode;
    NameIdentifies(MsgKind(m));
    PayloadRoundTrip(m);
  }

  function AllReceived(ds: seq<Delivery>): (ms: seq<Option<Msg>>)
    ensures |ms| == |ds| && forall i :: 0 <= i < |ds| ==> ms[i] == Received(ds[i])
  {
    seq(|ds|, i requires 0 <= i < |ds| => Received(ds[i]))
  }

  lemma {:induction false} AllReceivedAreSent(ms: seq<Msg>)
    requires forall i :: 0 <= i < |ms| ==> WithinLimits(ms[i])
    ensures |Deliveries(ms)| == |ms| && forall i :: 0 <= i < |ms| ==> Deliveries(ms)[i] == DeliveryOf(ms[i])
    ensures forall i :: 0 <= i < |ms| ==> AllReceived(Deliveries(ms))[i] == Some(ms[i])
  {
    hide Received, DeliveryOf;
    if ms != [] {
      AllReceivedAreSent(ms[1..]);
      forall i | 0 <= i < |ms|
        ensures Deliveries(ms)[i] == DeliveryOf(ms[i]) && Received(Deliveries(ms)[i]) == Some(ms[i])
      {
        ReceivedIsSent(ms[i]);
        if i > 0 {
          assert ms[i] == ms[1..][i - 1] && Deliveries(ms)[i] == Deliveries(ms[1..])[i - 1];
        }
      }
    }
  }

  // ---- The receiving peer ----

  class Peer {
    const net: Net
    var buffer: seq<Byte>
    var offset: nat
    var disconnecting: bool
    var delivered: seq<Delivery>
    var received: seq<Option<Msg>>

    constructor (n: Net)
      ensures net == n && Valid() && Unread() == [] && !disconnecting && delivered == [] && received == []
    {
      net, buffer, offset, disconnecting, delivered, received := n, [], 0, false, [], [];
    }

    ghost predicate Valid()
      reads this
    {
      offset <= |buffer| && received == AllReceived(delivered)
    }

    ghost function Unread(): (s: seq<Byte>)
      reads this
      requires Valid()
    {
      buffer[offset..]
    }

    /** process_message: decodes the payload; a malformed one ends the connection. */
    method ProcessMessage(d: Delivery)
      requires Valid()
      modifies `delivered, `received, `disconnecting
      ensures Valid() && delivered == old(delivered) + [d]
      ensures disconnecting <==> old(disconnecting) || Malformed(d)
    {
      hide KindOf, Decode;
      delivered := delivered + [d];
      var k := KindOf(d.command);
      var m: Option<Msg> := None;
      if k.Some? {
        m := Deserialize(k.value, d.payload);
        if m.None? {
          disconnecting := true;
        }
      }
      received := received + [m];
      assert received == AllReceived(delivered);
    }

    /** process_received_data: hands over every complete message and advances the read offset. */
    method ProcessReceivedData()
      requires Valid()
      modifies `offset, `delivered, `received, `disconnecting
      ensures Valid()
      ensures var f := Parse(net, old(Unread()));
              && delivered == old(delivered) + f.delivered && Unread() == f.rest
              && (disconnecting <==> old(disconnecting) || f.bad || AnyMalformed(f.delivered))
    {
      hide Front, Parse, Progress, KindOf, Received, AllReceived, Malformed, AnyMalformed;
      NoneMalformed();
      ProgressStarts(net, Unread());
      ghost var s, before, was := Unread(), delivered, disconnecting;
      ghost var done: seq<Delivery> := [];
      while true
        invariant Valid() && delivered == before + done
        invariant Progress(net, s, done, Unread())
        invariant disconnecting <==> was || AnyMalformed(done)
        decreases |buffer| - offset
      {
        ghost var unread, flag := Unread(), disconnecting;
        var n := ReadFront();
        match n
        case Incomplete =>
          ProgressEnds(net, s, done, unread);
          return;
        case Broken =>
          ProgressEnds(net, s, done, unread);
          disconnecting := true;
          return;
        case Complete(d, size) =>
          ProcessMessage(d);
          offset := offset + size;
          assert Unread() == unread[size..];
          ProgressStep(net, s, done, unread);
          AnyAppend(done, d);
          done := done + [d];
      }
    }

    /** One look at the unread bytes: header, magic, completeness, checksum, the rule on empty payloads. */
    method ReadFront() returns (n: Next)
      requires Valid()
      ensures n == Front(net, Unread())
    {
      hide LeVal, CommandOk, TextOf, Name, AllReceived;
      if |buffer| - offset < MESSAGE_HEADER_SIZE {
        return Incomplete;
      }
      var h := DeserializeHeader(buffer[offset..]);
      if h.None? || h.value.magic != net.magic {
        return Broken;
      }
      var size := MESSAGE_HEADER_SIZE + h.value.length;
      if |buffer| - offset < size {
        return Incomplete;
      }
      var payload := buffer[offset + MESSAGE_HEADER_SIZE..offset + size];
      assert payload == Unread()[MESSAGE_HEADER_SIZE..size];
      if net.checksum(payload) != h.value.checksum {
        return Broken;
      }
      if h.value.length == 0 && !EmptyAllowed(TextOf(h.value.command)) {
        return Broken;
      }
      return Complete(Delivery(TextOf(h.value.command), payload), size);
    }

    /** on_transport_receive: flood checks, compaction, append, process. */
    method OnTransportReceive(data: seq<Byte>)
      requires Valid()
      modifies this`buffer, this`offset, this`delivered, this`received, this`disconnecting
      ensures Valid()
      ensures |old(Unread())| + |data| > DEFAULT_RECV_FLOOD_SIZE ==>
                disconnecting && delivered == old(delivered) && Unread() == old(Unread())
      ensures |old(Unread())| + |data| <= DEFAULT_RECV_FLOOD_SIZE ==>
                var f := Parse(net, old(Unread()) + data);
                && delivered == old(delivered) + f.delivered && Unread() == f.rest
                && (disconnecting <==> old(disconnecting) || f.bad || AnyMalformed(f.delivered))
      ensures |buffer| <= |old(buffer)| || |buffer| <= 2 * |old(Unread())| + |data| + 1
    {
      hide Parse, AllReceived;
      if |data| > DEFAULT_RECV_FLOOD_SIZE {
        disconnecting := true;
        return;
      }
      if |buffer| - offset + |data| > DEFAULT_RECV_FLOOD_SIZE {
        disconnecting := true;
        return;
      }
      ghost var s := Unread();
      if offset > 0 && offset >= |buffer| / 2 {
        buffer := buffer[offset..];
        offset := 0;
      }
      assert Unread() == s;
      buffer := buffer + data;
      assert Unread() == s + data;
      ProcessReceivedData();
    }
  }

  /** A known command whose payload does not decode. */
  ghost predicate Malformed(d: Delivery)
  {
    KindOf(d.command).Some? && Received(d).None?
  }

  /** The messages in `done` were taken off the front of s, leaving `unread`. */
  ghost predicate Progress(net: Net, s: seq<Byte>, done: seq<Delivery>, unread: seq<Byte>)
  {
    var f, g := Parse(net, s), Parse(net, unread);
    f.delivered == done + g.delivered && f.rest == g.rest && f.bad == g.bad
  }

  lemma ProgressStarts(net: Net, s: seq<Byte>)
    ensures Progress(net, s, [], s)
  {
    hide Parse;
    assert [] + Parse(net, s).delivered == Parse(net, s).delivered;
  }

  lemma ProgressStep(net: Net, s: seq<Byte>, done: seq<Delivery>, unread: seq<Byte>)
    requires Progress(net, s, done, unread) && Front(net, unread).Complete?
    ensures Progress(net, s, done + [Front(net, unread).delivery], unread[Front(net, unread).size..])
  {
    hide Front;
    var n := Front(net, unread);
    var g := Parse(net, unread[n.size..]);
    assert Parse(net, unread).delivered == [n.delivery] + g.delivered;
    assert done + ([n.delivery] + g.delivered) == (done + [n.delivery]) + g.delivered;
  }

  lemma ProgressEnds(net: Net, s: seq<Byte>, done: seq<Delivery>, unread: seq<Byte>)
    requires Progress(net, s, done, unread) && !Front(net, unread).Complete?
    ensures Parse(net, s) == Feed(done, unread, Front(net, unread).Broken?)
  {
    hide Front;
    assert done + [] == done;
  }

  ghost predicate AnyMalformed(ds: seq<Delivery>)
  {
    exists i :: 0 <= i < |ds| && Malformed(ds[i])
  }

  lemma NoneMalformed()
    ensures !AnyMalformed([])
  {
  }

  lemma AnyAppend(ds: seq<Delivery>, d: Delivery)
    ensures AnyMalformed(ds + [d]) <==> AnyMalformed(ds) || Malformed(d)
  {
    hide Malformed;
    var r := ds + [d];
    if AnyMalformed(ds) {
      var i :| 0 <= i < |ds| && Malformed(ds[i]);
      assert Malformed(r[i]);
    }
    if Malformed(d) {
      assert Malformed(r[|ds|]);
    }
  }

  // ---- Any chunking ----

  ghost function Concat(chunks: seq<seq<Byte>>): (s: seq<Byte>)
  {
    if chunks == [] then [] else Concat(chunks[..|chunks| - 1]) + chunks[|chunks| - 1]
  }

  /**
   * Delivers a stream of framed messages chunk by chunk, as far as it has come. However it is cut, what has reached
   * process_message are the first messages, once each, in order and decoding to what was sent; the flood check has
   * not fired and the buffer is under twice the flood limit. Once all of the stream has come, so have all messages.
   */
  method ReceiveAll(peer: Peer, chunks: seq<seq<Byte>>, ghost ms: seq<Msg>)
    requires peer.Valid() && peer.buffer == [] && peer.delivered == [] && !peer.disconnecting
    requires forall i :: 0 <= i < |ms| ==> WithinLimits(ms[i])
    requires Concat(chunks) <= Frames(peer.net, ms)
    requires forall i :: 0 <= i < |chunks| ==> |chunks[i]| <= RECV_BUFFER_SIZE
    modifies peer
    ensures peer.Valid() && !peer.disconnecting && |peer.buffer| < 2 * DEFAULT_RECV_FLOOD_SIZE
    ensures peer.delivered <= Deliveries(ms)
    ensures |peer.received| <= |ms| && forall i :: 0 <= i < |peer.received| ==> peer.received[i] == Some(ms[i])
    ensures Concat(chunks) == Frames(peer.net, ms) ==> |peer.received| == |ms| && peer.Unread() == []
  {
    hide Parse, Frames, Deliveries, AllReceived, AnyMalformed;
    ghost var net := peer.net;
    EmptyParse(net);
    for i := 0 to |chunks|
      invariant peer.Valid() && !peer.disconnecting && |peer.buffer| < 2 * DEFAULT_RECV_FLOOD_SIZE
      invariant Parse(net, Concat(chunks[..i])) == Feed(peer.delivered, peer.Unread(), false)
    {
      ghost var s := Concat(chunks[..i]);
      assert chunks[..i + 1][..i] == chunks[..i];
      assert Concat(chunks[..i + 1]) == s + chunks[i];
      ChunkIsFine(net, ms, chunks, i);
      ParseInParts(net, s, chunks[i]);
      peer.OnTransportReceive(chunks[i]);
    }
    assert chunks[..|chunks|] == chunks;
    ParseFrames(net, ms);
    PrefixDelivered(net, ms, Concat(chunks));
    AllReceivedAreSent(ms);
    FirstReceived(peer.delivered, Deliveries(ms));
  }

  lemma PrefixDelivered(net: Net, ms: seq<Msg>, s: seq<Byte>)
    requires forall k :: 0 <= k < |ms| ==> WithinLimits(ms[k])
    requires s <= Frames(net, ms)
    ensures Parse(net, s).delivered <= Deliveries(ms)
  {
    hide Parse, Frames, Deliveries;
    var later := Frames(net, ms)[|s|..];
    assert s + later == Frames(net, ms);
    ParseFrames(net, ms);
    ParseInParts(net, s, later);
  }

  lemma FirstReceived(a: seq<Delivery>, b: seq<Delivery>)
    requires a <= b
    ensures forall i :: 0 <= i < |a| ==> AllReceived(a)[i] == AllReceived(b)[i]
  {
    hide Received;
  }

  lemma EmptyParse(net: Net)
    ensures Parse(net, []) == Feed([], [], false)
  {
    EmptyFront(net);
  }

  /** No prefix of a stream of framed messages is broken or holds a malformed message. */
  lemma ChunkIsFine(net: Net, ms: seq<Msg>, chunks: seq<seq<Byte>>, i: nat)
    requires forall k :: 0 <= k < |ms| ==> WithinLimits(ms[k])
    requires Concat(chunks) <= Frames(net, ms) && i < |chunks|
    ensures var a := Parse(net, Concat(chunks[..i]));
            var b := Parse(net, a.rest + chunks[i]);
            !b.bad && !AnyMalformed(b.delivered)
  {
    hide Parse, Frames, Deliveries;
    ConcatPrefix(chunks, i + 1);
    assert chunks[..i + 1][..i] == chunks[..i];
    var s, later := Concat(chunks[..i + 1]), Frames(net, ms)[|Concat(chunks[..i + 1])|..];
    PrefixOfPrefix(s, Concat(chunks), Frames(net, ms));
    ParseFrames(net, ms);
    ParseInParts(net, s, later);
    ParseInParts(net, Concat(chunks[..i]), chunks[i]);
    var a := Parse(net, Concat(chunks[..i]));
    var b := Parse(net, a.rest + chunks[i]);
    var c := Parse(net, Parse(net, s).rest + later);
    assert Deliveries(ms) == a.delivered + b.delivered + c.delivered;
    DeliveriesAreFine(ms);
    forall k | 0 <= k < |b.delivered|
      ensures !Malformed(b.delivered[k])
    {
      assert Deliveries(ms)[|a.delivered| + k] == b.delivered[k];
    }
  }

  lemma PrefixOfPrefix(a: seq<Byte>, b: seq<Byte>, c: seq<Byte>)
    requires |a| <= |b| && b == a + b[|a|..] && b <= c
    ensures a + c[|a|..] == c
  {
  }

  lemma DeliveriesAreFine(ms: seq<Msg>)
    requires forall k :: 0 <= k < |ms| ==> WithinLimits(ms[k])
    ensures forall k :: 0 <= k < |Deliveries(ms)| ==> !Malformed(Deliveries(ms)[k])
  {
    hide Deliveries, DeliveryOf, KindOf, Received;
    AllReceivedAreSent(ms);
  }

  lemma {:induction false} ConcatPrefix(chunks: seq<seq<Byte>>, i: nat)
    requires i <= |chunks|
    ensures |Concat(chunks[..i])| <= |Concat(chunks)|
    ensures Concat(chunks) == Concat(chunks[..i]) + Concat(chunks)[|Concat(chunks[..i])|..]
    decreases |chunks|
  {
    var n := |chunks| - 1;
    if i == |chunks| {
      assert chunks[..i] == chunks;
    } else {
      ConcatPrefix(chunks[..n], i);
      assert chunks[..n][..i] == chunks[..i];
    }
  }
}
