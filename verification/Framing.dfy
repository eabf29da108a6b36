/** Message framing: the 24-byte message header, and how a byte stream splits into messages. */
module Framing {
  import opened Bits
  import opened Compact
  import opened Primitives
  import opened Bytes
  import opened Protocol
  import opened Wire
  import opened Messages

  type Command = s: seq<Byte> | |s| == COMMAND_SIZE witness seq(COMMAND_SIZE, _ => 0)
  type Checksum = s: seq<Byte> | |s| == 4 witness [0, 0, 0, 0]

  datatype MsgHeader = MsgHeader(magic: Word, command: Command, length: Word, checksum: Checksum)

  /** The network magic and the checksum function, whose code is not modelled. */
  datatype Net = Net(magic: Word, checksum: seq<Byte> -> Checksum)

  // ---- Command names ----

  /** get_command: the text before the first NUL. */
  function TextOf(c: seq<Byte>): (t: seq<Byte>)
    ensures |t| <= |c| && t == c[..|t|]
    ensures |t| < |c| ==> c[|t|] == 0
  {
    if c == [] || c[0] == 0 then [] else [c[0]] + TextOf(c[1..])
  }

  /** set_command: NUL-padded to twelve bytes. */
  function Padded(name: seq<Byte>): (c: Command)
    requires |name| <= COMMAND_SIZE
  {
    name + seq(COMMAND_SIZE - |name|, _ => 0)
  }

  /** Printable text, a terminator within the field, and nothing but NULs after it. */
  predicate CommandOk(c: Command)
  {
    var n := |TextOf(c)|;
    && n < COMMAND_SIZE
    && (forall i :: 0 <= i < n ==> 0x20 <= c[i] <= 0x7e)
    && forall i :: n <= i < COMMAND_SIZE ==> c[i] == 0
  }

  lemma {:induction false} TextOfPadded(name: seq<Byte>, zeros: nat)
    requires forall i :: 0 <= i < |name| ==> name[i] != 0
    ensures TextOf(name + seq(zeros, _ => 0)) == name
  {
    var c := name + seq(zeros, _ => 0);
    if name == [] {
      assert c == [] || c[0] == 0;
    } else {
      assert c[1..] == name[1..] + seq(zeros, _ => 0);
      TextOfPadded(name[1..], zeros);
    }
  }

  lemma PrintableNames(k: Kind)
    ensures forall i :: 0 <= i < |Name(k)| ==> 0x20 <= Name(k)[i] <= 0x7e
  {
  }

  lemma NameSurvives(k: Kind)
    ensures TextOf(Padded(Name(k))) == Name(k) && CommandOk(Padded(Name(k)))
  {
    hide Name, TextOf;
    PrintableNames(k);
    TextOfPadded(Name(k), COMMAND_SIZE - |Name(k)|);
  }

  /** The validation loop of deserialize_header. */
  method CheckCommand(c: Command) returns (ok: bool)
    ensures ok <==> CommandOk(c)
  {
    ghost var n := |TextOf(c)|;
    NoNulInText(c);
    var foundNul := false;
    for i := 0 to COMMAND_SIZE
      invariant foundNul <==> n < i
      invariant forall j :: 0 <= j < i && j < n ==> 0x20 <= c[j] <= 0x7e
      invariant forall j :: n <= j < i ==> c[j] == 0
    {
      if !foundNul {
        if c[i] == 0 {
          foundNul := true;
        } else if c[i] < 0x20 || c[i] > 0x7e {
          return false;
        }
      } else if c[i] != 0 {
        return false;
      }
    }
    return foundNul;
  }

  lemma {:induction false} NoNulInText(c: seq<Byte>)
    ensures forall i :: 0 <= i < |TextOf(c)| ==> c[i] != 0
  {
    if c != [] && c[0] != 0 {
      NoNulInText(c[1..]);
    }
  }

  // ---- The message header ----

  function HeaderToBytes(h: MsgHeader): (s: seq<Byte>)
    ensures |s| == MESSAGE_HEADER_SIZE
  {
    LeBytes(h.magic, 4) + h.command + LeBytes(h.length, 4) + h.checksum
  }

  /** deserialize_header of the first 24 bytes. */
  function BytesToHeader(s: seq<Byte>): (h: Option<MsgHeader>)
    requires |s| >= MESSAGE_HEADER_SIZE
    ensures h.Some? ==> h.value.length <= MAX_PROTOCOL_MESSAGE_LENGTH
  {
    LeInjective(s[..4]);
    LeInjective(s[16..20]);
    PowersOf256();
    var h := MsgHeader(LeVal(s[..4]), s[4..16], LeVal(s[16..20]), s[20..24]);
    if CommandOk(h.command) && h.length <= MAX_PROTOCOL_MESSAGE_LENGTH then Some(h) else None
  }

  lemma MsgHeaderRoundTrip(h: MsgHeader, tail: seq<Byte>)
    requires CommandOk(h.command) && h.length <= MAX_PROTOCOL_MESSAGE_LENGTH
    ensures BytesToHeader(HeaderToBytes(h) + tail) == Some(h)
  {
    hide LeBytes, LeVal, CommandOk;
    var s := HeaderToBytes(h) + tail;
    assert s[..4] == LeBytes(h.magic, 4) && s[4..16] == h.command && s[16..20] == LeBytes(h.length, 4) && s[20..24] == h.checksum;
    PowersOf256();
    LeRoundTrip(h.magic, 4);
    LeRoundTrip(h.length, 4);
  }

  /** deserialize_header: nothing for short input, a bad command or an oversized length. */
  method DeserializeHeader(s: seq<Byte>) returns (h: Option<MsgHeader>)
    ensures h == if |s| < MESSAGE_HEADER_SIZE then None else BytesToHeader(s)
  {
    hide LeVal, CommandOk;
    if |s| < MESSAGE_HEADER_SIZE {
      return None;
    }
    LeInjective(s[..4]);
    LeInjective(s[16..20]);
    PowersOf256();
    var ok := CheckCommand(s[4..16]);
    if !ok {
      return None;
    }
    var length := LeVal(s[16..20]);
    if length > MAX_PROTOCOL_MESSAGE_LENGTH {
      return None;
    }
    return Some(MsgHeader(LeVal(s[..4]), s[4..16], length, s[20..24]));
  }

  // ---- Splitting a stream ----

  /** A message handed to process_message. */
  datatype Delivery = Delivery(command: seq<Byte>, payload: seq<Byte>)

  datatype Feed = Feed(delivered: seq<Delivery>, rest: seq<Byte>, bad: bool)

  datatype Next = Incomplete | Broken | Complete(delivery: Delivery, size: nat)

  predicate EmptyAllowed(command: seq<Byte>)
  {
    command == Name(VerackKind) || command == Name(GetAddrKind)
  }

  /** What the front of the unread bytes is: one round of the loop in process_received_data. */
  function Front(net: Net, s: seq<Byte>): (n: Next)
    ensures n.Complete? ==> MESSAGE_HEADER_SIZE <= n.size <= |s| && n.size == MESSAGE_HEADER_SIZE + |n.delivery.payload|
    ensures n.Incomplete? ==> |s| < MESSAGE_HEADER_SIZE + MAX_PROTOCOL_MESSAGE_LENGTH
  {
    if |s| < MESSAGE_HEADER_SIZE then Incomplete
    else
      match BytesToHeader(s)
      case None => Broken
      case Some(h) =>
        var size := MESSAGE_HEADER_SIZE + h.length;
        if h.magic != net.magic then Broken
        else if |s| < size then Incomplete
        else
          var payload := s[MESSAGE_HEADER_SIZE..size];
          if net.checksum(payload) != h.checksum then Broken
          else if h.length == 0 && !EmptyAllowed(TextOf(h.command)) then Broken
          else Complete(Delivery(TextOf(h.command), payload), size)
  }

  /** All complete messages at the front of the stream, what is left, and whether the rest is broken. */
  function Parse(net: Net, s: seq<Byte>): (f: Feed)
    ensures !f.bad ==> |f.rest| < MESSAGE_HEADER_SIZE + MAX_PROTOCOL_MESSAGE_LENGTH
    ensures |f.rest| <= |s|
    decreases |s|
  {
    match Front(net, s)
    case Incomplete => Feed([], s, false)
    case Broken => Feed([], s, true)
    case Complete(d, size) =>
      var f := Parse(net, s[size..]);
      Feed([d] + f.delivered, f.rest, f.bad)
  }

  /** More bytes never change a front that was already complete or broken. */
  lemma FrontExtends(net: Net, s: seq<Byte>, more: seq<Byte>)
    requires !Front(net, s).Incomplete?
    ensures Front(net, s + more) == Front(net, s)
  {
    hide LeVal, CommandOk, TextOf, Name;
    var t := s + more;
    assert t[..4] == s[..4] && t[4..16] == s[4..16] && t[16..20] == s[16..20] && t[20..24] == s[20..24];
    var h := BytesToHeader(s);
    if h.Some? && |s| >= MESSAGE_HEADER_SIZE + h.value.length {
      var size := MESSAGE_HEADER_SIZE + h.value.length;
      assert t[MESSAGE_HEADER_SIZE..size] == s[MESSAGE_HEADER_SIZE..size];
    }
  }

  /** Parsing a stream in two parts, carrying the unread rest over, is parsing it whole. */
  lemma {:induction false} ParseInParts(net: Net, s: seq<Byte>, more: seq<Byte>)
    ensures var a := Parse(net, s);
            var b := Parse(net, a.rest + more);
            Parse(net, s + more) == Feed(a.delivered + b.delivered, b.rest, b.bad)
    ensures Parse(net, s).bad ==> Parse(net, s + more).bad
    decreases |s|
  {
    hide Front;
    match Front(net, s)
    case Incomplete =>
      assert [] + Parse(net, s + more).delivered == Parse(net, s + more).delivered;
    case Broken =>
      FrontExtends(net, s, more);
    case Complete(d, size) =>
      FrontExtends(net, s, more);
      assert (s + more)[size..] == s[size..] + more;
      ParseInParts(net, s[size..], more);
      var a := Parse(net, s[size..]);
      var b := Parse(net, a.rest + more);
      assert [d] + (a.delivered + b.delivered) == ([d] + a.delivered) + b.delivered;
  }

  // ---- What the parser delivers, on the bytes ----

  /** A delivery that a frame can carry: a short printable command, a bounded payload, empty only for two commands. */
  ghost predicate Framable(d: Delivery)
  {
    && |d.command| < COMMAND_SIZE && (forall i :: 0 <= i < |d.command| ==> 0x20 <= d.command[i] <= 0x7e)
    && |d.payload| <= MAX_PROTOCOL_MESSAGE_LENGTH
    && (d.payload == [] ==> d.command == Name(VerackKind) || d.command == Name(GetAddrKind))
  }

  /** The bytes of a delivery: magic, padded command, length and checksum of the payload, then the payload. */
  ghost function FrameOf(net: Net, d: Delivery): (s: seq<Byte>)
    requires Framable(d)
  {
    HeaderToBytes(MsgHeader(net.magic, Padded(d.command), |d.payload|, net.checksum(d.payload))) + d.payload
  }

  ghost function FramesOf(net: Net, ds: seq<Delivery>): (s: seq<Byte>)
    requires forall i :: 0 <= i < |ds| ==> Framable(ds[i])
  {
    if ds == [] then [] else FrameOf(net, ds[0]) + FramesOf(net, ds[1..])
  }

  /** A front is complete exactly if the bytes begin with a frame, which is then what is delivered. */
  lemma CompleteExactly(net: Net, s: seq<Byte>)
    ensures Front(net, s).Complete? ==> Framable(Front(net, s).delivery) && FrameOf(net, Front(net, s).delivery) <= s
    ensures Front(net, s).Complete? ==> |FrameOf(net, Front(net, s).delivery)| == Front(net, s).size
    ensures forall d :: Framable(d) && FrameOf(net, d) <= s ==> Front(net, s) == Complete(d, |FrameOf(net, d)|)
  {
    hide Front, FrameOf, Framable;
    if Front(net, s).Complete? {
      FrontIsFrame(net, s);
    }
    forall d | Framable(d) && FrameOf(net, d) <= s
      ensures Front(net, s) == Complete(d, |FrameOf(net, d)|)
    {
      FrameIsFront(net, s, d);
    }
  }

  /** The command field is its text, padded. */
  lemma TextPads(c: Command)
    requires CommandOk(c)
    ensures |TextOf(c)| < COMMAND_SIZE && Padded(TextOf(c)) == c
    ensures forall i :: 0 <= i < |TextOf(c)| ==> 0x20 <= TextOf(c)[i] <= 0x7e
  {
    hide TextOf;
  }

  lemma PaddedOk(t: seq<Byte>)
    requires |t| < COMMAND_SIZE && forall i :: 0 <= i < |t| ==> 0x20 <= t[i] <= 0x7e
    ensures TextOf(Padded(t)) == t && CommandOk(Padded(t))
  {
    hide TextOf;
    TextOfPadded(t, COMMAND_SIZE - |t|);
  }

  /** A header that reads is the header of those bytes. */
  lemma HeaderSpells(s: seq<Byte>)
    requires |s| >= MESSAGE_HEADER_SIZE && BytesToHeader(s).Some?
    ensures HeaderToBytes(BytesToHeader(s).value) == s[..MESSAGE_HEADER_SIZE] && CommandOk(BytesToHeader(s).value.command)
  {
    hide LeBytes, LeVal, CommandOk;
    LeInjective(s[..4]);
    LeInjective(s[16..20]);
    assert s[..24] == s[..4] + s[4..16] + s[16..20] + s[20..24];
  }

  lemma FrontIsFrame(net: Net, s: seq<Byte>)
    requires Front(net, s).Complete?
    ensures var n := Front(net, s);
            Framable(n.delivery) && FrameOf(net, n.delivery) <= s && |FrameOf(net, n.delivery)| == n.size
  {
    hide CommandOk, TextOf, HeaderToBytes, BytesToHeader, Name, Padded;
    HeaderSpells(s);
    var h := BytesToHeader(s).value;
    TextPads(h.command);
    var d := Front(net, s).delivery;
    assert h == MsgHeader(net.magic, Padded(d.command), |d.payload|, net.checksum(d.payload));
    assert s[..MESSAGE_HEADER_SIZE] + d.payload == s[..MESSAGE_HEADER_SIZE + |d.payload|];
  }

  lemma FrameIsFront(net: Net, s: seq<Byte>, d: Delivery)
    requires Framable(d) && FrameOf(net, d) <= s
    ensures Front(net, s) == Complete(d, |FrameOf(net, d)|)
  {
    hide CommandOk, TextOf, HeaderToBytes, BytesToHeader, Name, Padded;
    var h := MsgHeader(net.magic, Padded(d.command), |d.payload|, net.checksum(d.payload));
    var tail := s[|FrameOf(net, d)|..];
    assert s == HeaderToBytes(h) + (d.payload + tail);
    PaddedOk(d.command);
    MsgHeaderRoundTrip(h, d.payload + tail);
    assert s[MESSAGE_HEADER_SIZE..MESSAGE_HEADER_SIZE + |d.payload|] == d.payload;
  }

  /** Every byte string is the frames of what it delivers, followed by the rest. */
  lemma {:induction false} ParseSpells(net: Net, s: seq<Byte>)
    ensures var f := Parse(net, s);
            && (forall i :: 0 <= i < |f.delivered| ==> Framable(f.delivered[i]))
            && s == FramesOf(net, f.delivered) + f.rest
    decreases |s|
  {
    hide Front, FrameOf, Framable, FramesOf;
    match Front(net, s)
    case Incomplete => NoFrames(net, s);
    case Broken => NoFrames(net, s);
    case Complete(d, size) =>
      ParseSpells(net, s[size..]);
      FrontIsFrame(net, s);
      OneMoreFrame(net, s, d, size, Parse(net, s[size..]).delivered, Parse(net, s[size..]).rest);
  }

  lemma NoFrames(net: Net, s: seq<Byte>)
    ensures FramesOf(net, []) + s == s
  {
  }

  lemma OneMoreFrame(net: Net, s: seq<Byte>, d: Delivery, size: nat, ds: seq<Delivery>, rest: seq<Byte>)
    requires Framable(d) && FrameOf(net, d) <= s && |FrameOf(net, d)| == size
    requires (forall i :: 0 <= i < |ds| ==> Framable(ds[i])) && s[size..] == FramesOf(net, ds) + rest
    ensures (forall i :: 0 <= i < |[d] + ds| ==> Framable(([d] + ds)[i])) && s == FramesOf(net, [d] + ds) + rest
  {
    hide FrameOf, Framable;
    var all := [d] + ds;
    assert all[1..] == ds;
    assert s == FrameOf(net, d) + s[size..];
  }

  /** The rest begins with no frame. */
  lemma RestIsNoFrame(net: Net, s: seq<Byte>, d: Delivery)
    requires Framable(d)
    ensures !(FrameOf(net, d) <= Parse(net, s).rest)
  {
    hide Front, FrameOf, Framable, Parse;
    RestFront(net, s);
    CompleteExactly(net, Parse(net, s).rest);
  }

  /** And conversely frames are delivered as they come, whatever follows them. */
  lemma {:induction false} FramesParse(net: Net, ds: seq<Delivery>, tail: seq<Byte>)
    requires forall i :: 0 <= i < |ds| ==> Framable(ds[i])
    ensures var f, g := Parse(net, FramesOf(net, ds) + tail), Parse(net, tail);
            f.delivered == ds + g.delivered && f.rest == g.rest && f.bad == g.bad
    decreases |ds|
  {
    hide Front, FrameOf, Framable;
    if ds == [] {
      assert FramesOf(net, ds) + tail == tail;
    } else {
      var s := FramesOf(net, ds) + tail;
      var more := FramesOf(net, ds[1..]) + tail;
      assert s == FrameOf(net, ds[0]) + more;
      CompleteExactly(net, s);
      assert s[|FrameOf(net, ds[0])|..] == more;
      FramesParse(net, ds[1..], tail);
      assert ds == [ds[0]] + ds[1..];
    }
  }

  // ---- When a stream is broken ----

  /** The header of a message of this network with a command and a length that may occur. */
  ghost predicate Announces(net: Net, h: MsgHeader)
  {
    h.magic == net.magic && CommandOk(h.command) && h.length <= MAX_PROTOCOL_MESSAGE_LENGTH
  }

  /** The rest is broken exactly if it holds a whole header that does not announce a payload still to come. */
  lemma BrokenExactly(net: Net, s: seq<Byte>)
    ensures var f := Parse(net, s);
            f.bad <==>
              && |f.rest| >= MESSAGE_HEADER_SIZE
              && !exists h :: Announces(net, h) && HeaderToBytes(h) == f.rest[..MESSAGE_HEADER_SIZE]
                              && |f.rest| < MESSAGE_HEADER_SIZE + h.length
  {
    hide Front, Announces, HeaderToBytes;
    RestFront(net, s);
    var rest := Parse(net, s).rest;
    if |rest| >= MESSAGE_HEADER_SIZE {
      WaitsExactly(net, rest);
    } else {
      TooShort(net, rest);
    }
  }

  lemma {:induction false} RestFront(net: Net, s: seq<Byte>)
    ensures !Front(net, Parse(net, s).rest).Complete? && (Parse(net, s).bad <==> Front(net, Parse(net, s).rest).Broken?)
    decreases |s|
  {
    hide Front;
    match Front(net, s)
    case Incomplete =>
    case Broken =>
    case Complete(_, size) => RestFront(net, s[size..]);
  }

  lemma TooShort(net: Net, s: seq<Byte>)
    requires |s| < MESSAGE_HEADER_SIZE
    ensures Front(net, s) == Incomplete
  {
  }

  lemma WaitsExactly(net: Net, s: seq<Byte>)
    requires |s| >= MESSAGE_HEADER_SIZE
    ensures Front(net, s).Incomplete? <==>
            exists h :: Announces(net, h) && HeaderToBytes(h) == s[..MESSAGE_HEADER_SIZE] && |s| < MESSAGE_HEADER_SIZE + h.length
  {
    hide CommandOk, TextOf, HeaderToBytes, BytesToHeader, Name;
    if Front(net, s).Incomplete? {
      HeaderSpells(s);
      assert Announces(net, BytesToHeader(s).value);
    }
    if h :| Announces(net, h) && HeaderToBytes(h) == s[..MESSAGE_HEADER_SIZE] && |s| < MESSAGE_HEADER_SIZE + h.length {
      assert s == HeaderToBytes(h) + s[MESSAGE_HEADER_SIZE..];
      MsgHeaderRoundTrip(h, s[MESSAGE_HEADER_SIZE..]);
    }
  }

  /** Once broken, no continuation makes the rest begin with a frame. */
  lemma BrokenForGood(net: Net, s: seq<Byte>, more: seq<Byte>, d: Delivery)
    requires Parse(net, s).bad && Framable(d)
    ensures !(FrameOf(net, d) <= Parse(net, s).rest + more)
  {
    hide Front, FrameOf, Framable, Parse;
    var rest := Parse(net, s).rest;
    RestFront(net, s);
    FrontExtends(net, rest, more);
    CompleteExactly(net, rest + more);
  }

  /** The other way round fails: a first byte of the wrong network cannot be continued to a frame and is not broken yet. */
  lemma HopelessButWaiting(net: Net, b: Byte, more: seq<Byte>, d: Delivery)
    requires Framable(d) && b != LeBytes(net.magic, 4)[0]
    ensures Parse(net, [b]) == Feed([], [b], false) && !(FrameOf(net, d) <= [b] + more)
  {
    hide Front, LeBytes, Padded, Framable;
    TooShort(net, [b]);
    assert FrameOf(net, d)[0] == LeBytes(net.magic, 4)[0];
    assert ([b] + more)[0] == b;
  }
}
