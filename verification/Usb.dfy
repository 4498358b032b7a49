/**
 The USB transport: bulk transfers out, a header-driven reader in. A message
 is a header transfer, its payload transfer and, when the payload fills its
 last packet, a dummy header.
 */
module Usb {
  import opened Bytes
  import opened Frames
  import opened Records
  import Streams
  import Tlv

  /** build_usb_header. */
  function Header(sessionId: nat, option: byte, dataSize: nat): (h: seq<byte>)
    ensures |h| == USB_HEAD_SIZE
  {
    USB_PACKET_FLAG + [option] + ToBe(sessionId, 4) + ToBe(dataSize, 4)
  }

  /** The bulk transfers of one send_usb_raw. */
  function Transfers(sessionId: nat, payload: seq<byte>, maxPacket: nat): (t: seq<seq<byte>>)
    requires maxPacket > 0
    ensures t != []
  {
    [Header(sessionId, USB_OPTION_HEADER, |payload|)]
    + (if payload != [] then [payload] else [])
    + (if payload != [] && |payload| % maxPacket == 0 then [Header(sessionId, 0, 0)] else [])
  }

  /** A transfer ends in a short packet when it does not fill its last one. */
  predicate EndsShort(transfer: seq<byte>, maxPacket: nat)
    requires maxPacket > 0
  {
    |transfer| % maxPacket != 0
  }

  /** When the receiver can see the end of a message from its packets. */
  lemma LastTransferShort(sessionId: nat, payload: seq<byte>, maxPacket: nat)
    requires maxPacket > 0
    ensures var t := Transfers(sessionId, payload, maxPacket);
            EndsShort(t[|t| - 1], maxPacket) <==> (|payload| % maxPacket != 0 || USB_HEAD_SIZE % maxPacket != 0)
  {
    assert payload == [] ==> |payload| % maxPacket == 0;
  }

  /** The OUT endpoint: the transfers written so far. */
  class Endpoint {
    var written: seq<seq<byte>>

    constructor ()
      ensures written == []
    {
      written := [];
    }

    method WriteBulk(transfer: seq<byte>)
      modifies this
      ensures written == old(written) + [transfer]
    {
      written := written + [transfer];
    }

    /** send_usb_raw. */
    method SendRaw(sessionId: nat, payload: seq<byte>, maxPacket: nat)
      requires maxPacket > 0
      modifies this
      ensures written == old(written) + Transfers(sessionId, payload, maxPacket)
    {
      WriteBulk(Header(sessionId, USB_OPTION_HEADER, |payload|));
      if payload != [] {
        WriteBulk(payload);
      }
      if |payload| > 0 && |payload| % maxPacket == 0 {
        WriteBulk(Header(sessionId, 0, 0));
      }
    }
  }

  /** How one recv_usb_message ends. */
  datatype Outcome = Got(sessionId: nat, task: TaskMessage) | Skipped | Broken(error: Error)

  /** The part of recv_usb_message after the payload has been read. */
  function ParsePayload(data: seq<byte>): Result<TaskMessage> {
    var sizes :- UnpackHead(data);
    var (h, d) := sizes;
    if HEAD_SIZE + h + d > |data| then Err(IncompletePacket)
    else
      var protect :- PayloadProtect.Deserialize(data[HEAD_SIZE..HEAD_SIZE + h]);
      MessageOf(protect, data[HEAD_SIZE + h..HEAD_SIZE + h + d])
  }

  /** recv_usb_message on the bytes still to come, and the bytes it leaves. */
  function Recv(s: seq<byte>): (r: (Outcome, seq<byte>))
    ensures !r.0.Broken? ==> |r.1| < |s|
  {
    match Take(s, USB_HEAD_SIZE)
    case Err(e) => (Broken(e), [])
    case Ok((head, rest)) =>
      var size := FromBe(head[7..11]);
      if size == 0 then (Skipped, rest)
      else if head[2] % 2 == 0 then (Broken(MissingHeaderOption), rest)
      else if size > HDC_BUF_MAX_SIZE then (Broken(PayloadTooLarge), rest)
      else
        match Take(rest, size)
        case Err(e) => (Broken(e), [])
        case Ok((data, after)) =>
          match ParsePayload(data)
          case Err(e) => (Broken(e), after)
          case Ok(m) => (Got(FromBe(head[3..7]), m), after)
  }

  /** The session read loop: nop packets are skipped, any other error ends it. */
  function Session(s: seq<byte>): (r: (seq<(nat, TaskMessage)>, Error))
    decreases |s|
  {
    var (o, rest) := Recv(s);
    match o
    case Broken(e) => ([], e)
    case Skipped => Session(rest)
    case Got(id, m) => ([(id, m)] + Session(rest).0, Session(rest).1)
  }

  method RecvMessage(rd: Streams.ByteStream) returns (r: Outcome)
    requires rd.Valid()
    modifies rd
    ensures rd.Valid() && (r, rd.Pending()) == Recv(old(rd.Pending()))
  {
    hide ParsePayload;
    var head := Streams.ReadFrame(rd, USB_HEAD_SIZE);
    if head.Err? { return Broken(head.error); }
    var size := FromBe(head.value[7..11]);
    if size == 0 { return Skipped; }
    if head.value[2] % 2 == 0 { return Broken(MissingHeaderOption); }
    if size > HDC_BUF_MAX_SIZE { return Broken(PayloadTooLarge); }
    var data := Streams.ReadFrame(rd, size);
    if data.Err? { return Broken(data.error); }
    var m := ParsePayload(data.value);
    if m.Err? { return Broken(m.error); }
    r := Got(FromBe(head.value[3..7]), m.value);
  }

  /** The read loop of start_usb_session. */
  method ReadLoop(rd: Streams.ByteStream) returns (got: seq<(nat, TaskMessage)>, error: Error)
    requires rd.Valid()
    modifies rd
    ensures (got, error) == Session(old(rd.Pending()))
  {
    hide Recv, Flatten;
    got := [];
    ghost var all := Session(rd.Pending());
    while true
      invariant rd.Valid()
      invariant all.0 == got + Session(rd.Pending()).0
      invariant all.1 == Session(rd.Pending()).1
      decreases |rd.Pending()|
    {
      var r := RecvMessage(rd);
      match r {
        case Broken(e) =>
          assert got + [] == got;
          return got, e;
        case Skipped =>
        case Got(id, m) => got := got + [(id, m)];
      }
    }
  }

  // ------------------------------------------------------------------
  // What is sent is what is read
  // ------------------------------------------------------------------

  /** The receiver counts the head into the size it limits; the other readers do not. */
  predicate Sendable(m: TaskMessage) {
    m.Valid() && |Pack(m)| <= HDC_BUF_MAX_SIZE
  }

  /** On every legal message the USB parser agrees with the buffer unpacker. */
  lemma ParsesPack(m: TaskMessage)
    requires Legal(m)
    ensures ParsePayload(Pack(m)) == Ok(m) == Unpack(Pack(m))
  {
    hide Tlv.Deserialize, Tlv.Serialize;
    UnpackPack(m);
  }

  /** On any bytes the USB parser accepts exactly a frame, whatever its sizes and its version code. */
  lemma ParsePayloadIff(data: seq<byte>, m: TaskMessage)
    ensures ParsePayload(data) == Ok(m)
       <==> exists any, protect, p, rest :: Layout(data, any, protect, p, m.payload, rest) && Describes(p, m)
  {
    hide PayloadProtect.Deserialize, Layout, IsCommand, UnpackHead;
    if ParsePayload(data) == Ok(m) {
      var (h, d) := UnpackHead(data).value;
      var p := PayloadProtect.Deserialize(data[HEAD_SIZE..HEAD_SIZE + h]).value;
      CutsLayout(data, h, d, p);
    }
    if exists any, protect, p, rest :: Layout(data, any, protect, p, m.payload, rest) && Describes(p, m) {
      var any, protect, p, rest :| Layout(data, any, protect, p, m.payload, rest) && Describes(p, m);
      LayoutCuts(data, any, protect, p, m.payload, rest);
      Decoded(data, any, protect, p, m.payload, rest);
    }
  }

  /** A header of any flag with its option bit set, and the data it announces, at the front of `s`. */
  ghost predicate Announced(s: seq<byte>, flag: seq<byte>, option: byte, sessionId: nat, data: seq<byte>, rest: seq<byte>) {
    && s == flag + [option] + ToBe(sessionId, 4) + ToBe(|data|, 4) + data + rest
    && |flag| == 2 && option % 2 == 1 && sessionId < TWO_32 && 0 < |data| <= HDC_BUF_MAX_SIZE
  }

  /** On any bytes a message is received if and only if it is announced so and parses. */
  lemma RecvIff(s: seq<byte>, sessionId: nat, m: TaskMessage, rest: seq<byte>)
    ensures Recv(s) == (Got(sessionId, m), rest)
       <==> exists flag, option, data :: Announced(s, flag, option, sessionId, data, rest) && ParsePayload(data) == Ok(m)
  {
    hide ParsePayload, Announced;
    if Recv(s) == (Got(sessionId, m), rest) {
      AnnouncedOf(s, FromBe(s[..USB_HEAD_SIZE][7..11]));
    }
    if exists flag, option, data :: Announced(s, flag, option, sessionId, data, rest) && ParsePayload(data) == Ok(m) {
      var flag, option, data :| Announced(s, flag, option, sessionId, data, rest) && ParsePayload(data) == Ok(m);
      AnnouncedCuts(s, flag, option, sessionId, data, rest);
    }
  }

  lemma AnnouncedOf(s: seq<byte>, size: nat)
    requires |s| >= USB_HEAD_SIZE + size && size == FromBe(s[..USB_HEAD_SIZE][7..11])
    requires s[..USB_HEAD_SIZE][2] % 2 == 1 && 0 < size <= HDC_BUF_MAX_SIZE
    ensures var head, tail := s[..USB_HEAD_SIZE], s[USB_HEAD_SIZE..];
            Announced(s, head[..2], head[2], FromBe(head[3..7]), tail[..size], tail[size..])
  {
    var head, tail := s[..USB_HEAD_SIZE], s[USB_HEAD_SIZE..];
    Pow256Constants();
    ToBeFromBe(head[3..7]);
    ToBeFromBe(head[7..11]);
    assert head == head[..2] + [head[2]] + head[3..7] + head[7..11];
    assert s == head + tail[..size] + tail[size..];
  }

  lemma AnnouncedCuts(s: seq<byte>, flag: seq<byte>, option: byte, sessionId: nat, data: seq<byte>, rest: seq<byte>)
    requires Announced(s, flag, option, sessionId, data, rest)
    ensures |s| >= USB_HEAD_SIZE
    ensures var head, tail := s[..USB_HEAD_SIZE], s[USB_HEAD_SIZE..];
            && head[2] == option && option % 2 == 1 && FromBe(head[3..7]) == sessionId
            && FromBe(head[7..11]) == |data| && 0 < |data| <= HDC_BUF_MAX_SIZE
            && |data| <= |tail| && tail[..|data|] == data && tail[|data|..] == rest
  {
    var head, tail := s[..USB_HEAD_SIZE], s[USB_HEAD_SIZE..];
    Pow256Constants();
    FromBeToBe(sessionId, 4);
    FromBeToBe(|data|, 4);
    var h := flag + [option] + ToBe(sessionId, 4) + ToBe(|data|, 4);
    assert s == h + (data + rest);
    assert head == h && tail == data + rest;
    assert h[3..7] == ToBe(sessionId, 4) && h[7..11] == ToBe(|data|, 4);
  }

  lemma HeaderFields(sessionId: nat, option: byte, size: nat)
    requires sessionId < TWO_32 && size < TWO_32
    ensures var h := Header(sessionId, option, size);
            h[2] == option && FromBe(h[3..7]) == sessionId && FromBe(h[7..11]) == size
  {
    var h := Header(sessionId, option, size);
    Pow256Constants();
    FromBeToBe(sessionId, 4);
    FromBeToBe(size, 4);
    assert h[3..7] == ToBe(sessionId, 4);
    assert h[7..11] == ToBe(size, 4);
  }

  /** One legal message: read, or refused by its size alone; and the dummy header. */
  lemma RecvHeader(sessionId: nat, m: TaskMessage, rest: seq<byte>)
    requires Legal(m) && sessionId < TWO_32
    ensures Recv(Header(sessionId, USB_OPTION_HEADER, |Pack(m)|) + (Pack(m) + rest))
         == if Sendable(m) then (Got(sessionId, m), rest) else (Broken(PayloadTooLarge), Pack(m) + rest)
    ensures Recv(Header(sessionId, 0, 0) + rest) == (Skipped, rest)
  {
    PackNonEmpty(m);
    hide Header, Pack, ParsePayload;
    HeaderFields(sessionId, USB_OPTION_HEADER, |Pack(m)|);
    HeaderFields(sessionId, 0, 0);
    Tlv.Split(Header(sessionId, USB_OPTION_HEADER, |Pack(m)|), Pack(m) + rest);
    Tlv.Split(Header(sessionId, 0, 0), rest);
    Tlv.Split(Pack(m), rest);
    ParsesPack(m);
  }

  lemma PackNonEmpty(m: TaskMessage)
    requires m.Valid()
    ensures |Pack(m)| >= HEAD_SIZE
    ensures Legal(m) ==> |Pack(m)| < TWO_32
    ensures Sendable(m) ==> Legal(m)
  {
  }

  /** Every transfer of the messages, sent one after the other. */
  function SendAll(sessionId: nat, ms: seq<TaskMessage>, maxPacket: nat): seq<seq<byte>>
    requires maxPacket > 0 && AllLegal(ms)
  {
    if ms == [] then [] else Transfers(sessionId, Pack(ms[0]), maxPacket) + SendAll(sessionId, ms[1..], maxPacket)
  }

  /** The messages before the first that is too large for the receiver. */
  function Readable(ms: seq<TaskMessage>): (n: nat)
    ensures n <= |ms|
    ensures forall i :: 0 <= i < n ==> Sendable(ms[i])
    ensures n < |ms| ==> !Sendable(ms[n])
  {
    if ms == [] || !Sendable(ms[0]) then 0 else 1 + Readable(ms[1..])
  }

  function Tagged(sessionId: nat, ms: seq<TaskMessage>): seq<(nat, TaskMessage)> {
    if ms == [] then [] else [(sessionId, ms[0])] + Tagged(sessionId, ms[1..])
  }

  /** What follows the payload on the wire: the dummy header, if the payload fills its last packet. */
  function Tail(sessionId: nat, payload: seq<byte>, maxPacket: nat, rest: seq<byte>): seq<byte>
    requires maxPacket > 0
  {
    if |payload| % maxPacket == 0 then Header(sessionId, 0, 0) + rest else rest
  }

  lemma TransferBytes(sessionId: nat, p: seq<byte>, maxPacket: nat, rest: seq<byte>)
    requires maxPacket > 0 && p != []
    ensures Flatten(Transfers(sessionId, p, maxPacket)) + rest
         == Header(sessionId, USB_OPTION_HEADER, |p|) + (p + Tail(sessionId, p, maxPacket, rest))
  {
    hide Header;
    var h, dummy := Header(sessionId, USB_OPTION_HEADER, |p|), Header(sessionId, 0, 0);
    FlattenPush([], h);
    FlattenPush([h], p);
    if |p| % maxPacket == 0 {
      FlattenPush([h, p], dummy);
    } else {
      assert Transfers(sessionId, p, maxPacket) == [h, p];
    }
  }

  lemma TailSkipped(sessionId: nat, m: TaskMessage, p: seq<byte>, maxPacket: nat, rest: seq<byte>)
    requires maxPacket > 0 && Legal(m) && sessionId < TWO_32
    ensures Session(Tail(sessionId, p, maxPacket, rest)) == Session(rest)
  {
    hide Header, Recv, Pack;
    RecvHeader(sessionId, m, rest);
  }

  /** One message, dummy header included: read under its session id, or the end of the session. */
  lemma OneMessage(sessionId: nat, m: TaskMessage, maxPacket: nat, rest: seq<byte>)
    requires maxPacket > 0 && Legal(m) && sessionId < TWO_32
    ensures Session(Flatten(Transfers(sessionId, Pack(m), maxPacket)) + rest)
         == if Sendable(m) then ([(sessionId, m)] + Session(rest).0, Session(rest).1) else ([], PayloadTooLarge)
  {
    PackNonEmpty(m);
    hide Header, Pack, Recv, Transfers, Tail, Sendable;
    var tail := Tail(sessionId, Pack(m), maxPacket, rest);
    TransferBytes(sessionId, Pack(m), maxPacket, rest);
    TailSkipped(sessionId, m, Pack(m), maxPacket, rest);
    RecvHeader(sessionId, m, tail);
  }

  /**
   Any sequence of legal messages comes out of the read loop unchanged, nops
   skipped, up to the first that is too large, which ends the session.
   */
  lemma {:induction false} SessionReadsSent(sessionId: nat, ms: seq<TaskMessage>, maxPacket: nat)
    requires maxPacket > 0 && sessionId < TWO_32
    requires AllLegal(ms)
    ensures Session(Flatten(SendAll(sessionId, ms, maxPacket)))
         == (Tagged(sessionId, ms[..Readable(ms)]), if Readable(ms) == |ms| then PeerShutdown else PayloadTooLarge)
  {
    hide Transfers, Pack, Sendable;
    if ms != [] {
      var first, more := Transfers(sessionId, Pack(ms[0]), maxPacket), SendAll(sessionId, ms[1..], maxPacket);
      FlattenAppend(first, more);
      SessionReadsSent(sessionId, ms[1..], maxPacket);
      OneMessage(sessionId, ms[0], maxPacket, Flatten(more));
      if Sendable(ms[0]) {
        assert ms[..Readable(ms)][1..] == ms[1..][..Readable(ms[1..])];
      }
    }
  }
}
