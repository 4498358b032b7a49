/**
 Whole frames: an 11-byte head, a PayloadProtect record and the payload. One
 packer, and the four unpackers of the repository (a complete buffer, the host
 stream, the daemon stream and USB).
 */
module Frames {
  import opened Bytes
  import opened Records
  import Tlv

  const HEAD_SIZE: nat := 11
  const USB_HEAD_SIZE: nat := 11
  const HDC_BUF_MAX_SIZE: nat := 0x7fff_ffff
  const PAYLOAD_VCODE: nat := 9
  const PACKET_FLAG: seq<byte> := [72, 87]
  const USB_PACKET_FLAG: seq<byte> := [85, 66]
  const USB_OPTION_HEADER: byte := 1

  /** `HdcCommand::try_from`: the codes that name a command. */
  predicate IsCommand(c: nat) {
    || c <= 2 || 4 <= c <= 21 || 1000 <= c <= 1012 || c == 1200 || 2000 <= c <= 2001
    || 2500 <= c <= 2512 || 3000 <= c <= 3008 || 3500 <= c <= 3505 || 4000 <= c <= 4008
    || c == 5000 || c == 6000
  }

  /** A command is its code. */
  datatype TaskMessage = TaskMessage(channelId: nat, command: nat, payload: seq<byte>) {
    predicate Valid() { channelId < TWO_32 && IsCommand(command) }
  }

  function Protect(m: TaskMessage): PayloadProtect {
    PayloadProtect(m.channelId, m.command, 0, PAYLOAD_VCODE)
  }

  function ProtectBytes(m: TaskMessage): seq<byte>
    requires m.Valid()
  {
    Protect(m).Serialize()
  }

  /** PayloadHead::serialize; the sizes are cut to 16 and 32 bits. */
  function HeadBytes(headSize: nat, dataSize: nat): (s: seq<byte>)
    ensures |s| == HEAD_SIZE
  {
    PACKET_FLAG + [0, 0, 1] + ToBe(headSize, 2) + ToBe(dataSize, 4)
  }

  /** concat_pack. */
  function Pack(m: TaskMessage): seq<byte>
    requires m.Valid()
  {
    HeadBytes(|ProtectBytes(m)|, |m.payload|) + (ProtectBytes(m) + m.payload)
  }

  /** The messages the size check of the readers lets through. */
  predicate Legal(m: TaskMessage) {
    m.Valid() && |ProtectBytes(m)| + |m.payload| <= HDC_BUF_MAX_SIZE
  }

  // ------------------------------------------------------------------
  // The unpackers
  // ------------------------------------------------------------------

  /** unpack_payload_head: head size and data size. */
  function UnpackHead(data: seq<byte>): (r: Result<(nat, nat)>) {
    if |data| < HEAD_SIZE then Err(HeadTooShort)
    else if data[..2] != PACKET_FLAG then Err(BadFlag)
    else Ok((FromBe(data[5..7]), FromBe(data[7..11])))
  }

  function SizeCheck(headSize: nat, dataSize: nat): Result<()> {
    if headSize + dataSize == 0 || headSize + dataSize > HDC_BUF_MAX_SIZE then Err(BadPacketSize) else Ok(())
  }

  function MessageOf(protect: PayloadProtect, payload: seq<byte>): Result<TaskMessage> {
    if !IsCommand(protect.commandFlag) then Err(UnknownCommand)
    else Ok(TaskMessage(protect.channelId, protect.commandFlag, payload))
  }

  /** unpack_task_message on a complete buffer. */
  function Unpack(data: seq<byte>): Result<TaskMessage> {
    var sizes :- UnpackHead(data);
    var (h, d) := sizes;
    var _ :- SizeCheck(h, d);
    if HEAD_SIZE + h + d > |data| then Err(IncompletePacket)
    else
      var protect :- PayloadProtect.Deserialize(data[HEAD_SIZE..HEAD_SIZE + h]);
      if protect.vCode != PAYLOAD_VCODE then Err(BadVersionCode)
      else MessageOf(protect, data[HEAD_SIZE + h..HEAD_SIZE + h + d])
  }

  /** read_frame / read_exact_from_usb on the bytes still to come. */
  function Take(s: seq<byte>, n: nat): (r: Result<(seq<byte>, seq<byte>)>)
    ensures r.Ok? ==> |r.value.0| == n && |r.value.1| == |s| - n
  {
    if n <= |s| then Ok((s[..n], s[n..])) else Err(PeerShutdown)
  }

  /** The host's streaming unpack_task_message (no version-code check). */
  function HostRead(s: seq<byte>): Result<(TaskMessage, seq<byte>)> {
    var head :- Take(s, HEAD_SIZE);
    var sizes :- UnpackHead(head.0);
    var _ :- SizeCheck(sizes.0, sizes.1);
    var protect :- Take(head.1, sizes.0);
    var p :- PayloadProtect.Deserialize(protect.0);
    if !IsCommand(p.commandFlag) then Err(UnknownCommand)
    else
      var payload :- Take(protect.1, sizes.1);
      Ok((TaskMessage(p.channelId, p.commandFlag, payload.0), payload.1))
  }

  /** recv_raw_frame of the daemon (`checked`) and recv_raw_hdc_frame of the host. */
  function RawRead(s: seq<byte>, checked: bool): (r: Result<(seq<byte>, seq<byte>)>)
    ensures r.Ok? ==> |r.value.1| < |s|
  {
    var head :- Take(s, HEAD_SIZE);
    var sizes :- UnpackHead(head.0);
    if checked && SizeCheck(sizes.0, sizes.1).Err? then Err(BadPacketSize)
    else
      var protect :- Take(head.1, sizes.0);
      var payload :- Take(protect.1, sizes.1);
      Ok((head.0 + (protect.0 + payload.0), payload.1))
  }

  /** A raw frame, then the buffer unpacker. */
  function FrameRead(s: seq<byte>, checked: bool): Result<(TaskMessage, seq<byte>)> {
    var frame :- RawRead(s, checked);
    var m :- Unpack(frame.0);
    Ok((m, frame.1))
  }

  // ------------------------------------------------------------------
  // Frames come back
  // ------------------------------------------------------------------

  lemma ProtectLength(m: TaskMessage)
    requires m.Valid()
    ensures 0 < |ProtectBytes(m)| <= 44
  {
    var f := Protect(m).Fields();
    Tlv.NumericLength(PROTECT, f, 4);
    assert |Tlv.FieldBytes(4, PROTECT[3], f[3])| == 2;
  }

  lemma HeadReadsBack(headSize: nat, dataSize: nat, rest: seq<byte>)
    requires headSize < TWO_16
    ensures var r := UnpackHead(HeadBytes(headSize, dataSize) + rest);
            r.Ok? && r.value.0 == headSize && (if dataSize < TWO_32 then r.value.1 == dataSize else r.value.1 < TWO_32)
  {
    var s := HeadBytes(headSize, dataSize) + rest;
    Pow256Constants();
    FromBeToBe(headSize, 2);
    FromBeToBe(dataSize, 4);
    assert s[..2] == PACKET_FLAG;
    assert s[5..7] == ToBe(headSize, 2);
    assert s[7..11] == ToBe(dataSize, 4);
  }

  lemma ProtectReadsBack(m: TaskMessage)
    requires m.Valid()
    ensures PayloadProtect.Deserialize(ProtectBytes(m)) == Ok(Protect(m))
  {
    ProtectRoundTrip(Protect(m));
  }

  /** The four parts of a stream that starts with a packed frame. */
  lemma FrameParts(m: TaskMessage, rest: seq<byte>)
    requires m.Valid() && |m.payload| < TWO_32
    ensures var s, p := Pack(m) + rest, ProtectBytes(m);
            && Take(s, HEAD_SIZE) == Ok((HeadBytes(|p|, |m.payload|), p + m.payload + rest))
            && UnpackHead(HeadBytes(|p|, |m.payload|)) == Ok((|p|, |m.payload|))
            && Take(p + m.payload + rest, |p|) == Ok((p, m.payload + rest))
            && Take(m.payload + rest, |m.payload|) == Ok((m.payload, rest))
  {
    var p := ProtectBytes(m);
    ProtectLength(m);
    HeadReadsBack(|p|, |m.payload|, []);
    var head := HeadBytes(|p|, |m.payload|);
    assert head + [] == head;
    assert Pack(m) + rest == head + (p + m.payload + rest);
    Tlv.Split(head, p + m.payload + rest);
    assert p + m.payload + rest == p + (m.payload + rest);
    Tlv.Split(p, m.payload + rest);
    Tlv.Split(m.payload, rest);
  }

  /** The buffer unpacker undoes the packer exactly on the legal messages. */
  lemma UnpackPack(m: TaskMessage)
    requires m.Valid()
    ensures Unpack(Pack(m)) == Ok(m) <==> Legal(m)
  {
    hide Tlv.Deserialize, Tlv.Serialize;
    var p, s := ProtectBytes(m), Pack(m);
    ProtectLength(m);
    ProtectReadsBack(m);
    HeadReadsBack(|p|, |m.payload|, p + m.payload);
    if |m.payload| < TWO_32 {
      assert s[HEAD_SIZE..HEAD_SIZE + |p|] == p;
      assert s[HEAD_SIZE + |p|..HEAD_SIZE + |p| + |m.payload|] == m.payload;
    }
  }

  /** Both streaming unpackers return the message and stop at its last byte. */
  lemma StreamsReadPack(m: TaskMessage, rest: seq<byte>)
    requires Legal(m)
    ensures HostRead(Pack(m) + rest) == Ok((m, rest))
    ensures RawRead(Pack(m) + rest, true) == RawRead(Pack(m) + rest, false) == Ok((Pack(m), rest))
    ensures FrameRead(Pack(m) + rest, true) == FrameRead(Pack(m) + rest, false) == Ok((m, rest))
  {
    hide Tlv.Deserialize, Tlv.Serialize, HeadBytes, UnpackHead, Unpack, Take;
    ProtectLength(m);
    FrameParts(m, rest);
    ProtectReadsBack(m);
    UnpackPack(m);
  }

  predicate AllLegal(ms: seq<TaskMessage>) {
    forall i :: 0 <= i < |ms| ==> Legal(ms[i])
  }

  function PackAll(ms: seq<TaskMessage>): seq<byte>
    requires AllLegal(ms)
  {
    if ms == [] then [] else Pack(ms[0]) + PackAll(ms[1..])
  }

  // ------------------------------------------------------------------
  // What the unpackers accept, on any bytes
  // ------------------------------------------------------------------

  /** A frame at the front of `s`: flag, three bytes of any kind, both sizes, protect record, payload. */
  ghost predicate Layout(s: seq<byte>, any: seq<byte>, protect: seq<byte>, p: PayloadProtect, payload: seq<byte>,
                         rest: seq<byte>)
  {
    && s == PACKET_FLAG + any + ToBe(|protect|, 2) + ToBe(|payload|, 4) + protect + payload + rest
    && |any| == 3 && |protect| < TWO_16 && |payload| < TWO_32
    && PayloadProtect.Deserialize(protect) == Ok(p)
  }

  /** The sizes are not both zero, and not too large. */
  predicate SizesFit(protect: seq<byte>, payload: seq<byte>) {
    0 < |protect| + |payload| <= HDC_BUF_MAX_SIZE
  }

  /** The record names this message, and its command is a known one. */
  predicate Describes(p: PayloadProtect, m: TaskMessage) {
    p.channelId == m.channelId && p.commandFlag == m.command && IsCommand(m.command)
  }

  /** `s` starts with a frame of `m` that fits; `versioned`: under the right version code. */
  ghost predicate StartsWith(s: seq<byte>, m: TaskMessage, rest: seq<byte>, versioned: bool) {
    exists any, protect, p :: Layout(s, any, protect, p, m.payload, rest) && SizesFit(protect, m.payload)
                              && Describes(p, m) && (versioned ==> p.vCode == PAYLOAD_VCODE)
  }

  /** From a layout to what the readers cut out of it. */
  lemma LayoutCuts(s: seq<byte>, any: seq<byte>, protect: seq<byte>, p: PayloadProtect, payload: seq<byte>, rest: seq<byte>)
    requires Layout(s, any, protect, p, payload, rest)
    ensures |s| == HEAD_SIZE + |protect| + |payload| + |rest|
    ensures UnpackHead(s) == UnpackHead(s[..HEAD_SIZE]) == Ok((|protect|, |payload|))
    ensures s[HEAD_SIZE..HEAD_SIZE + |protect|] == protect
    ensures s[HEAD_SIZE + |protect|..HEAD_SIZE + |protect| + |payload|] == payload
    ensures s[HEAD_SIZE + |protect| + |payload|..] == rest
  {
    hide PayloadProtect.Deserialize;
    Pow256Constants();
    FromBeToBe(|protect|, 2);
    FromBeToBe(|payload|, 4);
    assert s[..2] == PACKET_FLAG && s[5..7] == ToBe(|protect|, 2) && s[7..11] == ToBe(|payload|, 4);
    assert s[..HEAD_SIZE][..2] == s[..2] && s[..HEAD_SIZE][5..7] == s[5..7] && s[..HEAD_SIZE][7..11] == s[7..11];
  }

  /** And back. */
  lemma CutsLayout(s: seq<byte>, h: nat, d: nat, p: PayloadProtect)
    requires UnpackHead(s) == Ok((h, d)) && HEAD_SIZE + h + d <= |s|
    requires PayloadProtect.Deserialize(s[HEAD_SIZE..HEAD_SIZE + h]) == Ok(p)
    ensures var n := HEAD_SIZE + h; Layout(s, s[2..5], s[HEAD_SIZE..n], p, s[n..n + d], s[n + d..])
  {
    hide PayloadProtect.Deserialize;
    Pow256Constants();
    ToBeFromBe(s[5..7]);
    ToBeFromBe(s[7..11]);
    var n := HEAD_SIZE + h;
    assert s == s[..2] + s[2..5] + s[5..7] + s[7..11] + s[11..n] + s[n..n + d] + s[n + d..];
  }

  /** The buffer unpacker accepts exactly the frames that fit, under the right version code. */
  lemma UnpackIff(s: seq<byte>, m: TaskMessage)
    ensures Unpack(s) == Ok(m) <==> exists rest :: StartsWith(s, m, rest, true)
  {
    hide PayloadProtect.Deserialize, Layout, IsCommand;
    if Unpack(s) == Ok(m) {
      var (h, d) := UnpackHead(s).value;
      var p := PayloadProtect.Deserialize(s[HEAD_SIZE..HEAD_SIZE + h]).value;
      CutsLayout(s, h, d, p);
      assert StartsWith(s, m, s[HEAD_SIZE + h + d..], true);
    }
    if exists rest :: StartsWith(s, m, rest, true) {
      var rest :| StartsWith(s, m, rest, true);
      var any, protect, p :| Layout(s, any, protect, p, m.payload, rest) && SizesFit(protect, m.payload)
                             && Describes(p, m) && p.vCode == PAYLOAD_VCODE;
      LayoutCuts(s, any, protect, p, m.payload, rest);
      Decoded(s, any, protect, p, m.payload, rest);
    }
  }

  lemma Decoded(s: seq<byte>, any: seq<byte>, protect: seq<byte>, p: PayloadProtect, payload: seq<byte>, rest: seq<byte>)
    requires Layout(s, any, protect, p, payload, rest)
    ensures PayloadProtect.Deserialize(protect) == Ok(p)
  {
  }

  /** The host's streaming unpacker accepts exactly the frames that fit, under any version code. */
  lemma HostReadIff(s: seq<byte>, m: TaskMessage, rest: seq<byte>)
    ensures HostRead(s) == Ok((m, rest)) <==> StartsWith(s, m, rest, false)
  {
    hide PayloadProtect.Deserialize, Layout, IsCommand;
    if HostRead(s) == Ok((m, rest)) {
      var (h, d) := UnpackHead(s[..HEAD_SIZE]).value;
      HeadOnly(s);
      Drops(s, h, d);
      var p := PayloadProtect.Deserialize(s[HEAD_SIZE..HEAD_SIZE + h]).value;
      CutsLayout(s, h, d, p);
      assert StartsWith(s, m, rest, false);
    }
    if StartsWith(s, m, rest, false) {
      var any, protect, p :| Layout(s, any, protect, p, m.payload, rest) && SizesFit(protect, m.payload) && Describes(p, m);
      LayoutCuts(s, any, protect, p, m.payload, rest);
      Decoded(s, any, protect, p, m.payload, rest);
      Drops(s, |protect|, |m.payload|);
    }
  }

  lemma HeadOnly(s: seq<byte>)
    requires |s| >= HEAD_SIZE
    ensures UnpackHead(s) == UnpackHead(s[..HEAD_SIZE])
  {
    var head := s[..HEAD_SIZE];
    assert head[..2] == s[..2] && head[5..7] == s[5..7] && head[7..11] == s[7..11];
  }

  lemma Drops(s: seq<byte>, h: nat, d: nat)
    requires |s| >= HEAD_SIZE
    ensures h <= |s| - HEAD_SIZE ==>
              s[HEAD_SIZE..][..h] == s[HEAD_SIZE..HEAD_SIZE + h] && s[HEAD_SIZE..][h..] == s[HEAD_SIZE + h..]
    ensures h + d <= |s| - HEAD_SIZE ==>
              s[HEAD_SIZE + h..][..d] == s[HEAD_SIZE + h..HEAD_SIZE + h + d] && s[HEAD_SIZE + h..][d..] == s[HEAD_SIZE + h + d..]
  {
  }

  lemma FrameReadSound(s: seq<byte>, checked: bool, m: TaskMessage, rest: seq<byte>)
    requires FrameRead(s, checked) == Ok((m, rest))
    ensures StartsWith(s, m, rest, true)
  {
    hide PayloadProtect.Deserialize, Layout, IsCommand, Unpack, UnpackHead;
    RawIsPrefix(s, checked);
    var frame := RawRead(s, checked).value.0;
    UnpackIff(frame, m);
    var over :| StartsWith(frame, m, over, true);
    var any, protect, p :| Layout(frame, any, protect, p, m.payload, over) && SizesFit(protect, m.payload)
                           && Describes(p, m) && p.vCode == PAYLOAD_VCODE;
    LayoutCuts(frame, any, protect, p, m.payload, over);
    assert over == [];
    Extends(s, frame, any, protect, p, m.payload, rest);
  }

  lemma FrameReadComplete(s: seq<byte>, checked: bool, m: TaskMessage, rest: seq<byte>)
    requires StartsWith(s, m, rest, true)
    ensures FrameRead(s, checked) == Ok((m, rest))
  {
    hide PayloadProtect.Deserialize, Layout, IsCommand, Unpack, UnpackHead;
    var any, protect, p :| Layout(s, any, protect, p, m.payload, rest) && SizesFit(protect, m.payload)
                           && Describes(p, m) && p.vCode == PAYLOAD_VCODE;
    LayoutCuts(s, any, protect, p, m.payload, rest);
    Drops(s, |protect|, |m.payload|);
    var frame := s[..HEAD_SIZE + |protect| + |m.payload|];
    assert frame == s[..HEAD_SIZE] + (protect + m.payload);
    Prefix(s, frame, any, protect, p, m.payload, rest);
    assert StartsWith(frame, m, [], true);
    UnpackIff(frame, m);
  }

  /** Raw frames, checked or not, followed by the buffer unpacker: the same frames as the buffer unpacker alone. */
  lemma FrameReadIff(s: seq<byte>, checked: bool, m: TaskMessage, rest: seq<byte>)
    ensures FrameRead(s, checked) == Ok((m, rest)) <==> StartsWith(s, m, rest, true)
  {
    hide FrameRead, StartsWith;
    if FrameRead(s, checked) == Ok((m, rest)) { FrameReadSound(s, checked, m, rest); }
    if StartsWith(s, m, rest, true) { FrameReadComplete(s, checked, m, rest); }
  }

  lemma RawIsPrefix(s: seq<byte>, checked: bool)
    requires RawRead(s, checked).Ok?
    ensures var r := RawRead(s, checked).value;
            && s == r.0 + r.1 && |s| >= HEAD_SIZE && |r.0| >= HEAD_SIZE && s[..HEAD_SIZE] == r.0[..HEAD_SIZE]
            && var sizes := UnpackHead(s[..HEAD_SIZE]); sizes.Ok? && |r.0| == HEAD_SIZE + sizes.value.0 + sizes.value.1
  {
  }

  lemma Extends(s: seq<byte>, frame: seq<byte>, any: seq<byte>, protect: seq<byte>, p: PayloadProtect,
                payload: seq<byte>, rest: seq<byte>)
    requires Layout(frame, any, protect, p, payload, []) && s == frame + rest
    ensures Layout(s, any, protect, p, payload, rest)
  {
    hide PayloadProtect.Deserialize;
  }

  lemma Prefix(s: seq<byte>, frame: seq<byte>, any: seq<byte>, protect: seq<byte>, p: PayloadProtect,
               payload: seq<byte>, rest: seq<byte>)
    requires Layout(s, any, protect, p, payload, rest) && frame == s[..HEAD_SIZE + |protect| + |payload|]
    ensures Layout(frame, any, protect, p, payload, [])
  {
    hide PayloadProtect.Deserialize;
    assert s == PACKET_FLAG + any + ToBe(|protect|, 2) + ToBe(|payload|, 4) + protect + payload + rest;
  }
}
