/**
 File transfer over HDC: the chunking loop of `file send` and the receiving
 loop of `file recv`, which share a TransferPayload header padded with zeros to
 64 bytes.
 */
module FileTransfer {
  import opened Bytes
  import opened Records
  import Tlv
  import Varint

  const HEADER_SIZE: nat := 64
  const MAX_SIZE_IOBUF: nat := 511 * 1024
  const CHUNK: nat := MAX_SIZE_IOBUF - HEADER_SIZE

  // ------------------------------------------------------------------
  // The padded header
  // ------------------------------------------------------------------

  /** `payload[..len.min(64)].copy_from_slice(&head[..len.min(64)])` into 64 zeros. */
  function Pad(head: seq<byte>): (s: seq<byte>)
    ensures |s| == HEADER_SIZE
  {
    if |head| <= HEADER_SIZE then head + Zeros(HEADER_SIZE - |head|) else head[..HEADER_SIZE]
  }

  lemma HeaderFits(p: TransferPayload)
    requires p.Valid()
    ensures |p.Serialize()| <= 44
  {
    Tlv.NumericLength(PAYLOAD, p.Fields(), 4);
  }

  /** The padded header decodes exactly when its unpadded length is even. */
  lemma PaddedHeaderDecodes(p: TransferPayload)
    requires p.Valid() && p.compressType < 128
    ensures TransferPayload.Deserialize(Pad(p.Serialize()))
         == if |p.Serialize()| % 2 == 0 then Ok(p) else Err(TruncatedVarint)
  {
    hide Tlv.Deserialize, Tlv.Serialize, Tlv.DecodeOnto;
    HeaderFits(p);
    var f := p.Fields();
    var k := HEADER_SIZE - |p.Serialize()|;
    assert Tlv.AllRepresentable(PAYLOAD, f);
    Tlv.RoundTrip(PAYLOAD, f, Zeros(k));
    Tlv.ZeroPadding(PAYLOAD, f, k);
    assert TransferPayload.Of(f) == p;
  }

  /** The header the sender builds for `n` bytes at `offset`. */
  function SenderHeader(offset: nat, n: nat): TransferPayload {
    TransferPayload(offset, 0, n, n)
  }

  /** Offsets whose header survives the padding. */
  predicate EvenHeader(offset: nat) {
    offset == 0 || |Varint.Encode(offset)| % 2 == 1
  }

  lemma SenderHeaderParity(offset: nat, n: nat)
    requires offset < TWO_64 && 0 < n < TWO_32
    ensures SenderHeader(offset, n).Valid()
    ensures |SenderHeader(offset, n).Serialize()| % 2 == 0 <==> EvenHeader(offset)
  {
    hide Tlv.FieldBytes, Varint.Encode;
    var f := SenderHeader(offset, n).Fields();
    assert Tlv.WellTyped(PAYLOAD, f);
    FieldLengths(offset, n);
    assert Tlv.SerializeFirst(PAYLOAD, f, 1) == Tlv.FieldBytes(1, U64_FIELD, Tlv.Num(offset));
    assert Tlv.SerializeFirst(PAYLOAD, f, 2) == Tlv.SerializeFirst(PAYLOAD, f, 1);
    assert |Tlv.SerializeFirst(PAYLOAD, f, 4)|
        == |Tlv.SerializeFirst(PAYLOAD, f, 2)| + 2 * |Tlv.FieldBytes(3, U32_FIELD, Tlv.Num(n))|;
  }

  lemma FieldLengths(offset: nat, n: nat)
    requires offset < TWO_64 && 0 < n < TWO_32
    ensures |Tlv.FieldBytes(1, U64_FIELD, Tlv.Num(offset))| == if offset == 0 then 0 else 1 + |Varint.Encode(offset)|
    ensures Tlv.FieldBytes(2, BYTE_FIELD, Tlv.Num(0)) == []
    ensures |Tlv.FieldBytes(3, U32_FIELD, Tlv.Num(n))| == |Tlv.FieldBytes(4, U32_FIELD, Tlv.Num(n))|
  {
    assert |Tlv.TagBytes(1, 0)| == |Tlv.TagBytes(3, 0)| == |Tlv.TagBytes(4, 0)| == 1;
  }

  // ------------------------------------------------------------------
  // The sender
  // ------------------------------------------------------------------

  /** Offset of chunk `k`: the bytes sent before it. */
  function Offset(sizes: seq<nat>, k: nat): nat
    requires k <= |sizes|
  {
    if k == 0 then 0 else Offset(sizes, k - 1) + sizes[k - 1]
  }

  /** What the successive `read`s of a file of `length` bytes can return. */
  ghost predicate ReadSizes(sizes: seq<nat>, length: nat) {
    && (forall k :: 0 <= k < |sizes| ==> 0 < sizes[k] <= CHUNK)
    && Offset(sizes, |sizes|) == length
    && length < TWO_64
  }

  lemma {:induction false} OffsetBound(sizes: seq<nat>, k: nat, n: nat)
    requires k <= n <= |sizes|
    ensures Offset(sizes, k) <= Offset(sizes, n)
    decreases n - k
  {
    if k < n {
      OffsetBound(sizes, k, n - 1);
    }
  }

  /** The FileData payload for `n` bytes of `file` at `offset`. */
  function ChunkPayload(file: seq<byte>, offset: nat, n: nat): (p: seq<byte>)
    requires offset + n <= |file| && offset < TWO_64 && 0 < n < TWO_32
    ensures |p| == HEADER_SIZE + n
  {
    SenderHeaderParity(offset, n);
    Pad(SenderHeader(offset, n).Serialize()) + file[offset..offset + n]
  }

  /** Chunk `k` of the run carries its offset and its slice of the file. */
  ghost predicate IsChunk(file: seq<byte>, sizes: seq<nat>, k: nat, payload: seq<byte>)
    requires k < |sizes| && ReadSizes(sizes, |file|)
  {
    OffsetBound(sizes, k + 1, |sizes|);
    payload == ChunkPayload(file, Offset(sizes, k), sizes[k])
  }

  /** Step 3 of handle_server_file_send; `sizes` are the results of the reads. */
  method SendFile(file: seq<byte>, sizes: seq<nat>) returns (payloads: seq<seq<byte>>)
    requires ReadSizes(sizes, |file|)
    ensures |payloads| == |sizes|
    ensures forall k :: 0 <= k < |payloads| ==> IsChunk(file, sizes, k, payloads[k])
    ensures forall k :: 0 <= k < |payloads| ==> |payloads[k]| <= MAX_SIZE_IOBUF
  {
    hide ChunkPayload;
    payloads := [];
    var offset := 0;
    for k := 0 to |sizes|
      invariant |payloads| == k && offset == Offset(sizes, k)
      invariant forall j :: 0 <= j < k ==> IsChunk(file, sizes, j, payloads[j])
      invariant forall j :: 0 <= j < k ==> |payloads[j]| <= MAX_SIZE_IOBUF
    {
      var n := sizes[k];
      OffsetBound(sizes, k + 1, |sizes|);
      assert IsChunk(file, sizes, k, ChunkPayload(file, offset, n));
      payloads := payloads + [ChunkPayload(file, offset, n)];
      offset := offset + n;
    }
  }

  // ------------------------------------------------------------------
  // The receiver
  // ------------------------------------------------------------------

  datatype Inbound = FileData(payload: seq<byte>) | FileFinish(payload: seq<byte>) | ChannelClose | Other

  /** The loop's variables: the local file, the counters and the FileFinish bytes sent. */
  datatype Receiver = Receiver(file: seq<byte>, total: nat, finishSent: bool, finishes: seq<byte>)

  function OnFileData(r: Receiver, payload: seq<byte>, fileSize: nat): Receiver {
    if |payload| < HEADER_SIZE then r
    else if TransferPayload.Deserialize(payload[..HEADER_SIZE]).Err? then
      r.(file := r.file + payload, total := r.total + |payload|)
    else
      var data := payload[HEADER_SIZE..];
      var after := r.(file := r.file + data, total := r.total + |data|);
      if !after.finishSent && after.total >= fileSize then
        after.(finishSent := true, finishes := after.finishes + [1])
      else after
  }

  function Receive(r: Receiver, inbox: seq<Inbound>, fileSize: nat): Receiver
    decreases inbox
  {
    if inbox == [] then r
    else match inbox[0]
      case FileData(p) => Receive(OnFileData(r, p, fileSize), inbox[1..], fileSize)
      case FileFinish(p) => if p != [] && p[0] == 1 then r.(finishes := r.finishes + [0]) else r
      case ChannelClose => r
      case Other => Receive(r, inbox[1..], fileSize)
  }

  const START := Receiver([], 0, false, [])

  // What the loop makes of a whole inbox, message by message.

  /** Where the loop ends: at a FileFinish, at a close, or with the inbox. */
  function Ending(inbox: seq<Inbound>): (n: nat)
    ensures n <= |inbox|
    ensures n < |inbox| ==> inbox[n].FileFinish? || inbox[n].ChannelClose?
    ensures forall i :: 0 <= i < n ==> inbox[i].FileData? || inbox[i].Other?
  {
    if inbox == [] || inbox[0].FileFinish? || inbox[0].ChannelClose? then 0 else 1 + Ending(inbox[1..])
  }

  /** A payload whose first 64 bytes decode as a header. */
  predicate Headed(p: seq<byte>) {
    |p| >= HEADER_SIZE && TransferPayload.Deserialize(p[..HEADER_SIZE]).Ok?
  }

  /** What a message adds to the file: its data, or all of it when its header does not decode. */
  function Adds(m: Inbound): seq<byte> {
    if !m.FileData? || |m.payload| < HEADER_SIZE then []
    else if Headed(m.payload) then m.payload[HEADER_SIZE..]
    else m.payload
  }

  /** The file after the first `n` messages. */
  function Added(inbox: seq<Inbound>, n: nat): seq<byte>
    requires n <= |inbox|
  {
    if n == 0 then [] else Added(inbox, n - 1) + Adds(inbox[n - 1])
  }

  /** Message `i` has a header that decodes, and with it the file has reached the announced size. */
  ghost predicate Reaches(inbox: seq<Inbound>, i: nat, fileSize: nat) {
    i < |inbox| && inbox[i].FileData? && Headed(inbox[i].payload) && |Added(inbox, i + 1)| >= fileSize
  }

  /** One of the first `n` messages does. */
  ghost predicate Reached(inbox: seq<Inbound>, n: nat, fileSize: nat) {
    exists i: nat :: i < n && Reaches(inbox, i, fileSize)
  }

  /** The loop ends on a FileFinish whose first byte is 1. */
  predicate EndsOnOne(inbox: seq<Inbound>) {
    var n := Ending(inbox);
    n < |inbox| && inbox[n].FileFinish? && inbox[n].payload != [] && inbox[n].payload[0] == 1
  }

  /** The receiver after the first `n` messages. */
  ghost function After(inbox: seq<Inbound>, n: nat, fileSize: nat): Receiver
    requires n <= |inbox|
  {
    var sent := Reached(inbox, n, fileSize);
    Receiver(Added(inbox, n), |Added(inbox, n)|, sent, if sent then [1] else [])
  }

  lemma ReachedStep(inbox: seq<Inbound>, n: nat, fileSize: nat)
    requires n < |inbox|
    ensures Reached(inbox, n + 1, fileSize) <==> Reached(inbox, n, fileSize) || Reaches(inbox, n, fileSize)
  {
    hide Reaches;
    if Reached(inbox, n + 1, fileSize) {
      var i: nat :| i < n + 1 && Reaches(inbox, i, fileSize);
      assert i < n || i == n;
    }
  }

  lemma AfterStep(inbox: seq<Inbound>, n: nat, fileSize: nat)
    requires n < |inbox|
    ensures inbox[n].FileData? ==>
              OnFileData(After(inbox, n, fileSize), inbox[n].payload, fileSize) == After(inbox, n + 1, fileSize)
    ensures !inbox[n].FileData? ==> After(inbox, n, fileSize) == After(inbox, n + 1, fileSize)
  {
    hide TransferPayload.Deserialize, Reached;
    ReachedStep(inbox, n, fileSize);
    assert Added(inbox, n + 1) == Added(inbox, n) + Adds(inbox[n]);
  }

  lemma {:induction false} ReceiveFrom(inbox: seq<Inbound>, n: nat, fileSize: nat)
    requires n <= Ending(inbox)
    ensures var e := After(inbox, Ending(inbox), fileSize);
            Receive(After(inbox, n, fileSize), inbox[n..], fileSize)
            == e.(finishes := e.finishes + if EndsOnOne(inbox) then [0] else [])
    decreases |inbox| - n
  {
    hide OnFileData, After;
    if n < Ending(inbox) {
      AfterStep(inbox, n, fileSize);
      assert inbox[n..][1..] == inbox[n + 1..];
      ReceiveFrom(inbox, n + 1, fileSize);
    } else {
      assert After(inbox, n, fileSize).finishes + [] == After(inbox, n, fileSize).finishes;
    }
  }

  /**
   For every inbox: the file is what the messages before the end of the loop
   add; FileFinish[1] was sent if and only if one of them has a header that
   decodes and brought the file to the announced size; and FileFinish[0]
   follows exactly when the loop ends on a FileFinish whose first byte is 1.
   */
  lemma ReceivesExactly(inbox: seq<Inbound>, fileSize: nat)
    ensures var r, n := Receive(START, inbox, fileSize), Ending(inbox);
            && r.file == Added(inbox, n) && r.total == |r.file|
            && r.finishes == (if Reached(inbox, n, fileSize) then [1] else []) + (if EndsOnOne(inbox) then [0] else [])
  {
    hide Receive;
    assert inbox[0..] == inbox;
    assert !Reached(inbox, 0, fileSize);
    assert After(inbox, 0, fileSize) == START;
    ReceiveFrom(inbox, 0, fileSize);
  }

  /** Step 4 of handle_server_file_recv. */
  method ReceiveFile(inbox: seq<Inbound>, fileSize: nat) returns (file: seq<byte>, total: nat, finishes: seq<byte>)
    ensures var r := Receive(START, inbox, fileSize); file == r.file && total == r.total && finishes == r.finishes
    ensures file == Added(inbox, Ending(inbox)) && total == |file|
    ensures finishes == (if Reached(inbox, Ending(inbox), fileSize) then [1] else []) + (if EndsOnOne(inbox) then [0] else [])
  {
    ReceivesExactly(inbox, fileSize);
    hide Added, Ending, Reached, EndsOnOne;
    hide TransferPayload.Deserialize;
    file, total, finishes := [], 0, [];
    var finishSent := false;
    var i := 0;
    while i < |inbox|
      invariant 0 <= i <= |inbox|
      invariant Receive(Receiver(file, total, finishSent, finishes), inbox[i..], fileSize)
             == Receive(START, inbox, fileSize)
    {
      assert inbox[i..][1..] == inbox[i + 1..];
      match inbox[i] {
        case FileData(p) =>
          if |p| >= HEADER_SIZE {
            var tp := TransferPayload.Deserialize(p[..HEADER_SIZE]);
            if tp.Err? {
              file := file + p;
              total := total + |p|;
            } else {
              var data := p[HEADER_SIZE..];
              file := file + data;
              total := total + |data|;
              if !finishSent && total >= fileSize {
                finishes := finishes + [1];
                finishSent := true;
              }
            }
          }
        case FileFinish(p) =>
          if p != [] && p[0] == 1 {
            finishes := finishes + [0];
          }
          return;
        case ChannelClose => return;
        case Other =>
      }
      i := i + 1;
    }
  }

  ghost predicate Consistent(r: Receiver, fileSize: nat) {
    && r.total == |r.file|
    && multiset(r.finishes)[1] == (if r.finishSent then 1 else 0)
    && (r.finishSent ==> r.total >= fileSize)
  }

  /**
   For every message sequence: the counter is the length of the file, and
   FileFinish[1] goes out at most once and only once that length is reached.
   */
  lemma {:induction false} ReceiverConsistent(r: Receiver, inbox: seq<Inbound>, fileSize: nat)
    requires Consistent(r, fileSize)
    ensures Consistent(Receive(r, inbox, fileSize), fileSize)
    decreases inbox
  {
    hide TransferPayload.Deserialize;
    if inbox != [] {
      match inbox[0]
      case FileData(p) => ReceiverConsistent(OnFileData(r, p, fileSize), inbox[1..], fileSize);
      case Other => ReceiverConsistent(r, inbox[1..], fileSize);
      case _ =>
    }
  }

  // ------------------------------------------------------------------
  // Sender to receiver
  // ------------------------------------------------------------------

  function Messages(payloads: seq<seq<byte>>): seq<Inbound> {
    if payloads == [] then [] else [FileData(payloads[0])] + Messages(payloads[1..])
  }

  /** Number of chunks from `k` on whose header does not survive the padding. */
  function OddHeaders(sizes: seq<nat>, k: nat): nat
    requires k <= |sizes|
    decreases |sizes| - k
  {
    if k == |sizes| then 0 else OddHeaders(sizes, k + 1) + if EvenHeader(Offset(sizes, k)) then 0 else 1
  }

  ghost predicate SentAs(file: seq<byte>, sizes: seq<nat>, payloads: seq<seq<byte>>) {
    && ReadSizes(sizes, |file|)
    && |payloads| == |sizes|
    && forall k :: 0 <= k < |payloads| ==> IsChunk(file, sizes, k, payloads[k])
  }

  /** The data behind the 64-byte headers. */
  function DataOf(payloads: seq<seq<byte>>): seq<byte> {
    if payloads == [] then []
    else (if |payloads[0]| < HEADER_SIZE then [] else payloads[0][HEADER_SIZE..]) + DataOf(payloads[1..])
  }

  /** The chunks from `k` on concatenate to the rest of the file. */
  lemma {:induction false} ChunksConcatenate(file: seq<byte>, sizes: seq<nat>, payloads: seq<seq<byte>>, k: nat)
    requires SentAs(file, sizes, payloads) && k <= |sizes|
    ensures Offset(sizes, k) <= |file| && DataOf(payloads[k..]) == file[Offset(sizes, k)..]
    decreases |sizes| - k
  {
    hide ChunkPayload, SenderHeader;
    OffsetBound(sizes, k, |sizes|);
    if k < |sizes| {
      OffsetBound(sizes, k + 1, |sizes|);
      var o, n := Offset(sizes, k), sizes[k];
      assert IsChunk(file, sizes, k, payloads[k]);
      ChunkData(file, o, n);
      assert payloads[k..][1..] == payloads[k + 1..];
      ChunksConcatenate(file, sizes, payloads, k + 1);
      assert file[o..] == file[o..o + n] + file[o + n..];
    }
  }

  lemma ChunkData(file: seq<byte>, offset: nat, n: nat)
    requires offset + n <= |file| && offset < TWO_64 && 0 < n < TWO_32
    ensures ChunkPayload(file, offset, n)[HEADER_SIZE..] == file[offset..offset + n]
  {
    hide TransferPayload.Serialize;
    SenderHeaderParity(offset, n);
    Tlv.Split(Pad(SenderHeader(offset, n).Serialize()), file[offset..offset + n]);
  }

  /** One chunk: its data, preceded by the 64 header bytes when the header is odd. */
  lemma ReceiveChunk(r: Receiver, file: seq<byte>, offset: nat, n: nat, fileSize: nat)
    requires offset + n <= |file| && offset < TWO_64 && 0 < n < TWO_32
    ensures var after := OnFileData(r, ChunkPayload(file, offset, n), fileSize);
            && (EvenHeader(offset) ==> after.file == r.file + file[offset..offset + n])
            && |after.file| == |r.file| + n + (if EvenHeader(offset) then 0 else HEADER_SIZE)
  {
    hide TransferPayload.Deserialize, TransferPayload.Serialize;
    SenderHeaderParity(offset, n);
    var h := SenderHeader(offset, n);
    PaddedHeaderDecodes(h);
    Tlv.Split(Pad(h.Serialize()), file[offset..offset + n]);
  }

  lemma {:induction false} ReceiveChunks(r: Receiver, file: seq<byte>, sizes: seq<nat>, payloads: seq<seq<byte>>, k: nat)
    requires SentAs(file, sizes, payloads) && k <= |sizes| && Offset(sizes, k) <= |file|
    ensures var after := Receive(r, Messages(payloads[k..]), |file|);
            && |after.file| == |r.file| + |file| - Offset(sizes, k) + HEADER_SIZE * OddHeaders(sizes, k)
            && (OddHeaders(sizes, k) == 0 ==> after.file == r.file + file[Offset(sizes, k)..])
    decreases |sizes| - k
  {
    hide OnFileData, ChunkPayload, EvenHeader;
    if k < |sizes| {
      OffsetBound(sizes, k + 1, |sizes|);
      var o, n := Offset(sizes, k), sizes[k];
      assert IsChunk(file, sizes, k, payloads[k]);
      assert payloads[k..][1..] == payloads[k + 1..];
      var next := OnFileData(r, payloads[k], |file|);
      ReceiveChunk(r, file, o, n, |file|);
      ReceiveChunks(next, file, sizes, payloads, k + 1);
      assert file[o..] == file[o..o + n] + file[o + n..];
    }
  }

  /** The file arrives intact if and only if every chunk starts at an even-header offset. */
  lemma FileArrivesIff(file: seq<byte>, sizes: seq<nat>, payloads: seq<seq<byte>>)
    requires SentAs(file, sizes, payloads)
    ensures Receive(START, Messages(payloads), |file|).file == file
       <==> EvenFrom(sizes, 0)
  {
    assert payloads[0..] == payloads;
    assert file[0..] == file;
    ReceiveChunks(START, file, sizes, payloads, 0);
    OddHeadersZero(sizes, 0);
  }

  lemma {:induction false} MessagesAt(payloads: seq<seq<byte>>)
    ensures var m := Messages(payloads);
            && |m| == |payloads| == Ending(m)
            && (forall i :: 0 <= i < |m| ==> m[i] == FileData(payloads[i]))
  {
    if payloads != [] {
      MessagesAt(payloads[1..]);
      assert Messages(payloads)[1..] == Messages(payloads[1..]);
    }
  }

  lemma ChunkHeaded(file: seq<byte>, offset: nat, n: nat)
    requires offset + n <= |file| && offset < TWO_64 && 0 < n < TWO_32
    ensures Headed(ChunkPayload(file, offset, n)) <==> EvenHeader(offset)
  {
    hide TransferPayload.Deserialize, TransferPayload.Serialize;
    SenderHeaderParity(offset, n);
    var h := SenderHeader(offset, n);
    PaddedHeaderDecodes(h);
    Tlv.Split(Pad(h.Serialize()), file[offset..offset + n]);
  }

  /** A file whose chunks all arrive is acknowledged with one FileFinish[1]; an empty one is not. */
  lemma ArrivalAcknowledged(file: seq<byte>, sizes: seq<nat>, payloads: seq<seq<byte>>)
    requires SentAs(file, sizes, payloads) && EvenFrom(sizes, 0)
    ensures Receive(START, Messages(payloads), |file|).finishes == if file == [] then [] else [1]
  {
    hide Receive, EvenHeader, ChunkPayload, Ending;
    var m, k := Messages(payloads), |sizes| - 1;
    ReceivesExactly(m, |file|);
    FileArrivesIff(file, sizes, payloads);
    MessagesAt(payloads);
    if file != [] {
      assert sizes != [];
      OffsetBound(sizes, k + 1, |sizes|);
      assert IsChunk(file, sizes, k, payloads[k]) && EvenHeader(Offset(sizes, k));
      ChunkHeaded(file, Offset(sizes, k), sizes[k]);
      assert Reaches(m, k, |file|);
    } else {
      NoChunks(sizes);
    }
  }

  lemma NoChunks(sizes: seq<nat>)
    requires ReadSizes(sizes, 0)
    ensures sizes == []
  {
    if sizes != [] {
      OffsetBound(sizes, 1, |sizes|);
    }
  }

  ghost predicate EvenFrom(sizes: seq<nat>, k: nat) {
    forall j :: k <= j < |sizes| ==> EvenHeader(Offset(sizes, j))
  }

  lemma {:induction false} OddHeadersZero(sizes: seq<nat>, k: nat)
    requires k <= |sizes|
    ensures OddHeaders(sizes, k) == 0 <==> EvenFrom(sizes, k)
    decreases |sizes| - k
  {
    hide EvenHeader, Offset;
    if k < |sizes| {
      OddHeadersZero(sizes, k + 1);
      assert EvenFrom(sizes, k) <==> EvenHeader(Offset(sizes, k)) && EvenFrom(sizes, k + 1);
    }
  }

  // ------------------------------------------------------------------
  // Reads that fill the buffer
  // ------------------------------------------------------------------

  ghost predicate FullReads(sizes: seq<nat>) {
    forall k :: 0 <= k < |sizes| - 1 ==> sizes[k] == CHUNK
  }

  lemma {:induction false} FullReadOffset(sizes: seq<nat>, k: nat)
    requires FullReads(sizes) && k < |sizes|
    ensures Offset(sizes, k) == k * CHUNK
  {
    if k > 0 {
      FullReadOffset(sizes, k - 1);
    }
  }

  lemma HeaderParities(k: nat)
    requires k <= 5
    ensures EvenHeader(k * CHUNK) <==> k < 5
  {
    ParityOf(k * CHUNK);
    hide EvenHeader;
  }

  /** The offsets whose varint takes three bytes, or four. */
  lemma ParityOf(v: nat)
    ensures v == 0 || 16384 <= v < 0x20_0000 ==> EvenHeader(v)
    ensures 0x20_0000 <= v < 0x1000_0000 ==> !EvenHeader(v)
  {
    Varint.Pow2Constants();
    assert Varint.Pow2(14) == 16384 by { Varint.Pow2Seven(0); Varint.Pow2Seven(7); assert Varint.Pow2(0) == 1; }
    hide Varint.Pow2, Varint.Encode;
    Varint.LengthBound(v, 2);
    Varint.LengthBound(v, 3);
    Varint.LengthBound(v, 4);
  }

  /**
   With reads that fill the 523200-byte buffer, a file comes through the host's
   own receiver unchanged if and only if it is at most 2616000 bytes long.
   */
  lemma FullReadsArriveIff(file: seq<byte>, sizes: seq<nat>, payloads: seq<seq<byte>>)
    requires SentAs(file, sizes, payloads) && FullReads(sizes)
    ensures Receive(START, Messages(payloads), |file|).file == file <==> |file| <= 5 * CHUNK
  {
    hide Receive, EvenHeader, Offset, ReadSizes, IsChunk;
    FileArrivesIff(file, sizes, payloads);
    FullReadsLength(sizes, |file|);
    if |sizes| <= 5 {
      forall k | 0 <= k < |sizes|
        ensures EvenHeader(Offset(sizes, k))
      {
        FullReadOffset(sizes, k);
        HeaderParities(k);
      }
    } else {
      FullReadOffset(sizes, 5);
      HeaderParities(5);
    }
  }

  lemma FullReadsLength(sizes: seq<nat>, length: nat)
    requires ReadSizes(sizes, length) && FullReads(sizes)
    ensures length <= 5 * CHUNK <==> |sizes| <= 5
  {
    if |sizes| > 0 {
      FullReadOffset(sizes, |sizes| - 1);
    }
  }
}
