/**
 Reading frames from a socket that delivers its bytes in arbitrary non-empty
 chunks.
 */
module Streams {
  import opened Bytes
  import opened Frames
  import opened Records

  /** The read half of a connection: the chunks still to be delivered. */
  class ByteStream {
    var chunks: seq<seq<byte>>

    ghost predicate Valid()
      reads this
    {
      forall i :: 0 <= i < |chunks| ==> chunks[i] != []
    }

    ghost function Pending(): seq<byte>
      reads this
    {
      Flatten(chunks)
    }

    constructor (chunks: seq<seq<byte>>)
      requires forall i :: 0 <= i < |chunks| ==> chunks[i] != []
      ensures Valid() && this.chunks == chunks
    {
      this.chunks := chunks;
    }

    /** One `read(&mut buf[index..])`: at most one chunk, 0 at the end of the stream. */
    method Read(buf: array<byte>, index: nat) returns (n: nat)
      requires Valid() && index < buf.Length
      modifies this, buf
      ensures Valid()
      ensures n <= |old(Pending())| && index + n <= buf.Length
      ensures n == 0 <==> old(Pending()) == []
      ensures buf[..index] == old(buf[..index])
      ensures buf[index..index + n] == old(Pending())[..n]
      ensures Pending() == old(Pending())[n..]
    {
      if chunks == [] {
        return 0;
      }
      var chunk := chunks[0];
      n := if |chunk| <= buf.Length - index then |chunk| else buf.Length - index;
      ghost var pending := Pending();
      assert pending[..n] == chunk[..n];
      for i := 0 to n
        modifies buf
        invariant buf[..index] == old(buf[..index])
        invariant buf[index..index + i] == chunk[..i]
      {
        buf[index + i] := chunk[i];
      }
      if n == |chunk| {
        chunks := chunks[1..];
      } else {
        var rest := chunks[1..];
        chunks := [chunk[n..]] + rest;
        assert chunks[1..] == rest;
      }
      assert Pending() == pending[n..];
    }
  }

  /** read_frame (both crates) and read_exact_from_usb: exactly `expected` bytes or an error. */
  method ReadFrame(rd: ByteStream, expected: nat) returns (r: Result<seq<byte>>)
    requires rd.Valid()
    modifies rd
    ensures rd.Valid()
    ensures match Take(old(rd.Pending()), expected)
            case Ok(p) => r == Ok(p.0) && rd.Pending() == p.1
            case Err(e) => r == Err(e) && rd.Pending() == []
  {
    if expected == 0 {
      return Ok([]);
    }
    ghost var all := rd.Pending();
    var data := new byte[expected];
    var index := 0;
    while index < expected
      invariant 0 <= index <= expected && index <= |all|
      invariant rd.Valid() && rd.Pending() == all[index..]
      invariant data[..index] == all[..index]
    {
      var n := rd.Read(data, index);
      if n == 0 {
        return Err(PeerShutdown);
      }
      assert data[..index + n] == data[..index] + data[index..index + n];
      assert all[..index + n] == all[..index] + all[index..][..n];
      index := index + n;
    }
    assert data[..] == data[..index];
    r := Ok(data[..]);
  }

  /** What a streaming unpacker promises, given the bytes that were pending. */
  ghost predicate Unpacks<T>(spec: Result<(T, seq<byte>)>, r: Result<T>, rest: seq<byte>) {
    match spec
    case Ok(p) => r == Ok(p.0) && rest == p.1
    case Err(e) => r == Err(e)
  }

  /** unpack_task_message of the host's TCP transport. */
  method HostUnpack(rd: ByteStream) returns (r: Result<TaskMessage>)
    requires rd.Valid()
    modifies rd
    ensures rd.Valid() && Unpacks(HostRead(old(rd.Pending())), r, rd.Pending())
  {
    hide UnpackHead;
    var head := ReadFrame(rd, HEAD_SIZE);
    if head.Err? { return Err(head.error); }
    var sizes := UnpackHead(head.value);
    if sizes.Err? { return Err(sizes.error); }
    var (h, d) := sizes.value;
    if SizeCheck(h, d).Err? { return Err(BadPacketSize); }
    var protect := ReadFrame(rd, h);
    if protect.Err? { return Err(protect.error); }
    var p := PayloadProtect.Deserialize(protect.value);
    if p.Err? { return Err(p.error); }
    if !IsCommand(p.value.commandFlag) { return Err(UnknownCommand); }
    var payload := ReadFrame(rd, d);
    if payload.Err? { return Err(payload.error); }
    r := Ok(TaskMessage(p.value.channelId, p.value.commandFlag, payload.value));
  }

  /** recv_raw_frame (daemon, `checked`) and recv_raw_hdc_frame (host). */
  method RecvRawFrame(rd: ByteStream, checked: bool) returns (r: Result<seq<byte>>)
    requires rd.Valid()
    modifies rd
    ensures rd.Valid() && Unpacks(RawRead(old(rd.Pending()), checked), r, rd.Pending())
  {
    hide UnpackHead;
    var head := ReadFrame(rd, HEAD_SIZE);
    if head.Err? { return Err(head.error); }
    var sizes := UnpackHead(head.value);
    if sizes.Err? { return Err(sizes.error); }
    var (h, d) := sizes.value;
    if checked && SizeCheck(h, d).Err? { return Err(BadPacketSize); }
    var protect := ReadFrame(rd, h);
    if protect.Err? { return Err(protect.error); }
    var payload := ReadFrame(rd, d);
    if payload.Err? { return Err(payload.error); }
    r := Ok(head.value + (protect.value + payload.value));
  }

  /** Who is reading: the host's auth loop, the host's session reader or the daemon. */
  datatype Reader = HostAuth | HostSession | Daemon

  function ReadBy(who: Reader, s: seq<byte>): Result<(TaskMessage, seq<byte>)> {
    if who == HostAuth then HostRead(s) else FrameRead(s, who == Daemon)
  }

  method Receive(who: Reader, rd: ByteStream) returns (r: Result<TaskMessage>)
    requires rd.Valid()
    modifies rd
    ensures rd.Valid() && Unpacks(ReadBy(who, old(rd.Pending())), r, rd.Pending())
  {
    if who == HostAuth {
      r := HostUnpack(rd);
    } else {
      var frame := RecvRawFrame(rd, who == Daemon);
      if frame.Err? { return Err(frame.error); }
      r := Unpack(frame.value);
    }
  }

  /**
   For every list of legal messages, every way the network cuts their frames
   into chunks and every one of the readers: exactly that list is returned and
   exactly those bytes are consumed.
   */
  method ReceiveAll(who: Reader, rd: ByteStream, count: nat, ghost sent: seq<TaskMessage>, ghost rest: seq<byte>)
    returns (got: seq<TaskMessage>)
    requires rd.Valid() && count == |sent|
    requires AllLegal(sent)
    requires rd.Pending() == PackAll(sent) + rest
    modifies rd
    ensures got == sent
    ensures rd.Valid() && rd.Pending() == rest
  {
    hide Pack, ReadBy, ProtectBytes;
    got := [];
    while |got| < count
      invariant |got| <= count && got == sent[..|got|]
      invariant rd.Valid() && rd.Pending() == PackAll(sent[|got|..]) + rest
    {
      ghost var m, tail := sent[|got|], PackAll(sent[|got| + 1..]) + rest;
      PackSplit(sent, |got|, rest);
      ReadsPack(who, m, tail);
      var r := Receive(who, rd);
      assert r == Ok(m);
      got := got + [r.value];
    }
    assert rd.Pending() == [] + rest;
  }

  lemma ReadsPack(who: Reader, m: TaskMessage, rest: seq<byte>)
    requires Legal(m)
    ensures ReadBy(who, Pack(m) + rest) == Ok((m, rest))
  {
    hide Pack, HostRead, FrameRead, ProtectBytes;
    StreamsReadPack(m, rest);
  }

  lemma PackSplit(sent: seq<TaskMessage>, i: nat, rest: seq<byte>)
    requires i < |sent| && AllLegal(sent)
    ensures PackAll(sent[i..]) + rest == Pack(sent[i]) + (PackAll(sent[i + 1..]) + rest)
  {
    hide Pack, ProtectBytes;
    assert sent[i..][1..] == sent[i + 1..];
  }
}
