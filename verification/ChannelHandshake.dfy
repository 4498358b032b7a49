/** The client's channel handshake: banner, zero padding, connect key. */
module ChannelHandshake {
  import opened Bytes
  import Tlv

  const BANNER_SIZE: nat := 12
  const KEY_MAX_SIZE: nat := 32
  const MESSAGE: seq<byte> := [79, 72, 79, 83, 32, 72, 68, 67]  // "OHOS HDC"

  /** The buffer of Client::handshake. */
  method Build(key: seq<byte>) returns (buf: seq<byte>)
    requires |key| <= KEY_MAX_SIZE
    ensures buf == Handshake(key) && |buf| == BANNER_SIZE + KEY_MAX_SIZE
  {
    buf := MESSAGE;
    buf := buf + Zeros(BANNER_SIZE - |MESSAGE|);
    buf := buf + key;
    buf := buf + Zeros(KEY_MAX_SIZE - |key|);
  }

  function Handshake(key: seq<byte>): seq<byte>
    requires |key| <= KEY_MAX_SIZE
  {
    MESSAGE + Zeros(BANNER_SIZE - |MESSAGE|) + key + Zeros(KEY_MAX_SIZE - |key|)
  }

  /** Index of the first byte that is (not) zero. */
  function FirstZero(s: seq<byte>): (n: nat)
    ensures n <= |s| && (forall i :: 0 <= i < n ==> s[i] != 0) && (n < |s| ==> s[n] == 0)
  {
    if s == [] || s[0] == 0 then 0 else 1 + FirstZero(s[1..])
  }

  function FirstNonZero(s: seq<byte>): (n: nat)
    ensures n <= |s| && (forall i :: 0 <= i < n ==> s[i] == 0) && (n < |s| ==> s[n] != 0)
  {
    if s == [] || s[0] != 0 then 0 else 1 + FirstNonZero(s[1..])
  }

  /** unpack_channel_handshake; a buffer without a non-zero byte is not skipped. */
  function Unpack(recv: seq<byte>): (r: Result<seq<byte>>)
    requires |recv| >= BANNER_SIZE
  {
    if recv[..|MESSAGE|] != MESSAGE then Err(BadFlag)
    else
      var buf := recv[BANNER_SIZE..];
      var start := FirstNonZero(buf);
      var trimmed := if start == |buf| then buf else buf[start..];
      var key := trimmed[..FirstZero(trimmed)];
      if Tlv.IsUtf8(key) then Ok(key) else Err(InvalidUtf8)
  }

  /** The server recovers the key exactly when it contains no zero byte. */
  lemma KeyReturnsIff(key: seq<byte>)
    requires |key| <= KEY_MAX_SIZE && Tlv.IsUtf8(key)
    ensures Unpack(Handshake(key)) == Ok(key) <==> 0 !in key
  {
    hide Tlv.IsUtf8;
    var recv, buf := Handshake(key), key + Zeros(KEY_MAX_SIZE - |key|);
    assert recv == MESSAGE + (Zeros(BANNER_SIZE - |MESSAGE|) + buf);
    assert recv[..|MESSAGE|] == MESSAGE && recv[BANNER_SIZE..] == buf;
    if 0 !in key {
      var start := FirstNonZero(buf);
      if key == [] {
        assert start == |buf| && FirstZero(buf) == 0;
      } else {
        assert buf[0] == key[0];
        assert start == 0 && buf[0..] == buf;
        assert forall i :: 0 <= i < |key| ==> buf[i] == key[i];
        assert |key| < |buf| ==> buf[|key|] == 0;
        assert FirstZero(buf) == |key|;
        assert buf[..|key|] == key;
      }
    }
  }

  /** The key stands at `n`, between zero bytes only and the next zero byte or the end; only zeros have no key. */
  ghost predicate Cut(buf: seq<byte>, n: nat, key: seq<byte>) {
    && n + |key| <= |buf| && buf[n..n + |key|] == key && 0 !in key
    && (forall i :: 0 <= i < n ==> buf[i] == 0)
    && (n + |key| < |buf| ==> buf[n + |key|] == 0)
    && (key == [] ==> FirstNonZero(buf) == |buf|)
  }

  /** The key the server takes from a buffer. */
  function KeyIn(buf: seq<byte>): seq<byte> {
    var start := FirstNonZero(buf);
    var trimmed := if start == |buf| then buf else buf[start..];
    trimmed[..FirstZero(trimmed)]
  }

  lemma {:induction false} KeyIsCut(buf: seq<byte>)
    ensures Cut(buf, if FirstNonZero(buf) == |buf| then 0 else FirstNonZero(buf), KeyIn(buf))
  {
    hide FirstNonZero, FirstZero;
    var start := FirstNonZero(buf);
    if start < |buf| {
      var trimmed := buf[start..];
      assert trimmed[0] != 0;
      assert buf[start..start + |KeyIn(buf)|] == trimmed[..|KeyIn(buf)|];
    }
  }

  /** On any buffer: the banner is required, and then exactly the key is returned, if it is UTF-8. */
  lemma {:induction false} UnpackIs(recv: seq<byte>)
    requires |recv| >= BANNER_SIZE
    ensures !(MESSAGE <= recv) ==> Unpack(recv) == Err(BadFlag)
    ensures MESSAGE <= recv ==>
              exists n, key :: Cut(recv[BANNER_SIZE..], n, key)
                               && Unpack(recv) == if Tlv.IsUtf8(key) then Ok(key) else Err(InvalidUtf8)
  {
    hide Tlv.IsUtf8, Cut;
    KeyIsCut(recv[BANNER_SIZE..]);
    assert MESSAGE <= recv <==> recv[..|MESSAGE|] == MESSAGE;
  }
}
