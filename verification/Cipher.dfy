/**
 The pre-shared-key channel: sealed frames, their counters, and the nonces the
 counters turn into. AES-128-GCM is a parameter that opens what it has sealed.
 */
module Cipher {
  import opened Bytes
  import opened Frames
  import opened Streams

  const KEY_LEN: nat := 16
  const TAG_LEN: nat := 16

  /** Key, nonce, text; `None` is an error of the primitive. */
  datatype Aead = Aead(
    seal: (seq<byte>, seq<byte>, seq<byte>) -> Option<seq<byte>>,
    open: (seq<byte>, seq<byte>, seq<byte>) -> Option<seq<byte>>)

  ghost predicate Ideal(a: Aead) {
    forall k, n, p :: a.seal(k, n, p).Some? ==>
      a.open(k, n, a.seal(k, n, p).value) == Some(p) && |a.seal(k, n, p).value| == |p| + TAG_LEN
  }

  /** counter_to_nonce: section 3.2 of RFC 5116 with a zero fixed field. */
  function Nonce(counter: nat): (n: seq<byte>)
    ensures |n| == 12
  {
    Zeros(4) + ToBe(counter, 8)
  }

  /** `wrapping_add` on 64 bits. */
  function Wrap(n: nat): nat {
    n % TWO_64
  }

  function Next(counter: nat): nat {
    Wrap(counter + 1)
  }

  function SendKey(psk: seq<byte>, isHost: bool): seq<byte>
    requires |psk| == 2 * KEY_LEN
  {
    if isHost then psk[..KEY_LEN] else psk[KEY_LEN..]
  }

  /** What `encrypt` makes of one plaintext. */
  function Sealed(a: Aead, key: seq<byte>, counter: nat, plain: seq<byte>): Result<seq<byte>> {
    match a.seal(key, Nonce(counter), plain)
    case None => Err(CipherFailure)
    case Some(c) => Ok(ToBe(counter, 8) + c)
  }

  /** What `decrypt` makes of one frame. */
  function Opened(a: Aead, key: seq<byte>, data: seq<byte>): Result<seq<byte>> {
    if |data| < 8 + TAG_LEN then Err(FrameTooShort)
    else match a.open(key, Nonce(FromBe(data[..8])), data[8..])
      case None => Err(CipherFailure)
      case Some(p) => Ok(p)
  }

  /** The receive counter after `decrypt`: taken from the frame, whatever it was. */
  function RecvAfter(a: Aead, key: seq<byte>, recv: nat, data: seq<byte>): nat {
    if Opened(a, key, data).Ok? then Next(FromBe(data[..8])) else recv
  }

  class PskCipher {
    const sendKey: seq<byte>
    const recvKey: seq<byte>
    var sendCounter: nat
    var recvCounter: nat

    /** `is_host` chooses which half of the key is whose. */
    constructor (psk: seq<byte>, isHost: bool)
      requires |psk| == 2 * KEY_LEN
      ensures sendKey == SendKey(psk, isHost) && recvKey == SendKey(psk, !isHost)
      ensures psk == if isHost then sendKey + recvKey else recvKey + sendKey
      ensures |sendKey| == |recvKey| == KEY_LEN
      ensures sendCounter == recvCounter == 0
    {
      if isHost {
        sendKey, recvKey := psk[..KEY_LEN], psk[KEY_LEN..];
      } else {
        recvKey, sendKey := psk[..KEY_LEN], psk[KEY_LEN..];
      }
      sendCounter, recvCounter := 0, 0;
      new;
      assert psk == psk[..KEY_LEN] + psk[KEY_LEN..];
    }

    /** A failed encryption uses up no counter. */
    method Encrypt(a: Aead, plain: seq<byte>) returns (r: Result<seq<byte>>)
      modifies this`sendCounter
      ensures r == Sealed(a, sendKey, old(sendCounter), plain)
      ensures sendCounter == if r.Ok? then Next(old(sendCounter)) else old(sendCounter)
    {
      var text := a.seal(sendKey, Nonce(sendCounter), plain);
      if text.None? {
        return Err(CipherFailure);
      }
      r := Ok(ToBe(sendCounter, 8) + text.value);
      sendCounter := Next(sendCounter);
    }

    method Decrypt(a: Aead, data: seq<byte>) returns (r: Result<seq<byte>>)
      modifies this`recvCounter
      ensures r == Opened(a, recvKey, data)
      ensures recvCounter == RecvAfter(a, recvKey, old(recvCounter), data)
    {
      if |data| < 8 + TAG_LEN {
        return Err(FrameTooShort);
      }
      var counter := FromBe(data[..8]);
      var text := a.open(recvKey, Nonce(counter), data[8..]);
      if text.None? {
        return Err(CipherFailure);
      }
      recvCounter := Next(counter);
      r := Ok(text.value);
    }
  }

  /** Sealing and opening are inverse, and the frame carries its counter. */
  lemma OpensSealed(a: Aead, key: seq<byte>, counter: nat, plain: seq<byte>)
    requires Ideal(a) && counter < TWO_64
    ensures var f := Sealed(a, key, counter, plain);
            f.Ok? ==> Opened(a, key, f.value) == Ok(plain)
                      && |f.value| == |plain| + 8 + TAG_LEN && FromBe(f.value[..8]) == counter
  {
    Pow256Constants();
    FromBeToBe(counter, 8);
    var text := a.seal(key, Nonce(counter), plain);
    if text.Some? {
      var f := ToBe(counter, 8) + text.value;
      assert f[..8] == ToBe(counter, 8) && f[8..] == text.value;
    }
  }

  // ------------------------------------------------------------------
  // Whole runs
  // ------------------------------------------------------------------

  /** What was sealed and what went out for it. */
  datatype Entry = Entry(plain: seq<byte>, frame: seq<byte>)

  /** The frames of a run of attempts to send `plains`, in write order. */
  function Sent(a: Aead, key: seq<byte>, counter: nat, plains: seq<seq<byte>>): seq<Entry>
    decreases |plains|
  {
    if plains == [] then []
    else match Sealed(a, key, counter, plains[0])
      case Err(_) => Sent(a, key, counter, plains[1..])
      case Ok(f) => [Entry(plains[0], f)] + Sent(a, key, Next(counter), plains[1..])
  }

  lemma Wraps(counter: nat, i: nat)
    ensures Next(counter) < TWO_64
    ensures Wrap(Next(counter) + i) == Wrap(counter + i + 1)
  {
    var q := (counter + 1) / TWO_64;
    assert counter + 1 == q * TWO_64 + Next(counter);
    AddMultiple(Next(counter) + i, q);
  }

  lemma AddMultiple(n: nat, q: nat)
    ensures (n + q * TWO_64) % TWO_64 == n % TWO_64
  {
    if q > 0 {
      AddMultiple(n, q - 1);
      assert (n + (q - 1) * TWO_64 + TWO_64) % TWO_64 == (n + (q - 1) * TWO_64) % TWO_64;
    }
  }

  /** The frame was sealed under counter `n`, says so, and opens to its plaintext. */
  ghost predicate Carries(a: Aead, key: seq<byte>, e: Entry, n: nat) {
    |e.frame| >= 8 && FromBe(e.frame[..8]) == n && Opened(a, key, e.frame) == Ok(e.plain)
  }

  lemma SealedCarries(a: Aead, key: seq<byte>, counter: nat, plain: seq<byte>)
    requires Ideal(a) && counter < TWO_64
    ensures var f := Sealed(a, key, counter, plain); f.Ok? ==> Carries(a, key, Entry(plain, f.value), Wrap(counter))
  {
    hide Sealed, Opened, Ideal;
    OpensSealed(a, key, counter, plain);
  }

  /** Each frame opens to its plaintext, and the wire counters are consecutive. */
  lemma {:induction false} SentCounters(a: Aead, key: seq<byte>, counter: nat, plains: seq<seq<byte>>, i: nat)
    requires Ideal(a) && counter < TWO_64 && i < |Sent(a, key, counter, plains)|
    ensures Carries(a, key, Sent(a, key, counter, plains)[i], Wrap(counter + i))
    decreases |plains|
  {
    hide Sealed, Carries, Next, Ideal, Wrap;
    SealedCarries(a, key, counter, plains[0]);
    if Sealed(a, key, counter, plains[0]).Err? {
      SentCounters(a, key, counter, plains[1..], i);
    } else if i > 0 {
      Wraps(counter, i - 1);
      SentCounters(a, key, Next(counter), plains[1..], i - 1);
    }
  }

  lemma NonceInjective(a: nat, b: nat)
    requires a < TWO_64 && b < TWO_64
    ensures Nonce(a) == Nonce(b) <==> a == b
  {
    Pow256Constants();
    FromBeToBe(a, 8);
    FromBeToBe(b, 8);
    assert Nonce(a)[4..] == ToBe(a, 8) && Nonce(b)[4..] == ToBe(b, 8);
  }

  /** The nonce of the `i`-th frame of a run that starts at `counter`. */
  function NonceAt(counter: nat, i: nat): seq<byte> {
    Nonce(Wrap(counter + i))
  }

  /**
   Of `count` consecutive frames under one key no two share a nonce (section 8
   of NIST SP 800-38D) exactly up to 2^64 frames.
   */
  lemma NoncesDistinctIff(counter: nat, count: nat)
    requires counter < TWO_64
    ensures (forall i: nat, j: nat :: i < j < count ==> NonceAt(counter, i) != NonceAt(counter, j)) <==> count <= TWO_64
  {
    hide Nonce;
    if count <= TWO_64 {
      forall i: nat, j: nat | i < j < count ensures NonceAt(counter, i) != NonceAt(counter, j) {
        NonceInjective(Wrap(counter + i), Wrap(counter + j));
      }
    } else {
      assert NonceAt(counter, 0) == NonceAt(counter, TWO_64);
    }
  }

  /** The nonce a receiver derives from a frame. */
  function NonceOf(e: Entry): seq<byte> {
    if |e.frame| < 8 then [] else Nonce(FromBe(e.frame[..8]))
  }

  lemma SealedUnder(a: Aead, key: seq<byte>, counter: nat, plain: seq<byte>)
    requires counter < TWO_64
    ensures var f := Sealed(a, key, counter, plain);
            f.Ok? ==> |f.value| >= 8 && NonceOf(Entry(plain, f.value)) == NonceAt(counter, 0)
                      && a.seal(key, NonceAt(counter, 0), plain) == Some(f.value[8..])
  {
    Pow256Constants();
    FromBeToBe(counter, 8);
    var f := Sealed(a, key, counter, plain);
    if f.Ok? {
      assert f.value[..8] == ToBe(counter, 8);
      assert Wrap(counter + 0) == counter;
    }
  }

  /** Frame `i` of a run was sealed under the nonce of the start counter plus `i`. */
  lemma {:induction false} SentNonces(a: Aead, key: seq<byte>, counter: nat, plains: seq<seq<byte>>, i: nat)
    requires counter < TWO_64 && i < |Sent(a, key, counter, plains)|
    ensures var e := Sent(a, key, counter, plains)[i];
            && |e.frame| >= 8 && NonceOf(e) == NonceAt(counter, i)
            && a.seal(key, NonceOf(e), e.plain) == Some(e.frame[8..])
    decreases |plains|
  {
    hide Sealed, NonceOf, Nonce, Next, Wrap;
    SealedUnder(a, key, counter, plains[0]);
    if Sealed(a, key, counter, plains[0]).Err? {
      SentNonces(a, key, counter, plains[1..], i);
    } else if i > 0 {
      Wraps(counter, i - 1);
      SentNonces(a, key, Next(counter), plains[1..], i - 1);
    }
  }

  /** In every run under one key no two frames share a nonce, exactly up to 2^64 frames. */
  lemma RunNoncesDistinctIff(a: Aead, key: seq<byte>, counter: nat, plains: seq<seq<byte>>)
    requires counter < TWO_64
    ensures var log := Sent(a, key, counter, plains);
            (forall i, j :: 0 <= i < j < |log| ==> NonceOf(log[i]) != NonceOf(log[j])) <==> |log| <= TWO_64
  {
    hide Sent, NonceOf, NonceAt;
    var log := Sent(a, key, counter, plains);
    NoncesDistinctIff(counter, |log|);
    forall i: nat | i < |log| ensures NonceOf(log[i]) == NonceAt(counter, i) {
      SentNonces(a, key, counter, plains, i);
    }
    if |log| <= TWO_64 {
      assert forall i: nat, j: nat :: i < j < |log| ==> NonceAt(counter, i) != NonceAt(counter, j);
    } else {
      var i: nat, j: nat :| i < j < |log| && NonceAt(counter, i) == NonceAt(counter, j);
      assert NonceOf(log[i]) == NonceOf(log[j]);
    }
  }

  // ------------------------------------------------------------------
  // Both directions of a session
  // ------------------------------------------------------------------

  /** A key together with a nonce: what must never be used twice. */
  datatype Use = Use(key: seq<byte>, nonce: seq<byte>)

  function Uses(key: seq<byte>, log: seq<Entry>): (u: seq<Use>)
    ensures |u| == |log|
  {
    seq(|log|, i requires 0 <= i < |log| => Use(key, NonceOf(log[i])))
  }

  ghost predicate Distinct(u: seq<Use>) {
    forall i, j :: 0 <= i < j < |u| ==> u[i] != u[j]
  }

  ghost predicate Disjoint(u: seq<Use>, v: seq<Use>) {
    forall i, j :: 0 <= i < |u| && 0 <= j < |v| ==> u[i] != v[j]
  }

  lemma DistinctSplit(u: seq<Use>, v: seq<Use>)
    ensures Distinct(u + v) <==> Distinct(u) && Distinct(v) && Disjoint(u, v)
  {
    var w := u + v;
    if Distinct(w) {
      assert forall i :: 0 <= i < |u| ==> w[i] == u[i];
      forall i, j | 0 <= i < j < |v| ensures v[i] != v[j] { assert w[|u| + i] == v[i] && w[|u| + j] == v[j]; }
      forall i, j | 0 <= i < |u| && 0 <= j < |v| ensures u[i] != v[j] { assert w[i] == u[i] && w[|u| + j] == v[j]; }
    }
  }

  lemma UsesDistinctIff(a: Aead, key: seq<byte>, plains: seq<seq<byte>>)
    ensures var log := Sent(a, key, 0, plains); Distinct(Uses(key, log)) <==> |log| <= TWO_64
  {
    hide Sent, NonceOf;
    var log := Sent(a, key, 0, plains);
    RunNoncesDistinctIff(a, key, 0, plains);
    var u := Uses(key, log);
    assert forall i :: 0 <= i < |log| ==> u[i] == Use(key, NonceOf(log[i]));
  }

  lemma UsesDisjointIff(a: Aead, k: seq<byte>, l: seq<byte>, p: seq<seq<byte>>, q: seq<seq<byte>>)
    ensures var x, y := Sent(a, k, 0, p), Sent(a, l, 0, q);
            Disjoint(Uses(k, x), Uses(l, y)) <==> k != l || x == [] || y == []
  {
    hide Sent, NonceOf, NonceAt;
    var x, y := Sent(a, k, 0, p), Sent(a, l, 0, q);
    if k == l && x != [] && y != [] {
      SentNonces(a, k, 0, p, 0);
      SentNonces(a, l, 0, q, 0);
      assert Uses(k, x)[0] == Uses(l, y)[0];
    }
  }

  /**
   For every pre-shared key and all that both sides send in a session, from
   counter 0 on: no key and nonce are used together twice if and only if neither
   side seals more than 2^64 frames and the two halves of the key differ, or
   one side sends nothing.
   */
  lemma SessionNoncesDistinctIff(a: Aead, psk: seq<byte>, fromHost: seq<seq<byte>>, fromDaemon: seq<seq<byte>>)
    requires |psk| == 2 * KEY_LEN
    ensures var h, d := SendKey(psk, true), SendKey(psk, false);
            var x, y := Sent(a, h, 0, fromHost), Sent(a, d, 0, fromDaemon);
            Distinct(Uses(h, x) + Uses(d, y))
            <==> |x| <= TWO_64 && |y| <= TWO_64 && (psk[..KEY_LEN] != psk[KEY_LEN..] || x == [] || y == [])
  {
    hide Sent, Uses, Distinct, Disjoint;
    var h, d := SendKey(psk, true), SendKey(psk, false);
    DistinctSplit(Uses(h, Sent(a, h, 0, fromHost)), Uses(d, Sent(a, d, 0, fromDaemon)));
    UsesDistinctIff(a, h, fromHost);
    UsesDistinctIff(a, d, fromDaemon);
    UsesDisjointIff(a, h, d, fromHost, fromDaemon);
  }

  /**
   The receiver does not compare counters: any frame of a run opens again at
   every receive counter, and sets that counter to one past the frame's own.
   */
  lemma OpensAnyTime(a: Aead, key: seq<byte>, counter: nat, plains: seq<seq<byte>>, i: nat, recv: nat)
    requires Ideal(a) && counter < TWO_64 && i < |Sent(a, key, counter, plains)|
    ensures var e := Sent(a, key, counter, plains)[i];
            Opened(a, key, e.frame) == Ok(e.plain) && RecvAfter(a, key, recv, e.frame) == Wrap(counter + i + 1)
  {
    hide Sent, Opened, Ideal;
    SentCounters(a, key, counter, plains, i);
    Bump(counter, i);
  }

  /** All sends of one side, in order, through one cipher. */
  method SendAll(c: PskCipher, a: Aead, plains: seq<seq<byte>>) returns (log: seq<Entry>)
    requires c.sendCounter < TWO_64
    modifies c`sendCounter
    ensures log == Sent(a, c.sendKey, old(c.sendCounter), plains)
    ensures c.sendCounter == Wrap(old(c.sendCounter) + |log|)
  {
    hide Sealed;
    log := [];
    ghost var all := Sent(a, c.sendKey, c.sendCounter, plains);
    for i := 0 to |plains|
      invariant c.sendCounter < TWO_64 && c.sendCounter == Wrap(old(c.sendCounter) + |log|)
      invariant all == log + Sent(a, c.sendKey, c.sendCounter, plains[i..])
    {
      assert plains[i..][0] == plains[i] && plains[i..][1..] == plains[i + 1..];
      ghost var counter := c.sendCounter;
      var r := c.Encrypt(a, plains[i]);
      if r.Ok? {
        ghost var rest := Sent(a, c.sendKey, Next(counter), plains[i + 1..]);
        assert log + ([Entry(plains[i], r.value)] + rest) == log + [Entry(plains[i], r.value)] + rest;
        Bump(old(c.sendCounter), |log|);
        log := log + [Entry(plains[i], r.value)];
      }
    }
  }

  lemma Bump(start: nat, n: nat)
    ensures Wrap(0) == 0
    ensures Next(Wrap(start + n)) == Wrap(start + n + 1)
  {
  }

  // ------------------------------------------------------------------
  // On the wire
  // ------------------------------------------------------------------

  /** The length prefix that goes before a sealed frame. */
  function Prefixed(frame: seq<byte>): seq<byte> {
    ToBe(|frame|, 4) + frame
  }

  function Wire(log: seq<Entry>): seq<byte> {
    if log == [] then [] else Prefixed(log[0].frame) + Wire(log[1..])
  }

  /** Frame number `i` of a run from counter 0, short enough for its length prefix. */
  ghost predicate Genuine(a: Aead, key: seq<byte>, e: Entry, i: nat) {
    |e.frame| < TWO_32 && Carries(a, key, e, Wrap(i))
  }

  /** Every frame is a plaintext of the run and twenty-four bytes longer; without failures none is skipped. */
  lemma {:induction false} SentPlains(a: Aead, key: seq<byte>, counter: nat, plains: seq<seq<byte>>, i: nat)
    requires Ideal(a) && counter < TWO_64
    ensures var log := Sent(a, key, counter, plains);
            && |log| <= |plains|
            && (i < |log| ==> log[i].plain in plains && |log[i].frame| == |log[i].plain| + 8 + TAG_LEN)
            && (i < |log| == |plains| ==> log[i].plain == plains[i])
    decreases |plains|
  {
    if plains != [] {
      hide Sealed, Ideal, Next;
      OpensSealed(a, key, counter, plains[0]);
      Wraps(counter, 0);
      if Sealed(a, key, counter, plains[0]).Err? {
        SentPlains(a, key, counter, plains[1..], i);
      } else {
        SentPlains(a, key, Next(counter), plains[1..], if i > 0 then i - 1 else 0);
      }
    }
  }

  /** Plaintexts that stay below the 32-bit length prefix once sealed. */
  ghost predicate Short(plains: seq<seq<byte>>) {
    forall i :: 0 <= i < |plains| ==> |plains[i]| + 8 + TAG_LEN < TWO_32
  }

  lemma SentGenuine(a: Aead, key: seq<byte>, plains: seq<seq<byte>>, i: nat)
    requires Ideal(a) && Short(plains) && i < |Sent(a, key, 0, plains)|
    ensures Genuine(a, key, Sent(a, key, 0, plains)[i], i)
  {
    hide Sent, Carries, Ideal;
    SentPlains(a, key, 0, plains, i);
    SentCounters(a, key, 0, plains, i);
  }

  /** One length-prefixed frame at the front of a stream, and what follows it. */
  function FrameAt(s: seq<byte>): Result<(seq<byte>, seq<byte>)> {
    var prefix :- Take(s, 4);
    Take(prefix.1, FromBe(prefix.0))
  }

  lemma FrameReads(frame: seq<byte>, rest: seq<byte>)
    requires |frame| < TWO_32
    ensures FrameAt(Prefixed(frame) + rest) == Ok((frame, rest))
  {
    Pow256Constants();
    FromBeToBe(|frame|, 4);
    var s := Prefixed(frame) + rest;
    assert s[..4] == ToBe(|frame|, 4) && s[4..] == frame + rest;
    assert (frame + rest)[..|frame|] == frame && (frame + rest)[|frame|..] == rest;
  }

  /**
   The encrypted branch of recv_tcp_frame (host) and unpack_task_message
   (daemon), on any bytes: a stream that ends early, a frame that is too short
   or does not open leaves the counter alone.
   */
  method ReceiveSealed(rd: ByteStream, c: PskCipher, a: Aead) returns (r: Result<seq<byte>>)
    requires rd.Valid()
    modifies rd, c`recvCounter
    ensures rd.Valid()
    ensures match FrameAt(old(rd.Pending()))
            case Err(e) => r == Err(e) && rd.Pending() == [] && c.recvCounter == old(c.recvCounter)
            case Ok(p) =>
              && r == Opened(a, c.recvKey, p.0) && rd.Pending() == p.1
              && c.recvCounter == RecvAfter(a, c.recvKey, old(c.recvCounter), p.0)
  {
    hide Opened;
    var prefix := ReadFrame(rd, 4);
    if prefix.Err? { return Err(prefix.error); }
    var text := ReadFrame(rd, FromBe(prefix.value));
    if text.Err? { return Err(text.error); }
    r := c.Decrypt(a, text.value);
  }

  /** The plaintexts of the first `n` frames. */
  function PlainsOf(log: seq<Entry>, n: nat): (plains: seq<seq<byte>>)
    requires n <= |log|
    ensures |plains| == n && forall i :: 0 <= i < n ==> plains[i] == log[i].plain
  {
    if n == 0 then [] else PlainsOf(log, n - 1) + [log[n - 1].plain]
  }

  ghost predicate AllGenuine(a: Aead, key: seq<byte>, log: seq<Entry>) {
    forall i :: 0 <= i < |log| ==> Genuine(a, key, log[i], i)
  }

  /** One turn of the receiver: which frame is next, what it opens to, and the counter after it. */
  lemma Turn(a: Aead, key: seq<byte>, log: seq<Entry>, n: nat, recv: nat, rest: seq<byte>)
    requires AllGenuine(a, key, log) && n < |log|
    ensures FrameAt(Wire(log[n..]) + rest) == Ok((log[n].frame, Wire(log[n + 1..]) + rest))
    ensures Opened(a, key, log[n].frame) == Ok(log[n].plain) && RecvAfter(a, key, recv, log[n].frame) == Wrap(n + 1)
    ensures PlainsOf(log, n + 1) == PlainsOf(log, n) + [log[n].plain]
  {
    hide Genuine, Prefixed, FrameAt, Opened, RecvAfter, Wrap, Wire;
    WireSplit(log, n, rest);
    GenuineReads(a, key, log[n], n, recv, Wire(log[n + 1..]) + rest);
  }

  /**
   With the frames in order, and cut into any chunks, the peer recovers every
   plaintext, and its receive counter is the number of frames received.
   */
  method ReceiveRun(rd: ByteStream, c: PskCipher, a: Aead, count: nat, ghost log: seq<Entry>, ghost rest: seq<byte>)
    returns (got: seq<seq<byte>>)
    requires rd.Valid() && rd.Pending() == Wire(log) + rest && count == |log|
    requires AllGenuine(a, c.recvKey, log)
    requires c.recvCounter == 0
    modifies rd, c`recvCounter
    ensures got == PlainsOf(log, |log|)
    ensures c.recvCounter == Wrap(|log|)
    ensures rd.Valid() && rd.Pending() == rest
  {
    hide AllGenuine, Wrap, FrameAt, Opened, RecvAfter, Wire, PlainsOf, Flatten;
    Bump(0, 0);
    NoneLeft(log, rest);
    got := [];
    for n := 0 to count
      invariant got == PlainsOf(log, n) && c.recvCounter == Wrap(n)
      invariant rd.Valid() && rd.Pending() == Wire(log[n..]) + rest
    {
      Turn(a, c.recvKey, log, n, c.recvCounter, rest);
      var r := ReceiveSealed(rd, c, a);
      got := got + [r.value];
    }
  }

  lemma NoneLeft(log: seq<Entry>, rest: seq<byte>)
    ensures log[0..] == log && PlainsOf(log, 0) == [] && Wire(log[|log|..]) + rest == rest
  {
  }

  lemma WireSplit(log: seq<Entry>, i: nat, rest: seq<byte>)
    requires i < |log|
    ensures Wire(log[i..]) + rest == Prefixed(log[i].frame) + (Wire(log[i + 1..]) + rest)
  {
    hide Prefixed;
    assert log[i..][1..] == log[i + 1..];
  }

  lemma GenuineReads(a: Aead, key: seq<byte>, e: Entry, i: nat, recv: nat, rest: seq<byte>)
    requires Genuine(a, key, e, i)
    ensures FrameAt(Prefixed(e.frame) + rest) == Ok((e.frame, rest))
    ensures Opened(a, key, e.frame) == Ok(e.plain) && RecvAfter(a, key, recv, e.frame) == Wrap(i + 1)
  {
    hide FrameAt, Opened;
    FrameReads(e.frame, rest);
    Bump(0, i);
  }

  /**
   From one side to the other, in either direction: whatever one side sends in
   order, cut into any chunks, the other recovers completely, and both counters
   are the number of frames.
   */
  method Exchange(a: Aead, psk: seq<byte>, fromHost: bool, plains: seq<seq<byte>>, chunks: seq<seq<byte>>)
    returns (log: seq<Entry>, got: seq<seq<byte>>, sendCounter: nat, recvCounter: nat)
    requires Ideal(a) && |psk| == 2 * KEY_LEN && Short(plains)
    requires forall i :: 0 <= i < |chunks| ==> chunks[i] != []
    requires Flatten(chunks) == Wire(Sent(a, SendKey(psk, fromHost), 0, plains))
    ensures log == Sent(a, SendKey(psk, fromHost), 0, plains)
    ensures |got| == |log| && forall i :: 0 <= i < |log| ==> got[i] == log[i].plain
    ensures |log| == |plains| ==> got == plains
    ensures sendCounter == recvCounter == Wrap(|log|)
  {
    hide Sent, AllGenuine, Ideal, Wire, Flatten, Wrap, Short, PlainsOf;
    Bump(0, 0);
    var sender := new PskCipher(psk, fromHost);
    var receiver := new PskCipher(psk, !fromHost);
    log := SendAll(sender, a, plains);
    RunGenuine(a, sender.sendKey, plains);
    var rd := new ByteStream(chunks);
    assert rd.Pending() == Wire(log) + [];
    got := ReceiveRun(rd, receiver, a, |log|, log, []);
    forall i: nat | i < |log| == |plains| ensures got[i] == plains[i] {
      SentPlains(a, sender.sendKey, 0, plains, i);
    }
    sendCounter, recvCounter := sender.sendCounter, receiver.recvCounter;
  }

  lemma RunGenuine(a: Aead, key: seq<byte>, plains: seq<seq<byte>>)
    requires Ideal(a) && Short(plains)
    ensures AllGenuine(a, key, Sent(a, key, 0, plains))
  {
    hide Sent, Genuine, Ideal, Short;
    forall i: nat | i < |Sent(a, key, 0, plains)| ensures Genuine(a, key, Sent(a, key, 0, plains)[i], i) {
      SentGenuine(a, key, plains, i);
    }
  }
}
