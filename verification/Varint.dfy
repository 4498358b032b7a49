/**
 Base-128 varints: the two writer loops and the two reader loops of the
 serializer, each at 32 and at 64 bits. `width` is the number of bits of the
 integer type; the `<< shift` of the reader drops the bits that do not fit it.
 */
module Varint {
  import opened Bytes

  ghost function Pow2(k: nat): (p: nat)
    ensures p >= 1
  {
    if k == 0 then 1 else 2 * Pow2(k - 1)
  }

  lemma Pow2Seven(k: nat)
    ensures Pow2(k + 7) == 128 * Pow2(k)
  {
    assert Pow2(k + 7) == 2 * Pow2(k + 6);
    assert Pow2(k + 6) == 2 * Pow2(k + 5);
    assert Pow2(k + 5) == 2 * Pow2(k + 4);
    assert Pow2(k + 4) == 2 * Pow2(k + 3);
    assert Pow2(k + 3) == 2 * Pow2(k + 2);
    assert Pow2(k + 2) == 2 * Pow2(k + 1);
  }

  lemma {:induction false} Pow2Monotone(a: nat, b: nat)
    requires a <= b
    ensures Pow2(a) <= Pow2(b)
  {
    if a < b {
      Pow2Monotone(a, b - 1);
    }
  }

  lemma Pow2Constants()
    ensures Pow2(21) == 0x20_0000 && Pow2(28) == 0x1000_0000
    ensures Pow2(32) == TWO_32 && Pow2(64) == TWO_64
  {
    assert Pow2(0) == 1 && Pow2(1) == 2 && Pow2(4) == 16;
    Pow2Seven(0); Pow2Seven(7); Pow2Seven(14); Pow2Seven(21);
    Pow2Seven(4); Pow2Seven(11); Pow2Seven(18); Pow2Seven(25);
    Pow2Seven(1); Pow2Seven(8); Pow2Seven(15); Pow2Seven(22); Pow2Seven(29);
    Pow2Seven(36); Pow2Seven(43); Pow2Seven(50); Pow2Seven(57);
  }

  /** The low `k` bits of `b`. */
  function LowBits(b: nat, k: nat): (r: nat)
    ensures r <= b && r < Pow2(k)
    ensures b < Pow2(k) ==> r == b
  {
    if k == 0 then 0 else b % 2 + 2 * LowBits(b / 2, k - 1)
  }

  lemma LowBitsOfGroup(b: nat, k: nat)
    requires b < 128 && k >= 7
    ensures LowBits(b, k) == b
  {
    Pow2Seven(0);
    Pow2Monotone(7, k);
  }

  /** `n` followed by `shift` zero bits. */
  function Shifted(n: nat, shift: nat): nat
    decreases shift
  {
    if shift == 0 then n else Shifted(2 * n, shift - 1)
  }

  lemma {:induction false} ShiftedSum(a: nat, b: nat, shift: nat)
    ensures Shifted(a + b, shift) == Shifted(a, shift) + Shifted(b, shift)
    decreases shift
  {
    if shift > 0 {
      ShiftedSum(2 * a, 2 * b, shift - 1);
    }
  }

  lemma {:induction false} ShiftedSeven(n: nat, shift: nat)
    ensures Shifted(n, shift + 7) == Shifted(128 * n, shift)
  {
    assert Shifted(n, shift + 7) == Shifted(2 * n, shift + 6);
    assert Shifted(2 * n, shift + 6) == Shifted(4 * n, shift + 5);
    assert Shifted(4 * n, shift + 5) == Shifted(8 * n, shift + 4);
    assert Shifted(8 * n, shift + 4) == Shifted(16 * n, shift + 3);
    assert Shifted(16 * n, shift + 3) == Shifted(32 * n, shift + 2);
    assert Shifted(32 * n, shift + 2) == Shifted(64 * n, shift + 1);
  }

  /** Rust's `b << shift` on an integer of `width` bits. */
  function ShiftLeft(b: nat, shift: nat, width: nat): nat
    requires shift <= width
  {
    Shifted(LowBits(b, width - shift), shift)
  }

  /** The bytes of `v`, low group first, top bit set on all but the last. */
  function Encode(v: nat): (s: seq<byte>)
    ensures |s| >= 1
  {
    if v < 128 then [v] else [v % 128 + 128] + Encode(v / 128)
  }

  /** Value and number of bytes consumed, `width` bits of the value being kept. */
  function Decode(s: seq<byte>, width: nat): (r: Result<(nat, nat)>)
    ensures r.Ok? ==> 1 <= r.value.1 <= |s| && r.value.0 < Pow2(width)
  {
    if s == [] then Err(TruncatedVarint)
    else if s[0] < 128 then Ok((LowBits(s[0], width), 1))
    else if width <= 7 then Err(VarintOverflow)
    else
      var rest :- Decode(s[1..], width - 7);
      assert Pow2(width) == 128 * Pow2(width - 7) by { Pow2Seven(width - 7); }
      Ok((s[0] - 128 + 128 * rest.0, rest.1 + 1))
  }

  /** Decoding undoes encoding, whatever bytes follow. */
  lemma {:induction false} RoundTrip(v: nat, rest: seq<byte>, width: nat)
    requires v < Pow2(width)
    ensures Decode(Encode(v) + rest, width) == Ok((v, |Encode(v)|))
  {
    if v >= 128 {
      if width <= 7 { Pow2Seven(0); Pow2Monotone(width, 7); assert false; }
      Pow2Seven(width - 7);
      RoundTrip(v / 128, rest, width - 7);
      assert (Encode(v) + rest)[1..] == Encode(v / 128) + rest;
    }
  }

  /** No shorter byte string decodes to the same value. */
  lemma {:induction false} Minimal(s: seq<byte>, width: nat)
    ensures Decode(s, width).Ok? ==> |Encode(Decode(s, width).value.0)| <= Decode(s, width).value.1
  {
    if s != [] && s[0] >= 128 && width > 7 {
      Minimal(s[1..], width - 7);
    }
  }

  lemma {:induction false} LengthMonotone(a: nat, b: nat)
    requires a <= b
    ensures |Encode(a)| <= |Encode(b)|
  {
    if a >= 128 {
      LengthMonotone(a / 128, b / 128);
    }
  }

  /** `k` groups of seven bits hold exactly the values below 2 to the 7k. */
  lemma {:induction false} LengthBound(v: nat, k: nat)
    requires k >= 1
    ensures |Encode(v)| <= k <==> v < Pow2(7 * k)
  {
    Pow2Seven(7 * (k - 1));
    if k == 1 {
      assert Pow2(0) == 1;
    } else if v >= 128 {
      LengthBound(v / 128, k - 1);
    }
  }

  /** write_varint_u32 / write_varint_u64: the pushes of one call. */
  method Write(value: nat, buf: seq<byte>) returns (out: seq<byte>)
    ensures out == buf + Encode(value)
  {
    out := buf;
    var v := value;
    while true
      invariant out + Encode(v) == buf + Encode(value)
      decreases v
    {
      var b := v % 128;
      var more := v / 128;
      if more != 0 {
        b := b + 128;
      }
      assert Encode(v) == if more == 0 then [b] else [b] + Encode(more);
      v := more;
      out := out + [b];
      if v == 0 {
        break;
      }
    }
  }

  /** What the reader still has to do at `offset`, seen from where it started. */
  ghost predicate Continues(bytes: seq<byte>, start: nat, offset: nat, value: nat, shift: nat, width: nat)
    requires start <= offset <= |bytes| && shift <= width
  {
    var all, rest := Decode(bytes[start..], width), Decode(bytes[offset..], width - shift);
    if rest.Err? then all == Err(rest.error)
    else all == Ok((value + Shifted(rest.value.0, shift), offset - start + rest.value.1))
  }

  /** One more group of seven bits, when another byte has to follow. */
  lemma ReadGroup(bytes: seq<byte>, start: nat, offset: nat, value: nat, shift: nat, width: nat)
    requires start <= offset < |bytes| && shift + 7 < width && bytes[offset] >= 128
    requires Continues(bytes, start, offset, value, shift, width)
    ensures Continues(bytes, start, offset + 1, value + ShiftLeft(bytes[offset] % 128, shift, width), shift + 7, width)
  {
    var low := bytes[offset] % 128;
    assert low == bytes[offset] - 128;
    LowBitsOfGroup(low, width - shift);
    assert bytes[offset..][1..] == bytes[offset + 1..];
    var rest := Decode(bytes[offset + 1..], width - shift - 7);
    if rest.Ok? {
      ShiftedSum(low, 128 * rest.value.0, shift);
      ShiftedSeven(rest.value.0, shift);
    }
  }

  /** The three ways the loop leaves at `offset`. */
  lemma ReadExit(bytes: seq<byte>, start: nat, offset: nat, value: nat, shift: nat, width: nat)
    requires start <= offset <= |bytes| && shift < width
    requires Continues(bytes, start, offset, value, shift, width)
    ensures offset == |bytes| ==> Decode(bytes[start..], width) == Err(TruncatedVarint)
    ensures offset < |bytes| && bytes[offset] < 128 ==>
              Decode(bytes[start..], width) == Ok((value + ShiftLeft(bytes[offset] % 128, shift, width), offset + 1 - start))
    ensures offset < |bytes| && bytes[offset] >= 128 && width <= shift + 7 ==>
              Decode(bytes[start..], width) == Err(VarintOverflow)
  {
    hide Shifted, LowBits, Pow2;
  }

  ghost predicate ReadsAs(d: Result<(nat, nat)>, start: nat, r: Result<nat>, offset: nat) {
    match d
    case Err(e) => r == Err(e)
    case Ok(p) => r == Ok(p.0) && offset == start + p.1
  }

  /** read_varint_u32 / read_varint_u64, with the offset it leaves behind. */
  method Read(bytes: seq<byte>, start: nat, width: nat) returns (r: Result<nat>, offset: nat)
    requires start <= |bytes| && width > 0
    ensures ReadsAs(Decode(bytes[start..], width), start, r, offset)
    ensures start <= offset <= |bytes|
  {
    offset := start;
    var value: nat, shift: nat := 0, 0;
    ghost var d := Decode(bytes[start..], width);
    while true
      invariant start <= offset <= |bytes| && 0 <= shift < width
      invariant Continues(bytes, start, offset, value, shift, width)
      decreases |bytes| - offset
    {
      ReadExit(bytes, start, offset, value, shift, width);
      if offset >= |bytes| {
        return Err(TruncatedVarint), offset;
      }
      var b := bytes[offset];
      var wider := value + ShiftLeft(b % 128, shift, width);
      if b < 128 {
        return Ok(wider), offset + 1;
      }
      if shift + 7 >= width {
        return Err(VarintOverflow), offset + 1;
      }
      ReadGroup(bytes, start, offset, value, shift, width);
      value, shift, offset := wider, shift + 7, offset + 1;
    }
  }
}
