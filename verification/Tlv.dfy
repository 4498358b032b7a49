/**
 The protobuf-like records of the serializer. The five record types share one
 reader loop and one set of field writers; a `Schema` says what the `match` of
 each record does with field number 1, 2, ... (every record numbers its fields
 from 1 without gaps), and a record is the list of its field values.
 */
module Tlv {
  import opened Bytes
  import Varint

  /** What a field holds, hence how it is written and read. */
  datatype Kind = U32 | U64 | Byte | Bool | Text

  /** `always`: written even when it holds its default (SessionHandShake.auth_type). */
  datatype Field = Field(kind: Kind, always: bool)

  type Schema = seq<Field>

  /** A bool is `Num(0)` or `Num(1)`; a string is its UTF-8 bytes. */
  datatype Value = Num(n: nat) | Str(s: seq<byte>)

  const WIRE_VARINT: nat := 0
  const WIRE_FIXED64: nat := 1
  const WIRE_LENGTH_DELIMITED: nat := 2
  const WIRE_FIXED32: nat := 5

  /** `String::from_utf8` accepts `s`: table 3-7 of the Unicode standard. */
  predicate IsUtf8(s: seq<byte>) {
    if s == [] then true
    else
      var n := ScalarLength(s);
      n > 0 && IsUtf8(s[n..])
  }

  predicate Tail(b: byte) { 0x80 <= b <= 0xBF }

  /** Length of the well-formed sequence `s` starts with, 0 if there is none. */
  function ScalarLength(s: seq<byte>): (n: nat)
    requires s != []
    ensures n <= |s|
  {
    var a := s[0];
    if a < 0x80 then 1
    else if |s| >= 2 && 0xC2 <= a <= 0xDF && Tail(s[1]) then 2
    else if |s| >= 3 && 0xE0 <= a <= 0xEF && Tail(s[1]) && Tail(s[2])
      && (a == 0xE0 ==> s[1] >= 0xA0) && (a == 0xED ==> s[1] <= 0x9F) then 3
    else if |s| >= 4 && 0xF0 <= a <= 0xF4 && Tail(s[1]) && Tail(s[2]) && Tail(s[3])
      && (a == 0xF0 ==> s[1] >= 0x90) && (a == 0xF4 ==> s[1] <= 0x8F) then 4
    else 0
  }

  /** The values the Rust type of the field can hold. */
  predicate Fits(k: Kind, v: Value) {
    match k
    case U32 => v.Num? && v.n < TWO_32
    case U64 => v.Num? && v.n < TWO_64
    case Byte => v.Num? && v.n < 256
    case Bool => v.Num? && v.n < 2
    case Text => v.Str? && IsUtf8(v.s)
  }

  predicate WellTyped(schema: Schema, r: seq<Value>) {
    |r| == |schema| && forall i :: 0 <= i < |r| ==> Fits(schema[i].kind, r[i])
  }

  function DefaultValue(k: Kind): Value {
    if k == Text then Str([]) else Num(0)
  }

  function Default(schema: Schema): (r: seq<Value>)
    ensures |r| == |schema|
    ensures forall i :: 0 <= i < |r| ==> r[i] == DefaultValue(schema[i].kind)
  {
    seq(|schema|, i requires 0 <= i < |schema| => DefaultValue(schema[i].kind))
  }

  // ------------------------------------------------------------------
  // Writing
  // ------------------------------------------------------------------

  function TagBytes(num: nat, wire: nat): seq<byte> {
    Varint.Encode(8 * num + wire)
  }

  predicate IsWritten(f: Field, v: Value) {
    f.always || v != DefaultValue(f.kind)
  }

  /** What follows the tag. A `Byte` is pushed raw, a length is cut to 32 bits. */
  function ValueBytes(k: Kind, v: Value): seq<byte>
    requires Fits(k, v)
  {
    match k
    case U32 => Varint.Encode(v.n)
    case U64 => Varint.Encode(v.n)
    case Byte => [v.n]
    case Bool => [v.n]
    case Text => Varint.Encode(|v.s| % TWO_32) + v.s
  }

  function WireOf(k: Kind): nat {
    if k == Text then WIRE_LENGTH_DELIMITED else WIRE_VARINT
  }

  function FieldBytes(num: nat, f: Field, v: Value): seq<byte>
    requires Fits(f.kind, v)
  {
    if IsWritten(f, v) then TagBytes(num, WireOf(f.kind)) + ValueBytes(f.kind, v) else []
  }

  /** The first `n` field writes of `serialize`. */
  function SerializeFirst(schema: Schema, r: seq<Value>, n: nat): seq<byte>
    requires WellTyped(schema, r) && n <= |r|
  {
    if n == 0 then [] else SerializeFirst(schema, r, n - 1) + FieldBytes(n, schema[n - 1], r[n - 1])
  }

  /** `serialize` of a record. */
  function Serialize(schema: Schema, r: seq<Value>): seq<byte>
    requires WellTyped(schema, r)
  {
    SerializeFirst(schema, r, |r|)
  }

  // ------------------------------------------------------------------
  // Reading
  // ------------------------------------------------------------------

  /** Rust advances an offset that may run past the end; the loop then stops. */
  function Drop(s: seq<byte>, n: nat): seq<byte> {
    if n <= |s| then s[n..] else []
  }

  function ReadVarint(s: seq<byte>, width: nat): (r: Result<(nat, seq<byte>)>)
    ensures r.Ok? ==> |r.value.1| < |s|
  {
    var d :- Varint.Decode(s, width);
    Ok((d.0, s[d.1..]))
  }

  /** read_u32_field, read_u64_field, read_bool_field, read_string_field and the `as u8` reads. */
  function ReadField(k: Kind, wire: nat, s: seq<byte>): (r: Result<(Value, seq<byte>)>)
    ensures r.Ok? ==> |r.value.1| < |s|
  {
    if wire != WireOf(k) then Err(BadWireType)
    else
      var d :- ReadVarint(s, if k == U64 then 64 else 32);
      match k
      case U32 => Ok((Num(d.0), d.1))
      case U64 => Ok((Num(d.0), d.1))
      case Byte => Ok((Num(d.0 % 256), d.1))
      case Bool => Ok((Num(if d.0 != 0 then 1 else 0), d.1))
      case Text =>
        if d.0 > |d.1| then Err(TruncatedString)
        else if !IsUtf8(d.1[..d.0]) then Err(InvalidUtf8)
        else Ok((Str(d.1[..d.0]), d.1[d.0..]))
  }

  /** An unknown field number: skip by wire type. */
  function Skip(wire: nat, s: seq<byte>): (r: Result<seq<byte>>)
    ensures r.Ok? ==> |r.value| <= |s|
  {
    if wire == WIRE_VARINT then
      var d :- ReadVarint(s, 64);
      Ok(d.1)
    else if wire == WIRE_FIXED64 then Ok(Drop(s, 8))
    else if wire == WIRE_LENGTH_DELIMITED then
      var d :- ReadVarint(s, 32);
      Ok(Drop(d.1, d.0))
    else if wire == WIRE_FIXED32 then Ok(Drop(s, 4))
    else Err(UnknownWireType)
  }

  /** One turn of the reader loop: the record so far and the bytes left. */
  function ReadEntry(schema: Schema, acc: seq<Value>, s: seq<byte>): (r: Result<(seq<Value>, seq<byte>)>)
    requires |acc| == |schema|
    ensures r.Ok? ==> |r.value.0| == |schema| && |r.value.1| < |s|
  {
    var tag :- ReadVarint(s, 32);
    var num, wire := tag.0 / 8, tag.0 % 8;
    if 1 <= num <= |schema| then
      var f :- ReadField(schema[num - 1].kind, wire, tag.1);
      Ok((acc[num - 1 := f.0], f.1))
    else
      var rest :- Skip(wire, tag.1);
      Ok((acc, rest))
  }

  /** The reader loop from record `acc` on: `deserialize` starts it at the default record. */
  function DecodeOnto(schema: Schema, acc: seq<Value>, s: seq<byte>): (r: Result<seq<Value>>)
    requires |acc| == |schema|
    ensures r.Ok? ==> |r.value| == |schema|
    decreases |s|
  {
    if s == [] then Ok(acc)
    else
      var e :- ReadEntry(schema, acc, s);
      DecodeOnto(schema, e.0, e.1)
  }

  function Deserialize(schema: Schema, s: seq<byte>): Result<seq<Value>> {
    DecodeOnto(schema, Default(schema), s)
  }

  // ------------------------------------------------------------------
  // The overlay law
  // ------------------------------------------------------------------

  /** Values the writer and the reader agree on. */
  predicate Representable(k: Kind, v: Value) {
    && (k == Byte ==> v.Num? && v.n < 128)
    && (k == Text ==> v.Str? && |v.s| < TWO_32)
  }

  predicate AllRepresentable(schema: Schema, r: seq<Value>)
    requires |r| == |schema|
  {
    forall i :: 0 <= i < |r| ==> Representable(schema[i].kind, r[i])
  }

  /** `acc` overwritten by those of the first `n` fields that `x` writes. */
  function OverlayFirst(schema: Schema, acc: seq<Value>, x: seq<Value>, n: nat): (r: seq<Value>)
    requires |acc| == |x| == |schema| && n <= |x|
    ensures |r| == |schema|
    ensures forall j :: 0 <= j < |r| ==> r[j] == if j < n && IsWritten(schema[j], x[j]) then x[j] else acc[j]
  {
    seq(|x|, j requires 0 <= j < |x| => if j < n && IsWritten(schema[j], x[j]) then x[j] else acc[j])
  }

  function Overlay(schema: Schema, acc: seq<Value>, x: seq<Value>): seq<Value>
    requires |acc| == |x| == |schema|
  {
    OverlayFirst(schema, acc, x, |x|)
  }

  lemma Split(a: seq<byte>, b: seq<byte>)
    ensures (a + b)[|a|..] == b && (a + b)[..|a|] == a
  {
  }

  lemma Associative(a: seq<byte>, b: seq<byte>, c: seq<byte>)
    ensures (a + b) + c == a + (b + c)
  {
  }

  lemma VarintReadsBack(n: nat, width: nat, rest: seq<byte>)
    requires (width == 32 && n < TWO_32) || (width == 64 && n < TWO_64)
    ensures ReadVarint(Varint.Encode(n) + rest, width) == Ok((n, rest))
  {
    Varint.Pow2Constants();
    Varint.RoundTrip(n, rest, width);
    Split(Varint.Encode(n), rest);
  }

  lemma TextReadsBack(v: Value, rest: seq<byte>)
    requires Fits(Text, v) && Representable(Text, v)
    ensures ReadField(Text, WireOf(Text), ValueBytes(Text, v) + rest) == Ok((v, rest))
  {
    hide ReadVarint, Varint.Encode;
    Associative(Varint.Encode(|v.s|), v.s, rest);
    VarintReadsBack(|v.s|, 32, v.s + rest);
    Split(v.s, rest);
  }

  lemma ReadsBack(k: Kind, v: Value, rest: seq<byte>)
    requires Fits(k, v) && Representable(k, v)
    ensures ReadField(k, WireOf(k), ValueBytes(k, v) + rest) == Ok((v, rest))
  {
    hide ReadVarint, Varint.Encode, IsUtf8;
    if k == Text {
      TextReadsBack(v, rest);
    } else {
      VarintReadsBack(v.n, if k == U64 then 64 else 32, rest);
      SmallIsOneByte(v.n);
      assert ValueBytes(k, v) == Varint.Encode(v.n);
    }
  }

  lemma SmallIsOneByte(n: nat)
    ensures n < 128 ==> Varint.Encode(n) == [n]
  {
  }

  /** One turn of the loop, from what its two reads return. */
  lemma EntryOf(schema: Schema, acc: seq<Value>, s: seq<byte>, n: nat, tail: seq<byte>, v: Value, rest: seq<byte>)
    requires |acc| == |schema| && 1 <= n <= |schema|
    requires ReadVarint(s, 32) == Ok((8 * n + WireOf(schema[n - 1].kind), tail))
    requires ReadField(schema[n - 1].kind, WireOf(schema[n - 1].kind), tail) == Ok((v, rest))
    ensures DecodeOnto(schema, acc, s) == DecodeOnto(schema, acc[n - 1 := v], rest)
  {
    hide ReadVarint, ReadField;
    assert (8 * n + WireOf(schema[n - 1].kind)) / 8 == n;
    assert ReadEntry(schema, acc, s) == Ok((acc[n - 1 := v], rest));
  }

  lemma EntryReadsBack(schema: Schema, acc: seq<Value>, n: nat, v: Value, rest: seq<byte>)
    requires |acc| == |schema| < 0x1000_0000 && 1 <= n <= |schema|
    requires Fits(schema[n - 1].kind, v) && Representable(schema[n - 1].kind, v)
    ensures DecodeOnto(schema, acc, FieldBytes(n, schema[n - 1], v) + rest)
         == DecodeOnto(schema, if IsWritten(schema[n - 1], v) then acc[n - 1 := v] else acc, rest)
  {
    hide DecodeOnto, ReadVarint, ReadField, ValueBytes, Varint.Encode;
    var f := schema[n - 1];
    var s := FieldBytes(n, f, v) + rest;
    if IsWritten(f, v) {
      var tail := ValueBytes(f.kind, v) + rest;
      Associative(TagBytes(n, WireOf(f.kind)), ValueBytes(f.kind, v), rest);
      VarintReadsBack(8 * n + WireOf(f.kind), 32, tail);
      ReadsBack(f.kind, v, rest);
      EntryOf(schema, acc, s, n, tail, v, rest);
    } else {
      assert s == rest;
    }
  }

  /**
   Decoding is an overlay: on the bytes of `x` the reader does nothing but
   write the fields `x` wrote, and it goes on with whatever follows.
   */
  lemma {:induction false} OverlayLaw(schema: Schema, acc: seq<Value>, x: seq<Value>, n: nat, rest: seq<byte>)
    requires |acc| == |schema| < 0x1000_0000 && WellTyped(schema, x) && AllRepresentable(schema, x) && n <= |x|
    ensures DecodeOnto(schema, acc, SerializeFirst(schema, x, n) + rest)
         == DecodeOnto(schema, OverlayFirst(schema, acc, x, n), rest)
  {
    hide DecodeOnto, FieldBytes;
    var after := OverlayFirst(schema, acc, x, n);
    if n == 0 {
      assert after == acc;
      assert SerializeFirst(schema, x, n) + rest == rest;
    } else {
      var last := FieldBytes(n, schema[n - 1], x[n - 1]);
      var before := OverlayFirst(schema, acc, x, n - 1);
      Associative(SerializeFirst(schema, x, n - 1), last, rest);
      OverlayLaw(schema, acc, x, n - 1, last + rest);
      EntryReadsBack(schema, before, n, x[n - 1], rest);
      assert after == if IsWritten(schema[n - 1], x[n - 1]) then before[n - 1 := x[n - 1]] else before;
    }
  }

  /** Two records back to back: the first overwritten by what the second wrote. */
  lemma DecodeConcatenation(schema: Schema, x: seq<Value>, y: seq<Value>)
    requires |schema| < 0x1000_0000 && WellTyped(schema, x) && WellTyped(schema, y)
    requires AllRepresentable(schema, x) && AllRepresentable(schema, y)
    ensures Deserialize(schema, Serialize(schema, x) + Serialize(schema, y)) == Ok(Overlay(schema, x, y))
  {
    var sy := Serialize(schema, y);
    RoundTrip(schema, x, sy);
    OverlayLaw(schema, x, y, |y|, []);
    assert sy + [] == sy;
  }

  lemma RoundTrip(schema: Schema, x: seq<Value>, rest: seq<byte>)
    requires |schema| < 0x1000_0000 && WellTyped(schema, x) && AllRepresentable(schema, x)
    ensures Deserialize(schema, Serialize(schema, x) + rest) == DecodeOnto(schema, x, rest)
    ensures Deserialize(schema, Serialize(schema, x)) == Ok(x)
  {
    var d := Default(schema);
    OverlayLaw(schema, d, x, |x|, rest);
    assert Overlay(schema, d, x) == x;
    OverlayLaw(schema, d, x, |x|, []);
    assert Serialize(schema, x) + [] == Serialize(schema, x);
  }

  // ------------------------------------------------------------------
  // Minimality, and when the round trip holds
  // ------------------------------------------------------------------

  /** The least number of bytes that can set a field of kind `k` to `v`. */
  function Cost(k: Kind, v: Value): nat {
    if v == DefaultValue(k) then 0
    else match v
      case Num(n) => 1 + |Varint.Encode(n)|
      case Str(s) => 1 + |Varint.Encode(|s|)| + |s|
  }

  /** Cost of the first `n` fields. */
  function CostFirst(schema: Schema, r: seq<Value>, n: nat): nat
    requires n <= |r| == |schema|
  {
    if n == 0 then 0 else CostFirst(schema, r, n - 1) + Cost(schema[n - 1].kind, r[n - 1])
  }

  lemma {:induction false} CostUpdate(schema: Schema, r: seq<Value>, i: nat, v: Value, n: nat)
    requires n <= |r| == |schema| && i < |r|
    ensures CostFirst(schema, r[i := v], n) <= CostFirst(schema, r, n) + Cost(schema[i].kind, v)
    ensures n <= i ==> CostFirst(schema, r[i := v], n) == CostFirst(schema, r, n)
  {
    if n > 0 {
      CostUpdate(schema, r, i, v, n - 1);
    }
  }

  lemma FieldPaysItsCost(k: Kind, wire: nat, s: seq<byte>)
    ensures var r := ReadField(k, wire, s);
            r.Ok? ==> Cost(k, r.value.0) <= 1 + |s| - |r.value.1|
  {
    var w := if k == U64 then 64 else 32;
    Varint.Minimal(s, w);
    var d := Varint.Decode(s, w);
    if d.Ok? && k == Byte {
      Varint.LengthMonotone(d.value.0 % 256, d.value.0);
    }
  }

  lemma EntryPaysItsCost(schema: Schema, acc: seq<Value>, s: seq<byte>)
    requires |acc| == |schema|
    ensures var r := ReadEntry(schema, acc, s);
            r.Ok? ==> CostFirst(schema, r.value.0, |schema|) + |r.value.1| <= CostFirst(schema, acc, |schema|) + |s|
  {
    hide ReadField, ReadVarint, Skip, Cost, CostFirst;
    var tag := ReadVarint(s, 32);
    if tag.Ok? {
      var num, wire := tag.value.0 / 8, tag.value.0 % 8;
      if 1 <= num <= |schema| {
        var k := schema[num - 1].kind;
        FieldPaysItsCost(k, wire, tag.value.1);
        var f := ReadField(k, wire, tag.value.1);
        if f.Ok? {
          CostUpdate(schema, acc, num - 1, f.value.0, |schema|);
        }
      }
    }
  }

  /** No byte string shorter than its cost decodes to a given record. */
  lemma {:induction false} DecodePaysCost(schema: Schema, acc: seq<Value>, s: seq<byte>)
    requires |acc| == |schema|
    ensures var r := DecodeOnto(schema, acc, s);
            r.Ok? ==> CostFirst(schema, r.value, |schema|) <= CostFirst(schema, acc, |schema|) + |s|
    decreases |s|
  {
    hide ReadEntry, CostFirst;
    if s != [] {
      EntryPaysItsCost(schema, acc, s);
      var e := ReadEntry(schema, acc, s);
      if e.Ok? {
        DecodePaysCost(schema, e.value.0, e.value.1);
      }
    }
  }

  ghost predicate TextsShort(schema: Schema, r: seq<Value>)
    requires |r| == |schema|
  {
    forall i :: 0 <= i < |r| && schema[i].kind == Text && r[i].Str? ==> |r[i].s| < TWO_32
  }

  lemma FieldFits(k: Kind, wire: nat, s: seq<byte>)
    ensures var r := ReadField(k, wire, s);
            r.Ok? ==> Fits(k, r.value.0) && (k == Text ==> |r.value.0.s| < TWO_32)
  {
    hide IsUtf8, Varint.Decode;
    Varint.Pow2Constants();
  }

  lemma EntryFits(schema: Schema, acc: seq<Value>, s: seq<byte>)
    requires WellTyped(schema, acc) && TextsShort(schema, acc)
    ensures var r := ReadEntry(schema, acc, s);
            r.Ok? ==> WellTyped(schema, r.value.0) && TextsShort(schema, r.value.0)
  {
    hide ReadField, ReadVarint, Skip, Fits;
    var tag := ReadVarint(s, 32);
    if tag.Ok? && 1 <= tag.value.0 / 8 <= |schema| {
      FieldFits(schema[tag.value.0 / 8 - 1].kind, tag.value.0 % 8, tag.value.1);
    }
  }

  lemma {:induction false} DecodedFits(schema: Schema, acc: seq<Value>, s: seq<byte>)
    requires WellTyped(schema, acc) && TextsShort(schema, acc)
    ensures var r := DecodeOnto(schema, acc, s);
            r.Ok? ==> WellTyped(schema, r.value) && TextsShort(schema, r.value)
    decreases |s|
  {
    hide ReadEntry, Fits, TextsShort;
    if s != [] {
      EntryFits(schema, acc, s);
      var e := ReadEntry(schema, acc, s);
      if e.Ok? {
        DecodedFits(schema, e.value.0, e.value.1);
      }
    }
  }

  /** What comes out of the reader fits the Rust types of the record. */
  lemma DeserializedFits(schema: Schema, s: seq<byte>)
    ensures var r := Deserialize(schema, s);
            r.Ok? ==> WellTyped(schema, r.value) && TextsShort(schema, r.value)
  {
    DecodedFits(schema, Default(schema), s);
  }

  /** A field that is always written is a byte, and the record's only one. */
  predicate AlwaysIsSoleByte(schema: Schema) {
    && (forall i :: 0 <= i < |schema| && schema[i].always ==> schema[i].kind == Byte)
    && (forall i, j :: 0 <= i < |schema| && 0 <= j < |schema| && schema[i].always && schema[j].kind == Byte ==> i == j)
  }

  predicate IsWide(f: Field, v: Value) {
    f.kind == Byte && v.Num? && v.n >= 128
  }

  /** How many of the first `n` fields are single bytes with the top bit set. */
  function WideFirst(schema: Schema, r: seq<Value>, n: nat): nat
    requires n <= |r| == |schema|
  {
    if n == 0 then 0 else WideFirst(schema, r, n - 1) + if IsWide(schema[n - 1], r[n - 1]) then 1 else 0
  }

  lemma FieldLength(num: nat, f: Field, v: Value)
    requires Fits(f.kind, v) && 1 <= num < 16 && (v.Str? ==> |v.s| < TWO_32)
    requires f.always ==> v != DefaultValue(f.kind)
    ensures |FieldBytes(num, f, v)| + (if IsWide(f, v) then 1 else 0) == Cost(f.kind, v)
  {
    assert |TagBytes(num, WireOf(f.kind))| == 1;
    if v.Num? && 128 <= v.n < 256 {
      assert |Varint.Encode(v.n)| == 1 + |Varint.Encode(v.n / 128)| == 2;
    }
  }

  lemma {:induction false} SerializedLength(schema: Schema, r: seq<Value>, n: nat)
    requires WellTyped(schema, r) && |schema| < 16 && TextsShort(schema, r) && n <= |r|
    requires forall i :: 0 <= i < |r| && schema[i].always ==> r[i] != DefaultValue(schema[i].kind)
    ensures |SerializeFirst(schema, r, n)| + WideFirst(schema, r, n) == CostFirst(schema, r, n)
  {
    if n > 0 {
      SerializedLength(schema, r, n - 1);
      FieldLength(n, schema[n - 1], r[n - 1]);
    }
  }

  lemma NumericFieldLength(num: nat, f: Field, v: Value)
    requires Fits(f.kind, v) && f.kind != Text && 1 <= num < 16
    ensures |FieldBytes(num, f, v)| <= 11
  {
    assert |TagBytes(num, WireOf(f.kind))| == 1;
    Varint.Pow2Constants();
    Varint.Pow2Monotone(32, 70);
    Varint.Pow2Monotone(64, 70);
    Varint.LengthBound(v.n, 10);
  }

  /** A record without strings takes at most 11 bytes a field. */
  lemma {:induction false} NumericLength(schema: Schema, r: seq<Value>, n: nat)
    requires WellTyped(schema, r) && |schema| < 16 && n <= |r|
    requires forall i :: 0 <= i < |schema| ==> schema[i].kind != Text
    ensures |SerializeFirst(schema, r, n)| <= 11 * n
  {
    if n > 0 {
      NumericLength(schema, r, n - 1);
      NumericFieldLength(n, schema[n - 1], r[n - 1]);
    }
  }

  lemma {:induction false} WidePositive(schema: Schema, r: seq<Value>, i: nat, n: nat)
    requires i < n <= |r| == |schema| && IsWide(schema[i], r[i])
    ensures WideFirst(schema, r, n) >= 1
  {
    if i < n - 1 {
      WidePositive(schema, r, i, n - 1);
    }
  }

  lemma {:induction false} DefaultCostsNothing(schema: Schema, n: nat)
    requires n <= |schema|
    ensures CostFirst(schema, Default(schema), n) == 0
  {
    if n > 0 {
      DefaultCostsNothing(schema, n - 1);
    }
  }

  /**
   The exact domain of the round trip: a record comes back if and only if its
   single-byte fields are below 128 and its strings are shorter than 2^32.
   */
  lemma RoundTripIff(schema: Schema, x: seq<Value>)
    requires |schema| < 16 && AlwaysIsSoleByte(schema) && WellTyped(schema, x)
    ensures Deserialize(schema, Serialize(schema, x)) == Ok(x) <==> AllRepresentable(schema, x)
  {
    if AllRepresentable(schema, x) {
      RoundTrip(schema, x, []);
    } else {
      var s, d := Serialize(schema, x), Default(schema);
      if Deserialize(schema, s) == Ok(x) {
        DeserializedFits(schema, s);
        DecodePaysCost(schema, d, s);
        DefaultCostsNothing(schema, |schema|);
        var i :| 0 <= i < |x| && !Representable(schema[i].kind, x[i]);
        SerializedLength(schema, x, |x|);
        WidePositive(schema, x, i, |x|);
        assert false;
      }
    }
  }

  // ------------------------------------------------------------------
  // Zero padding
  // ------------------------------------------------------------------

  /** A pair of zero bytes is field 0 with a zero varint: it is skipped. */
  lemma {:induction false} ZeroPadding(schema: Schema, acc: seq<Value>, k: nat)
    requires |acc| == |schema|
    ensures DecodeOnto(schema, acc, Zeros(k)) == if k % 2 == 0 then Ok(acc) else Err(TruncatedVarint)
    decreases k
  {
    hide ReadEntry;
    if k >= 1 {
      ZeroEntry(schema, acc, k);
    }
    if k >= 2 {
      ZeroPadding(schema, acc, k - 2);
    }
  }

  lemma ZeroEntry(schema: Schema, acc: seq<Value>, k: nat)
    requires |acc| == |schema| && k >= 1
    ensures ReadEntry(schema, acc, Zeros(k)) == if k >= 2 then Ok((acc, Zeros(k - 2))) else Err(TruncatedVarint)
  {
    hide ReadVarint, ReadField;
    ZeroVarint(k, 32);
    if k >= 2 {
      ZeroVarint(k - 1, 64);
    } else {
      NothingToRead(64);
      assert Zeros(0) == [];
    }
  }

  lemma NothingToRead(width: nat)
    ensures ReadVarint([], width) == Err(TruncatedVarint)
  {
  }

  lemma ZeroVarint(k: nat, width: nat)
    requires k >= 1
    ensures ReadVarint(Zeros(k), width) == Ok((0, Zeros(k - 1)))
  {
    assert Zeros(k)[1..] == Zeros(k - 1);
    assert Varint.Decode(Zeros(k), width) == Ok((0, 1));
  }

  // ------------------------------------------------------------------
  // The loops of the serializer
  // ------------------------------------------------------------------

  /** write_u32_field, write_u64_field, write_bool_field, write_string_field and the raw pushes. */
  method WriteField(num: nat, f: Field, v: Value, buf: seq<byte>) returns (out: seq<byte>)
    requires Fits(f.kind, v)
    ensures out == buf + FieldBytes(num, f, v)
  {
    hide Varint.Encode, IsUtf8;
    if !IsWritten(f, v) {
      return buf;
    }
    out := Varint.Write(8 * num + WireOf(f.kind), []);
    match f.kind {
      case Byte => out := out + [v.n];
      case Bool => out := out + [v.n];
      case Text =>
        var length := Varint.Write(|v.s| % TWO_32, []);
        out := out + (length + v.s);
      case _ =>
        var value := Varint.Write(v.n, []);
        out := out + value;
    }
    out := buf + out;
  }

  /** `serialize`: the field writers push onto one buffer, in field order. */
  method Write(schema: Schema, r: seq<Value>) returns (buf: seq<byte>)
    requires WellTyped(schema, r)
    ensures buf == Serialize(schema, r)
  {
    hide FieldBytes, Fits;
    buf := [];
    for i := 0 to |r|
      invariant buf == SerializeFirst(schema, r, i)
    {
      buf := WriteField(i + 1, schema[i], r[i], buf);
    }
  }

  /** A read that moved the offset, as the suffix it left behind. */
  ghost predicate At<T>(bytes: seq<byte>, spec: Result<(T, seq<byte>)>, r: Result<T>, offset: nat) {
    match spec
    case Err(e) => r == Err(e)
    case Ok(p) => r == Ok(p.0) && offset <= |bytes| && bytes[offset..] == p.1
  }

  method ReadVarintAt(bytes: seq<byte>, start: nat, width: nat) returns (r: Result<nat>, offset: nat)
    requires start <= |bytes| && width > 0
    ensures At(bytes, ReadVarint(bytes[start..], width), r, offset)
    ensures start <= offset <= |bytes| && (r.Ok? ==> start < offset)
  {
    hide Varint.Decode;
    r, offset := Varint.Read(bytes, start, width);
    if r.Ok? {
      assert bytes[start..][offset - start..] == bytes[offset..];
    }
  }

  method ReadFieldAt(k: Kind, wire: nat, bytes: seq<byte>, start: nat) returns (r: Result<Value>, offset: nat)
    requires start <= |bytes|
    ensures At(bytes, ReadField(k, wire, bytes[start..]), r, offset)
    ensures start <= offset <= |bytes|
  {
    hide ReadVarint, IsUtf8;
    if wire != WireOf(k) {
      return Err(BadWireType), start;
    }
    var n;
    n, offset := ReadVarintAt(bytes, start, if k == U64 then 64 else 32);
    if n.Err? {
      return Err(n.error), offset;
    }
    match k {
      case U32 => r := Ok(Num(n.value));
      case U64 => r := Ok(Num(n.value));
      case Byte => r := Ok(Num(n.value % 256));
      case Bool => r := Ok(Num(if n.value != 0 then 1 else 0));
      case Text =>
        if offset + n.value > |bytes| {
          return Err(TruncatedString), offset;
        }
        var s := bytes[offset..offset + n.value];
        assert s == bytes[offset..][..n.value];
        if !IsUtf8(s) {
          return Err(InvalidUtf8), offset;
        }
        assert bytes[offset..][n.value..] == bytes[offset + n.value..];
        offset := offset + n.value;
        r := Ok(Str(s));
    }
  }

  method SkipAt(wire: nat, bytes: seq<byte>, start: nat) returns (r: Result<()>, offset: nat)
    requires start <= |bytes|
    ensures Skip(wire, bytes[start..]).Err? ==> r == Err(Skip(wire, bytes[start..]).error)
    ensures Skip(wire, bytes[start..]).Ok? ==> r.Ok? && Drop(bytes, offset) == Skip(wire, bytes[start..]).value
    ensures start <= offset
  {
    hide ReadVarint;
    if wire == WIRE_VARINT || wire == WIRE_LENGTH_DELIMITED {
      var n;
      n, offset := ReadVarintAt(bytes, start, if wire == WIRE_VARINT then 64 else 32);
      if n.Err? {
        return Err(n.error), offset;
      }
      if wire == WIRE_LENGTH_DELIMITED {
        DropDrop(bytes, offset, n.value);
        offset := offset + n.value;
      }
      r := Ok(());
    } else if wire == WIRE_FIXED64 {
      DropDrop(bytes, start, 8);
      r, offset := Ok(()), start + 8;
    } else if wire == WIRE_FIXED32 {
      DropDrop(bytes, start, 4);
      r, offset := Ok(()), start + 4;
    } else {
      r, offset := Err(UnknownWireType), start;
    }
  }

  lemma DropDrop(bytes: seq<byte>, a: nat, n: nat)
    requires a <= |bytes|
    ensures Drop(bytes[a..], n) == Drop(bytes, a + n)
  {
  }

  /** `deserialize`: the `while offset < bytes.len()` loop. */
  method Read(schema: Schema, bytes: seq<byte>) returns (r: Result<seq<Value>>)
    ensures r == Deserialize(schema, bytes)
  {
    hide ReadVarint, ReadField, Skip;
    var result, offset := Default(schema), 0;
    assert Drop(bytes, 0) == bytes;
    while offset < |bytes|
      invariant |result| == |schema|
      invariant Deserialize(schema, bytes) == DecodeOnto(schema, result, Drop(bytes, offset))
      decreases |bytes| - offset
    {
      var tag, afterTag := ReadVarintAt(bytes, offset, 32);
      if tag.Err? {
        return Err(tag.error);
      }
      var num, wire := tag.value / 8, tag.value % 8;
      if 1 <= num <= |schema| {
        var v, next := ReadFieldAt(schema[num - 1].kind, wire, bytes, afterTag);
        if v.Err? {
          return Err(v.error);
        }
        result, offset := result[num - 1 := v.value], next;
      } else {
        var skipped, next := SkipAt(wire, bytes, afterTag);
        if skipped.Err? {
          return Err(skipped.error);
        }
        offset := next;
      }
    }
    r := Ok(result);
  }
}
