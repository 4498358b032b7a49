/**
 The five TLV records of the protocol, each with the fields of its Rust struct
 in field-number order. Strings are their UTF-8 bytes.
 */
module Records {
  import opened Bytes
  import opened Tlv

  const U32_FIELD := Field(U32, false)
  const U64_FIELD := Field(U64, false)
  const BYTE_FIELD := Field(Byte, false)
  const BOOL_FIELD := Field(Bool, false)
  const TEXT_FIELD := Field(Text, false)

  function Int(v: Value): nat { if v.Num? then v.n else 0 }
  function Txt(v: Value): seq<byte> { if v.Str? then v.s else [] }
  function Truth(v: Value): bool { Int(v) != 0 }
  function FromBool(b: bool): Value { Num(if b then 1 else 0) }

  const HANDSHAKE: Schema := [TEXT_FIELD, Field(Byte, true), U32_FIELD, TEXT_FIELD, TEXT_FIELD, TEXT_FIELD]

  datatype SessionHandShake = SessionHandShake(
    banner: seq<byte>, authType: nat, sessionId: nat, connectKey: seq<byte>, buf: seq<byte>, version: seq<byte>)
  {
    function Fields(): (f: seq<Value>)
      ensures |f| == |HANDSHAKE|
    {
      [Str(banner), Num(authType), Num(sessionId), Str(connectKey), Str(buf), Str(version)]
    }
    static function Of(f: seq<Value>): SessionHandShake
      requires |f| == |HANDSHAKE|
    {
      SessionHandShake(Txt(f[0]), Int(f[1]), Int(f[2]), Txt(f[3]), Txt(f[4]), Txt(f[5]))
    }
    predicate Valid() { WellTyped(HANDSHAKE, Fields()) }
    predicate Representable() {
      authType < 128 && forall t :: t in {banner, connectKey, buf, version} ==> |t| < TWO_32
    }
    function Serialize(): seq<byte>
      requires Valid()
    {
      Tlv.Serialize(HANDSHAKE, Fields())
    }
    static function Deserialize(s: seq<byte>): Result<SessionHandShake> {
      var f :- Tlv.Deserialize(HANDSHAKE, s);
      Ok(Of(f))
    }
    static lemma Typed(s: seq<byte>)
      ensures Deserialize(s).Ok? ==> Tlv.Deserialize(HANDSHAKE, s) == Ok(Deserialize(s).value.Fields())
    {
      hide Tlv.Deserialize, IsUtf8;
      DeserializedFits(HANDSHAKE, s);
      var r := Tlv.Deserialize(HANDSHAKE, s);
      if r.Ok? {
        assert forall i :: 0 <= i < |HANDSHAKE| ==> Fits(HANDSHAKE[i].kind, r.value[i]);
        assert Of(r.value).Fields() == r.value;
      }
    }
  }

  const PROTECT: Schema := [U32_FIELD, U32_FIELD, BYTE_FIELD, BYTE_FIELD]

  datatype PayloadProtect = PayloadProtect(channelId: nat, commandFlag: nat, checkSum: nat, vCode: nat)
  {
    function Fields(): (f: seq<Value>)
      ensures |f| == |PROTECT|
    {
      [Num(channelId), Num(commandFlag), Num(checkSum), Num(vCode)]
    }
    static function Of(f: seq<Value>): PayloadProtect
      requires |f| == |PROTECT|
    {
      PayloadProtect(Int(f[0]), Int(f[1]), Int(f[2]), Int(f[3]))
    }
    predicate Valid() { WellTyped(PROTECT, Fields()) }
    predicate Representable() { checkSum < 128 && vCode < 128 }
    function Serialize(): seq<byte>
      requires Valid()
    {
      Tlv.Serialize(PROTECT, Fields())
    }
    static function Deserialize(s: seq<byte>): Result<PayloadProtect> {
      var f :- Tlv.Deserialize(PROTECT, s);
      Ok(Of(f))
    }
    static lemma Typed(s: seq<byte>)
      ensures Deserialize(s).Ok? ==> Tlv.Deserialize(PROTECT, s) == Ok(Deserialize(s).value.Fields())
    {
      hide Tlv.Deserialize, IsUtf8;
      DeserializedFits(PROTECT, s);
      var r := Tlv.Deserialize(PROTECT, s);
      if r.Ok? {
        assert forall i :: 0 <= i < |PROTECT| ==> Fits(PROTECT[i].kind, r.value[i]);
        assert Of(r.value).Fields() == r.value;
      }
    }
  }

  const CONFIG: Schema := [
    U64_FIELD, U64_FIELD, U64_FIELD, TEXT_FIELD, TEXT_FIELD, TEXT_FIELD, BOOL_FIELD, BYTE_FIELD, BOOL_FIELD,
    TEXT_FIELD, TEXT_FIELD, TEXT_FIELD, TEXT_FIELD]

  datatype TransferConfig = TransferConfig(
    fileSize: nat, atime: nat, mtime: nat, options: seq<byte>, path: seq<byte>, optionalName: seq<byte>,
    updateIfNew: bool, compressType: nat, holdTimestamp: bool, functionName: seq<byte>, clientCwd: seq<byte>,
    reserve1: seq<byte>, reserve2: seq<byte>)
  {
    function Fields(): (f: seq<Value>)
      ensures |f| == |CONFIG|
    {
      [Num(fileSize), Num(atime), Num(mtime), Str(options), Str(path), Str(optionalName), FromBool(updateIfNew),
       Num(compressType), FromBool(holdTimestamp), Str(functionName), Str(clientCwd), Str(reserve1), Str(reserve2)]
    }
    static function Of(f: seq<Value>): TransferConfig
      requires |f| == |CONFIG|
    {
      TransferConfig(Int(f[0]), Int(f[1]), Int(f[2]), Txt(f[3]), Txt(f[4]), Txt(f[5]), Truth(f[6]), Int(f[7]),
                     Truth(f[8]), Txt(f[9]), Txt(f[10]), Txt(f[11]), Txt(f[12]))
    }
    predicate Valid() { WellTyped(CONFIG, Fields()) }
    predicate Representable() {
      && compressType < 128
      && forall t :: t in {options, path, optionalName, functionName, clientCwd, reserve1, reserve2} ==> |t| < TWO_32
    }
    function Serialize(): seq<byte>
      requires Valid()
    {
      Tlv.Serialize(CONFIG, Fields())
    }
    static function Deserialize(s: seq<byte>): Result<TransferConfig> {
      var f :- Tlv.Deserialize(CONFIG, s);
      Ok(Of(f))
    }
    static lemma Typed(s: seq<byte>)
      ensures Deserialize(s).Ok? ==> Tlv.Deserialize(CONFIG, s) == Ok(Deserialize(s).value.Fields())
    {
      hide Tlv.Deserialize, IsUtf8;
      DeserializedFits(CONFIG, s);
      var r := Tlv.Deserialize(CONFIG, s);
      if r.Ok? {
        assert forall i :: 0 <= i < |CONFIG| ==> Fits(CONFIG[i].kind, r.value[i]);
        assert Of(r.value).Fields() == r.value;
      }
    }
  }

  const MODE: Schema := [U64_FIELD, U64_FIELD, U64_FIELD, TEXT_FIELD, TEXT_FIELD]

  datatype FileMode = FileMode(perm: nat, uId: nat, gId: nat, context: seq<byte>, fullName: seq<byte>)
  {
    function Fields(): (f: seq<Value>)
      ensures |f| == |MODE|
    {
      [Num(perm), Num(uId), Num(gId), Str(context), Str(fullName)]
    }
    static function Of(f: seq<Value>): FileMode
      requires |f| == |MODE|
    {
      FileMode(Int(f[0]), Int(f[1]), Int(f[2]), Txt(f[3]), Txt(f[4]))
    }
    predicate Valid() { WellTyped(MODE, Fields()) }
    predicate Representable() { |context| < TWO_32 && |fullName| < TWO_32 }
    function Serialize(): seq<byte>
      requires Valid()
    {
      Tlv.Serialize(MODE, Fields())
    }
    static function Deserialize(s: seq<byte>): Result<FileMode> {
      var f :- Tlv.Deserialize(MODE, s);
      Ok(Of(f))
    }
    static lemma Typed(s: seq<byte>)
      ensures Deserialize(s).Ok? ==> Tlv.Deserialize(MODE, s) == Ok(Deserialize(s).value.Fields())
    {
      hide Tlv.Deserialize, IsUtf8;
      DeserializedFits(MODE, s);
      var r := Tlv.Deserialize(MODE, s);
      if r.Ok? {
        assert forall i :: 0 <= i < |MODE| ==> Fits(MODE[i].kind, r.value[i]);
        assert Of(r.value).Fields() == r.value;
      }
    }
  }

  const PAYLOAD: Schema := [U64_FIELD, BYTE_FIELD, U32_FIELD, U32_FIELD]

  datatype TransferPayload = TransferPayload(index: nat, compressType: nat, compressSize: nat, uncompressSize: nat)
  {
    function Fields(): (f: seq<Value>)
      ensures |f| == |PAYLOAD|
    {
      [Num(index), Num(compressType), Num(compressSize), Num(uncompressSize)]
    }
    static function Of(f: seq<Value>): TransferPayload
      requires |f| == |PAYLOAD|
    {
      TransferPayload(Int(f[0]), Int(f[1]), Int(f[2]), Int(f[3]))
    }
    predicate Valid() { WellTyped(PAYLOAD, Fields()) }
    predicate Representable() { compressType < 128 }
    function Serialize(): seq<byte>
      requires Valid()
    {
      Tlv.Serialize(PAYLOAD, Fields())
    }
    static function Deserialize(s: seq<byte>): Result<TransferPayload> {
      var f :- Tlv.Deserialize(PAYLOAD, s);
      Ok(Of(f))
    }
    static lemma Typed(s: seq<byte>)
      ensures Deserialize(s).Ok? ==> Tlv.Deserialize(PAYLOAD, s) == Ok(Deserialize(s).value.Fields())
    {
      hide Tlv.Deserialize, IsUtf8;
      DeserializedFits(PAYLOAD, s);
      var r := Tlv.Deserialize(PAYLOAD, s);
      if r.Ok? {
        assert forall i :: 0 <= i < |PAYLOAD| ==> Fits(PAYLOAD[i].kind, r.value[i]);
        assert Of(r.value).Fields() == r.value;
      }
    }
  }

  /** Every schema meets the side conditions of the general laws. */
  lemma SchemasAreRegular()
    ensures AlwaysIsSoleByte(HANDSHAKE) && AlwaysIsSoleByte(PROTECT) && AlwaysIsSoleByte(CONFIG)
    ensures AlwaysIsSoleByte(MODE) && AlwaysIsSoleByte(PAYLOAD)
  {
  }

  lemma HandshakeRoundTrip(x: SessionHandShake)
    requires x.Valid()
    ensures SessionHandShake.Deserialize(x.Serialize()) == Ok(x) <==> x.Representable()
  {
    hide Tlv.Serialize, Tlv.Deserialize, Fits;
    var s, f := x.Serialize(), x.Fields();
    SchemasAreRegular();
    RoundTripIff(HANDSHAKE, f);
    assert SessionHandShake.Of(f) == x;
    assert AllRepresentable(HANDSHAKE, f) <==> x.Representable();
    if SessionHandShake.Deserialize(s) == Ok(x) {
      SessionHandShake.Typed(s);
    }
  }

  lemma ProtectRoundTrip(x: PayloadProtect)
    requires x.Valid()
    ensures PayloadProtect.Deserialize(x.Serialize()) == Ok(x) <==> x.Representable()
  {
    hide Tlv.Serialize, Tlv.Deserialize, Fits;
    var s, f := x.Serialize(), x.Fields();
    SchemasAreRegular();
    RoundTripIff(PROTECT, f);
    assert PayloadProtect.Of(f) == x;
    assert AllRepresentable(PROTECT, f) <==> x.Representable();
    if PayloadProtect.Deserialize(s) == Ok(x) {
      PayloadProtect.Typed(s);
    }
  }

  lemma ConfigRoundTrip(x: TransferConfig)
    requires x.Valid()
    ensures TransferConfig.Deserialize(x.Serialize()) == Ok(x) <==> x.Representable()
  {
    hide Tlv.Serialize, Tlv.Deserialize, Fits;
    var s, f := x.Serialize(), x.Fields();
    SchemasAreRegular();
    RoundTripIff(CONFIG, f);
    assert TransferConfig.Of(f) == x;
    assert AllRepresentable(CONFIG, f) <==> x.Representable();
    if TransferConfig.Deserialize(s) == Ok(x) {
      TransferConfig.Typed(s);
    }
  }

  lemma FileModeRoundTrip(x: FileMode)
    requires x.Valid()
    ensures FileMode.Deserialize(x.Serialize()) == Ok(x) <==> x.Representable()
  {
    hide Tlv.Serialize, Tlv.Deserialize, Fits;
    var s, f := x.Serialize(), x.Fields();
    SchemasAreRegular();
    RoundTripIff(MODE, f);
    assert FileMode.Of(f) == x;
    assert AllRepresentable(MODE, f) <==> x.Representable();
    if FileMode.Deserialize(s) == Ok(x) {
      FileMode.Typed(s);
    }
  }

  lemma PayloadRoundTrip(x: TransferPayload)
    requires x.Valid()
    ensures TransferPayload.Deserialize(x.Serialize()) == Ok(x) <==> x.Representable()
  {
    hide Tlv.Serialize, Tlv.Deserialize, Fits;
    var s, f := x.Serialize(), x.Fields();
    SchemasAreRegular();
    RoundTripIff(PAYLOAD, f);
    assert TransferPayload.Of(f) == x;
    assert AllRepresentable(PAYLOAD, f) <==> x.Representable();
    if TransferPayload.Deserialize(s) == Ok(x) {
      TransferPayload.Typed(s);
    }
  }
}
