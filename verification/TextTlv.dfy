/**
 The textual records of the session handshake: a tag and a decimal length, each
 padded to sixteen columns, then the value. ASCII throughout, so that a column
 is a byte.
 */
module TextTlv {
  import opened Bytes
  import opened Text

  type ascii = c: char | c <= '\U{7F}'
  type Ascii = seq<ascii>

  const TAG_LEN: nat := 16
  const MIN_LEN: nat := 32
  const LIMIT: nat := 1_0000_0000_0000_0000  // ten to the sixteenth

  // ------------------------------------------------------------------
  // Numbers, padding and trimming
  // ------------------------------------------------------------------

  predicate IsDigit(c: char) { '0' <= c <= '9' }

  /** The ASCII part of Unicode White_Space. */
  predicate IsSpace(c: char) { c == ' ' || '\U{9}' <= c <= '\U{D}' }

  function Decimal(n: nat): (s: Ascii)
    ensures |s| >= 1
  {
    if n < 10 then ['0' + n as char] else Decimal(n / 10) + ['0' + (n % 10) as char]
  }

  function Number(s: Ascii): Option<nat> {
    if s == [] then Some(0)
    else
      var last := s[|s| - 1];
      match Number(s[..|s| - 1])
      case Some(v) => if IsDigit(last) then Some(10 * v + (last - '0') as nat) else None
      case None => None
  }

  /** `str::parse::<usize>`. */
  function ParseUsize(s: Ascii): Option<nat> {
    var digits := if s != [] && s[0] == '+' then s[1..] else s;
    if digits == [] then None
    else match Number(digits)
      case Some(v) => if v < TWO_64 then Some(v) else None
      case None => None
  }

  function Spaces(k: nat): (s: Ascii)
    ensures |s| == k
  {
    seq(k, _ => ' ')
  }

  /** `{:<16}`: never truncates. */
  function Pad(s: Ascii): Ascii {
    if |s| < TAG_LEN then s + Spaces(TAG_LEN - |s|) else s
  }

  function TrimEnd(s: Ascii): (t: Ascii)
    ensures t <= s
  {
    if s != [] && IsSpace(s[|s| - 1]) then TrimEnd(s[..|s| - 1]) else s
  }

  predicate Trimmed(s: Ascii) {
    s == [] || !IsSpace(s[|s| - 1])
  }

  lemma {:induction false} TrimEndIs(s: Ascii)
    ensures Trimmed(TrimEnd(s))
    ensures Trimmed(s) <==> TrimEnd(s) == s
  {
    if s != [] && IsSpace(s[|s| - 1]) {
      TrimEndIs(s[..|s| - 1]);
    }
  }

  lemma {:induction false} TrimEndSpaces(s: Ascii, k: nat)
    requires Trimmed(s)
    ensures TrimEnd(s + Spaces(k)) == s
  {
    if k > 0 {
      assert (s + Spaces(k))[..|s| + k - 1] == s + Spaces(k - 1);
      TrimEndSpaces(s, k - 1);
    } else {
      assert s + Spaces(0) == s;
    }
  }

  lemma {:induction false} DecimalIs(n: nat)
    ensures Number(Decimal(n)) == Some(n)
    ensures Decimal(n)[0] != '+' && Trimmed(Decimal(n))
  {
    if n < 10 {
      assert Decimal(n)[..0] == [];
    } else {
      DecimalIs(n / 10);
      var s := Decimal(n);
      assert s[..|s| - 1] == Decimal(n / 10);
      assert s[0] == Decimal(n / 10)[0];
    }
  }

  /** Printing and parsing are inverse. */
  lemma ParseDecimal(n: nat)
    ensures ParseUsize(Decimal(n)) == if n < TWO_64 then Some(n) else None
  {
    DecimalIs(n);
  }

  ghost function Pow10(k: nat): (p: nat)
    ensures p >= 1
  {
    if k == 0 then 1 else 10 * Pow10(k - 1)
  }

  lemma {:induction false} DecimalLength(n: nat, k: nat)
    requires k >= 1
    ensures |Decimal(n)| <= k <==> n < Pow10(k)
  {
    if k == 1 {
      assert Pow10(0) == 1;
    } else if n >= 10 {
      DecimalLength(n / 10, k - 1);
    }
  }

  lemma LimitIs()
    ensures Pow10(16) == LIMIT
  {
    assert Pow10(2) == 100;
    assert Pow10(4) == 10000;
    assert Pow10(6) == 100_0000;
    assert Pow10(8) == 1_0000_0000;
    assert Pow10(10) == 100_0000_0000;
    assert Pow10(12) == 1_0000_0000_0000;
    assert Pow10(14) == 100_0000_0000_0000;
  }

  // ------------------------------------------------------------------
  // Records
  // ------------------------------------------------------------------

  datatype Record = Record(tag: Ascii, val: Ascii) {
    /** A tag that fits its column and survives trimming. */
    predicate Clean() {
      |tag| <= TAG_LEN && Trimmed(tag) && |val| < LIMIT
    }
  }

  function MakeTlv(r: Record): Ascii {
    Pad(r.tag) + Pad(Decimal(|r.val|)) + r.val
  }

  function MakeAll(rs: seq<Record>): Ascii {
    if rs == [] then [] else MakeTlv(rs[0]) + MakeAll(rs[1..])
  }

  /** Later records win. */
  function LastWins(rs: seq<Record>, m: map<Ascii, Ascii>): map<Ascii, Ascii> {
    if rs == [] then m else LastWins(rs[1..], m[rs[0].tag := rs[0].val])
  }

  /** The record at the front, and what follows it. */
  function Front(s: Ascii): (r: Option<(Record, Ascii)>)
    ensures r.Some? ==> |r.value.1| < |s|
  {
    if |s| < MIN_LEN then None
    else match ParseUsize(TrimEnd(s[TAG_LEN..MIN_LEN]))
      case None => None
      case Some(n) =>
        if |s| < MIN_LEN + n then None
        else Some((Record(TrimEnd(s[..TAG_LEN]), s[MIN_LEN..MIN_LEN + n]), s[MIN_LEN + n..]))
  }

  function ParseOnto(s: Ascii, m: map<Ascii, Ascii>): map<Ascii, Ascii>
    decreases |s|
  {
    match Front(s)
    case None => m
    case Some(p) => ParseOnto(p.1, m[p.0.tag := p.0.val])
  }

  lemma PadTrims(s: Ascii)
    requires |s| <= TAG_LEN && Trimmed(s)
    ensures |Pad(s)| == TAG_LEN && TrimEnd(Pad(s)) == s
  {
    hide TrimEnd, Trimmed;
    TrimEndSpaces(s, TAG_LEN - |s|);
    assert s + Spaces(0) == s;
  }

  lemma FrontOfMake(r: Record, rest: Ascii)
    requires r.Clean()
    ensures Front(MakeTlv(r) + rest) == Some((r, rest))
  {
    hide ParseUsize, TrimEnd, Trimmed, Decimal, Pad;
    var n := |r.val|;
    var s, tag, field := MakeTlv(r) + rest, Pad(r.tag), Pad(Decimal(n));
    LimitIs();
    DecimalLength(n, 16);
    DecimalIs(n);
    ParseDecimal(n);
    PadTrims(r.tag);
    PadTrims(Decimal(n));
    assert s == tag + field + r.val + rest;
    assert s[..TAG_LEN] == tag && s[TAG_LEN..MIN_LEN] == field;
    assert s[MIN_LEN..MIN_LEN + n] == r.val && s[MIN_LEN + n..] == rest;
  }

  /** Parsing a concatenation of records gives their last-wins map. */
  lemma {:induction false} ParseMakeAll(rs: seq<Record>, m: map<Ascii, Ascii>)
    requires forall i :: 0 <= i < |rs| ==> rs[i].Clean()
    ensures ParseOnto(MakeAll(rs), m) == LastWins(rs, m)
  {
    hide Front, MakeTlv;
    if rs == [] {
      NoFront();
    } else {
      FrontOfMake(rs[0], MakeAll(rs[1..]));
      ParseMakeAll(rs[1..], m[rs[0].tag := rs[0].val]);
    }
  }

  lemma NoFront()
    ensures Front([]) == None
  {
  }

  lemma {:induction false} KeysFit(s: Ascii, m: map<Ascii, Ascii>, k: Ascii)
    requires k in ParseOnto(s, m) && k !in m
    ensures |k| <= TAG_LEN && Trimmed(k)
    decreases |s|
  {
    if Front(s).Some? {
      var p := Front(s).value;
      TrimEndIs(s[..TAG_LEN]);
      if k != p.0.tag {
        KeysFit(p.1, m[p.0.tag := p.0.val], k);
      }
    }
  }

  /** A record comes back exactly when its tag fits its column and ends in no space. */
  lemma RecordRoundTripIff(r: Record)
    requires |r.val| < LIMIT
    ensures ParseOnto(MakeTlv(r), map[]) == map[r.tag := r.val] <==> |r.tag| <= TAG_LEN && Trimmed(r.tag)
  {
    if |r.tag| <= TAG_LEN && Trimmed(r.tag) {
      assert MakeAll([r]) == MakeTlv(r) by { assert MakeAll([r]) == MakeTlv(r) + MakeAll([]); }
      ParseMakeAll([r], map[]);
    } else if r.tag in ParseOnto(MakeTlv(r), map[]) {
      KeysFit(MakeTlv(r), map[], r.tag);
    }
  }

  // ------------------------------------------------------------------
  // The two parsers
  // ------------------------------------------------------------------

  /** The host's parse_tlv. */
  method HostParse(tlv: Ascii) returns (m: map<Ascii, Ascii>)
    ensures m == ParseOnto(tlv, map[])
  {
    hide ParseUsize, TrimEnd;
    m := map[];
    var remaining := tlv;
    while |remaining| >= MIN_LEN
      invariant ParseOnto(remaining, m) == ParseOnto(tlv, map[])
      decreases |remaining|
    {
      var tag := TrimEnd(remaining[..TAG_LEN]);
      var len := ParseUsize(TrimEnd(remaining[TAG_LEN..MIN_LEN]));
      if len.None? {
        break;
      }
      ghost var whole := remaining;
      remaining := remaining[MIN_LEN..];
      if |remaining| < len.value {
        return;
      }
      var val := remaining[..len.value];
      assert val == whole[MIN_LEN..MIN_LEN + len.value];
      assert remaining[len.value..] == whole[MIN_LEN + len.value..];
      remaining := remaining[len.value..];
      m := m[tag := val];
    }
  }

  /** The daemon's parse_tlv. */
  method DaemonParse(tlv: Ascii) returns (m: map<Ascii, Ascii>)
    ensures m == ParseOnto(tlv, map[])
  {
    hide ParseUsize, TrimEnd;
    m := map[];
    var remaining := tlv;
    while |remaining| >= MIN_LEN
      invariant ParseOnto(remaining, m) == ParseOnto(tlv, map[])
      decreases |remaining|
    {
      var tag := TrimEnd(remaining[..TAG_LEN]);
      var len := ParseUsize(TrimEnd(remaining[TAG_LEN..MIN_LEN]));
      if len.None? {
        break;
      }
      if |remaining| < MIN_LEN + len.value {
        break;
      }
      var val := remaining[MIN_LEN..MIN_LEN + len.value];
      m := m[tag := val];
      remaining := remaining[MIN_LEN + len.value..];
    }
  }

  // ------------------------------------------------------------------
  // The host's handshake buffer, as the daemon reads it
  // ------------------------------------------------------------------

  const HEARTBEAT: Ascii := "heartbeat"
  const ENCRYPT_TCP: Ascii := "encrypt_tcp"
  const FEATURES: Ascii := "supportfeatures"
  const PUBKEY: Ascii := "pubkey"

  function Features(encrypt: bool): Ascii {
    Join<ascii>([HEARTBEAT] + (if encrypt then [ENCRYPT_TCP] else []), ',')
  }

  function HostRecords(key: Option<Ascii>, encrypt: bool): seq<Record> {
    var last := [Record(FEATURES, Features(encrypt))];
    [Record("authtype", "1")] + (if key.Some? then [Record(PUBKEY, key.value)] + last else last)
  }

  /** build_host_auth_buf; `key` is the public key when there is one. */
  function HostAuthBuf(key: Option<Ascii>, encrypt: bool): Ascii {
    MakeAll(HostRecords(key, encrypt))
  }

  /** host_supports_encrypt. */
  function SupportsEncrypt(buf: Ascii): bool {
    var m := ParseOnto(buf, map[]);
    FEATURES in m && ENCRYPT_TCP in Split<ascii>(m[FEATURES], ',')
  }

  /** extract_host_pubkey. */
  function HostPubkey(buf: Ascii): Option<Ascii> {
    var m := ParseOnto(buf, map[]);
    if PUBKEY in m then Some(m[PUBKEY]) else None
  }

  lemma FeaturesRead(encrypt: bool)
    ensures ENCRYPT_TCP in Split<ascii>(Features(encrypt), ',') <==> encrypt
    ensures |Features(encrypt)| < 32
  {
    assert |HEARTBEAT| != |ENCRYPT_TCP|;
    var parts: seq<Ascii> := [HEARTBEAT] + (if encrypt then [ENCRYPT_TCP] else []);
    SplitJoin<ascii>(parts, ',');
    if encrypt {
      assert parts[1..] == [ENCRYPT_TCP];
    }
  }

  lemma RecordsWin(key: Option<Ascii>, encrypt: bool)
    ensures var m := LastWins(HostRecords(key, encrypt), map[]);
            && FEATURES in m && m[FEATURES] == Features(encrypt)
            && (if key.Some? then PUBKEY in m && m[PUBKEY] == key.value else PUBKEY !in m)
  {
    hide Features;
    var rs := HostRecords(key, encrypt);
    assert |FEATURES| != |PUBKEY| && |PUBKEY| != |"authtype"|;
    var last := Record(FEATURES, Features(encrypt));
    var m: map<Ascii, Ascii> := map[rs[0].tag := rs[0].val];
    assert LastWins(rs, map[]) == LastWins(rs[1..], m);
    if key.Some? {
      var m' := m[PUBKEY := key.value];
      assert rs[1..] == [Record(PUBKEY, key.value), last];
      assert rs[1..][1..] == [last];
      assert LastWins(rs[1..], m) == LastWins([last], m');
      LastWinsOne(last, m');
    } else {
      assert rs[1..] == [last];
      LastWinsOne(last, m);
    }
  }

  lemma LastWinsOne(r: Record, m: map<Ascii, Ascii>)
    ensures LastWins([r], m) == m[r.tag := r.val]
  {
    assert [r][1..] == [];
  }

  /** The daemon reads back exactly what the host put in. */
  lemma HostAuthBufReads(key: Option<Ascii>, encrypt: bool)
    requires key.Some? ==> |key.value| < LIMIT
    ensures SupportsEncrypt(HostAuthBuf(key, encrypt)) == encrypt
    ensures HostPubkey(HostAuthBuf(key, encrypt)) == key
  {
    hide ParseOnto, MakeAll, LastWins, Features;
    FeaturesRead(encrypt);
    RecordsWin(key, encrypt);
    ParseMakeAll(HostRecords(key, encrypt), map[]);
  }
}
