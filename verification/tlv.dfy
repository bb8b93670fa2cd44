/** The tag-length-value payload that the RSA transport signs, and the bounds on
    the duration of a manual backup event. */
module Tlv {
  import opened Common

  newtype Uint32 = x: int | 0 <= x < 0x1_0000_0000

  const TAG_SIGNATURE_TYPE: Byte := 0
  const TAG_DOMAIN: Byte := 1
  const TAG_PERSONALIZATION: Byte := 2
  const TAG_EXPIRES_AT: Byte := 4
  const TAG_END: Byte := 0xFF
  const RSA_SIGNATURE_TYPE: Byte := 7
  const DOMAIN_ENERGY_DEV: Byte := 7
  const MAX_UINT8 := 255

  type Bytes = seq<Byte>

  // ----------------------------------------------------------------- reader

  datatype Field = Field(tag: Byte, value: Bytes)

  /** What a receiver sees: the fields before the end tag and the bytes after it. */
  datatype Reading = Reading(fields: seq<Field>, inner: Bytes)

  /** A reader of any such payload: it walks tag, length and value up to the end
      tag and refuses a payload that stops early. */
  function Walk(bs: Bytes): (r: Option<Reading>)
    decreases |bs|
  {
    if bs == [] then None
    else if bs[0] == TAG_END then Some(Reading([], bs[1..]))
    else if |bs| < 2 || |bs| < 2 + bs[1] as int then None
    else
      var n := 2 + bs[1] as int;
      match Walk(bs[n..])
      case None => None
      case Some(rest) => Some(rest.(fields := [Field(bs[0], bs[2..n])] + rest.fields))
  }

  function Encode32(v: Uint32): (bs: Bytes)
    ensures |bs| == 4 && Value(bs) == v as int
  {
    var bs := [(v / 0x100_0000) as Byte, (v / 0x1_0000 % 256) as Byte, (v / 256 % 256) as Byte, (v % 256) as Byte];
    ValueOfFour(bs);
    Digits(v as int);
    bs
  }

  lemma Digits(v: int)
    requires 0 <= v < 0x1_0000_0000
    ensures 0 <= v / 0x100_0000 < 256
    ensures v / 0x100_0000 * 0x100_0000 + v / 0x1_0000 % 256 * 0x1_0000 + v / 256 % 256 * 256 + v % 256 == v
  {
    var a := v / 256;
    var b := a / 256;
    assert v == a * 256 + v % 256 && a == b * 256 + a % 256 && b == b / 256 * 256 + b % 256;
    assert v / 0x1_0000 == b && v / 0x100_0000 == b / 256;
  }

  lemma ValueOfFour(bs: Bytes)
    requires |bs| == 4
    ensures Value(bs) == bs[0] as int * 0x100_0000 + bs[1] as int * 0x1_0000 + bs[2] as int * 256 + bs[3] as int
  {
    var b3, b2, b1 := bs[..3], bs[..2], bs[..1];
    assert b3[..2] == b2 && b2[..1] == b1 && b1[..0] == [];
    assert Value(b1) == bs[0] as int;
    assert Value(b2) == Value(b1) * 256 + bs[1] as int;
    assert Value(b3) == Value(b2) * 256 + bs[2] as int;
  }

  // ---------------------------------------------------------------- encoder

  function Encode(fields: seq<Field>): (bs: Bytes)
    requires forall f :: f in fields ==> |f.value| <= MAX_UINT8
  {
    if fields == [] then []
    else [fields[0].tag, |fields[0].value| as Byte] + fields[0].value + Encode(fields[1..])
  }

  /** The reader is a left inverse of the encoding of any list of fields. */
  lemma {:induction false} WalkEncoded(fields: seq<Field>, inner: Bytes)
    requires forall f :: f in fields ==> |f.value| <= MAX_UINT8 && f.tag != TAG_END
    ensures Walk(Encode(fields) + [TAG_END] + inner) == Some(Reading(fields, inner))
  {
    var bs := Encode(fields) + [TAG_END] + inner;
    if fields == [] {
      assert bs[1..] == inner;
    } else {
      var n := 2 + |fields[0].value|;
      assert bs[0] == fields[0].tag && bs[1] as int == |fields[0].value| && n <= |bs|;
      assert bs[2..n] == fields[0].value;
      assert [fields[0]] + fields[1..] == fields;
      assert bs[n..] == Encode(fields[1..]) + [TAG_END] + inner;
      WalkEncoded(fields[1..], inner);
    }
  }

  ghost function SignedFields(din: Bytes, expiresAt: Uint32): seq<Field> {
    [ Field(TAG_SIGNATURE_TYPE, [RSA_SIGNATURE_TYPE]),
      Field(TAG_DOMAIN, [DOMAIN_ENERGY_DEV]),
      Field(TAG_PERSONALIZATION, din),
      Field(TAG_EXPIRES_AT, Encode32(expiresAt)) ]
  }

  /** The payload is refused exactly when the DIN does not fit its length byte,
      and otherwise a reader recovers the four signed fields and the inner bytes
      that follow the end tag. */
  method BuildTLVPayload(din: Bytes, expiresAt: Uint32, inner: Bytes) returns (r: Result<Bytes, string>)
    ensures r.Err? <==> |din| > MAX_UINT8
    ensures r.Ok? ==> |r.value| == 15 + |din| + |inner|
    ensures r.Ok? ==> Walk(r.value) == Some(Reading(SignedFields(din, expiresAt), inner))
  {
    if |din| > MAX_UINT8 {
      return Err("din too long");
    }
    var buf: Bytes := [];
    ghost var fs: seq<Field> := [];
    buf := buf + [TAG_SIGNATURE_TYPE] + [1] + [RSA_SIGNATURE_TYPE];
    fs := Written(fs, Field(TAG_SIGNATURE_TYPE, [RSA_SIGNATURE_TYPE]), buf);
    buf := buf + [TAG_DOMAIN] + [1] + [DOMAIN_ENERGY_DEV];
    fs := Written(fs, Field(TAG_DOMAIN, [DOMAIN_ENERGY_DEV]), buf);
    buf := buf + [TAG_PERSONALIZATION] + [|din| as Byte] + din;
    fs := Written(fs, Field(TAG_PERSONALIZATION, din), buf);
    var expBytes := Encode32(expiresAt);
    buf := buf + [TAG_EXPIRES_AT] + [4] + expBytes;
    fs := Written(fs, Field(TAG_EXPIRES_AT, expBytes), buf);
    buf := buf + [TAG_END];
    buf := buf + inner;
    assert fs == SignedFields(din, expiresAt);
    WalkEncoded(fs, inner);
    return Ok(buf);
  }

  /** Writing one more field after the encoding of `fs` gives the encoding of the
      longer list. */
  lemma {:induction false} Written(fs: seq<Field>, f: Field, buf: Bytes) returns (longer: seq<Field>)
    requires |f.value| <= MAX_UINT8 && forall g :: g in fs ==> |g.value| <= MAX_UINT8
    requires buf == Encode(fs) + [f.tag] + [|f.value| as Byte] + f.value
    ensures longer == fs + [f] && (forall g :: g in longer ==> |g.value| <= MAX_UINT8) && buf == Encode(longer)
  {
    longer := fs + [f];
    if fs == [] {
      assert longer[1..] == [];
    } else {
      assert longer[1..] == fs[1..] + [f];
      var _ := Written(fs[1..], f, Encode(fs[1..]) + [f.tag] + [|f.value| as Byte] + f.value);
    }
  }

  /** One payload cannot stand for two requests: the DIN, the expiry and the inner
      bytes are all recovered from the bytes that are signed. */
  lemma PayloadDeterminesRequest(payload: Bytes, din: Bytes, exp: Uint32, inner: Bytes, din': Bytes, exp': Uint32,
                                 inner': Bytes)
    requires Walk(payload) == Some(Reading(SignedFields(din, exp), inner))
    requires Walk(payload) == Some(Reading(SignedFields(din', exp'), inner'))
    ensures (din, exp, inner) == (din', exp', inner')
  {
    var fs, fs' := SignedFields(din, exp), SignedFields(din', exp');
    assert fs[2] == fs'[2] && fs[3] == fs'[3];
    assert Value(Encode32(exp)) == Value(Encode32(exp'));
  }

  // --------------------------------------------------------- backup duration

  const MAX_BACKUP_SECONDS := 0xFFFF_FFFF
  const MIN_BACKUP_SECONDS := 60

  predicate ValidBackupDuration(seconds: int) { 0 <= seconds <= MAX_BACKUP_SECONDS }

  /** The duration that goes on the wire, or the refusal. A duration that is sent
      survives the narrowing to 32 bits and is never below a minute. */
  method BackupDuration(seconds: int) returns (r: Result<Uint32, string>)
    ensures r.Ok? <==> ValidBackupDuration(seconds)
    ensures r.Ok? ==> r.value as int == Max(seconds, MIN_BACKUP_SECONDS)
  {
    if !ValidBackupDuration(seconds) {
      return Err("invalid backup duration");
    }
    var clamped := if seconds < MIN_BACKUP_SECONDS then MIN_BACKUP_SECONDS else seconds;
    return Ok(clamped as Uint32);
  }
}
