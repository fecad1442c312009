/** The binary value of the Active Directory `dnsRecord` attribute built by
    `_create_dns_record_bytes` (the DNS_RECORD structure of [MS-DNSP] section
    2.3.2.2): a 24-byte header followed by an A or CNAME payload. A reference
    decoder, `ParseRecord` and `DecodeName`, is the inverse the encoder is proved
    against. */
module DnsCodec {
  import opened Wrappers
  import opened Strings

  /** Why building a record fails; each one is an exception in the source that
      `_create_dns_record_bytes` re-raises as `ValueError`. */
  datatype CodecError =
    | UnsupportedType   // the record type is neither 1 nor 5
    | IllegalAddress    // `socket.inet_aton` rejects the A value
    | ByteOutOfRange    // `struct.pack('B', ...)`: a label or the whole name exceeds 255 bytes
    | NonAsciiLabel     // `part.encode('ascii')` fails
    | TtlOutOfRange     // `struct.pack('>I', ttl)` fails

  /** The text of the inner exception. */
  function Describe(e: CodecError): string {
    match e
    case UnsupportedType => "不支援的紀錄類型"
    case IllegalAddress => "illegal IP address string passed to inet_aton"
    case ByteOutOfRange => "ubyte format requires 0 <= number <= 255"
    case NonAsciiLabel => "'ascii' codec can't encode character"
    case TtlOutOfRange => "'I' format requires 0 <= number <= 4294967295"
  }

  /** The text of the `ValueError` that `_create_dns_record_bytes` raises. */
  function ErrorMessage(e: CodecError): string {
    "DNS 封包建立失敗: " + Describe(e)
  }

  const TypeA: int := 1
  const TypeCname: int := 5
  const DefaultTtl: int := 3600

  // ---------------------------------------------------------------------------
  // Fixed-width integers

  function LE16(n: int): (b: seq<byte>)
    requires 0 <= n < 0x1_0000
    ensures |b| == 2
  {
    [(n % 256) as byte, (n / 256) as byte]
  }

  function LE32(n: int): (b: seq<byte>)
    requires 0 <= n < 0x1_0000_0000
    ensures |b| == 4
  {
    [(n % 256) as byte, (n / 256 % 256) as byte, (n / 0x1_0000 % 256) as byte, (n / 0x100_0000) as byte]
  }

  function BE32(n: int): (b: seq<byte>)
    requires 0 <= n < 0x1_0000_0000
    ensures |b| == 4
  {
    [(n / 0x100_0000) as byte, (n / 0x1_0000 % 256) as byte, (n / 256 % 256) as byte, (n % 256) as byte]
  }

  function ReadLE16(b: seq<byte>, at: nat): int
    requires at + 2 <= |b|
  {
    b[at] as int + 256 * b[at + 1] as int
  }

  function ReadBE32(b: seq<byte>, at: nat): int
    requires at + 4 <= |b|
  {
    0x100_0000 * b[at] as int + 0x1_0000 * b[at + 1] as int + 256 * b[at + 2] as int + b[at + 3] as int
  }

  lemma LE16RoundTrip(n: int)
    requires 0 <= n < 0x1_0000
    ensures ReadLE16(LE16(n), 0) == n
  {
  }

  lemma BE32RoundTrip(n: int)
    requires 0 <= n < 0x1_0000_0000
    ensures ReadBE32(BE32(n), 0) == n
  {
    var q1 := n / 256;
    var q2 := q1 / 256;
    var q3 := q2 / 256;
    assert n == 256 * q1 + n % 256;
    assert q1 == 256 * q2 + q1 % 256;
    assert q2 == 256 * q3 + q2 % 256;
    assert n / 0x1_0000 == q2;
    assert n / 0x100_0000 == q3;
  }

  // ---------------------------------------------------------------------------
  // Header

  /** `struct.pack('<HHBBHI', len, type, 5, 0xF0, 0, 0) + struct.pack('>I', ttl)
      + struct.pack('<II', 0, 0)`: data length, type, version 5, rank 0xF0,
      flags, serial, the TTL in network order, reserved and timestamp. */
  function Header(dataLen: int, recordType: int, ttl: int): (h: seq<byte>)
    requires 0 <= dataLen < 0x1_0000 && 0 <= recordType < 0x1_0000
    requires 0 <= ttl < 0x1_0000_0000
    ensures |h| == 24
  {
    LE16(dataLen) + LE16(recordType) + [5, 0xF0] + LE16(0) + LE32(0)
    + BE32(ttl) + LE32(0) + LE32(0)
  }

  // ---------------------------------------------------------------------------
  // IPv4 literals (A payload)

  function DigitValue(c: char): int
    requires IsAsciiDigit(c)
  {
    c as int - '0' as int
  }

  function DigitChar(d: int): (c: char)
    requires 0 <= d < 10
    ensures IsAsciiDigit(c) && DigitValue(c) == d
  {
    ('0' as int + d) as char
  }

  predicate AllDigits(p: string) {
    forall i :: 0 <= i < |p| ==> IsAsciiDigit(p[i])
  }

  function DecimalValue(p: string): nat
    requires AllDigits(p)
  {
    if p == [] then 0 else 10 * DecimalValue(p[..|p| - 1]) + DigitValue(p[|p| - 1])
  }

  /** One component of a dotted quad: one to three decimal digits without a
      leading zero, at most 255. */
  function ParseOctet(p: string): Option<byte> {
    if 1 <= |p| <= 3 && AllDigits(p) && (|p| == 1 || p[0] != '0') && DecimalValue(p) <= 255
    then Some(DecimalValue(p) as byte)
    else None
  }

  /** The canonical decimal text of an octet. */
  function Decimal(b: byte): (p: string)
    ensures 1 <= |p| <= 3 && AllDigits(p)
  {
    var n := b as int;
    if n < 10 then [DigitChar(n)]
    else if n < 100 then [DigitChar(n / 10), DigitChar(n % 10)]
    else [DigitChar(n / 100), DigitChar(n / 10 % 10), DigitChar(n % 10)]
  }

  lemma DecimalOfDigits(p: string)
    requires AllDigits(p) && 1 <= |p| <= 3
    ensures |p| == 1 ==> DecimalValue(p) == DigitValue(p[0])
    ensures |p| == 2 ==> DecimalValue(p) == 10 * DigitValue(p[0]) + DigitValue(p[1])
    ensures |p| == 3 ==>
      DecimalValue(p) == 100 * DigitValue(p[0]) + 10 * DigitValue(p[1]) + DigitValue(p[2])
  {
    var p0 := p[..|p| - 1];
    assert DecimalValue(p) == 10 * DecimalValue(p0) + DigitValue(p[|p| - 1]);
    if |p| >= 2 {
      var p1 := p0[..|p0| - 1];
      assert DecimalValue(p0) == 10 * DecimalValue(p1) + DigitValue(p0[|p0| - 1]);
      if |p| == 3 {
        assert DecimalValue(p1) == 10 * DecimalValue(p1[..0]) + DigitValue(p1[0]);
        assert p1[..0] == [];
      } else {
        assert p1 == [];
      }
    } else {
      assert p0 == [];
    }
  }

  lemma {:induction false} OctetRoundTrip(b: byte)
    ensures ParseOctet(Decimal(b)) == Some(b)
  {
    var p := Decimal(b);
    var n := b as int;
    DecimalOfDigits(p);
    if n >= 100 {
      assert n / 10 == 10 * (n / 100) + n / 10 % 10;
    }
    assert n == 10 * (n / 10) + n % 10;
    assert DecimalValue(p) == n;
  }

  lemma {:induction false} OctetCanonical(p: string, b: byte)
    requires ParseOctet(p) == Some(b)
    ensures Decimal(b) == p
  {
    var n := b as int;
    DecimalOfDigits(p);
    assert n == DecimalValue(p);
    if |p| == 2 {
      var d0, d1 := DigitValue(p[0]), DigitValue(p[1]);
      assert 1 <= d0;
      assert n / 10 == d0 && n % 10 == d1;
      assert DigitChar(d0) == p[0] && DigitChar(d1) == p[1];
    } else if |p| == 3 {
      var d0, d1, d2 := DigitValue(p[0]), DigitValue(p[1]), DigitValue(p[2]);
      assert 1 <= d0;
      assert n / 100 == d0 && n / 10 % 10 == d1 && n % 10 == d2;
      assert DigitChar(d0) == p[0] && DigitChar(d1) == p[1] && DigitChar(d2) == p[2];
    } else {
      assert DigitChar(n) == p[0];
    }
  }

  /** `socket.inet_aton`, taken strictly: exactly four dot-separated canonical
      decimal octets; the result is the address in network byte order. */
  function ParseIPv4(s: string): (r: Option<seq<byte>>)
    ensures r.Some? ==> |r.value| == 4
  {
    var parts := Split(s, '.');
    if |parts| != 4 then None
    else
      match (ParseOctet(parts[0]), ParseOctet(parts[1]), ParseOctet(parts[2]), ParseOctet(parts[3]))
      case (Some(a), Some(b), Some(c), Some(d)) => Some([a, b, c, d])
      case _ => None
  }

  function Quad(addr: seq<byte>): (parts: seq<string>)
    requires |addr| == 4
    ensures |parts| == 4 && forall i :: 0 <= i < 4 ==> parts[i] == Decimal(addr[i])
  {
    [Decimal(addr[0]), Decimal(addr[1]), Decimal(addr[2]), Decimal(addr[3])]
  }

  /** The dotted-quad text of an address. */
  function FormatIPv4(addr: seq<byte>): string
    requires |addr| == 4
  {
    Join(Quad(addr), ".")
  }

  lemma DecimalHasNoDot(b: byte)
    ensures '.' !in Decimal(b)
  {
    var p := Decimal(b);
    forall i | 0 <= i < |p| ensures p[i] != '.' {
      assert IsAsciiDigit(p[i]);
    }
  }

  /** Every address is accepted in its dotted-quad form and read back unchanged. */
  lemma IPv4RoundTrip(addr: seq<byte>)
    requires |addr| == 4
    ensures ParseIPv4(FormatIPv4(addr)) == Some(addr)
  {
    var parts := Quad(addr);
    forall i | 0 <= i < 4 ensures '.' !in parts[i] {
      DecimalHasNoDot(addr[i]);
    }
    SplitJoin(parts, '.');
    assert FormatIPv4(addr) == Join(parts, ['.']);
    OctetRoundTrip(addr[0]);
    OctetRoundTrip(addr[1]);
    OctetRoundTrip(addr[2]);
    OctetRoundTrip(addr[3]);
    assert addr == [addr[0], addr[1], addr[2], addr[3]];
  }

  /** An accepted literal is the dotted-quad form of the address it denotes. */
  lemma IPv4Canonical(s: string, addr: seq<byte>)
    requires ParseIPv4(s) == Some(addr)
    ensures s == FormatIPv4(addr)
  {
    var parts := Split(s, '.');
    JoinSplit(s, '.');
    assert "." == ['.'];
    OctetCanonical(parts[0], addr[0]);
    OctetCanonical(parts[1], addr[1]);
    OctetCanonical(parts[2], addr[2]);
    OctetCanonical(parts[3], addr[3]);
    assert parts == Quad(addr);
  }

  // ---------------------------------------------------------------------------
  // Names (CNAME payload)

  /** `name.strip().strip('.').split('.')` */
  function Labels(name: string): seq<string> {
    Split(StripChar(Strip(name), '.'), '.')
  }

  /** The labels that are not empty, in order. */
  function NonEmpty(parts: seq<string>): (ls: seq<string>)
    ensures |ls| <= |parts|
    ensures forall i :: 0 <= i < |ls| ==> ls[i] != []
  {
    if parts == [] then []
    else if parts[0] == [] then NonEmpty(parts[1..])
    else [parts[0]] + NonEmpty(parts[1..])
  }

  /** Dropping the empty labels of a concatenation drops them from each half. */
  lemma {:induction false} NonEmptyAppend(a: seq<string>, b: seq<string>)
    ensures NonEmpty(a + b) == NonEmpty(a) + NonEmpty(b)
    decreases |a|
  {
    if a != [] {
      assert (a + b)[1..] == a[1..] + b;
      NonEmptyAppend(a[1..], b);
    } else {
      assert a + b == b;
    }
  }

  /** A label survives exactly when it is a non-empty label of the input. */
  lemma {:induction false} NonEmptyMembers(parts: seq<string>, p: string)
    ensures p in NonEmpty(parts) <==> p in parts && p != []
    decreases |parts|
  {
    if parts != [] {
      NonEmptyMembers(parts[1..], p);
      assert parts == [parts[0]] + parts[1..];
      assert p in parts <==> p == parts[0] || p in parts[1..];
    }
  }

  /** `s.encode('ascii')` of an ASCII string. */
  function AsciiBytes(s: string): (b: seq<byte>)
    requires IsAscii(s)
    ensures |b| == |s|
    ensures forall i :: 0 <= i < |s| ==> b[i] as int == s[i] as int
  {
    if s == [] then [] else [s[0] as int as byte] + AsciiBytes(s[1..])
  }

  /** Bytes read back as characters, one per byte. */
  function BytesText(b: seq<byte>): (s: string)
    ensures |s| == |b|
    ensures forall i :: 0 <= i < |b| ==> s[i] as int == b[i] as int
  {
    if b == [] then [] else [b[0] as int as char] + BytesText(b[1..])
  }

  lemma AsciiRoundTrip(s: string)
    requires IsAscii(s)
    ensures BytesText(AsciiBytes(s)) == s
  {
    var t := BytesText(AsciiBytes(s));
    assert |t| == |s|;
    forall i | 0 <= i < |s| ensures t[i] == s[i] {
      assert t[i] as int == s[i] as int;
    }
  }

  /** Prepends bytes to a successful result; an error passes through. */
  function Prefixed(prefix: seq<byte>, r: Result<seq<byte>, CodecError>): Result<seq<byte>, CodecError> {
    match r
    case Ok(b) => Ok(prefix + b)
    case Err(e) => Err(e)
  }

  /** The loop of `_encode_dns_name` without its terminator: a length byte and
      the ASCII bytes of each non-empty label, stopping at the first label that
      is over 255 characters long or not ASCII, in that order of checks. */
  function EncodeLabels(parts: seq<string>): Result<seq<byte>, CodecError> {
    if parts == [] then Ok([])
    else
      var p := parts[0];
      if p == [] then EncodeLabels(parts[1..])
      else if |p| > 255 then Err(ByteOutOfRange)
      else if !IsAscii(p) then Err(NonAsciiLabel)
      else Prefixed([|p| as byte] + AsciiBytes(p), EncodeLabels(parts[1..]))
  }

  /** `_encode_dns_name(name)`: the labels followed by a zero byte. */
  function EncodedName(name: string): Result<seq<byte>, CodecError> {
    match EncodeLabels(Labels(name))
    case Ok(b) => Ok(b + [0])
    case Err(e) => Err(e)
  }

  lemma PrefixedAssoc(a: seq<byte>, b: seq<byte>, r: Result<seq<byte>, CodecError>)
    ensures Prefixed(a, Prefixed(b, r)) == Prefixed(a + b, r)
  {
    if r.Ok? {
      assert a + (b + r.value) == (a + b) + r.value;
    }
  }

  /** One turn of the encoding loop: an empty label adds nothing, a bad
      label ends the encoding, a good one adds its length and its bytes. */
  lemma EncodeLabelsStep(parts: seq<string>, i: nat)
    requires i < |parts|
    ensures parts[i] == [] ==> EncodeLabels(parts[i..]) == EncodeLabels(parts[i + 1..])
    ensures parts[i] != [] && |parts[i]| > 255 ==> EncodeLabels(parts[i..]) == Err(ByteOutOfRange)
    ensures parts[i] != [] && |parts[i]| <= 255 && !IsAscii(parts[i]) ==>
      EncodeLabels(parts[i..]) == Err(NonAsciiLabel)
    ensures parts[i] != [] && |parts[i]| <= 255 && IsAscii(parts[i]) ==>
      EncodeLabels(parts[i..]) ==
        Prefixed([|parts[i]| as byte] + AsciiBytes(parts[i]), EncodeLabels(parts[i + 1..]))
  {
    assert parts[i..][0] == parts[i] && parts[i..][1..] == parts[i + 1..];
  }

  /** Encoding the labels fails only on a label that is too long or not ASCII. */
  lemma {:induction false} EncodeLabelsErrors(parts: seq<string>)
    ensures EncodeLabels(parts).Err? ==> EncodeLabels(parts).error in {ByteOutOfRange, NonAsciiLabel}
  {
    if parts != [] {
      EncodeLabelsErrors(parts[1..]);
    }
  }

  /** The loop of `_encode_dns_name`, accumulating `encoded` label by label. */
  method EncodeLabelList(parts: seq<string>) returns (r: Result<seq<byte>, CodecError>)
    ensures r == EncodeLabels(parts)
  {
    var encoded: seq<byte> := [];
    var i := 0;
    assert parts[0..] == parts;
    assert Prefixed([], EncodeLabels(parts)) == EncodeLabels(parts) by {
      if EncodeLabels(parts).Ok? {
        assert [] + EncodeLabels(parts).value == EncodeLabels(parts).value;
      }
    }
    while i < |parts|
      invariant 0 <= i <= |parts|
      invariant EncodeLabels(parts) == Prefixed(encoded, EncodeLabels(parts[i..]))
    {
      var part := parts[i];
      EncodeLabelsStep(parts, i);
      if part != [] {
        if |part| > 255 {
          return Err(ByteOutOfRange);
        }
        if !IsAscii(part) {
          return Err(NonAsciiLabel);
        }
        PrefixedAssoc(encoded, [|part| as byte] + AsciiBytes(part), EncodeLabels(parts[i + 1..]));
        encoded := encoded + ([|part| as byte] + AsciiBytes(part));
      }
      i := i + 1;
    }
    assert parts[i..] == [];
    assert encoded + [] == encoded;
    return Ok(encoded);
  }

  /** `_encode_dns_name`: strip, split on dots, encode the labels, terminate. */
  method EncodeDnsName(name: string) returns (r: Result<seq<byte>, CodecError>)
    ensures r == EncodedName(name)
  {
    var parts := Labels(name);
    var body := EncodeLabelList(parts);
    if body.Err? {
      return Err(body.error);
    }
    return Ok(body.value + [0]);
  }

  /** Reads a name back: length-prefixed labels up to a final zero byte, with
      nothing after it. */
  function DecodeName(raw: seq<byte>): Option<seq<string>>
    decreases |raw|
  {
    if raw == [] then None
    else if raw[0] == 0 then (if |raw| == 1 then Some([]) else None)
    else
      var n := raw[0] as int;
      if |raw| < 1 + n then None
      else
        match DecodeName(raw[1 + n..])
        case Some(ls) => Some([BytesText(raw[1..1 + n])] + ls)
        case None => None
  }

  /** Decoding an encoded name gives back its non-empty labels. */
  lemma {:induction false} DecodeEncodeLabels(parts: seq<string>, b: seq<byte>)
    requires EncodeLabels(parts) == Ok(b)
    ensures DecodeName(b + [0]) == Some(NonEmpty(parts))
  {
    if parts == [] {
      assert b + [0] == [0];
    } else if parts[0] == [] {
      DecodeEncodeLabels(parts[1..], b);
    } else {
      var p := parts[0];
      var rest := EncodeLabels(parts[1..]).value;
      DecodeEncodeLabels(parts[1..], rest);
      var head := [|p| as byte] + AsciiBytes(p);
      assert b == head + rest;
      var raw := b + [0];
      assert raw[0] as int == |p| && raw[0] != 0;
      assert raw[1..1 + |p|] == AsciiBytes(p);
      assert raw[1 + |p|..] == rest + [0];
      AsciiRoundTrip(p);
    }
  }

  /** A successful encoding has exactly `2 * labels + letters + 1` bytes. */
  function LettersOf(ls: seq<string>): nat {
    if ls == [] then 0 else |ls[0]| + LettersOf(ls[1..])
  }

  lemma {:induction false} EncodedLength(parts: seq<string>, b: seq<byte>)
    requires EncodeLabels(parts) == Ok(b)
    ensures |b| == |NonEmpty(parts)| + LettersOf(NonEmpty(parts))
  {
    if parts != [] {
      EncodedLength(parts[1..], EncodeLabels(parts[1..]).value);
    }
  }

  /** The labels are counted once more by the source:
      `len([p for p in value.strip().strip('.').split('.') if p])`. */
  function LabelCount(value: string): nat {
    |NonEmpty(Labels(value))|
  }

  /** The CNAME payload: `[len(raw), labelCount] + raw`, where `raw` is
      `_encode_dns_name(value)`; `struct.pack('BB', ...)` rejects values over 255. */
  function CnamePayload(value: string): Result<seq<byte>, CodecError> {
    match EncodedName(value)
    case Err(e) => Err(e)
    case Ok(raw) =>
      if |raw| > 255 || LabelCount(value) > 255 then Err(ByteOutOfRange)
      else Ok([|raw| as byte, LabelCount(value) as byte] + raw)
  }

  /** A CNAME payload states the length of the name that follows and its
      label count, and the name decodes back to the value's non-empty labels. */
  lemma CnamePayloadShape(value: string, p: seq<byte>)
    requires CnamePayload(value) == Ok(p)
    ensures |p| >= 3 && p[0] as int == |p| - 2
    ensures p[1] as int == |NonEmpty(Labels(value))|
    ensures DecodeName(p[2..]) == Some(NonEmpty(Labels(value)))
  {
    var b := EncodeLabels(Labels(value)).value;
    DecodeEncodeLabels(Labels(value), b);
    assert p[2..] == b + [0];
  }

  /** Labels that are all ASCII and at most 255 characters long encode. */
  lemma {:induction false} EncodeLabelsOk(parts: seq<string>)
    requires forall i :: 0 <= i < |parts| ==> |parts[i]| <= 255 && IsAscii(parts[i])
    ensures EncodeLabels(parts).Ok?
  {
    if parts != [] {
      EncodeLabelsOk(parts[1..]);
    }
  }

  /** A label the encoder refuses: a non-empty label whose length does not
      fit `struct.pack('B', ...)` or whose text `encode('ascii')` rejects. */
  predicate BadLabel(p: string) {
    p != [] && (|p| > 255 || !IsAscii(p))
  }

  /** One bad label anywhere makes the whole encoding fail. */
  lemma {:induction false} EncodeLabelsFails(parts: seq<string>, i: int)
    requires 0 <= i < |parts| && BadLabel(parts[i])
    ensures EncodeLabels(parts).Err?
    decreases i
  {
    if i > 0 {
      assert parts[1..][i - 1] == parts[i];
      EncodeLabelsFails(parts[1..], i - 1);
      if parts[0] != [] && |parts[0]| <= 255 && IsAscii(parts[0]) {
        assert EncodeLabels(parts) ==
          Prefixed([|parts[0]| as byte] + AsciiBytes(parts[0]), EncodeLabels(parts[1..]));
      }
    }
  }

  /** The labels encode exactly when none of them is bad. */
  lemma EncodeLabelsIff(parts: seq<string>)
    ensures EncodeLabels(parts).Ok? <==> forall i :: 0 <= i < |parts| ==> !BadLabel(parts[i])
  {
    if i :| 0 <= i < |parts| && BadLabel(parts[i]) {
      EncodeLabelsFails(parts, i);
    } else {
      EncodeLabelsOk(parts);
    }
  }

  /** `_encode_dns_name(name)` raises exactly when one of the name's labels is
      bad. */
  lemma EncodedNameIff(name: string)
    ensures EncodedName(name).Err? <==>
      exists i :: 0 <= i < |Labels(name)| && BadLabel(Labels(name)[i])
  {
    EncodeLabelsIff(Labels(name));
  }

  /** The CNAME payload is built exactly when no label is bad and the encoded
      name, one length byte per label plus its letters plus the terminator,
      takes at most 255 bytes; a count of more than 255 labels always fails. */
  lemma CnamePayloadIff(value: string)
    ensures var ls := NonEmpty(Labels(value));
      CnamePayload(value).Ok? <==>
        (forall i :: 0 <= i < |Labels(value)| ==> !BadLabel(Labels(value)[i])) &&
        |ls| + LettersOf(ls) + 1 <= 255
    ensures LabelCount(value) > 255 ==> CnamePayload(value).Err?
  {
    var parts := Labels(value);
    EncodeLabelsIff(parts);
    if EncodeLabels(parts).Ok? {
      var b := EncodeLabels(parts).value;
      EncodedLength(parts, b);
      assert EncodedName(value) == Ok(b + [0]);
      if |b| + 1 <= 255 {
        CnameLabelCountFits(value);
      }
    }
  }

  lemma ExampleLabels(name: string)
    requires name == "www.example.com"
    ensures Labels(name) == ["www", "example", "com"]
  {
    var parts := ["www", "example", "com"];
    StripNoop(name);
    assert StripChar(name, '.') == name;
    assert Join(parts, ".") == name;
    SplitJoin(parts, '.');
  }

  /** The CNAME payload for `www.example.com`: 19 bytes, announcing a
      17-byte name of 3 labels that reads back as `www`, `example`, `com`. */
  lemma CnameExample(name: string)
    requires name == "www.example.com"
    ensures var r := CnamePayload(name);
      r.Ok? && |r.value| == 19 && r.value[0] == 17 && r.value[1] == 3 &&
      DecodeName(r.value[2..]) == Some(["www", "example", "com"])
  {
    var parts := ["www", "example", "com"];
    ExampleLabels(name);
    assert IsAscii(parts[0]) && IsAscii(parts[1]) && IsAscii(parts[2]);
    EncodeLabelsOk(parts);
    var b := EncodeLabels(parts).value;
    assert parts[1..][1..][1..] == [];
    assert NonEmpty(parts) == parts;
    assert LettersOf(parts) == 13;
    EncodedLength(parts, b);
    assert EncodedName(name) == Ok(b + [0]);
    CnamePayloadShape(name, CnamePayload(name).value);
  }

  /** When every label fits, is ASCII, and the whole name is at most 255
      bytes, the CNAME payload is built; the label count never overflows first. */
  lemma CnameLabelCountFits(value: string)
    requires EncodedName(value).Ok? && |EncodedName(value).value| <= 255
    ensures CnamePayload(value).Ok?
  {
    var b := EncodeLabels(Labels(value)).value;
    EncodedLength(Labels(value), b);
    assert EncodedName(value).value == b + [0];
    assert LabelCount(value) <= |b|;
  }

  // ---------------------------------------------------------------------------
  // The whole record

  /** The payload for a record type: the four address octets for A, the
      counted name for CNAME; any other type is refused. */
  function Payload(recordType: int, content: string): (r: Result<seq<byte>, CodecError>)
    ensures r.Ok? ==> (recordType == TypeA || recordType == TypeCname) && |r.value| <= 257
    ensures recordType == TypeA ==> (r.Ok? <==> ParseIPv4(content).Some?)
  {
    if recordType == TypeA then
      match ParseIPv4(content)
      case Some(addr) => Ok(addr)
      case None => Err(IllegalAddress)
    else if recordType == TypeCname then CnamePayload(content)
    else Err(UnsupportedType)
  }

  /** `_create_dns_record_bytes(record_type, data_content, ttl)`. */
  function RecordBytes(recordType: int, content: string, ttl: int): (r: Result<seq<byte>, CodecError>)
    ensures r.Ok? ==> |r.value| >= 24 && (recordType == TypeA || recordType == TypeCname)
    ensures recordType != TypeA && recordType != TypeCname ==> r == Err(UnsupportedType)
  {
    match Payload(recordType, content)
    case Err(e) => Err(e)
    case Ok(payload) =>
      if !(0 <= ttl < 0x1_0000_0000) then Err(TtlOutOfRange)
      else Ok(Header(|payload|, recordType, ttl) + payload)
  }

  /** The fields of a stored record, read back by full header parsing. */
  datatype RecordWire = RecordWire(recordType: int, ttl: int, payload: seq<byte>)

  /** Reads a blob as a header plus a payload of exactly the declared length. */
  function ParseRecord(blob: seq<byte>): Option<RecordWire> {
    if |blob| < 24 || ReadLE16(blob, 0) != |blob| - 24 then None
    else Some(RecordWire(ReadLE16(blob, 2), ReadBE32(blob, 12), blob[24..]))
  }

  /** Where each field of the header sits. */
  lemma HeaderFields(dataLen: int, recordType: int, ttl: int)
    requires 0 <= dataLen < 0x1_0000 && 0 <= recordType < 0x1_0000
    requires 0 <= ttl < 0x1_0000_0000
    ensures var h := Header(dataLen, recordType, ttl);
      ReadLE16(h, 0) == dataLen && ReadLE16(h, 2) == recordType &&
      h[4] == 5 && h[5] == 0xF0 && h[6..12] == [0, 0, 0, 0, 0, 0] &&
      ReadBE32(h, 12) == ttl && h[16..24] == [0, 0, 0, 0, 0, 0, 0, 0]
  {
    var h := Header(dataLen, recordType, ttl);
    var t := BE32(ttl);
    LE16RoundTrip(dataLen);
    LE16RoundTrip(recordType);
    BE32RoundTrip(ttl);
    assert h[0] == LE16(dataLen)[0] && h[1] == LE16(dataLen)[1];
    assert h[2] == LE16(recordType)[0] && h[3] == LE16(recordType)[1];
    assert h[12] == t[0] && h[13] == t[1] && h[14] == t[2] && h[15] == t[3];
  }

  /** Every built record parses back to its type, its TTL and its payload,
      and its constant header fields are version 5, rank 0xF0 and zeros. */
  lemma RecordRoundTrip(recordType: int, content: string, ttl: int)
    requires RecordBytes(recordType, content, ttl).Ok?
    ensures var b := RecordBytes(recordType, content, ttl).value;
      ParseRecord(b) == Some(RecordWire(recordType, ttl, Payload(recordType, content).value)) &&
      b[4] == 5 && b[5] == 0xF0 &&
      b[6..12] == [0, 0, 0, 0, 0, 0] && b[16..24] == [0, 0, 0, 0, 0, 0, 0, 0]
  {
    var payload := Payload(recordType, content).value;
    var b := RecordBytes(recordType, content, ttl).value;
    var h := Header(|payload|, recordType, ttl);
    assert b == h + payload;
    HeaderFields(|payload|, recordType, ttl);
    assert b[..24] == h && b[24..] == payload;
    assert ReadLE16(b, 0) == ReadLE16(h, 0) && ReadLE16(b, 2) == ReadLE16(h, 2);
    assert ReadBE32(b, 12) == ReadBE32(h, 12);
    assert b[6..12] == h[6..12] && b[16..24] == h[16..24];
  }

  /** An A record for an address written as a dotted quad is the header for
      four bytes of type 1 followed by the four octets. */
  lemma ARecordBytes(addr: seq<byte>, ttl: int)
    requires |addr| == 4 && 0 <= ttl < 0x1_0000_0000
    ensures RecordBytes(TypeA, FormatIPv4(addr), ttl) == Ok(Header(4, TypeA, ttl) + addr)
  {
    IPv4RoundTrip(addr);
  }

  /** An A record is built exactly when the value is a dotted quad and the TTL
      fits in 32 bits; its payload is then the four octets. */
  lemma ARecordIff(content: string, ttl: int)
    ensures RecordBytes(TypeA, content, ttl).Ok? <==>
      ParseIPv4(content).Some? && 0 <= ttl < 0x1_0000_0000
    ensures RecordBytes(TypeA, content, ttl).Ok? ==>
      RecordBytes(TypeA, content, ttl).value[24..] == ParseIPv4(content).value &&
      content == FormatIPv4(ParseIPv4(content).value)
  {
    if ParseIPv4(content).Some? {
      IPv4Canonical(content, ParseIPv4(content).value);
    }
  }

  /** The type is refused exactly when it is neither A nor CNAME. */
  lemma UnsupportedTypeIff(recordType: int, content: string, ttl: int)
    ensures RecordBytes(recordType, content, ttl) == Err(UnsupportedType) <==>
      recordType != TypeA && recordType != TypeCname
  {
    if recordType == TypeCname {
      EncodeLabelsErrors(Labels(content));
    }
  }
}
