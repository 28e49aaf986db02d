/**
 * Conversion of an ASN.1 DER ECDSA signature into the fixed-width JOSE form r || s
 * (scripts/apple/asc-client.ts).  The DER encoder below is the specification:
 * X.690 sections 8.1.3 and 10.1 for lengths, 8.3 for INTEGER; RFC 7518 section 3.4 for r || s.
 */
module DerSpec {
  import opened Basics

  const SEQUENCE_TAG: byte := 0x30
  const INTEGER_TAG: byte := 0x02

  datatype DerError =
    | InvalidWidth
    | Truncated
    | UnexpectedTag
    | ImplausibleLength
    | NonMinimalLength
    | FieldTruncated
    | ZeroLength
    | NegativeInteger
    | NonMinimalInteger
    | SequenceLengthMismatch
    | TrailingBytes
    | TooWide

  // ---- encoding ----------------------------------------------------------

  function Pow256(n: nat): (p: nat)
    ensures p >= 1
  {
    if n == 0 then 1 else 256 * Pow256(n - 1)
  }

  /** The `w` low-order bytes of `v`, most significant first. */
  function BigEndian(v: nat, w: nat): (bs: Bytes)
    ensures |bs| == w
  {
    if w == 0 then [] else BigEndian(v / 256, w - 1) + [v % 256]
  }

  /** The shortest nonempty big-endian representation. */
  function Magnitude(v: nat): (bs: Bytes)
    ensures |bs| >= 1
    ensures |bs| == 1 || bs[0] != 0
  {
    if v < 256 then [v] else Magnitude(v / 256) + [v % 256]
  }

  function Unsigned(bs: Bytes): nat {
    if bs == [] then 0 else Unsigned(bs[..|bs| - 1]) * 256 + bs[|bs| - 1]
  }

  /** Two's complement content octets of a nonnegative INTEGER. */
  function IntegerContent(v: nat): Bytes {
    var m := Magnitude(v);
    if m[0] >= 128 then [0] + m else m
  }

  /** How a length may be written; DER always takes the shortest that fits. */
  datatype LengthForm = Short | OneByte | TwoByte

  predicate Fits(form: LengthForm, n: nat) {
    match form
    case Short => n < 128
    case OneByte => 128 <= n < 256
    case TwoByte => 128 <= n < 65536
  }

  function LengthBytes(form: LengthForm, n: nat): Bytes
    requires Fits(form, n)
  {
    match form
    case Short => [n]
    case OneByte => [0x81, n]
    case TwoByte => [0x82, n / 256, n % 256]
  }

  function CanonicalForm(n: nat): LengthForm {
    if n < 128 then Short else if n < 256 then OneByte else TwoByte
  }

  predicate IntegerFits(form: LengthForm, v: nat) {
    Fits(form, |IntegerContent(v)|)
  }

  function IntegerBytes(form: LengthForm, v: nat): Bytes
    requires IntegerFits(form, v)
  {
    var content := IntegerContent(v);
    [INTEGER_TAG] + LengthBytes(form, |content|) + content
  }

  /** The length forms chosen for the SEQUENCE and for its two INTEGERs. */
  datatype Forms = Forms(outer: LengthForm, r: LengthForm, s: LengthForm)

  predicate SignatureFits(forms: Forms, r: nat, s: nat) {
    && IntegerFits(forms.r, r)
    && IntegerFits(forms.s, s)
    && Fits(forms.outer, |IntegerBytes(forms.r, r) + IntegerBytes(forms.s, s)|)
  }

  function SignatureBytes(forms: Forms, r: nat, s: nat): Bytes
    requires SignatureFits(forms, r, s)
  {
    var content := IntegerBytes(forms.r, r) + IntegerBytes(forms.s, s);
    [SEQUENCE_TAG] + LengthBytes(forms.outer, |content|) + content
  }

  /** The forms DER prescribes for (r, s). */
  function DerForms(r: nat, s: nat): Forms {
    var fr, fs := CanonicalForm(|IntegerContent(r)|), CanonicalForm(|IntegerContent(s)|);
    if IntegerFits(fr, r) && IntegerFits(fs, s) then
      Forms(CanonicalForm(|IntegerBytes(fr, r) + IntegerBytes(fs, s)|), fr, fs)
    else
      Forms(TwoByte, fr, fs)
  }

  function Jose(r: nat, s: nat, width: nat): Bytes {
    BigEndian(r, width) + BigEndian(s, width)
  }

  // ---- parsing, as the source does it ------------------------------------

  function LongLength(hi: int, lo: int): int {
    hi * 256 + lo
  }

  function ParseLength(s: Bytes): Result<(nat, Bytes), DerError> {
    if |s| == 0 then Failure(Truncated)
    else if s[0] < 0x80 then Success((s[0], s[1..]))
    else if s[0] == 0x80 || s[0] > 0x82 then Failure(ImplausibleLength)
    else if |s| < 1 + (s[0] - 0x80) then Failure(Truncated)
    else
      var n: nat := if s[0] == 0x81 then s[1] else LongLength(s[1], s[2]);
      if n < 0x80 then Failure(NonMinimalLength)
      else Success((n, s[1 + (s[0] - 0x80)..]))
  }

  function ExpectTag(s: Bytes, tag: byte): Result<Bytes, DerError> {
    if |s| == 0 then Failure(Truncated)
    else if s[0] != tag then Failure(UnexpectedTag)
    else Success(s[1..])
  }

  /** Strip the sign padding of nonempty INTEGER content, refusing what DER refuses. */
  function ParseContent(raw: Bytes): Result<Bytes, DerError>
    requires |raw| > 0
  {
    if raw[0] >= 0x80 then Failure(NegativeInteger)
    else if raw[0] == 0 && |raw| > 1 then
      if raw[1] < 0x80 then Failure(NonMinimalInteger) else Success(raw[1..])
    else Success(raw)
  }

  function ParseInteger(s: Bytes): Result<(Bytes, Bytes), DerError> {
    var afterTag :- ExpectTag(s, INTEGER_TAG);
    var length :- ParseLength(afterTag);
    if length.0 == 0 then Failure(ZeroLength)
    else if length.0 > |length.1| then Failure(FieldTruncated)
    else
      var m :- ParseContent(length.1[..length.0]);
      Success((m, length.1[length.0..]))
  }

  function Pad(magnitude: Bytes, width: nat): Result<Bytes, DerError> {
    if |magnitude| > width then Failure(TooWide)
    else Success(Zeros(width - |magnitude|) + magnitude)
  }

  /** The SEQUENCE of two INTEGERs, as a pair of magnitudes. */
  function ParseSignature(der: Bytes): Result<(Bytes, Bytes), DerError> {
    var afterTag :- ExpectTag(der, SEQUENCE_TAG);
    var length :- ParseLength(afterTag);
    if length.0 != |length.1| then Failure(SequenceLengthMismatch) else ParsePair(length.1)
  }

  function ParsePair(content: Bytes): Result<(Bytes, Bytes), DerError> {
    var r :- ParseInteger(content);
    var s :- ParseInteger(r.1);
    if s.1 != [] then Failure(TrailingBytes) else Success((r.0, s.0))
  }

  function PadBoth(r: Bytes, s: Bytes, width: nat): Result<Bytes, DerError> {
    var paddedR :- Pad(r, width);
    var paddedS :- Pad(s, width);
    Success(paddedR + paddedS)
  }

  /** What `derToJoseSignature` computes. */
  function Convert(der: Bytes, width: int): Result<Bytes, DerError> {
    if width <= 0 then Failure(InvalidWidth)
    else
      var pair :- ParseSignature(der);
      PadBoth(pair.0, pair.1, width)
  }

  // ---- numbers as bytes --------------------------------------------------

  lemma {:induction false} BigEndianZero(w: nat)
    ensures BigEndian(0, w) == Zeros(w)
  {
    if w > 0 { BigEndianZero(w - 1); }
  }

  /** A magnitude fits `w` bytes exactly when the number is below 256^w, and padding it gives the fixed-width form. */
  lemma {:induction false} PadMagnitude(v: nat, w: nat)
    requires w >= 1
    ensures |Magnitude(v)| <= w <==> v < Pow256(w)
    ensures v < Pow256(w) ==> Pad(Magnitude(v), w) == Success(BigEndian(v, w))
  {
    if w == 1 {
      assert Pow256(1) == 256 * Pow256(0);
      if v < 256 { assert BigEndian(v, 1) == BigEndian(v / 256, 0) + [v]; }
    } else if v < 256 {
      BigEndianZero(w - 1);
      assert Pow256(w) >= 256;
    } else {
      PadMagnitude(v / 256, w - 1);
      if v < Pow256(w) {
        var m := Magnitude(v / 256);
        assert Zeros(w - 1 - |m|) + m + [v % 256] == Zeros(w - (|m| + 1)) + (m + [v % 256]);
      }
    }
  }

  lemma {:induction false} UnsignedBigEndian(v: nat, w: nat)
    requires v < Pow256(w)
    ensures Unsigned(BigEndian(v, w)) == v
  {
    if w > 0 {
      UnsignedBigEndian(v / 256, w - 1);
      assert BigEndian(v, w)[..w - 1] == BigEndian(v / 256, w - 1);
    }
  }

  lemma {:induction false} UnsignedPositive(m: Bytes)
    requires |m| >= 1 && m[0] != 0
    ensures Unsigned(m) > 0
  {
    if |m| > 1 { UnsignedPositive(m[..|m| - 1]); }
  }

  lemma {:induction false} MagnitudeOfUnsigned(m: Bytes)
    requires |m| >= 1 && (|m| == 1 || m[0] != 0)
    ensures Magnitude(Unsigned(m)) == m
  {
    var n := |m| - 1;
    assert m == m[..n] + [m[n]];
    if n > 0 {
      MagnitudeOfUnsigned(m[..n]);
      assert Unsigned(m) / 256 == Unsigned(m[..n]);
      UnsignedPositive(m[..n]);
    }
  }

  // ---- the parser and the encoder are inverse ----------------------------

  lemma LengthComplete(form: LengthForm, n: nat, rest: Bytes)
    requires Fits(form, n)
    ensures ParseLength(LengthBytes(form, n) + rest) == Success((n, rest))
  {
    var s := LengthBytes(form, n) + rest;
    assert s[|LengthBytes(form, n)|..] == rest;
  }

  lemma LengthSound(s: Bytes) returns (form: LengthForm)
    requires ParseLength(s).Success?
    ensures var (n, rest) := ParseLength(s).value; Fits(form, n) && s == LengthBytes(form, n) + rest
  {
    form := if s[0] < 0x80 then Short else if s[0] == 0x81 then OneByte else TwoByte;
  }

  lemma ContentComplete(v: nat)
    ensures |IntegerContent(v)| > 0
    ensures ParseContent(IntegerContent(v)) == Success(Magnitude(v))
  {
    assert ([0] + Magnitude(v))[1..] == Magnitude(v);
  }

  lemma ContentSound(raw: Bytes)
    requires |raw| > 0 && ParseContent(raw).Success?
    ensures raw == IntegerContent(Unsigned(ParseContent(raw).value))
    ensures ParseContent(raw).value == Magnitude(Unsigned(ParseContent(raw).value))
  {
    MagnitudeOfUnsigned(ParseContent(raw).value);
  }

  lemma IntegerComplete(form: LengthForm, v: nat, rest: Bytes)
    requires IntegerFits(form, v)
    ensures ParseInteger(IntegerBytes(form, v) + rest) == Success((Magnitude(v), rest))
  {
    var content := IntegerContent(v);
    var s := IntegerBytes(form, v) + rest;
    assert ExpectTag(s, INTEGER_TAG) == Success(LengthBytes(form, |content|) + (content + rest)) by {
      assert s[1..] == LengthBytes(form, |content|) + (content + rest);
    }
    LengthComplete(form, |content|, content + rest);
    assert (content + rest)[..|content|] == content && (content + rest)[|content|..] == rest;
    ContentComplete(v);
  }

  lemma Regroup(s: Bytes, length: Bytes, rest: Bytes, n: nat)
    requires |s| > 0 && n <= |rest| && s[1..] == length + rest
    ensures s == [s[0]] + length + rest[..n] + rest[n..]
  {
    assert s == [s[0]] + s[1..];
    assert rest == rest[..n] + rest[n..];
  }

  lemma IntegerSound(s: Bytes) returns (form: LengthForm, v: nat)
    requires ParseInteger(s).Success?
    ensures IntegerFits(form, v)
    ensures var (m, rest) := ParseInteger(s).value;
            m == Magnitude(v) && s == IntegerBytes(form, v) + rest
  {
    var (n, rest) := ParseLength(s[1..]).value;
    form := LengthSound(s[1..]);
    ContentSound(rest[..n]);
    v := Unsigned(ParseContent(rest[..n]).value);
    Regroup(s, LengthBytes(form, n), rest, n);
  }

  lemma SignatureFrame(outer: LengthForm, rb: Bytes, sb: Bytes)
    requires Fits(outer, |rb + sb|)
    ensures ParseSignature([SEQUENCE_TAG] + LengthBytes(outer, |rb + sb|) + (rb + sb)) == ParsePair(rb + sb)
  {
    var der := [SEQUENCE_TAG] + LengthBytes(outer, |rb + sb|) + (rb + sb);
    assert ExpectTag(der, SEQUENCE_TAG) == Success(LengthBytes(outer, |rb + sb|) + (rb + sb)) by {
      assert der[1..] == LengthBytes(outer, |rb + sb|) + (rb + sb);
    }
    LengthComplete(outer, |rb + sb|, rb + sb);
  }

  lemma SignatureComplete(forms: Forms, r: nat, s: nat)
    requires SignatureFits(forms, r, s)
    ensures ParseSignature(SignatureBytes(forms, r, s)) == Success((Magnitude(r), Magnitude(s)))
  {
    var rb, sb := IntegerBytes(forms.r, r), IntegerBytes(forms.s, s);
    IntegerComplete(forms.r, r, sb);
    IntegerComplete(forms.s, s, []);
    assert sb == sb + [];
    SignatureFrame(forms.outer, rb, sb);
  }

  lemma SignatureSound(der: Bytes) returns (forms: Forms, r: nat, s: nat)
    requires ParseSignature(der).Success?
    ensures SignatureFits(forms, r, s) && der == SignatureBytes(forms, r, s)
    ensures ParseSignature(der) == Success((Magnitude(r), Magnitude(s)))
  {
    var content := ParseLength(der[1..]).value.1;
    var outer := LengthSound(der[1..]);
    var fr, fs: LengthForm;
    fr, r := IntegerSound(content);
    fs, s := IntegerSound(ParseInteger(content).value.1);
    forms := Forms(outer, fr, fs);
    assert IntegerBytes(fs, s) + [] == IntegerBytes(fs, s);
    assert content == IntegerBytes(fr, r) + IntegerBytes(fs, s);
    Regroup(der, LengthBytes(outer, |content|), content, |content|);
  }

  /** Every encoding of a pair below 256^width is accepted and converted, whatever length forms it uses. */
  lemma ConvertComplete(forms: Forms, r: nat, s: nat, width: nat)
    requires width >= 1 && SignatureFits(forms, r, s)
    ensures r < Pow256(width) && s < Pow256(width) ==>
              Convert(SignatureBytes(forms, r, s), width) == Success(Jose(r, s, width))
    ensures !(r < Pow256(width) && s < Pow256(width)) ==>
              Convert(SignatureBytes(forms, r, s), width) == Failure(TooWide)
  {
    SignatureComplete(forms, r, s);
    PadMagnitude(r, width);
    PadMagnitude(s, width);
  }

  /** Whatever is accepted is an encoding of a pair below 256^width, and the output is that pair. */
  lemma ConvertSound(der: Bytes, width: int) returns (forms: Forms, r: nat, s: nat)
    requires Convert(der, width).Success?
    ensures SignatureFits(forms, r, s) && der == SignatureBytes(forms, r, s)
    ensures r < Pow256(width) && s < Pow256(width)
    ensures Convert(der, width) == Success(Jose(r, s, width))
  {
    forms, r, s := SignatureSound(der);
    PadMagnitude(r, width);
    PadMagnitude(s, width);
  }

  /** The exact language of the converter, at every width. */
  lemma ConvertAcceptsExactly(der: Bytes, width: int, jose: Bytes)
    requires width >= 1
    ensures Convert(der, width) == Success(jose) <==>
            exists forms: Forms, r: nat, s: nat ::
              && r < Pow256(width) && s < Pow256(width)
              && SignatureFits(forms, r, s)
              && der == SignatureBytes(forms, r, s)
              && jose == Jose(r, s, width)
  {
    if Convert(der, width) == Success(jose) {
      var forms, r, s := ConvertSound(der, width);
      assert der == SignatureBytes(forms, r, s) && jose == Jose(r, s, width);
    }
    forall forms: Forms, r: nat, s: nat |
      && r < Pow256(width) && s < Pow256(width)
      && SignatureFits(forms, r, s)
      && der == SignatureBytes(forms, r, s)
      ensures Convert(der, width) == Success(Jose(r, s, width))
    {
      ConvertComplete(forms, r, s, width);
    }
  }

  // ---- canonicity: up to 60-byte coordinates the accepted language is DER ----

  lemma ContentWidth(v: nat, width: nat)
    requires width >= 1 && v < Pow256(width)
    ensures 1 <= |IntegerContent(v)| <= width + 1
  {
    PadMagnitude(v, width);
  }

  /** With coordinates of at most 60 bytes no length reaches 128, so only the DER forms fit. */
  lemma NarrowFormsAreDer(forms: Forms, r: nat, s: nat, width: nat)
    requires 1 <= width <= 60 && r < Pow256(width) && s < Pow256(width)
    ensures SignatureFits(forms, r, s) <==> forms == Forms(Short, Short, Short)
    ensures DerForms(r, s) == Forms(Short, Short, Short)
  {
    ContentWidth(r, width);
    ContentWidth(s, width);
  }

  /** For width at most 60: accepted exactly on the DER encodings of pairs below 256^width. */
  lemma ConvertIsDerInverse(der: Bytes, width: int, jose: Bytes)
    requires 1 <= width <= 60
    ensures Convert(der, width) == Success(jose) <==>
            exists r: nat, s: nat ::
              && r < Pow256(width) && s < Pow256(width)
              && SignatureFits(DerForms(r, s), r, s)
              && der == SignatureBytes(DerForms(r, s), r, s)
              && jose == Jose(r, s, width)
  {
    if Convert(der, width) == Success(jose) {
      var forms, r, s := ConvertSound(der, width);
      NarrowFormsAreDer(forms, r, s, width);
      assert der == SignatureBytes(DerForms(r, s), r, s) && jose == Jose(r, s, width);
    }
    forall r: nat, s: nat |
      && r < Pow256(width) && s < Pow256(width)
      && SignatureFits(DerForms(r, s), r, s)
      && der == SignatureBytes(DerForms(r, s), r, s)
      ensures Convert(der, width) == Success(Jose(r, s, width))
    {
      ConvertComplete(DerForms(r, s), r, s, width);
    }
  }

  /** DER-encode, then convert: the two coordinates come back, at every width that holds them. */
  lemma DerRoundTrip(r: nat, s: nat, width: nat)
    requires width >= 1 && r < Pow256(width) && s < Pow256(width)
    requires SignatureFits(DerForms(r, s), r, s)
    ensures Convert(SignatureBytes(DerForms(r, s), r, s), width) == Success(Jose(r, s, width))
    ensures Unsigned(Jose(r, s, width)[..width]) == r && Unsigned(Jose(r, s, width)[width..]) == s
  {
    ConvertComplete(DerForms(r, s), r, s, width);
    UnsignedBigEndian(r, width);
    UnsignedBigEndian(s, width);
    assert Jose(r, s, width)[..width] == BigEndian(r, width);
    assert Jose(r, s, width)[width..] == BigEndian(s, width);
  }

  lemma JoseInjective(r: nat, s: nat, r': nat, s': nat, width: nat)
    requires r < Pow256(width) && s < Pow256(width) && r' < Pow256(width) && s' < Pow256(width)
    requires Jose(r, s, width) == Jose(r', s', width)
    ensures r == r' && s == s'
  {
    assert BigEndian(r, width) == Jose(r, s, width)[..width] == BigEndian(r', width);
    assert BigEndian(s, width) == Jose(r, s, width)[width..] == BigEndian(s', width);
    UnsignedBigEndian(r, width);
    UnsignedBigEndian(r', width);
    UnsignedBigEndian(s, width);
    UnsignedBigEndian(s', width);
  }

  /** No two inputs share an output. */
  ghost predicate Canonical(width: nat) {
    forall d, d' :: Convert(d, width).Success? && Convert(d, width) == Convert(d', width) ==> d == d'
  }

  lemma {:induction false} Pow256Monotone(m: nat, n: nat)
    requires m <= n
    ensures Pow256(m) <= Pow256(n)
  {
    if m < n { Pow256Monotone(m, n - 1); }
  }

  lemma {:induction false} LargestMagnitude(w: nat)
    requires w >= 1
    ensures |Magnitude(Pow256(w) - 1)| == w && Magnitude(Pow256(w) - 1)[0] == 255
  {
    if w == 1 {
      assert Pow256(1) == 256 * Pow256(0);
    } else {
      var p := Pow256(w - 1);
      assert p >= 256 by { Pow256Monotone(1, w - 1); assert Pow256(1) == 256 * Pow256(0); }
      LargestMagnitude(w - 1);
      assert (256 * p - 1) / 256 == p - 1;
    }
  }

  /** The largest pair below 256^61 has 128 content bytes, and both long forms of that length are accepted. */
  lemma WideHasTwoEncodings(width: nat) returns (d: Bytes, d': Bytes)
    requires width >= 61
    ensures d != d' && Convert(d, width).Success? && Convert(d, width) == Convert(d', width)
  {
    var v := FullWidthNumber(61, width);
    d, d' := TwoEncodings(v, width);
  }

  lemma FullWidthNumber(w: nat, width: nat) returns (v: nat)
    requires 1 <= w <= width
    ensures v < Pow256(width) && |IntegerContent(v)| == w + 1
  {
    v := Pow256(w) - 1;
    LargestMagnitude(w);
    Pow256Monotone(w, width);
  }

  lemma TwoEncodings(v: nat, width: nat) returns (d: Bytes, d': Bytes)
    requires width >= 1 && v < Pow256(width) && |IntegerContent(v)| == 62
    ensures d != d' && Convert(d, width).Success? && Convert(d, width) == Convert(d', width)
  {
    var one, two := Forms(OneByte, Short, Short), Forms(TwoByte, Short, Short);
    assert |IntegerBytes(Short, v)| == 64;
    assert SignatureFits(one, v, v) && SignatureFits(two, v, v);
    d, d' := SignatureBytes(one, v, v), SignatureBytes(two, v, v);
    assert d[1] == 0x81 && d'[1] == 0x82;
    ConvertComplete(one, v, v, width);
    ConvertComplete(two, v, v, width);
  }

  /** Outputs identify their inputs exactly for widths up to 60 bytes (P-256 and P-384 use 32 and 48). */
  lemma CanonicalExactlyUpTo60(width: nat)
    requires width >= 1
    ensures Canonical(width) <==> width <= 60
  {
    if width <= 60 {
      forall d, d' | Convert(d, width).Success? && Convert(d, width) == Convert(d', width)
        ensures d == d'
      {
        var f, r, s := ConvertSound(d, width);
        var f', r', s' := ConvertSound(d', width);
        NarrowFormsAreDer(f, r, s, width);
        NarrowFormsAreDer(f', r', s', width);
        JoseInjective(r, s, r', s', width);
      }
    } else {
      var d, d' := WideHasTwoEncodings(width);
    }
  }
}

/** The imperative converter: a forward-only cursor, and output buffers that are filled in place. */
module DerJose {
  import opened Basics
  import opened DerSpec

  class DerCursor {
    const bytes: array<byte>
    var index: nat

    ghost predicate Valid()
      reads this
    {
      index <= bytes.Length
    }

    ghost function Rest(): Bytes
      reads this, bytes
      requires Valid()
    {
      bytes[index..]
    }

    constructor (bytes: array<byte>)
      ensures Valid() && this.bytes == bytes && index == 0
    {
      this.bytes := bytes;
      index := 0;
    }

    function Remaining(): (n: nat)
      reads this, bytes
      requires Valid()
      ensures n == |Rest()|
    {
      bytes.Length - index
    }

    method ReadByte() returns (r: Result<byte, DerError>)
      requires Valid()
      modifies this
      ensures Valid()
      ensures old(Rest()) == [] ==> r == Failure(Truncated)
      ensures old(Rest()) != [] ==> r == Success(old(Rest())[0]) && Rest() == old(Rest())[1..]
    {
      if index >= bytes.Length {
        return Failure(Truncated);
      }
      r := Success(bytes[index]);
      index := index + 1;
    }

    method ExpectTag(tag: byte) returns (r: Result<(), DerError>)
      requires Valid()
      modifies this
      ensures Valid()
      ensures match DerSpec.ExpectTag(old(Rest()), tag)
              case Failure(e) => r == Failure(e)
              case Success(rest) => r == Success(()) && Rest() == rest
    {
      var actual :- ReadByte();
      if actual != tag {
        return Failure(UnexpectedTag);
      }
      r := Success(());
    }

    method ReadLength() returns (r: Result<nat, DerError>)
      requires Valid()
      modifies this
      ensures Valid()
      ensures match ParseLength(old(Rest()))
              case Failure(e) => r == Failure(e)
              case Success((n, rest)) => r == Success(n) && Rest() == rest
    {
      ghost var start := Rest();
      var first :- ReadByte();
      if first < 0x80 {
        return Success(first);
      }
      var byteCount := first - 0x80;
      if byteCount == 0 || byteCount > 2 {
        return Failure(ImplausibleLength);
      }
      var length: nat := 0;
      var i := 0;
      while i < byteCount
        invariant Valid()
        invariant 0 <= i <= byteCount <= 2 && 1 + i <= |start|
        invariant Rest() == start[1 + i..]
        invariant length == if i == 0 then 0 else if i == 1 then start[1] else LongLength(start[1], start[2])
      {
        var next :- ReadByte();
        length := length * 256 + next;
        i := i + 1;
      }
      if length < 0x80 {
        return Failure(NonMinimalLength);
      }
      return Success(length);
    }

    method ReadSlice(length: nat) returns (r: Result<Bytes, DerError>)
      requires Valid()
      modifies this
      ensures Valid()
      ensures length > |old(Rest())| ==> r == Failure(FieldTruncated)
      ensures length <= |old(Rest())| ==> r == Success(old(Rest())[..length]) && Rest() == old(Rest())[length..]
    {
      if length > Remaining() {
        return Failure(FieldTruncated);
      }
      assert Rest()[..length] == bytes[index..index + length];
      assert Rest()[length..] == bytes[index + length..];
      r := Success(bytes[index..index + length]);
      index := index + length;
    }
  }

  method ReadDerInteger(cursor: DerCursor) returns (r: Result<Bytes, DerError>)
    requires cursor.Valid()
    modifies cursor
    ensures cursor.Valid()
    ensures match ParseInteger(old(cursor.Rest()))
            case Failure(e) => r == Failure(e)
            case Success((m, rest)) => r == Success(m) && cursor.Rest() == rest
  {
    var _ :- cursor.ExpectTag(INTEGER_TAG);
    var length :- cursor.ReadLength();
    if length == 0 {
      return Failure(ZeroLength);
    }
    var raw :- cursor.ReadSlice(length);
    if raw[0] >= 0x80 {
      return Failure(NegativeInteger);
    }
    if raw[0] == 0 && length > 1 {
      if raw[1] < 0x80 {
        return Failure(NonMinimalInteger);
      }
      return Success(raw[1..]);
    }
    return Success(raw);
  }

  /** `target.set(source, offset)` on a typed array. */
  method Blit(target: array<byte>, source: Bytes, offset: nat)
    requires offset + |source| <= target.Length
    modifies target
    ensures forall i :: 0 <= i < target.Length ==>
              target[i] == if offset <= i < offset + |source| then source[i - offset] else old(target[i])
  {
    forall i | 0 <= i < |source| {
      target[offset + i] := source[i];
    }
  }

  method PadToWidth(magnitude: Bytes, width: nat) returns (r: Result<array<byte>, DerError>)
    ensures r.Success? ==> fresh(r.value) && Pad(magnitude, width) == Success(r.value[..])
    ensures r.Failure? ==> Pad(magnitude, width) == Failure(r.error)
  {
    if |magnitude| > width {
      return Failure(TooWide);
    }
    var padded := new byte[width](_ => 0);
    Blit(padded, magnitude, width - |magnitude|);
    assert padded[..] == Zeros(width - |magnitude|) + magnitude;
    return Success(padded);
  }

  /** The parsing half of `derToJoseSignature`. */
  method ReadSignature(der: array<byte>) returns (r: Result<(Bytes, Bytes), DerError>)
    ensures r == ParseSignature(der[..])
  {
    var cursor := new DerCursor(der);
    assert cursor.Rest() == der[..];
    var _ :- cursor.ExpectTag(SEQUENCE_TAG);
    var declared :- cursor.ReadLength();
    if declared != cursor.Remaining() {
      return Failure(SequenceLengthMismatch);
    }
    var first :- ReadDerInteger(cursor);
    var second :- ReadDerInteger(cursor);
    if cursor.Remaining() != 0 {
      return Failure(TrailingBytes);
    }
    return Success((first, second));
  }

  /** The writing half: both magnitudes, left-padded, into one buffer. */
  method WriteJose(r: Bytes, s: Bytes, width: nat) returns (result: Result<array<byte>, DerError>)
    ensures result.Failure? ==> PadBoth(r, s, width) == Failure(result.error)
    ensures result.Success? ==> fresh(result.value) && result.value.Length == 2 * width
    ensures result.Success? ==> PadBoth(r, s, width) == Success(result.value[..])
  {
    var jose := new byte[width * 2](_ => 0);
    var paddedR :- PadToWidth(r, width);
    Blit(jose, paddedR[..], 0);
    var paddedS :- PadToWidth(s, width);
    Blit(jose, paddedS[..], width);
    assert jose[..] == paddedR[..] + paddedS[..];
    return Success(jose);
  }

  /**
   * `derToJoseSignature`: an error, or a fresh buffer of exactly 2 * width bytes holding
   * the conversion of the input, which is left unchanged.
   */
  method DerToJoseSignature(der: array<byte>, width: int) returns (r: Result<array<byte>, DerError>)
    ensures r.Failure? ==> Convert(der[..], width) == Failure(r.error)
    ensures r.Success? ==> fresh(r.value) && r.value.Length == 2 * width
    ensures r.Success? ==> Convert(der[..], width) == Success(r.value[..])
  {
    if width <= 0 {
      return Failure(InvalidWidth);
    }
    ghost var input := der[..];
    var pair :- ReadSignature(der);
    r := WriteJose(pair.0, pair.1, width);
    assert der[..] == input;
  }
}
