/** `encodeURIComponent` (ECMA-262, over RFC 3986 section 2.1) and a decoder that undoes it. */
module PercentEncoding {
  import opened Basics

  predicate Unescaped(c: char) {
    'A' <= c <= 'Z' || 'a' <= c <= 'z' || '0' <= c <= '9'
    || c == '-' || c == '_' || c == '.' || c == '!' || c == '~' || c == '*' || c == '\'' || c == '(' || c == ')'
  }

  function Utf8(c: char): seq<byte> {
    var n := c as int;
    if n < 0x80 then [n]
    else if n < 0x800 then [0xC0 + n / 64, 0x80 + n % 64]
    else if n < 0x10000 then [0xE0 + n / 4096, 0x80 + n / 64 % 64, 0x80 + n % 64]
    else [0xF0 + n / 262144, 0x80 + n / 4096 % 64, 0x80 + n / 64 % 64, 0x80 + n % 64]
  }

  function HexDigit(d: int): char
    requires 0 <= d < 16
  {
    if d < 10 then ('0' as int + d) as char else ('A' as int + d - 10) as char
  }

  function HexValue(c: char): Option<int> {
    if '0' <= c <= '9' then Some(c as int - '0' as int)
    else if 'A' <= c <= 'F' then Some(c as int - 'A' as int + 10)
    else None
  }

  function Escape(b: byte): string {
    ['%', HexDigit(b / 16), HexDigit(b % 16)]
  }

  function EscapeAll(bytes: seq<byte>): (s: string)
    ensures |s| == 3 * |bytes|
  {
    if bytes == [] then [] else Escape(bytes[0]) + EscapeAll(bytes[1..])
  }

  function EncodeChar(c: char): string {
    if Unescaped(c) then [c] else EscapeAll(Utf8(c))
  }

  function Encode(s: string): string {
    if s == [] then [] else EncodeChar(s[0]) + Encode(s[1..])
  }

  // ---- decoding ----------------------------------------------------------

  function Unescape(t: string): Option<byte> {
    if |t| < 3 || t[0] != '%' || HexValue(t[1]).None? || HexValue(t[2]).None? then None
    else Some(HexValue(t[1]).value * 16 + HexValue(t[2]).value)
  }

  /** How many octets a character takes, from the first of them. */
  function Utf8Width(first: byte): nat {
    if first < 0x80 then 1 else if first < 0xE0 then 2 else if first < 0xF0 then 3 else 4
  }

  /** The code point carried by `k` continuation octets following `high`. */
  function Continue(high: int, k: nat, t: string): Option<int>
    decreases k
  {
    if k == 0 then Some(high)
    else if Unescape(t).None? then None
    else Continue(high * 64 + Unescape(t).value - 0x80, k - 1, t[3..])
  }

  function Lead(first: byte): int {
    if first < 0x80 then first else if first < 0xE0 then first - 0xC0 else if first < 0xF0 then first - 0xE0
      else first - 0xF0
  }

  predicate IsScalar(n: int) {
    0 <= n < 0xD800 || 0xE000 <= n < 0x110000
  }

  /** The first character of an encoded string, and how many characters of it were read. */
  function DecodeFirst(t: string): (r: Option<(char, nat)>)
    requires t != []
    ensures r.Some? ==> 0 < r.value.1 <= |t|
  {
    if t[0] != '%' then Some((t[0], 1))
    else if Unescape(t).None? then None
    else
      var first := Unescape(t).value;
      var width := Utf8Width(first);
      var code := Continue(Lead(first), width - 1, t[3..]);
      if code.None? || !IsScalar(code.value) || |t| < 3 * width then None
      else Some((code.value as char, 3 * width))
  }

  function Decode(t: string): Option<string>
    decreases |t|
  {
    if t == [] then Some([])
    else if DecodeFirst(t).None? then None
    else
      var (c, n) := DecodeFirst(t).value;
      var rest := Decode(t[n..]);
      if rest.None? then None else Some([c] + rest.value)
  }

  lemma UnescapeEscape(b: byte, rest: string)
    ensures Unescape(Escape(b) + rest) == Some(b)
    ensures (Escape(b) + rest)[3..] == rest
  {
  }

  /** Continuation octets of `Utf8` decode to the bits they were made from. */
  lemma {:induction false} ContinueEscaped(high: int, bytes: seq<byte>, rest: string)
    ensures Continue(high, |bytes|, EscapeAll(bytes) + rest) == Some(Gather(high, bytes))
    decreases |bytes|
  {
    if bytes != [] {
      var t := EscapeAll(bytes) + rest;
      assert t == Escape(bytes[0]) + (EscapeAll(bytes[1..]) + rest);
      UnescapeEscape(bytes[0], EscapeAll(bytes[1..]) + rest);
      ContinueEscaped(high * 64 + bytes[0] - 0x80, bytes[1..], rest);
    }
  }

  function Gather(high: int, bytes: seq<byte>): int
    decreases |bytes|
  {
    if bytes == [] then high else Gather(high * 64 + bytes[0] - 0x80, bytes[1..])
  }

  lemma GatherStep(high: int, b: byte, rest: seq<byte>)
    ensures Gather(high, [b] + rest) == Gather(high * 64 + b - 0x80, rest)
  {
    assert ([b] + rest)[1..] == rest;
  }

  lemma Utf8Gathers(c: char)
    ensures var u := Utf8(c); |u| == Utf8Width(u[0]) && Gather(Lead(u[0]), u[1..]) == c as int
  {
    var u := Utf8(c);
    var n := c as int;
    if |u| == 2 {
      assert u[1..] == [u[1]] + [];
      GatherStep(n / 64, u[1], []);
    } else if |u| == 3 {
      assert u[1..] == [u[1]] + ([u[2]] + []);
      GatherStep(n / 4096, u[1], [u[2]] + []);
      assert n / 4096 * 64 + n / 64 % 64 == n / 64;
      GatherStep(n / 64, u[2], []);
    } else if |u| == 4 {
      assert u[1..] == [u[1]] + ([u[2]] + ([u[3]] + []));
      GatherStep(n / 262144, u[1], [u[2]] + ([u[3]] + []));
      assert n / 262144 * 64 + n / 4096 % 64 == n / 4096;
      GatherStep(n / 4096, u[2], [u[3]] + []);
      assert n / 4096 * 64 + n / 64 % 64 == n / 64;
      GatherStep(n / 64, u[3], []);
    }
  }

  lemma DecodeFirstEncoded(c: char, rest: string)
    ensures EncodeChar(c) != [] && DecodeFirst(EncodeChar(c) + rest) == Some((c, |EncodeChar(c)|))
  {
    if !Unescaped(c) {
      var u := Utf8(c);
      var t := EncodeChar(c) + rest;
      assert t == Escape(u[0]) + (EscapeAll(u[1..]) + rest);
      UnescapeEscape(u[0], EscapeAll(u[1..]) + rest);
      Utf8Gathers(c);
      ContinueEscaped(Lead(u[0]), u[1..], rest);
    }
  }

  /** The decoder is a left inverse of `encodeURIComponent`. */
  lemma {:induction false} DecodeEncode(s: string)
    ensures Decode(Encode(s)) == Some(s)
  {
    if s != [] {
      DecodeFirstEncoded(s[0], Encode(s[1..]));
      assert (EncodeChar(s[0]) + Encode(s[1..]))[|EncodeChar(s[0])|..] == Encode(s[1..]);
      DecodeEncode(s[1..]);
      assert s == [s[0]] + s[1..];
    }
  }

  /** Letters, digits and the marks that RFC 2396 section 2.3 leaves unreserved. */
  predicate Unreserved(s: string) {
    forall c :: c in s ==> 'a' <= c <= 'z' || 'A' <= c <= 'Z' || '0' <= c <= '9' || c in "-_.!~*'()"
  }

  /** Exactly the strings of unreserved characters are left as they are. */
  lemma {:induction false} EncodeKeepsExactly(s: string)
    ensures Encode(s) == s <==> Unreserved(s)
    ensures |Encode(s)| >= |s|
  {
    if s != [] {
      EncodeKeepsExactly(s[1..]);
      assert s == [s[0]] + s[1..];
      assert forall c :: c in s <==> c == s[0] || c in s[1..];
      if !Unescaped(s[0]) {
        assert |Encode(s)| > |s| && s[0] !in "-_.!~*'()";
      } else if Encode(s) == s {
        assert Encode(s)[1..] == Encode(s[1..]);
      }
    }
  }

  lemma {:induction false} EncodeAppends(s: string, t: string)
    ensures Encode(s + t) == Encode(s) + Encode(t)
  {
    if s == [] {
      assert s + t == t;
    } else {
      assert (s + t)[0] == s[0] && (s + t)[1..] == s[1..] + t;
      EncodeAppends(s[1..], t);
    }
  }

  predicate Safe(c: char) {
    Unescaped(c) || c == '%'
  }

  lemma {:induction false} EscapeAllSafe(bytes: seq<byte>)
    ensures forall c :: c in EscapeAll(bytes) ==> Safe(c)
  {
    if bytes != [] { EscapeAllSafe(bytes[1..]); }
  }

  lemma {:induction false} EncodeEmitsSafe(s: string)
    ensures forall c :: c in Encode(s) ==> Safe(c)
  {
    if s != [] {
      EncodeEmitsSafe(s[1..]);
      EscapeAllSafe(Utf8(s[0]));
    }
  }

  /** Only unescaped characters and `%` are emitted: never `&`, `=` or `|`. */
  lemma EncodeSafe(s: string)
    ensures forall c :: c in Encode(s) ==> Safe(c)
    ensures '&' !in Encode(s) && '=' !in Encode(s) && '|' !in Encode(s)
  {
    EncodeEmitsSafe(s);
  }
}

/** Canonical encryption contexts (packages/crypto/src/encryption-context.ts). */
module EncryptionContexts {
  import opened Basics
  import opened Sorting
  import opened Strings
  import opened PercentEncoding

  /** An object's entries in insertion order. */
  type Entries = seq<(string, string)>

  ghost predicate DistinctKeys(entries: Entries) {
    forall i, j :: 0 <= i < j < |entries| ==> entries[i].0 != entries[j].0
  }

  function KeysOf(entries: Entries): seq<string> {
    seq(|entries|, i requires 0 <= i < |entries| => entries[i].0)
  }

  /** The value under `key`, or the empty string (`context[key] ?? ''`). */
  function ValueOf(entries: Entries, key: string): string {
    if entries == [] then "" else if entries[0].0 == key then entries[0].1 else ValueOf(entries[1..], key)
  }

  function PairsFor(keys: seq<string>, entries: Entries): (pairs: Entries)
    ensures |pairs| == |keys|
    ensures forall i :: 0 <= i < |keys| ==> pairs[i] == (keys[i], ValueOf(entries, keys[i]))
  {
    seq(|keys|, i requires 0 <= i < |keys| => (keys[i], ValueOf(entries, keys[i])))
  }

  function SortedPairs(entries: Entries): Entries {
    PairsFor(Sort(AtMost, KeysOf(entries)), entries)
  }

  function RenderPair(pair: (string, string)): string {
    Encode(pair.0) + "=" + Encode(pair.1)
  }

  /** `.map(...).join('&')` */
  function Render(pairs: Entries): string {
    if pairs == [] then ""
    else if |pairs| == 1 then RenderPair(pairs[0])
    else RenderPair(pairs[0]) + "&" + Render(pairs[1..])
  }

  function Canonicalize(entries: Entries): string {
    Render(SortedPairs(entries))
  }

  // ---- the rendering can be read back ------------------------------------

  function ParsePair(s: string): Option<(string, string)> {
    var i := Find(s, '=');
    if i == |s| then None
    else
      var k, v := Decode(s[..i]), Decode(s[i + 1..]);
      if k.None? || v.None? then None else Some((k.value, v.value))
  }

  function Parse(s: string): Option<Entries>
    decreases |s|
  {
    if s == [] then Some([])
    else
      var i := Find(s, '&');
      var first := ParsePair(s[..i]);
      if first.None? then None
      else if i == |s| then Some([first.value])
      else
        var rest := Parse(s[i + 1..]);
        if rest.None? then None else Some([first.value] + rest.value)
  }

  lemma ParseRenderedPair(pair: (string, string))
    ensures ParsePair(RenderPair(pair)) == Some(pair)
    ensures '&' !in RenderPair(pair) && '|' !in RenderPair(pair)
  {
    EncodeSafe(pair.0);
    EncodeSafe(pair.1);
    FindSeparator(Encode(pair.0), '=', Encode(pair.1));
    DecodeEncode(pair.0);
    DecodeEncode(pair.1);
    var s := RenderPair(pair);
    assert s[..|Encode(pair.0)|] == Encode(pair.0) && s[|Encode(pair.0)| + 1..] == Encode(pair.1);
  }

  lemma ParseStep(pair: (string, string), rest: string)
    ensures Parse(RenderPair(pair) + "&" + rest) ==
            if Parse(rest).None? then None else Some([pair] + Parse(rest).value)
    ensures Parse(RenderPair(pair)) == Some([pair])
  {
    var first := RenderPair(pair);
    ParseRenderedPair(pair);
    FindSeparator(first, '&', rest);
    var s := first + "&" + rest;
    assert s[..|first|] == first && s[|first| + 1..] == rest;
    assert first[..|first|] == first;
  }

  /** Parsing a rendering gives the pairs back, in order. */
  lemma {:induction false} ParseRendered(pairs: Entries)
    ensures Parse(Render(pairs)) == Some(pairs)
  {
    if |pairs| == 1 {
      ParseStep(pairs[0], "");
      assert pairs == [pairs[0]];
    } else if |pairs| > 1 {
      var rest := Render(pairs[1..]);
      ParseRendered(pairs[1..]);
      ParseStep(pairs[0], rest);
      assert Render(pairs) == RenderPair(pairs[0]) + "&" + rest;
      assert pairs == [pairs[0]] + pairs[1..];
    }
  }

  lemma {:induction false} RenderHasNoBar(pairs: Entries)
    ensures '|' !in Render(pairs)
  {
    if pairs != [] {
      ParseRenderedPair(pairs[0]);
      RenderHasNoBar(pairs[1..]);
    }
  }

  // ---- contexts as maps --------------------------------------------------

  /** Same keys, and the same value under each: what equality of the objects means. */
  ghost predicate SameContext(a: Entries, b: Entries) {
    && (forall key :: key in KeysOf(a) <==> key in KeysOf(b))
    && (forall key :: key in KeysOf(a) ==> ValueOf(a, key) == ValueOf(b, key))
  }

  lemma {:induction false} DistinctMultisets(s: seq<string>, t: seq<string>)
    requires forall i, j :: 0 <= i < j < |s| ==> s[i] != s[j]
    requires forall i, j :: 0 <= i < j < |t| ==> t[i] != t[j]
    requires forall x :: x in s <==> x in t
    ensures multiset(s) == multiset(t)
  {
    forall x ensures multiset(s)[x] == multiset(t)[x] {
      CountDistinct(s, x);
      CountDistinct(t, x);
    }
  }

  lemma {:induction false} CountDistinct(s: seq<string>, x: string)
    requires forall i, j :: 0 <= i < j < |s| ==> s[i] != s[j]
    ensures multiset(s)[x] == if x in s then 1 else 0
  {
    if s != [] {
      CountDistinct(s[1..], x);
      assert s == [s[0]] + s[1..];
    }
  }

  /** The canonical string does not depend on insertion order, and determines the context. */
  lemma CanonicalExactly(a: Entries, b: Entries)
    requires DistinctKeys(a) && DistinctKeys(b)
    ensures Canonicalize(a) == Canonicalize(b) <==> SameContext(a, b)
  {
    var ka, kb := Sort(AtMost, KeysOf(a)), Sort(AtMost, KeysOf(b));
    AtMostIsOrder();
    SortPermutes(AtMost, KeysOf(a));
    SortPermutes(AtMost, KeysOf(b));
    if SameContext(a, b) {
      DistinctMultisets(KeysOf(a), KeysOf(b));
      SortIgnoresOrder(AtMost, KeysOf(a), KeysOf(b));
      assert SortedPairs(a) == SortedPairs(b);
    }
    if Canonicalize(a) == Canonicalize(b) {
      ParseRendered(SortedPairs(a));
      ParseRendered(SortedPairs(b));
      PairsDetermine(ka, a, kb, b);
    }
  }

  lemma PairsDetermine(ka: seq<string>, a: Entries, kb: seq<string>, b: Entries)
    requires PairsFor(ka, a) == PairsFor(kb, b)
    ensures ka == kb && forall key :: key in ka ==> ValueOf(a, key) == ValueOf(b, key)
  {
    forall i | 0 <= i < |ka| ensures ka[i] == kb[i] && ValueOf(a, ka[i]) == ValueOf(b, ka[i]) {
      assert PairsFor(ka, a)[i] == PairsFor(kb, b)[i];
    }
  }

  // ---- key contexts and cache keys ---------------------------------------

  const ENCRYPTION_PURPOSE := "family-location:coordinate"
  const COORDINATE_SCHEMA_VERSION := "1"

  datatype KeyContext = KeyContext(familyId: string, userId: Option<string>)

  function BuildEncryptionContext(c: KeyContext): (entries: Entries)
    ensures DistinctKeys(entries)
  {
    [("purpose", ENCRYPTION_PURPOSE), ("familyId", c.familyId), ("schemaVersion", COORDINATE_SCHEMA_VERSION)]
    + (if c.userId.Some? then [("userId", c.userId.value)] else [])
  }

  function CanonicalKeyContext(c: KeyContext): string {
    Canonicalize(BuildEncryptionContext(c))
  }

  lemma {:induction false} ValueAt(entries: Entries, i: nat)
    requires DistinctKeys(entries) && i < |entries|
    ensures ValueOf(entries, entries[i].0) == entries[i].1 && KeysOf(entries)[i] == entries[i].0
  {
    if i > 0 { ValueAt(entries[1..], i - 1); }
  }

  lemma BuiltValues(c: KeyContext)
    ensures ValueOf(BuildEncryptionContext(c), "familyId") == c.familyId
    ensures "familyId" in KeysOf(BuildEncryptionContext(c))
    ensures "userId" in KeysOf(BuildEncryptionContext(c)) <==> c.userId.Some?
    ensures c.userId.Some? ==> ValueOf(BuildEncryptionContext(c), "userId") == c.userId.value
  {
    var e := BuildEncryptionContext(c);
    ValueAt(e, 1);
    if c.userId.Some? {
      ValueAt(e, 3);
    }
  }

  /** A canonical key context names one family and at most one user. */
  lemma CanonicalKeyContextInjective(a: KeyContext, b: KeyContext)
    ensures CanonicalKeyContext(a) == CanonicalKeyContext(b) <==> a == b
  {
    var ea, eb := BuildEncryptionContext(a), BuildEncryptionContext(b);
    CanonicalExactly(ea, eb);
    BuiltValues(a);
    BuiltValues(b);
    if SameContext(ea, eb) {
      assert ValueOf(ea, "familyId") == ValueOf(eb, "familyId");
      assert "userId" in KeysOf(ea) <==> "userId" in KeysOf(eb);
    }
  }

  lemma SortsTo(keys: seq<string>, ordered: seq<string>)
    requires multiset(keys) == multiset(ordered) && Sorted(AtMost, ordered)
    ensures Sort(AtMost, keys) == ordered
  {
    AtMostIsOrder();
    SortSorts(AtMost, keys);
    SortPermutes(AtMost, keys);
    SortedUnique(AtMost, Sort(AtMost, keys), ordered);
  }

  lemma SwappedSort(a: string, b: string, rest: seq<string>)
    requires Sorted(AtMost, [a, b] + rest)
    ensures Sort(AtMost, [b, a] + rest) == [a, b] + rest
  {
    assert multiset([b, a] + rest) == multiset{b, a} + multiset(rest);
    assert multiset([a, b] + rest) == multiset{a, b} + multiset(rest);
    SortsTo([b, a] + rest, [a, b] + rest);
  }

  function LastKeys(c: KeyContext): seq<string> {
    if c.userId.Some? then ["schemaVersion", "userId"] else ["schemaVersion"]
  }

  lemma CanonicalKeys(c: KeyContext)
    ensures Sort(AtMost, KeysOf(BuildEncryptionContext(c))) == ["familyId", "purpose"] + LastKeys(c)
  {
    hide Encode, Sort, AtMost;
    assert KeysOf(BuildEncryptionContext(c)) == ["purpose", "familyId"] + LastKeys(c);
    KeysInOrder(c);
    SwappedSort("familyId", "purpose", LastKeys(c));
  }

  lemma KeysInOrder(c: KeyContext)
    ensures Sorted(AtMost, ["familyId", "purpose"] + LastKeys(c))
  {
    ByFirst("familyId", "purpose");
    ByFirst("familyId", "schemaVersion");
    ByFirst("familyId", "userId");
    ByFirst("purpose", "schemaVersion");
    ByFirst("purpose", "userId");
    ByFirst("schemaVersion", "userId");
    hide AtMost;
  }

  lemma ByFirst(a: string, b: string)
    requires a != "" && b != "" && a[0] < b[0] <= 'z'
    ensures AtMost(a, b)
  {
  }

  lemma NamesEncoded()
    ensures Encode("purpose") == "purpose" && Encode("familyId") == "familyId"
    ensures Encode("schemaVersion") == "schemaVersion" && Encode("userId") == "userId" && Encode("1") == "1"
  {
    hide Encode;
    EncodeKeepsExactly("purpose");
    EncodeKeepsExactly("familyId");
    EncodeKeepsExactly("schemaVersion");
    EncodeKeepsExactly("userId");
    EncodeKeepsExactly("1");
  }

  lemma PurposeEncoded()
    ensures Encode(ENCRYPTION_PURPOSE) == "family-location%3Acoordinate"
  {
    hide Encode;
    EncodeKeepsExactly("family-location");
    EncodeKeepsExactly("coordinate");
    EncodeAppends("family-location", ":" + "coordinate");
    EncodeAppends(":", "coordinate");
    ColonEncoded();
    assert ENCRYPTION_PURPOSE == "family-location" + (":" + "coordinate");
  }

  lemma ColonEncoded()
    ensures Encode(":") == "%3A"
  {
    assert EscapeAll([0x3A]) == Escape(0x3A) + [];
  }

  function Assigned(key: string, encoded: string): string {
    key + "=" + encoded
  }

  /** What the additional authenticated data looks like, for every family and user. */
  lemma CanonicalForm(c: KeyContext)
    ensures CanonicalKeyContext(c)
            == Assigned("familyId", Encode(c.familyId)) + "&"
              + Assigned("purpose", "family-location%3Acoordinate") + "&"
              + Assigned("schemaVersion", "1")
              + (if c.userId.Some? then "&" + Assigned("userId", Encode(c.userId.value)) else "")
  {
    hide Encode, Sort, KeysOf, Render, Assigned, RenderPair;
    var e := BuildEncryptionContext(c);
    CanonicalKeys(c);
    NamesEncoded();
    PurposeEncoded();
    ValueAt(e, 0);
    ValueAt(e, 1);
    ValueAt(e, 2);
    var family, purpose, version := ("familyId", c.familyId), ("purpose", ENCRYPTION_PURPOSE), ("schemaVersion", "1");
    RenderAssigned(family);
    RenderAssigned(purpose);
    RenderAssigned(version);
    if c.userId.Some? {
      ValueAt(e, 3);
      var user := ("userId", c.userId.value);
      RenderAssigned(user);
      assert SortedPairs(e) == [family, purpose, version] + [user];
      RenderThree(family, purpose, version, [user]);
      RenderOne(user);
    } else {
      assert SortedPairs(e) == [family, purpose, version] + [];
      RenderThree(family, purpose, version, []);
    }
  }

  lemma RenderAssigned(pair: (string, string))
    ensures RenderPair(pair) == Assigned(Encode(pair.0), Encode(pair.1))
  {
    hide Encode;
  }

  lemma RenderOne(pair: (string, string))
    ensures Render([pair]) == RenderPair(pair)
  {
  }

  lemma RenderMore(pair: (string, string), rest: Entries)
    requires rest != []
    ensures Render([pair] + rest) == RenderPair(pair) + "&" + Render(rest)
  {
    assert ([pair] + rest)[1..] == rest;
  }

  lemma RenderThree(a: (string, string), b: (string, string), c: (string, string), rest: Entries)
    ensures Render([a, b, c] + rest)
            == RenderPair(a) + "&" + RenderPair(b) + "&" + RenderPair(c)
              + (if rest == [] then "" else "&" + Render(rest))
  {
    hide Render, RenderPair;
    assert [a, b, c] + rest == [a] + ([b] + ([c] + rest));
    RenderMore(a, [b] + ([c] + rest));
    RenderMore(b, [c] + rest);
    if rest == [] {
      assert [c] + rest == [c];
      RenderOne(c);
    } else {
      RenderMore(c, rest);
    }
  }

  /** The decryption cache key: canonical context, `|`, base64 of the wrapped key. */
  function DecryptionCacheKey(canonical: string, wrapped: string): string {
    canonical + "|" + wrapped
  }

  /** A decryption cache key identifies both of its parts, whatever the wrapped key's text. */
  lemma DecryptionCacheKeyInjective(a: KeyContext, v: string, b: KeyContext, w: string)
    ensures DecryptionCacheKey(CanonicalKeyContext(a), v) == DecryptionCacheKey(CanonicalKeyContext(b), w) <==>
      a == b && v == w
  {
    var ca, cb := CanonicalKeyContext(a), CanonicalKeyContext(b);
    var s, t := DecryptionCacheKey(ca, v), DecryptionCacheKey(cb, w);
    RenderHasNoBar(SortedPairs(BuildEncryptionContext(a)));
    RenderHasNoBar(SortedPairs(BuildEncryptionContext(b)));
    FindSeparator(ca, '|', v);
    FindSeparator(cb, '|', w);
    if s == t {
      assert ca == s[..|ca|] && v == s[|ca| + 1..] && cb == t[..|cb|] && w == t[|cb| + 1..];
    }
    CanonicalKeyContextInjective(a, b);
  }

  /** The two roles never share a cache key, so one cache object may serve both. */
  lemma RolesDisjoint(a: KeyContext, b: KeyContext, w: string)
    ensures CanonicalKeyContext(a) != DecryptionCacheKey(CanonicalKeyContext(b), w)
  {
    RenderHasNoBar(SortedPairs(BuildEncryptionContext(a)));
    var s := DecryptionCacheKey(CanonicalKeyContext(b), w);
    assert s[|CanonicalKeyContext(b)|] == '|';
    assert '|' in s;
  }
}
