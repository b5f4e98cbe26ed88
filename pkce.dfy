/** The PKCE helpers (RFC 7636): the code verifier drawn from an alphanumeric alphabet, and
    the challenge's text encoding, base64url without padding (section 5 of RFC 4648, as
    section 4.2 of RFC 7636 asks for the S256 method). The verifier's random bytes and the
    SHA-256 digest come from the browser's crypto API and are inputs here. */
module Pkce {
  import opened Types

  const Upper := "ABCDEFGHIJKLMNOPQRSTUVWXYZ"
  const Lower := "abcdefghijklmnopqrstuvwxyz"
  const Digits := "0123456789"

  /** The verifier alphabet, `possible` in the source. */
  const Possible := Upper + Lower + Digits

  /** The base64 alphabet of section 4 of RFC 4648. */
  const Base64Alphabet := Possible + "+/"

  predicate IsAlphanumeric(c: char)
  {
    'A' <= c <= 'Z' || 'a' <= c <= 'z' || '0' <= c <= '9'
  }

  /** The value of a character of the base64url alphabet (section 5 of RFC 4648), and
      `None` for every other character. */
  function UrlSextet(c: char): (v: Option<nat>)
    ensures v.Some? ==> v.value < 64
    ensures v.Some? <==> IsAlphanumeric(c) || c == '-' || c == '_'
  {
    if 'A' <= c <= 'Z' then Some(c as int - 'A' as int)
    else if 'a' <= c <= 'z' then Some(c as int - 'a' as int + 26)
    else if '0' <= c <= '9' then Some(c as int - '0' as int + 52)
    else if c == '-' then Some(62)
    else if c == '_' then Some(63)
    else None
  }

  lemma AlphabetFacts()
    ensures |Possible| == 62 && |Base64Alphabet| == 64
    ensures forall j :: 0 <= j < 62 ==> IsAlphanumeric(Possible[j])
    ensures forall j :: 0 <= j < 62 ==> Base64Alphabet[j] == Possible[j]
    ensures Base64Alphabet[62] == '+' && Base64Alphabet[63] == '/'
  {
    assert forall j :: 0 <= j < 26 ==> Upper[j] as int == 'A' as int + j;
    assert forall j :: 0 <= j < 26 ==> Lower[j] as int == 'a' as int + j;
    assert forall j :: 0 <= j < 10 ==> Digits[j] as int == '0' as int + j;
  }

  /** `generateRandomString`: fold the random bytes left to right, each byte picking
      `possible[byte % 62]`. `values` is the `Uint8Array` that `crypto.getRandomValues`
      filled, so its length is the requested length. */
  function GenerateRandomString(values: seq<byte>): (r: string)
    ensures |r| == |values|
    ensures forall i :: 0 <= i < |r| ==> r[i] == Possible[values[i] % 62]
  {
    if values == [] then ""
    else GenerateRandomString(values[..|values| - 1]) + [Possible[values[|values| - 1] % |Possible|]]
  }

  lemma VerifierIsAlphanumeric(values: seq<byte>)
    ensures forall i :: 0 <= i < |values| ==> IsAlphanumeric(GenerateRandomString(values)[i])
  {
    AlphabetFacts();
  }

  /** The 256 byte values do not spread evenly over the 62 characters: the first eight
      characters of the alphabet are each picked by five byte values, the others by four. */
  function PickedBy(j: nat): (bs: set<byte>)
    ensures forall b: byte :: b in bs <==> b % 62 == j
  {
    set b: byte | 0 <= b < 256 && b % 62 == j
  }

  lemma {:induction false} PickCount(j: nat)
    requires j < 62
    ensures |PickedBy(j)| == if j < 8 then 5 else 4
  {
    var bs := PickedBy(j);
    if j < 8 {
      assert bs == {j, j + 62, j + 124, j + 186, j + 248};
    } else {
      assert bs == {j, j + 62, j + 124, j + 186};
    }
  }

  // ---------------------------------------------------------------------------------------
  // base64 (btoa over the digest bytes)

  function Char(v: nat): char
    requires v < 64
  {
    Base64Alphabet[v]
  }

  /** The four sextets of a whole group of three bytes. */
  function Quad(b0: byte, b1: byte, b2: byte): (q: seq<nat>)
    ensures |q| == 4 && forall i :: 0 <= i < 4 ==> q[i] < 64
  {
    [b0 / 4, b0 % 4 * 16 + b1 / 16, b1 % 16 * 4 + b2 / 64, b2 % 64]
  }

  /** The two sextets of a final single byte. */
  function Pair(b0: byte): (q: seq<nat>)
    ensures |q| == 2 && forall i :: 0 <= i < 2 ==> q[i] < 64
  {
    [b0 / 4, b0 % 4 * 16]
  }

  /** The three sextets of a final pair of bytes. */
  function Triple(b0: byte, b1: byte): (q: seq<nat>)
    ensures |q| == 3 && forall i :: 0 <= i < 3 ==> q[i] < 64
  {
    [b0 / 4, b0 % 4 * 16 + b1 / 16, b1 % 16 * 4]
  }

  /** The sextets that carry the data, three bytes giving four sextets and a final one or
      two bytes giving two or three. */
  function Sextets(bytes: seq<byte>): (r: seq<nat>)
    ensures |r| == (4 * |bytes| + 2) / 3
    ensures forall i :: 0 <= i < |r| ==> r[i] < 64
    decreases |bytes|
  {
    if |bytes| == 0 then []
    else if |bytes| == 1 then Pair(bytes[0])
    else if |bytes| == 2 then Triple(bytes[0], bytes[1])
    else
      Quad(bytes[0], bytes[1], bytes[2]) + Sextets(bytes[3..])
  }

  function Chars(sx: seq<nat>): (r: string)
    requires forall i :: 0 <= i < |sx| ==> sx[i] < 64
  {
    seq(|sx|, i requires 0 <= i < |sx| => Char(sx[i]))
  }

  /** The url-safe form of one sextet. */
  function UrlChar(v: nat): char
    requires v < 64
  {
    if v == 62 then '-' else if v == 63 then '_' else Base64Alphabet[v]
  }

  lemma UpperValues()
    ensures forall j :: 0 <= j < 26 ==> UrlSextet(Upper[j]) == Some(j)
  {
    assert forall j :: 0 <= j < 26 ==> Upper[j] as int == 'A' as int + j;
  }

  lemma LowerValues()
    ensures forall j :: 0 <= j < 26 ==> UrlSextet(Lower[j]) == Some(j + 26)
  {
    assert forall j :: 0 <= j < 26 ==> Lower[j] as int == 'a' as int + j;
  }

  lemma DigitValues()
    ensures forall j :: 0 <= j < 10 ==> UrlSextet(Digits[j]) == Some(j + 52)
  {
    assert forall j :: 0 <= j < 10 ==> Digits[j] as int == '0' as int + j;
  }

  /** Each sextet's url-safe character reads back as that sextet. */
  lemma UrlAlphabet()
    ensures forall v :: 0 <= v < 64 ==> UrlSextet(UrlChar(v)) == Some(v)
  {
    UpperValues();
    LowerValues();
    DigitValues();
    forall v | 0 <= v < 64 ensures UrlSextet(UrlChar(v)) == Some(v) {
      if v < 26 {
        assert UrlChar(v) == Upper[v];
      } else if v < 52 {
        assert UrlChar(v) == Lower[v - 26];
      } else if v < 62 {
        assert UrlChar(v) == Digits[v - 52];
      }
    }
  }

  /** Distinct characters of the url-safe alphabet have distinct values. */
  lemma UrlSextetInjective(c: char, d: char)
    requires UrlSextet(c).Some? && UrlSextet(c) == UrlSextet(d)
    ensures c == d
  {
  }

  function UrlChars(sx: seq<nat>): (r: string)
    requires forall i :: 0 <= i < |sx| ==> sx[i] < 64
  {
    seq(|sx|, i requires 0 <= i < |sx| => UrlChar(sx[i]))
  }

  function Padding(n: nat): string
  {
    if n % 3 == 1 then "==" else if n % 3 == 2 then "=" else ""
  }

  /** `btoa(String.fromCharCode(...bytes))`: standard base64 (section 4 of RFC 4648), the
      data sextets spelled in the base64 alphabet and the text padded with `=` to a
      multiple of four characters. */
  function Base64(bytes: seq<byte>): (r: string)
    ensures |r| == 4 * ((|bytes| + 2) / 3)
    ensures forall i :: 0 <= i < |r| ==> (r[i] == '=' <==> i >= (4 * |bytes| + 2) / 3)
  {
    PaddedLength(|bytes|);
    AlphabetHasNoPadding();
    Chars(Sextets(bytes)) + Padding(|bytes|)
  }

  /** The data characters and the padding fill the started groups of four exactly. */
  lemma PaddedLength(n: nat)
    ensures (4 * n + 2) / 3 + |Padding(n)| == 4 * ((n + 2) / 3)
  {
    var q := n / 3;
    assert n == 3 * q + n % 3;
    if n % 3 == 0 {
      assert (4 * n + 2) / 3 == 4 * q;
    } else if n % 3 == 1 {
      assert (4 * n + 2) / 3 == 4 * q + 2;
    } else {
      assert (4 * n + 2) / 3 == 4 * q + 3;
    }
  }

  /** `s.replace(/c/g, "")` */
  function RemoveAll(s: string, c: char): (r: string)
    ensures forall i :: 0 <= i < |r| ==> r[i] != c
    ensures forall x :: x in r <==> x in s && x != c
  {
    if s == [] then ""
    else if s[0] == c then RemoveAll(s[1..], c)
    else [s[0]] + RemoveAll(s[1..], c)
  }

  /** `s.replace(/from/g, to)` for single characters. */
  function ReplaceAll(s: string, from: char, to: char): (r: string)
    ensures |r| == |s|
    ensures forall i :: 0 <= i < |s| ==> r[i] == if s[i] == from then to else s[i]
  {
    seq(|s|, i requires 0 <= i < |s| => if s[i] == from then to else s[i])
  }

  /** `base64encode`: base64, padding removed, then `+` to `-` and `/` to `_`. */
  function Base64Encode(digest: seq<byte>): (r: string)
    ensures |r| == (4 * |digest| + 2) / 3
    ensures forall i :: 0 <= i < |r| ==> r[i] != '=' && r[i] != '+' && r[i] != '/'
  {
    StripPadding(digest);
    ReplaceAll(ReplaceAll(RemoveAll(Base64(digest), '='), '+', '-'), '/', '_')
  }

  // ---------------------------------------------------------------------------------------
  // Properties of the encoding

  lemma AlphabetHasNoPadding()
    ensures forall j :: 0 <= j < 64 ==>
      Base64Alphabet[j] != '=' && Base64Alphabet[j] != '-' && Base64Alphabet[j] != '_'
  {
    AlphabetFacts();
  }

  lemma RemoveAllAppend(a: string, b: string, c: char)
    ensures RemoveAll(a + b, c) == RemoveAll(a, c) + RemoveAll(b, c)
  {
    if a == [] {
      assert a + b == b;
    } else {
      assert (a + b)[0] == a[0];
      assert (a + b)[1..] == a[1..] + b;
      RemoveAllAppend(a[1..], b, c);
    }
  }

  lemma RemoveAllAbsent(s: string, c: char)
    requires forall i :: 0 <= i < |s| ==> s[i] != c
    ensures RemoveAll(s, c) == s
  {
    if s != [] {
      RemoveAllAbsent(s[1..], c);
    }
  }

  lemma StripPadding(bytes: seq<byte>)
    ensures RemoveAll(Base64(bytes), '=') == Chars(Sextets(bytes))
  {
    var text := Chars(Sextets(bytes));
    var pad := Padding(|bytes|);
    RemoveAllAppend(text, pad, '=');
    AlphabetHasNoPadding();
    RemoveAllAbsent(text, '=');
    assert RemoveAll(pad, '=') == "" by {
      if pad == "=" {
        assert RemoveAll(pad, '=') == RemoveAll(pad[1..], '=');
        assert pad[1..] == "";
      } else if pad == "==" {
        assert RemoveAll(pad, '=') == RemoveAll(pad[1..], '=');
        assert pad[1..] == "=";
        assert RemoveAll("=", '=') == RemoveAll(""[..], '=');
      }
    }
  }

  /** The challenge is the url-safe spelling of the data sextets. */
  lemma EncodeIsUrlChars(digest: seq<byte>)
    ensures Base64Encode(digest) == UrlChars(Sextets(digest))
  {
    StripPadding(digest);
    AlphabetFacts();
  }

  /** A SHA-256 digest (32 bytes) gives a 43-character challenge: 44 base64 characters
      with one `=` of padding removed. */
  lemma DigestChallengeLength(digest: seq<byte>)
    requires |digest| == 32
    ensures |Base64(digest)| == 44
    ensures |Base64Encode(digest)| == 43
  {
  }

  /** Undoing the substitutions gives back the standard base64 text with its padding
      removed: the substitution loses nothing. */
  lemma SubstitutionIsReversible(digest: seq<byte>)
    ensures ReplaceAll(ReplaceAll(Base64Encode(digest), '-', '+'), '_', '/')
         == RemoveAll(Base64(digest), '=')
  {
    StripPadding(digest);
    AlphabetFacts();
    AlphabetHasNoPadding();
  }

  // ---------------------------------------------------------------------------------------
  // Decoding base64url without padding, to show that the challenge determines the digest.
  // The decoder is the strict one: it rejects a character outside the alphabet (section
  // 3.3 of RFC 4648), a length that leaves a single sextet, and nonzero pad bits in the
  // last sextet (section 3.5 of RFC 4648), so that each byte string has one encoding.

  function DecodeSextets(sx: seq<nat>): (r: Option<seq<byte>>)
    requires forall i :: 0 <= i < |sx| ==> sx[i] < 64
    ensures r.Some? ==> |sx| % 4 != 1 && |r.value| == 3 * |sx| / 4
    decreases |sx|
  {
    if |sx| == 0 then Some([])
    else if |sx| == 1 then None
    else if |sx| == 2 then
      if sx[1] % 16 != 0 then None else Some([sx[0] * 4 + sx[1] / 16])
    else if |sx| == 3 then
      if sx[2] % 4 != 0 then None else Some([sx[0] * 4 + sx[1] / 16, sx[1] % 16 * 16 + sx[2] / 4])
    else
      match DecodeSextets(sx[4..])
      case None => None
      case Some(rest) => Some(GroupBytes(sx[0], sx[1], sx[2], sx[3]) + rest)
  }

  /** The three bytes four sextets stand for. */
  function GroupBytes(x0: nat, x1: nat, x2: nat, x3: nat): (g: seq<byte>)
    requires x0 < 64 && x1 < 64 && x2 < 64 && x3 < 64
  {
    [x0 * 4 + x1 / 16, x1 % 16 * 16 + x2 / 4, x2 % 4 * 64 + x3]
  }

  /** Text of base64url characters only. */
  predicate IsUrlText(s: string)
  {
    forall i :: 0 <= i < |s| ==> UrlSextet(s[i]).Some?
  }

  /** The values of the characters of base64url text. */
  function UrlValues(s: string): (sx: seq<nat>)
    requires IsUrlText(s)
    ensures |sx| == |s| && forall i :: 0 <= i < |s| ==> sx[i] < 64 && UrlSextet(s[i]) == Some(sx[i])
  {
    seq(|s|, i requires 0 <= i < |s| => UrlSextet(s[i]).value)
  }

  /** Base64url decoding of unpadded text; `None` for text that is not a canonical encoding. */
  function DecodeUrl(s: string): (r: Option<seq<byte>>)
    ensures r.Some? ==> IsUrlText(s) && |s| % 4 != 1
    ensures r.Some? ==> |r.value| == 3 * |s| / 4
  {
    if IsUrlText(s) then DecodeSextets(UrlValues(s)) else None
  }

  lemma GroupDecodes(b0: byte, b1: byte, b2: byte, x0: int, x1: int, x2: int, x3: int)
    requires x0 == b0 / 4 && x1 == b0 % 4 * 16 + b1 / 16
    requires x2 == b1 % 16 * 4 + b2 / 64 && x3 == b2 % 64
    ensures x0 * 4 + x1 / 16 == b0
    ensures x1 % 16 * 16 + x2 / 4 == b1
    ensures x2 % 4 * 64 + x3 == b2
    ensures x0 < 64 && x1 < 64 && x2 < 64 && x3 < 64
  {
  }

  /** One whole group: four sextets that stand for the bytes `head` decode to them, in front
      of what the rest decodes to. */
  lemma DecodeGroup(sx: seq<nat>, q: seq<nat>, rest: seq<nat>, head: seq<byte>, tail: seq<byte>)
    requires sx == q + rest && |q| == 4
    requires forall i :: 0 <= i < 4 ==> q[i] < 64
    requires forall i :: 0 <= i < |rest| ==> rest[i] < 64
    requires GroupBytes(q[0], q[1], q[2], q[3]) == head
    requires DecodeSextets(rest) == Some(tail)
    ensures DecodeSextets(sx) == Some(head + tail)
  {
    assert sx[4..] == rest;
    assert sx[0] == q[0] && sx[1] == q[1] && sx[2] == q[2] && sx[3] == q[3];
    assert forall i :: 0 <= i < |sx| ==> sx[i] < 64 by {
      forall i | 0 <= i < |sx| ensures sx[i] < 64 {
        if i >= 4 {
          assert sx[i] == rest[i - 4];
        } else {
          assert sx[i] == q[i];
        }
      }
    }
  }

  /** A final single byte: two sextets. */
  lemma DecodeOne(b0: byte)
    ensures DecodeSextets(Sextets([b0])) == Some([b0])
  {
    GroupDecodes(b0, 0, 0, b0 / 4, b0 % 4 * 16, 0, 0);
  }

  /** A final pair of bytes: three sextets. */
  lemma DecodeTwo(b0: byte, b1: byte)
    ensures DecodeSextets(Sextets([b0, b1])) == Some([b0, b1])
  {
    GroupDecodes(b0, b1, 0, b0 / 4, b0 % 4 * 16 + b1 / 16, b1 % 16 * 4, 0);
  }

  lemma {:induction false} DecodeSextetsRoundTrip(bytes: seq<byte>)
    ensures DecodeSextets(Sextets(bytes)) == Some(bytes)
    decreases |bytes|
  {
    if |bytes| == 1 {
      assert [bytes[0]] == bytes;
      DecodeOne(bytes[0]);
    } else if |bytes| == 2 {
      assert [bytes[0], bytes[1]] == bytes;
      DecodeTwo(bytes[0], bytes[1]);
    } else if |bytes| >= 3 {
      DecodeSextetsRoundTrip(bytes[3..]);
      DecodeLonger(bytes);
    }
  }

  lemma SextetsHead(bytes: seq<byte>)
    requires |bytes| >= 3
    ensures Sextets(bytes) == Quad(bytes[0], bytes[1], bytes[2]) + Sextets(bytes[3..])
  {
  }

  lemma QuadDecodes(bytes: seq<byte>)
    requires |bytes| >= 3
    ensures var q := Quad(bytes[0], bytes[1], bytes[2]); GroupBytes(q[0], q[1], q[2], q[3]) == bytes[..3]
  {
    var b0, b1, b2 := bytes[0], bytes[1], bytes[2];
    GroupDecodes(b0, b1, b2, b0 / 4, b0 % 4 * 16 + b1 / 16, b1 % 16 * 4 + b2 / 64, b2 % 64);
    assert bytes[..3] == [b0, b1, b2];
  }

  /** The step of the round trip: a leading group of three bytes is decoded in front of
      what the rest decodes to. */
  lemma DecodeLonger(bytes: seq<byte>)
    requires |bytes| >= 3 && DecodeSextets(Sextets(bytes[3..])) == Some(bytes[3..])
    ensures DecodeSextets(Sextets(bytes)) == Some(bytes)
  {
    SextetsHead(bytes);
    QuadDecodes(bytes);
    DecodeGroup(Sextets(bytes), Quad(bytes[0], bytes[1], bytes[2]), Sextets(bytes[3..]),
      bytes[..3], bytes[3..]);
    assert bytes[..3] + bytes[3..] == bytes;
  }

  /** Decoding the challenge gives back the digest. */
  lemma EncodeRoundTrip(digest: seq<byte>)
    ensures DecodeUrl(Base64Encode(digest)) == Some(digest)
  {
    var sx := Sextets(digest);
    EncodeIsUrlChars(digest);
    UrlCharsAreUrlText(sx);
    DecodeSextetsRoundTrip(digest);
  }

  /** Spelling sextets in the url-safe alphabet and reading them back is the identity. */
  lemma UrlCharsAreUrlText(sx: seq<nat>)
    requires forall i :: 0 <= i < |sx| ==> sx[i] < 64
    ensures IsUrlText(UrlChars(sx)) && UrlValues(UrlChars(sx)) == sx
  {
    UrlAlphabet();
    var s := UrlChars(sx);
    forall i | 0 <= i < |s| ensures UrlSextet(s[i]) == Some(sx[i]) {
      assert s[i] == UrlChar(sx[i]);
    }
  }

  /** Distinct digests give distinct challenges. */
  lemma EncodeInjective(d1: seq<byte>, d2: seq<byte>)
    requires Base64Encode(d1) == Base64Encode(d2)
    ensures d1 == d2
  {
    EncodeRoundTrip(d1);
    EncodeRoundTrip(d2);
  }

  /** The bytes that a single byte's two sextets stand for give those sextets back. */
  lemma PairInverse(x0: nat, x1: nat)
    requires x0 < 64 && x1 < 64 && x1 % 16 == 0
    ensures var b := x0 * 4 + x1 / 16; b / 4 == x0 && b % 4 * 16 == x1
  {
    var h := x1 / 16;
    assert x1 == 16 * h;
  }

  lemma TripleInverse(x0: nat, x1: nat, x2: nat)
    requires x0 < 64 && x1 < 64 && x2 < 64 && x2 % 4 == 0
    ensures var b0, b1 := x0 * 4 + x1 / 16, x1 % 16 * 16 + x2 / 4;
      b0 / 4 == x0 && b0 % 4 * 16 + b1 / 16 == x1 && b1 % 16 * 4 == x2
  {
    var h, l, m := x1 / 16, x1 % 16, x2 / 4;
    assert x1 == 16 * h + l && x2 == 4 * m;
    assert (l * 16 + m) / 16 == l && (l * 16 + m) % 16 == m;
  }

  lemma QuadInverse(x0: nat, x1: nat, x2: nat, x3: nat)
    requires x0 < 64 && x1 < 64 && x2 < 64 && x3 < 64
    ensures var g := GroupBytes(x0, x1, x2, x3); Quad(g[0], g[1], g[2]) == [x0, x1, x2, x3]
  {
    var h, l, m, n := x1 / 16, x1 % 16, x2 / 4, x2 % 4;
    assert x1 == 16 * h + l && x2 == 4 * m + n;
    assert (l * 16 + m) / 16 == l && (l * 16 + m) % 16 == m;
    assert (n * 64 + x3) / 64 == n && (n * 64 + x3) % 64 == x3;
  }

  /** The decoder accepts only what the encoder produces: sextets that decode to `d` are
      the sextets of `d`. */
  lemma {:induction false} DecodeSextetsCanonical(sx: seq<nat>, d: seq<byte>)
    requires forall i :: 0 <= i < |sx| ==> sx[i] < 64
    requires DecodeSextets(sx) == Some(d)
    ensures Sextets(d) == sx
    decreases |sx|
  {
    if |sx| == 2 {
      PairInverse(sx[0], sx[1]);
    } else if |sx| == 3 {
      TripleInverse(sx[0], sx[1], sx[2]);
    } else if |sx| >= 4 {
      var rest := DecodeSextets(sx[4..]).value;
      DecodeSextetsCanonical(sx[4..], rest);
      var g := GroupBytes(sx[0], sx[1], sx[2], sx[3]);
      QuadInverse(sx[0], sx[1], sx[2], sx[3]);
      assert d == g + rest && d[3..] == rest;
      assert Sextets(d) == Quad(d[0], d[1], d[2]) + Sextets(d[3..]);
      assert sx == sx[..4] + sx[4..];
    }
  }

  /** Reading a character's value and spelling it again gives the character back. */
  lemma UrlCharInverse(c: char)
    requires UrlSextet(c).Some?
    ensures UrlChar(UrlSextet(c).value) == c
  {
    UrlAlphabet();
    UrlSextetInjective(UrlChar(UrlSextet(c).value), c);
  }

  /** A text that decodes to `d` is the encoding of `d`. */
  lemma DecodeUrlCanonical(s: string, d: seq<byte>)
    requires DecodeUrl(s) == Some(d)
    ensures s == Base64Encode(d)
  {
    var sx := UrlValues(s);
    DecodeSextetsCanonical(sx, d);
    EncodeIsUrlChars(d);
    var e := UrlChars(sx);
    forall i | 0 <= i < |s| ensures e[i] == s[i] {
      UrlCharInverse(s[i]);
    }
  }

  /** Exactly one text decodes to a given digest: its encoding. */
  lemma OnlyEncodingDecodes(d: seq<byte>)
    ensures forall s :: DecodeUrl(s) == Some(d) <==> s == Base64Encode(d)
  {
    EncodeRoundTrip(d);
    forall s | DecodeUrl(s) == Some(d) ensures s == Base64Encode(d) {
      DecodeUrlCanonical(s, d);
    }
  }
}
