/** Values shared by the client hooks and the edge handlers: JavaScript's null-or-value,
    its truthiness test on strings, HTTP's `response.ok`, and the records the app passes
    around (tracks, playlist info, the bodies sent to the music API). */
module Types {

  datatype Option<+T> = None | Some(value: T)

  datatype Result<+T, +E> = Success(value: T) | Failure(error: E)

  /** One octet, as held by a `Uint8Array`. */
  type byte = x: int | 0 <= x < 256

  /** JavaScript truthiness of a string that may be null or undefined:
      null, undefined and the empty string are falsy. */
  predicate Truthy(s: Option<string>)
  {
    s.Some? && s.value != ""
  }

  /** `a || b` on two string-or-null values: `a` when it is truthy, else `b`. */
  function Or(a: Option<string>, b: Option<string>): (r: Option<string>)
    ensures Truthy(r) <==> Truthy(a) || Truthy(b)
    ensures Truthy(a) ==> r == a
    ensures !Truthy(a) ==> r == b
  {
    if Truthy(a) then a else b
  }

  /** `response.ok` of the Fetch API: the status lies in 200-299. */
  predicate IsOk(status: int)
  {
    200 <= status <= 299
  }

  /** The value of the first `(name, value)` pair called `key`, as `Headers.get` and
      `URLSearchParams.get` read headers, forms and query strings. */
  function ValueOf(pairs: seq<(string, string)>, key: string): (r: Option<string>)
    ensures r.Some? <==> exists i :: 0 <= i < |pairs| && pairs[i].0 == key
  {
    if pairs == [] then None
    else if pairs[0].0 == key then Some(pairs[0].1)
    else ValueOf(pairs[1..], key)
  }

  /** The UTF-8 encoding of one Unicode scalar value (section 3 of RFC 3629). */
  function Utf8(c: char): (bs: seq<byte>)
    ensures 1 <= |bs| <= 4
    ensures c as int < 0x80 ==> bs == [c as int]
  {
    var v := c as int;
    if v < 0x80 then [v]
    else if v < 0x800 then [0xC0 + v / 0x40, 0x80 + v % 0x40]
    else if v < 0x10000 then [0xE0 + v / 0x1000, 0x80 + (v / 0x40) % 0x40, 0x80 + v % 0x40]
    else [0xF0 + v / 0x40000, 0x80 + (v / 0x1000) % 0x40, 0x80 + (v / 0x40) % 0x40, 0x80 + v % 0x40]
  }

  /** `new TextEncoder().encode(s)`: the UTF-8 bytes of the characters, in order. */
  function Utf8Encode(s: string): (bs: seq<byte>)
    ensures |s| <= |bs| <= 4 * |s|
  {
    if s == [] then [] else Utf8(s[0]) + Utf8Encode(s[1..])
  }

  /** The encoding of a concatenation is the concatenation of the encodings. */
  lemma {:induction false} Utf8EncodeAppend(a: string, b: string)
    ensures Utf8Encode(a + b) == Utf8Encode(a) + Utf8Encode(b)
  {
    if a == [] {
      assert a + b == b;
    } else {
      assert (a + b)[0] == a[0] && (a + b)[1..] == a[1..] + b;
      Utf8EncodeAppend(a[1..], b);
    }
  }

  /** On ASCII text the encoding is one byte per character, its code. */
  lemma {:induction false} AsciiEncoding(s: string)
    requires forall i :: 0 <= i < |s| ==> s[i] as int < 128
    ensures |Utf8Encode(s)| == |s|
    ensures forall i :: 0 <= i < |s| ==> Utf8Encode(s)[i] == s[i] as int
  {
    if s != [] {
      AsciiEncoding(s[1..]);
      assert Utf8Encode(s) == [s[0] as int] + Utf8Encode(s[1..]);
      forall i | 1 <= i < |s| ensures Utf8Encode(s)[i] == s[i] as int {
        assert Utf8Encode(s)[i] == Utf8Encode(s[1..])[i - 1];
        assert s[1..][i - 1] == s[i];
      }
    }
  }

  /** Elements appended one at a time make the same sequence as appended at once. */
  lemma AppendedInTurn<T>(s: seq<T>, a: T, b: T)
    ensures s + [a] + [b] == s + [a, b]
  {
  }

  lemma AppendedThreeInTurn<T>(s: seq<T>, a: T, b: T, c: T)
    ensures s + [a] + [b] + [c] == s + [a, b, c]
  {
  }

  lemma AppendedFourInTurn<T>(s: seq<T>, a: T, b: T, c: T, d: T)
    ensures s + [a] + [b] + [c] + [d] == s + [a, b, c, d]
  {
  }

  /** Where the parts of `s + [a] + [b] + [c, d]` lie. */
  lemma FourAppended<T>(s: seq<T>, a: T, b: T, c: T, d: T)
    ensures var t := s + [a] + [b] + [c, d];
      |t| == |s| + 4 && t[..|s| + 2] == s + [a, b] && t[|s| + 2] == c && t[|s| + 3] == d
  {
    var t := s + [a] + [b] + [c, d];
    assert t[..|s| + 2] == s + [a] + [b];
  }

  /** Keys removed one at a time leave the same map as removed at once. */
  lemma RemovedInTurn<K, V>(m: map<K, V>, a: K, b: K, c: K)
    ensures m - {a} - {b} - {c} == m - {a, b, c}
  {
  }

  /** A catalogue track as the app holds it; `isInPlaylist` is the app's own flag. */
  datatype Track = Track(id: string, uri: string, name: string, artist: string, album: string,
                         isInPlaylist: bool)

  /** The playlist being edited; an empty `id` means it has not been saved yet. */
  datatype PlaylistInfo = PlaylistInfo(name: string, id: string)

  /** The JSON bodies the app sends to the music API. */
  datatype RequestBody =
    | UrisBody(uris: seq<string>)
    | CreateBody(name: string, description: string, isPublic: bool)
    | RenameBody(name: string)

  /** One call of `makeAuthenticatedRequest(url, method, data)`. */
  datatype ApiRequest = ApiRequest(path: string, verb: string, data: Option<RequestBody>)

  /** What one call of `makeAuthenticatedRequest` gives back to a hook: it threw, it returned
      null (an empty body), or it returned a JSON object, of which the hooks read only the
      `id` field and, for a search, `tracks.items`. */
  datatype ApiReply =
    | Threw
    | Null
    | Object(id: Option<string>, items: Option<seq<Track>>)
}
