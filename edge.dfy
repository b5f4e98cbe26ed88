/** What the two edge handlers (api/spotify-auth and api/public-auth) share: their server
    configuration, the request they send to the accounts service's token endpoint, the answer
    they get from it, and the response they return, including the refresh-token cookie. */
module Edge {
  import opened Types
  import opened Decimal

  const TokenEndpoint := "https://accounts.spotify.com/api/token"
  const RefreshCookieName := "spotify_refresh_token"
  /** 30 days, in seconds. */
  const RefreshCookieMaxAge := 60 * 60 * 24 * 30
  const CookieAttributes := ";" + " HttpOnly; Secure; SameSite=Strict; Path=/; Max-Age="

  /** The environment variables; unset is `None`. */
  datatype Config = Config(clientId: Option<string>, clientSecret: Option<string>,
                           redirectUri: Option<string>)

  /** A form-encoded POST to the token endpoint, authenticated with HTTP Basic client
      credentials `clientId:clientSecret` (the form pairs in `append` order). */
  datatype TokenRequest = TokenRequest(form: seq<(string, string)>, clientId: string,
                                       clientSecret: string)

  /** The fields of the token endpoint's JSON answer the handlers read, and its full text
      (relayed unchanged on failure). */
  datatype TokenData = TokenData(accessToken: Option<string>, expiresIn: Option<int>,
                                 refreshToken: Option<string>, raw: string)

  /** The outcome of the upstream `fetch` and `response.json()`: either rejects with an error
      message, or gives the status and the decoded body. */
  datatype Upstream = Threw(message: string) | Answered(status: int, data: TokenData)

  /** The JSON bodies the handlers return. */
  datatype Body =
    | ErrorBody(error: string, message: Option<string>)
    | TokenFields(accessToken: Option<string>, expiresIn: Option<int>)
    | AccessTokenOnly(accessToken: Option<string>)
    | Relayed(data: TokenData)

  /** A `spotify_refresh_token` cookie as set by the handler. */
  datatype RefreshCookie = RefreshCookie(value: string, maxAge: int)

  datatype Response = Response(status: int, body: Body, setCookie: Option<RefreshCookie>)

  /** The 405 answer to anything but POST. */
  const MethodNotAllowed := Response(405,
    ErrorBody("Method Not Allowed", Some("This endpoint only supports POST requests.")), None)

  /** The cookie that rotates in `token` for 30 days. */
  function KeepCookie(token: string): (c: RefreshCookie)
    ensures c.value == token && c.maxAge == 2592000
  {
    RefreshCookie(token, RefreshCookieMaxAge)
  }

  /** The cookie that clears the stored refresh token. */
  const ClearCookie := RefreshCookie("", 0)

  /** Section 5.2.2 of RFC 6265: a Max-Age of zero or less makes the cookie expire at once,
      so the user agent removes it. */
  predicate Deletes(c: RefreshCookie)
  {
    c.maxAge <= 0
  }

  /** The `Set-Cookie` header value the handler emits. A user agent reading it gets back
      the cookie's name and value, provided the value has no `;`; its last attribute is a
      Max-Age whose value parses back to `c.maxAge`. */
  function SetCookieHeader(c: RefreshCookie): (h: string)
    ensures ';' !in c.value ==> NameValuePair(h) == RefreshCookieName + "=" + c.value
    ensures var n := |IntToString(c.maxAge)|;
      n <= |h| && ParseInt(h[|h| - n..]) == Some(c.maxAge)
      && h[..|h| - n] == RefreshCookieName + "=" + c.value + CookieAttributes
  {
    var h := RefreshCookieName + "=" + c.value + CookieAttributes + IntToString(c.maxAge);
    MaxAgeReadsBack(c.value, c.maxAge);
    if ';' in c.value then h
    else
      PairReadsBack(c.value, c.maxAge);
      h
  }

  /** The text before the first `;` (the cookie's name-value pair in section 5.2 of RFC 6265). */
  function NameValuePair(header: string): (r: string)
    ensures |r| <= |header| && r == header[..|r|] && ';' !in r
    ensures |r| < |header| ==> header[|r|] == ';'
  {
    if header == [] || header[0] == ';' then [] else [header[0]] + NameValuePair(header[1..])
  }

  lemma {:induction false} NameValuePairPrefix(a: string, b: string)
    requires ';' !in a && b != [] && b[0] == ';'
    ensures NameValuePair(a + b) == a
  {
    if a != [] {
      assert (a + b)[1..] == a[1..] + b;
      NameValuePairPrefix(a[1..], b);
    }
  }

  /** The name-value pair of a header built from a value without `;` is the name and that value. */
  lemma PairReadsBack(value: string, maxAge: int)
    requires ';' !in value
    ensures NameValuePair(RefreshCookieName + "=" + value + CookieAttributes + IntToString(maxAge))
         == RefreshCookieName + "=" + value
  {
    var pair := RefreshCookieName + "=" + value;
    assert ';' !in pair by {
      assert forall i :: 0 <= i < |RefreshCookieName + "="| ==> (RefreshCookieName + "=")[i] != ';';
      assert forall i :: 0 <= i < |pair| ==> pair[i] != ';' by {
        forall i | 0 <= i < |pair| ensures pair[i] != ';' {
          if i >= |RefreshCookieName + "="| {
            assert pair[i] in value;
          }
        }
      }
    }
    var rest := CookieAttributes + IntToString(maxAge);
    assert pair + CookieAttributes + IntToString(maxAge) == pair + rest;
    assert rest[0] == ';';
    NameValuePairPrefix(pair, rest);
  }

  /** The digits after the last attribute of such a header parse back to `maxAge`. */
  lemma MaxAgeReadsBack(value: string, maxAge: int)
    ensures var h := RefreshCookieName + "=" + value + CookieAttributes + IntToString(maxAge);
      var n := |IntToString(maxAge)|;
      n <= |h| && ParseInt(h[|h| - n..]) == Some(maxAge)
      && h[..|h| - n] == RefreshCookieName + "=" + value + CookieAttributes
  {
    var h := RefreshCookieName + "=" + value + CookieAttributes + IntToString(maxAge);
    var n := |IntToString(maxAge)|;
    assert h[|h| - n..] == IntToString(maxAge);
    ParseIntRoundTrip(maxAge);
  }
}
