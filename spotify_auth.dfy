/** The token-exchange edge handler (api/spotify-auth): turns a POST from the client into an
    authorization-code grant (section 4.1.3 of RFC 6749, with the PKCE verifier of RFC 7636)
    or a refresh-token grant (section 6 of RFC 6749) at the accounts service, keeps the
    refresh token in an HttpOnly cookie, and answers with the access token and its lifetime
    only. */
module SpotifyAuth {
  import opened Types
  import opened Edge

  /** The JSON fields of the request body the handler reads. */
  datatype Fields = Fields(authorizationCode: Option<string>, codeVerifier: Option<string>,
                           refreshToken: Option<string>)

  /** The grant the request asks for, in the handler's order of precedence. */
  datatype GrantChoice =
    | AuthorizationCode(code: string, codeVerifier: Option<string>)
    | CookieRefresh(refreshToken: string)
    | BodyRefresh(refreshToken: string)
    | NoGrant

  const ConfigError := Response(500, ErrorBody("Server configuration error",
    Some("Missing Spotify API credentials or Redirect URI.")), None)
  const MissingVerifier := Response(400, ErrorBody("Bad Request",
    Some("Missing code_verifier for PKCE.")), None)
  const MissingGrant := Response(400, ErrorBody("Bad Request",
    Some("Missing authorizationCode or session cookie.")), None)

  /** `await request.json()`, where a body that is not JSON (`None`) becomes `{}`. */
  function BodyOf(parsed: Option<Fields>): (b: Fields)
    ensures parsed.None? ==> b == Fields(None, None, None)
    ensures parsed.Some? ==> b == parsed.value
  {
    if parsed.Some? then parsed.value else Fields(None, None, None)
  }

  /** Precedence: a code in the body wins, then the refresh cookie, then a refresh token in
      the body; each counts only when truthy. */
  function SelectGrant(body: Fields, cookieToken: Option<string>): (g: GrantChoice)
    ensures g.AuthorizationCode? <==> Truthy(body.authorizationCode)
    ensures g.AuthorizationCode? ==>
      g.code == body.authorizationCode.value && g.codeVerifier == body.codeVerifier
    ensures g.CookieRefresh? <==> !Truthy(body.authorizationCode) && Truthy(cookieToken)
    ensures g.CookieRefresh? ==> g.refreshToken == cookieToken.value
    ensures g.BodyRefresh? <==>
      !Truthy(body.authorizationCode) && !Truthy(cookieToken) && Truthy(body.refreshToken)
    ensures g.BodyRefresh? ==> g.refreshToken == body.refreshToken.value
    ensures g.NoGrant? <==>
      !Truthy(body.authorizationCode) && !Truthy(cookieToken) && !Truthy(body.refreshToken)
  {
    if Truthy(body.authorizationCode) then AuthorizationCode(body.authorizationCode.value, body.codeVerifier)
    else if Truthy(cookieToken) then CookieRefresh(cookieToken.value)
    else if Truthy(body.refreshToken) then BodyRefresh(body.refreshToken.value)
    else NoGrant
  }

  /** A body that is not JSON asks for no code and no body refresh token, so only the cookie
      can still supply a grant. */
  lemma UnparseableBody(cookieToken: Option<string>)
    ensures SelectGrant(BodyOf(None), cookieToken)
         == if Truthy(cookieToken) then CookieRefresh(cookieToken.value) else NoGrant
  {
  }

  predicate IsRefresh(g: GrantChoice)
  {
    g.CookieRefresh? || g.BodyRefresh?
  }

  predicate ConfigComplete(config: Config)
  {
    Truthy(config.clientId) && Truthy(config.clientSecret) && Truthy(config.redirectUri)
  }

  /** The form sent for a grant. It names the grant type first and carries exactly the
      parameters that grant needs: code, redirect URI and PKCE verifier for an authorization
      code (section 4.1.3 of RFC 6749, section 4.5 of RFC 7636), the refresh token for a
      refresh (section 6 of RFC 6749). */
  function GrantForm(g: GrantChoice, redirectUri: string): (form: seq<(string, string)>)
    requires !g.NoGrant? && !(g.AuthorizationCode? && !Truthy(g.codeVerifier))
    ensures form != [] && form[0].0 == "grant_type"
    ensures g.AuthorizationCode? ==>
      && ValueOf(form, "grant_type") == Some("authorization_code")
      && ValueOf(form, "code") == Some(g.code)
      && ValueOf(form, "redirect_uri") == Some(redirectUri)
      && ValueOf(form, "code_verifier") == g.codeVerifier
      && ValueOf(form, "refresh_token") == None
    ensures IsRefresh(g) ==>
      && ValueOf(form, "grant_type") == Some("refresh_token")
      && ValueOf(form, "refresh_token") == Some(g.refreshToken)
      && ValueOf(form, "code") == None && ValueOf(form, "code_verifier") == None
  {
    match g
    case AuthorizationCode(code, verifier) =>
      var form := [("grant_type", "authorization_code"), ("code", code),
                   ("redirect_uri", redirectUri), ("code_verifier", verifier.value)];
      assert ValueOf(form[2..], "redirect_uri") == Some(redirectUri);
      assert ValueOf(form[3..], "code_verifier") == g.codeVerifier;
      assert ValueOf(form[1..], "code_verifier") == ValueOf(form[2..], "code_verifier")
          == ValueOf(form[3..], "code_verifier");
      form
    case CookieRefresh(t) => [("grant_type", "refresh_token"), ("refresh_token", t)]
    case BodyRefresh(t) => [("grant_type", "refresh_token"), ("refresh_token", t)]
  }

  /** `handler(request)`. `cookieToken` is the `spotify_refresh_token` cookie of the request,
      `parsed` its JSON body (`None` when it is not JSON), `upstream` what the token endpoint
      answers if it is asked. Returns the response and the token request made, if any. */
  method Handle(verb: string, config: Config, cookieToken: Option<string>, parsed: Option<Fields>,
                upstream: Upstream)
    returns (response: Response, sent: Option<TokenRequest>)
    // guards, in order, none of which calls the token endpoint
    ensures verb != "POST" ==> response == MethodNotAllowed && sent == None
    ensures verb == "POST" && !ConfigComplete(config) ==> response == ConfigError && sent == None
    ensures var g := SelectGrant(BodyOf(parsed), cookieToken);
      verb == "POST" && ConfigComplete(config) && g.AuthorizationCode? && !Truthy(g.codeVerifier)
      ==> response == MissingVerifier && sent == None
    ensures verb == "POST" && ConfigComplete(config) && SelectGrant(BodyOf(parsed), cookieToken).NoGrant?
      ==> response == MissingGrant && sent == None
    // the grant sent
    ensures var g := SelectGrant(BodyOf(parsed), cookieToken);
      sent.Some? <==>
        && verb == "POST" && ConfigComplete(config) && !g.NoGrant?
        && !(g.AuthorizationCode? && !Truthy(g.codeVerifier))
    ensures var g := SelectGrant(BodyOf(parsed), cookieToken);
      sent.Some? ==>
        && sent.value.clientId == config.clientId.value
        && sent.value.clientSecret == config.clientSecret.value
        && sent.value.form == GrantForm(g, config.redirectUri.value)
    // the answer, once the token endpoint was asked
    ensures sent.Some? && upstream.Threw? ==>
      response == Response(500, ErrorBody("Internal Server Error", Some(upstream.message)), None)
    ensures sent.Some? && upstream.Answered? && IsOk(upstream.status) ==>
      var rotated := Or(Or(upstream.data.refreshToken, cookieToken), BodyOf(parsed).refreshToken);
      response == Response(200, TokenFields(upstream.data.accessToken, upstream.data.expiresIn),
        if Truthy(rotated) then Some(KeepCookie(rotated.value)) else None)
    ensures sent.Some? && upstream.Answered? && !IsOk(upstream.status) ==>
      response == Response(upstream.status, Relayed(upstream.data),
        if IsRefresh(SelectGrant(BodyOf(parsed), cookieToken)) then Some(ClearCookie) else None)
    // a 2xx answer means the token endpoint granted a token
    ensures IsOk(response.status) <==> sent.Some? && upstream.Answered? && IsOk(upstream.status)
    // a cookie is set only after an answer: a 30-day rotation of a non-empty token on
    // success, the deletion of the stored one after a failed refresh
    ensures response.setCookie.Some? ==> sent.Some? && upstream.Answered?
    ensures response.setCookie.Some? && IsOk(upstream.status) ==>
      response.setCookie.value.value != "" && response.setCookie.value.maxAge == 2592000
      && !Deletes(response.setCookie.value)
    ensures response.setCookie.Some? && !IsOk(upstream.status) ==>
      IsRefresh(SelectGrant(BodyOf(parsed), cookieToken)) && Deletes(response.setCookie.value)
  {
    if verb != "POST" {
      return MethodNotAllowed, None;
    }
    if !ConfigComplete(config) {
      return ConfigError, None;
    }
    var clientId, clientSecret, redirectUri := config.clientId.value, config.clientSecret.value,
      config.redirectUri.value;
    var requestBody: seq<(string, string)> := [];
    var isRefresh := false;
    var body := BodyOf(parsed);

    if Truthy(body.authorizationCode) {
      requestBody := requestBody + [("grant_type", "authorization_code")];
      requestBody := requestBody + [("code", body.authorizationCode.value)];
      requestBody := requestBody + [("redirect_uri", redirectUri)];
      if Truthy(body.codeVerifier) {
        requestBody := requestBody + [("code_verifier", body.codeVerifier.value)];
        AppendedFourInTurn([], ("grant_type", "authorization_code"), ("code", body.authorizationCode.value),
          ("redirect_uri", redirectUri), ("code_verifier", body.codeVerifier.value));
      } else {
        return MissingVerifier, None;
      }
    } else if Truthy(cookieToken) {
      requestBody := requestBody + [("grant_type", "refresh_token")];
      requestBody := requestBody + [("refresh_token", cookieToken.value)];
      isRefresh := true;
      AppendedInTurn([], ("grant_type", "refresh_token"), ("refresh_token", cookieToken.value));
    } else if Truthy(body.refreshToken) {
      requestBody := requestBody + [("grant_type", "refresh_token")];
      requestBody := requestBody + [("refresh_token", body.refreshToken.value)];
      isRefresh := true;
      AppendedInTurn([], ("grant_type", "refresh_token"), ("refresh_token", body.refreshToken.value));
    } else {
      return MissingGrant, None;
    }

    sent := Some(TokenRequest(requestBody, clientId, clientSecret));
    match upstream {
      case Threw(message) =>
        response := Response(500, ErrorBody("Internal Server Error", Some(message)), None);
      case Answered(status, data) =>
        if IsOk(status) {
          var newRefreshToken := Or(Or(data.refreshToken, cookieToken), body.refreshToken);
          var setCookie := None;
          if Truthy(newRefreshToken) {
            setCookie := Some(KeepCookie(newRefreshToken.value));
          }
          response := Response(200, TokenFields(data.accessToken, data.expiresIn), setCookie);
        } else {
          var setCookie := None;
          if isRefresh {
            setCookie := Some(ClearCookie);
          }
          response := Response(status, Relayed(data), setCookie);
        }
    }
  }
}
