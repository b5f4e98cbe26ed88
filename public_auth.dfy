/** The public-token edge handler (api/public-auth): a client-credentials grant (section 4.4
    of RFC 6749) at the accounts service, answered with the access token alone. */
module PublicAuth {
  import opened Types
  import opened Edge

  const ConfigError := Response(500, ErrorBody("Server configuration error",
    Some("Spotify credentials missing.")), None)
  const ExchangeFailed := Response(500, ErrorBody(
    "Failed to get public access token via serverless function.", None), None)

  /** The only form this handler sends. */
  const ClientCredentialsForm := [("grant_type", "client_credentials")]

  /** `handler(request)`: `upstream` is what the token endpoint answers if it is asked. No
      cookie is ever set, and the redirect URI is not needed. */
  method Handle(verb: string, config: Config, upstream: Upstream)
    returns (response: Response, sent: Option<TokenRequest>)
    ensures verb != "POST" ==> response == MethodNotAllowed && sent == None
    ensures verb == "POST" && !(Truthy(config.clientId) && Truthy(config.clientSecret)) ==>
      response == ConfigError && sent == None
    ensures sent.Some? <==> verb == "POST" && Truthy(config.clientId) && Truthy(config.clientSecret)
    ensures sent.Some? ==>
      && sent.value == TokenRequest(ClientCredentialsForm, config.clientId.value, config.clientSecret.value)
      && ValueOf(sent.value.form, "grant_type") == Some("client_credentials")
      && |sent.value.form| == 1
    ensures sent.Some? && upstream.Threw? ==> response == ExchangeFailed
    ensures sent.Some? && upstream.Answered? && !IsOk(upstream.status) ==>
      response == Response(upstream.status, Relayed(upstream.data), None)
    ensures sent.Some? && upstream.Answered? && IsOk(upstream.status) ==>
      response == Response(200, AccessTokenOnly(upstream.data.accessToken), None)
    ensures response.setCookie == None
    // a 200 means the token endpoint granted a token; every failure keeps a non-2xx status
    ensures IsOk(response.status) <==> sent.Some? && upstream.Answered? && IsOk(upstream.status)
  {
    if verb != "POST" {
      return MethodNotAllowed, None;
    }
    if !Truthy(config.clientId) || !Truthy(config.clientSecret) {
      return ConfigError, None;
    }
    var params: seq<(string, string)> := [];
    params := params + [("grant_type", "client_credentials")];
    sent := Some(TokenRequest(params, config.clientId.value, config.clientSecret.value));
    match upstream {
      case Threw(_) =>
        response := ExchangeFailed;
      case Answered(status, data) =>
        if !IsOk(status) {
          response := Response(status, Relayed(data), None);
        } else {
          response := Response(200, AccessTokenOnly(data.accessToken), None);
        }
    }
  }
}
