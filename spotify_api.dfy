/** `makeAuthenticatedRequest(url, method, data)` (useSpotifyApi): one call to the music API
    with the user token, else the public token, as a Bearer credential (section 2.1 of
    RFC 6750), and at most one recovery and retry when the API answers 401 or 403. The
    network is a sequence of answers: the k-th fetch of the call receives `responses[k]`,
    where `None` (or a missing entry) is a fetch that rejects. */
module SpotifyApi {
  import opened Types
  import opened SpotifyTokens

  const BaseUrl := "https://api.spotify.com/v1/"

  datatype HttpResponse = HttpResponse(status: int, text: string)

  /** One `fetch(url, {method, headers, body})`; the body is the JSON text of `body`. */
  datatype Fetch = Fetch(url: string, verb: string, headers: seq<(string, string)>,
                         body: Option<RequestBody>)

  /** The errors the call rethrows after logging them. */
  datatype RequestError =
    | NetworkError                        // a fetch rejected
    | SessionExpired                      // "User session expired. Please log in again."
    | PublicTokenFailed                   // "Failed to acquire new public token."
    | HttpError(status: int, text: string)  // "HTTP error! status: <status> - <text>"

  /** The statuses after which the call tries to recover a token. */
  predicate NeedsRecovery(status: int)
  {
    status == 401 || status == 403
  }

  /** `headers(token)`: JSON content type always, and a Bearer credential exactly when the
      token is truthy. */
  function Headers(token: Option<string>): (h: seq<(string, string)>)
    ensures ValueOf(h, "Content-Type") == Some("application/json")
    ensures ValueOf(h, "Authorization").Some? <==> Truthy(token)
    ensures Truthy(token) ==> ValueOf(h, "Authorization") == Some("Bearer " + token.value)
  {
    var contentType := [("Content-Type", "application/json")];
    if Truthy(token) then
      assert ValueOf(contentType + [("Authorization", "Bearer " + token.value)], "Authorization")
          == ValueOf([("Authorization", "Bearer " + token.value)], "Authorization");
      contentType + [("Authorization", "Bearer " + token.value)]
    else
      contentType
  }

  /** `performFetch(token)`: the path is appended to the API base. A request body is sent only
      when `data` is given (every body the app sends is an object, hence truthy). */
  function FetchWith(path: string, verb: string, data: Option<RequestBody>, token: Option<string>): (f: Fetch)
    ensures f.url == BaseUrl + path && f.url[..|BaseUrl|] == BaseUrl && f.verb == verb
    ensures f.headers == Headers(token) && f.body == data
  {
    Fetch(BaseUrl + path, verb, Headers(token), data)
  }

  /** The handling of the response the call ends with: a status outside 200-299 is an
      error carrying the status and the body text; an empty body gives null (`None`);
      otherwise the value is the parsed body text. */
  function Settle(r: HttpResponse): (res: Result<Option<string>, RequestError>)
    ensures res.Failure? <==> !IsOk(r.status)
    ensures res.Failure? ==> res.error == HttpError(r.status, r.text)
    ensures res == Success(None) <==> IsOk(r.status) && r.text == ""
    ensures res.Success? && res.value.Some? ==> res.value.value == r.text != ""
  {
    if !IsOk(r.status) then Failure(HttpError(r.status, r.text))
    else if r.text == "" then Success(None)
    else Success(Some(r.text))
  }

  /** The answer the k-th fetch receives. */
  function Received(responses: seq<Option<HttpResponse>>, k: nat): Option<HttpResponse>
  {
    if k < |responses| then responses[k] else None
  }

  /** The first answer is a 401 or 403. */
  predicate Recovering(responses: seq<Option<HttpResponse>>)
  {
    Received(responses, 0).Some? && NeedsRecovery(Received(responses, 0).value.status)
  }

  /** The token the recovery step yields: the answer of the refresh when the call held a user
      token, of the public-token request otherwise. */
  function RenewedToken(user: Option<string>, refreshAnswer: Grant, publicAnswer: Option<string>): (r: Option<string>)
    ensures Truthy(user) ==> (r.Some? <==> refreshAnswer.Granted?)
    ensures Truthy(user) && refreshAnswer.Granted? ==> r == Some(refreshAnswer.accessToken)
    ensures !Truthy(user) ==> r == publicAnswer
  {
    if Truthy(user) then (if refreshAnswer.Granted? then Some(refreshAnswer.accessToken) else None)
    else publicAnswer
  }

  /** One call. `refreshAnswer` and `publicAnswer` are what the token endpoint answers if the
      call asks the session to refresh or to fetch a public token. */
  method MakeAuthenticatedRequest(session: TokenSession, path: string, verb: string,
                                  data: Option<RequestBody>, responses: seq<Option<HttpResponse>>,
                                  refreshAnswer: Grant, publicAnswer: Option<string>, now: int)
    returns (result: Result<Option<string>, RequestError>, sent: seq<Fetch>)
    requires session.Valid()
    modifies session, session.window
    ensures session.Valid()
    // at most two fetches; the first with the user token, else the public token, else none
    ensures 1 <= |sent| <= 2
    ensures sent[0] == FetchWith(path, verb, data, Or(old(session.userAccessToken), old(session.publicAccessToken)))
    // recovery: once, only after a 401 or 403, and only when some token was held
    ensures Recovering(responses) && Truthy(old(session.userAccessToken))
      <==> session.calls == old(session.calls) + [RefreshCall]
    ensures Recovering(responses) && !Truthy(old(session.userAccessToken))
      && Truthy(old(session.publicAccessToken))
      <==> session.calls == old(session.calls) + [PublicTokenCall]
    ensures Recovering(responses) && Truthy(old(session.userAccessToken)) ==>
      && session.RefreshEffect(refreshAnswer, now)
      && session.userAccessToken == RenewedToken(old(session.userAccessToken), refreshAnswer, publicAnswer)
    ensures (Recovering(responses) && !Truthy(old(session.userAccessToken))
             && Truthy(old(session.publicAccessToken))) ==>
      session.PublicEffect(publicAnswer)
    ensures !(Recovering(responses) && Truthy(Or(old(session.userAccessToken), old(session.publicAccessToken)))) ==>
      session.Untouched()
    // the retry uses the renewed token, and only a truthy one
    ensures var renewed := RenewedToken(old(session.userAccessToken), refreshAnswer, publicAnswer);
      |sent| == 2 <==>
        && Recovering(responses)
        && Truthy(Or(old(session.userAccessToken), old(session.publicAccessToken)))
        && Truthy(renewed)
    ensures |sent| == 2 ==>
      sent[1] == FetchWith(path, verb, data, RenewedToken(old(session.userAccessToken), refreshAnswer, publicAnswer))
    // outcome
    ensures result == Failure(NetworkError) <==> Received(responses, |sent| - 1).None?
    ensures result == Failure(SessionExpired) <==>
      |sent| == 1 && Recovering(responses)
      && Truthy(old(session.userAccessToken)) && !Truthy(RenewedToken(old(session.userAccessToken), refreshAnswer, publicAnswer))
    ensures result == Failure(PublicTokenFailed) <==>
      |sent| == 1 && Recovering(responses)
      && !Truthy(old(session.userAccessToken)) && Truthy(old(session.publicAccessToken))
      && !Truthy(publicAnswer)
    ensures
      && Received(responses, |sent| - 1).Some?
      && result != Failure(SessionExpired) && result != Failure(PublicTokenFailed)
      ==> result == Settle(Received(responses, |sent| - 1).value)
  {
    var user := session.userAccessToken;
    var public := session.publicAccessToken;
    var currentAccessToken := Or(user, public);
    sent := [FetchWith(path, verb, data, currentAccessToken)];
    if Received(responses, 0).None? {
      return Failure(NetworkError), sent;
    }
    var response := Received(responses, 0).value;
    if NeedsRecovery(response.status) {
      if Truthy(user) {
        var newAccessToken := session.RefreshAccessToken(refreshAnswer, now);
        assert session.calls[|old(session.calls)|] == RefreshCall;
        if !Truthy(newAccessToken) {
          return Failure(SessionExpired), sent;
        }
        sent := sent + [FetchWith(path, verb, data, newAccessToken)];
      } else if Truthy(public) {
        var newPublicToken := session.GetPublicAccessToken(publicAnswer);
        assert session.calls[|old(session.calls)|] == PublicTokenCall;
        if !Truthy(newPublicToken) {
          return Failure(PublicTokenFailed), sent;
        }
        sent := sent + [FetchWith(path, verb, data, newPublicToken)];
      }
      if |sent| == 2 {
        if Received(responses, 1).None? {
          return Failure(NetworkError), sent;
        }
        response := Received(responses, 1).value;
      }
    }
    result := Settle(response);
  }
}
