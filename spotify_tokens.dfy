/** The client's token lifecycle (useSpotifyTokens): the user and public access tokens held
    in memory, their mirror in `localStorage`, and the operations that save, clear, refresh,
    fetch and exchange them, together with the load-time bootstrap decision and the periodic
    expiry check. Each call to the token exchange endpoint is recorded, and its answer is a
    parameter: the model runs every asynchronous operation to completion with that answer. */
module SpotifyTokens {
  import opened Types
  import opened Decimal
  import opened Browser

  const AccessTokenKey := "spotify_access_token"
  const ExpiresAtKey := "spotify_token_expires_at"
  const LoggedInKey := "spotify_logged_in"
  const CodeVerifierKey := "code_verifier"

  /** The three keys that mirror the user session. */
  const SessionKeys := {AccessTokenKey, ExpiresAtKey, LoggedInKey}

  /** Five minutes, taken off the token lifetime as a safety margin. */
  const ExpirySkewMs := 5 * 60 * 1000

  /** What the token exchange endpoint answered for a user-token request: an ok response
      carrying `access_token` and `expires_in` (seconds), or anything else (a non-ok status,
      a network error or a body that is not JSON). */
  datatype Grant = Granted(accessToken: string, expiresIn: int) | Refused

  /** The requests the client makes to the edge handlers. */
  datatype AuthCall =
    | PublicTokenCall                                         // POST /api/public-auth
    | RefreshCall                                             // POST /api/spotify-auth, no body
    | ExchangeCall(authorizationCode: string, codeVerifier: string)  // POST /api/spotify-auth

  /** The branch the bootstrap effect takes. */
  datatype BootAction =
    | Idle
    | Exchange(code: string)
    | Restore(token: string, expiresAt: int)
    | RefreshOnce
    | AcquirePublic

  /** `Date.now() + expiresIn * 1000 - 5 * 60 * 1000` */
  function ExpiryTime(now: int, expiresIn: int): (t: int)
    ensures t + ExpirySkewMs == now + expiresIn * 1000
  {
    now + expiresIn * 1000 - ExpirySkewMs
  }

  /** The storage after `saveUserTokens`: the three session keys set, nothing else changed. */
  function SavedStorage(st: map<string, string>, token: string, expiry: int): (r: map<string, string>)
    ensures r.Keys == st.Keys + SessionKeys
    ensures r[AccessTokenKey] == token && r[ExpiresAtKey] == IntToString(expiry)
    ensures r[LoggedInKey] == "true"
    ensures forall k :: k in st && k !in SessionKeys ==> r[k] == st[k]
  {
    st[AccessTokenKey := token][ExpiresAtKey := IntToString(expiry)][LoggedInKey := "true"]
  }

  /** The storage after `clearUserTokens`: exactly the three session keys removed. */
  function ClearedStorage(st: map<string, string>): (r: map<string, string>)
    ensures r.Keys == st.Keys - SessionKeys
    ensures forall k :: k in r ==> r[k] == st[k]
    ensures CodeVerifierKey in st ==> CodeVerifierKey in r && r[CodeVerifierKey] == st[CodeVerifierKey]
  {
    st - SessionKeys
  }

  function Lookup(st: map<string, string>, key: string): (r: Option<string>)
    ensures r.Some? <==> key in st
    ensures r.Some? ==> r.value == st[key]
  {
    if key in st then Some(st[key]) else None
  }

  /** `parseInt(localStorage.getItem("spotify_token_expires_at"), 10)`; `None` is NaN, which
      is also what a missing item gives (`parseInt(null)`). */
  function StoredExpiry(st: map<string, string>): Option<int>
  {
    if ExpiresAtKey in st then ParseInt(st[ExpiresAtKey]) else None
  }

  /** The condition under which the bootstrap restores the stored session. */
  predicate HasLiveStoredToken(st: map<string, string>, now: int)
  {
    Truthy(Lookup(st, AccessTokenKey)) && StoredExpiry(st).Some? && StoredExpiry(st).value > now
  }

  /** The decision of the bootstrap effect, from the state it reads. */
  function BootstrapDecision(processing: bool, code: Option<string>, user: Option<string>,
                             public: Option<string>, st: map<string, string>,
                             refreshAttempted: bool, now: int): (a: BootAction)
    ensures processing ==> a == Idle
    ensures a.Exchange? <==> !processing && Truthy(code) && !Truthy(user)
    ensures a.Exchange? ==> a.code == code.value
    ensures a.Restore? <==>
      !processing && !(Truthy(code) && !Truthy(user)) && HasLiveStoredToken(st, now)
    ensures a.Restore? ==> a.token == st[AccessTokenKey] && Some(a.expiresAt) == StoredExpiry(st)
    ensures a.RefreshOnce? <==>
      !processing && !(Truthy(code) && !Truthy(user)) && !HasLiveStoredToken(st, now)
      && Lookup(st, LoggedInKey) == Some("true") && !refreshAttempted
    ensures a.AcquirePublic? <==>
      !processing && !(Truthy(code) && !Truthy(user)) && !HasLiveStoredToken(st, now)
      && !(Lookup(st, LoggedInKey) == Some("true") && !refreshAttempted)
      && !Truthy(user) && !Truthy(public)
    ensures refreshAttempted ==> !a.RefreshOnce?
  {
    if processing then Idle
    else if Truthy(code) && !Truthy(user) then Exchange(code.value)
    else if HasLiveStoredToken(st, now) then Restore(st[AccessTokenKey], StoredExpiry(st).value)
    else if Lookup(st, LoggedInKey) == Some("true") && !refreshAttempted then RefreshOnce
    else if !Truthy(user) && !Truthy(public) then AcquirePublic
    else Idle
  }

  /** A session saved at one load is restored, with no request, by a later load that comes
      before its expiry and has no `code` to exchange. */
  lemma RestoreAfterSave(st: map<string, string>, token: string, expiry: int, now: int,
                         user: Option<string>, public: Option<string>, attempted: bool)
    requires token != "" && now < expiry
    ensures BootstrapDecision(false, None, user, public, SavedStorage(st, token, expiry), attempted, now)
         == Restore(token, expiry)
  {
    ParseIntRoundTrip(expiry);
  }

  /** After the session is cleared, a load neither restores nor refreshes it. */
  lemma NoSessionAfterClear(st: map<string, string>, code: Option<string>, user: Option<string>,
                            public: Option<string>, attempted: bool, now: int)
    ensures var a := BootstrapDecision(false, code, user, public, ClearedStorage(st), attempted, now);
      !a.Restore? && !a.RefreshOnce?
  {
  }

  class TokenSession {
    const window: Window
    var publicAccessToken: Option<string>
    var userAccessToken: Option<string>
    var expiresAt: int
    var isProcessingAuth: bool
    var initialRefreshAttempted: bool
    /** Every request made to the token exchange endpoint, in order. */
    var calls: seq<AuthCall>
    /** How many refreshes the bootstrap has started during this page load. */
    ghost var bootstrapRefreshes: nat

    ghost predicate Valid()
      reads this, window
    {
      && window.Valid()
      && bootstrapRefreshes == (if initialRefreshAttempted then 1 else 0)
    }

    /** The hook's initial state: no tokens, expiry 0, nothing in flight. */
    constructor (w: Window)
      requires w.Valid()
      ensures Valid() && window == w
      ensures publicAccessToken == None && userAccessToken == None && expiresAt == 0
      ensures !isProcessingAuth && !initialRefreshAttempted && calls == []
    {
      window := w;
      publicAccessToken, userAccessToken := None, None;
      expiresAt := 0;
      isProcessingAuth, initialRefreshAttempted := false, false;
      calls := [];
      bootstrapRefreshes := 0;
    }

    /** `saveUserTokens(token, expiresIn)` at time `now`. */
    method SaveUserTokens(token: string, expiresIn: int, now: int)
      requires Valid()
      modifies this, window
      ensures Valid()
      ensures userAccessToken == Some(token) && expiresAt == ExpiryTime(now, expiresIn)
      ensures window.storage == SavedStorage(old(window.storage), token, expiresAt)
      ensures window.stash == old(window.stash) - SessionKeys && window.code == old(window.code)
      ensures window.log == old(window.log) + [SetItem(AccessTokenKey, token),
        SetItem(ExpiresAtKey, IntToString(expiresAt)), SetItem(LoggedInKey, "true")]
      ensures publicAccessToken == old(publicAccessToken) && calls == old(calls)
      ensures isProcessingAuth == old(isProcessingAuth)
      ensures initialRefreshAttempted == old(initialRefreshAttempted)
    {
      var expiryTime := ExpiryTime(now, expiresIn);
      userAccessToken := Some(token);
      expiresAt := expiryTime;
      window.SetItem(AccessTokenKey, token);
      window.SetItem(ExpiresAtKey, IntToString(expiryTime));
      window.SetItem(LoggedInKey, "true");
      RemovedInTurn(old(window.stash), AccessTokenKey, ExpiresAtKey, LoggedInKey);
      AppendedThreeInTurn(old(window.log), SetItem(AccessTokenKey, token),
        SetItem(ExpiresAtKey, IntToString(expiryTime)), SetItem(LoggedInKey, "true"));
    }

    /** `clearUserTokens()` */
    method ClearUserTokens()
      requires Valid()
      modifies this, window
      ensures Valid()
      ensures userAccessToken == None && expiresAt == 0
      ensures window.storage == ClearedStorage(old(window.storage))
      ensures window.stash == old(window.stash) - SessionKeys && window.code == old(window.code)
      ensures window.log == old(window.log)
        + [RemoveItem(AccessTokenKey), RemoveItem(ExpiresAtKey), RemoveItem(LoggedInKey)]
      ensures publicAccessToken == old(publicAccessToken) && calls == old(calls)
      ensures isProcessingAuth == old(isProcessingAuth)
      ensures initialRefreshAttempted == old(initialRefreshAttempted)
    {
      userAccessToken := None;
      expiresAt := 0;
      window.RemoveItem(AccessTokenKey);
      window.RemoveItem(ExpiresAtKey);
      window.RemoveItem(LoggedInKey);
      RemovedInTurn(old(window.stash), AccessTokenKey, ExpiresAtKey, LoggedInKey);
      AppendedThreeInTurn(old(window.log), RemoveItem(AccessTokenKey), RemoveItem(ExpiresAtKey),
        RemoveItem(LoggedInKey));
    }

    /** Nothing the hook holds or the browser shows has changed. */
    twostate predicate Untouched()
      reads this, window
    {
      && calls == old(calls) && userAccessToken == old(userAccessToken)
      && publicAccessToken == old(publicAccessToken) && expiresAt == old(expiresAt)
      && isProcessingAuth == old(isProcessingAuth)
      && window.storage == old(window.storage) && window.stash == old(window.stash)
      && window.code == old(window.code) && window.log == old(window.log)
    }

    /** What one public-token request does when the endpoint gives `answer`: the answer is
        the public token, and the user session and the browser are as they were. */
    twostate predicate PublicEffect(answer: Option<string>)
      reads this, window
    {
      && calls == old(calls) + [PublicTokenCall] && !isProcessingAuth
      && publicAccessToken == answer
      && userAccessToken == old(userAccessToken) && expiresAt == old(expiresAt)
      && window.storage == old(window.storage) && window.stash == old(window.stash)
      && window.code == old(window.code) && window.log == old(window.log)
    }

    /** What one refresh does, from the state before it to the state after it, when the
        endpoint gives `answer` at time `now`: a grant is saved as the session, a refusal
        clears the session. */
    twostate predicate RefreshEffect(answer: Grant, now: int)
      reads this, window
    {
      && calls == old(calls) + [RefreshCall] && !isProcessingAuth
      && publicAccessToken == old(publicAccessToken)
      && window.stash == old(window.stash) - SessionKeys && window.code == old(window.code)
      && match answer
         case Granted(accessToken, expiresIn) =>
           && userAccessToken == Some(accessToken)
           && expiresAt == ExpiryTime(now, expiresIn)
           && window.storage == SavedStorage(old(window.storage), accessToken, expiresAt)
           && window.log == old(window.log) + [SetItem(AccessTokenKey, accessToken),
                SetItem(ExpiresAtKey, IntToString(expiresAt)), SetItem(LoggedInKey, "true")]
         case Refused =>
           && userAccessToken == None && expiresAt == 0
           && window.storage == ClearedStorage(old(window.storage))
           && window.log == old(window.log)
                + [RemoveItem(AccessTokenKey), RemoveItem(ExpiresAtKey), RemoveItem(LoggedInKey)]
    }

    /** `refreshAccessToken()`: one refresh request; on success the new token is saved and
        returned, otherwise the session is cleared and null returned. */
    method RefreshAccessToken(answer: Grant, now: int) returns (token: Option<string>)
      requires Valid()
      modifies this, window
      ensures Valid()
      ensures RefreshEffect(answer, now) && token == userAccessToken
      ensures initialRefreshAttempted == old(initialRefreshAttempted)
    {
      isProcessingAuth := true;
      calls := calls + [RefreshCall];
      match answer {
        case Granted(accessToken, expiresIn) =>
          SaveUserTokens(accessToken, expiresIn, now);
          token := Some(accessToken);
        case Refused =>
          ClearUserTokens();
          token := None;
      }
      isProcessingAuth := false;
    }

    /** `getPublicAccessToken()`: one request for an application token; `answer` is the
        `access_token` of an ok response, or `None` when the request failed. A failure
        leaves no public token and returns null; nothing is thrown. */
    method GetPublicAccessToken(answer: Option<string>) returns (token: Option<string>)
      requires Valid()
      modifies this
      ensures Valid()
      ensures PublicEffect(answer) && token == answer
      ensures initialRefreshAttempted == old(initialRefreshAttempted)
    {
      isProcessingAuth := true;
      calls := calls + [PublicTokenCall];
      publicAccessToken := answer;
      token := answer;
      isProcessingAuth := false;
    }

    /** What the exchange of `code` does, from the state before it to the state after it,
        when the endpoint gives `answer` at time `now`. */
    twostate predicate ExchangeEffect(code: string, answer: Grant, now: int)
      reads this, window
    {
      var verifier := Lookup(old(window.storage), CodeVerifierKey);
      && !isProcessingAuth && publicAccessToken == old(publicAccessToken)
      && if !Truthy(verifier) then
        && calls == old(calls) && userAccessToken == old(userAccessToken)
        && expiresAt == old(expiresAt) && window.storage == old(window.storage)
        && window.stash == old(window.stash) && window.code == old(window.code)
        && window.log == old(window.log)
      else
        && calls == old(calls) + [ExchangeCall(code, verifier.value)]
        && match answer
           case Granted(accessToken, expiresIn) =>
             && userAccessToken == Some(accessToken)
             && expiresAt == ExpiryTime(now, expiresIn)
             && window.storage == SavedStorage(old(window.storage) - {CodeVerifierKey},
                                                accessToken, expiresAt)
             && window.stash == old(window.stash) - {CodeVerifierKey} - SessionKeys
             && window.code == None
             && window.log == old(window.log) + [RemoveItem(CodeVerifierKey),
                  SetItem(AccessTokenKey, accessToken), SetItem(ExpiresAtKey, IntToString(expiresAt)),
                  SetItem(LoggedInKey, "true"), ReplaceState]
           case Refused =>
             && userAccessToken == None && expiresAt == 0
             && window.storage == map[] && window.stash == map[]
             && window.code == old(window.code)
    }

    /** `exchangeAuthorizationCodeForTokens(code)`. Without a stored verifier nothing is
        requested and nothing changes. With one, the code and verifier are sent; success
        removes the verifier, saves the session and drops the query string from the URL;
        failure clears the session and then all of `localStorage`. */
    method ExchangeAuthorizationCodeForTokens(code: string, answer: Grant, now: int)
      requires Valid()
      modifies this, window
      ensures Valid()
      ensures ExchangeEffect(code, answer, now)
      ensures initialRefreshAttempted == old(initialRefreshAttempted)
    {
      isProcessingAuth := true;
      var codeVerifier := window.GetItem(CodeVerifierKey);
      if !Truthy(codeVerifier) {
        isProcessingAuth := false;
        return;
      }
      calls := calls + [ExchangeCall(code, codeVerifier.value)];
      match answer {
        case Granted(accessToken, expiresIn) =>
          window.RemoveItem(CodeVerifierKey);
          SaveUserTokens(accessToken, expiresIn, now);
          window.ReplaceState();
        case Refused =>
          ClearUserTokens();
          window.Clear();
      }
      isProcessingAuth := false;
    }

    /** What carrying out `action` does, from the state before it to the state after it.
        The answers are those the endpoint gives to the request the action makes. */
    twostate predicate Performed(action: BootAction, now: int, exchangeAnswer: Grant,
                                 refreshAnswer: Grant, publicAnswer: Option<string>)
      reads this, window
    {
      && (action.Idle? ==> Untouched())
      && (action.Restore? ==>
            && calls == old(calls) && userAccessToken == Some(action.token)
            && expiresAt == action.expiresAt && publicAccessToken == old(publicAccessToken)
            && isProcessingAuth == old(isProcessingAuth)
            && window.storage == old(window.storage) && window.stash == old(window.stash)
            && window.code == old(window.code) && window.log == old(window.log))
      && (action.Exchange? ==> ExchangeEffect(action.code, exchangeAnswer, now))
      && (action.RefreshOnce? ==> RefreshEffect(refreshAnswer, now))
      && (action.AcquirePublic? ==> PublicEffect(publicAnswer))
      && initialRefreshAttempted == (old(initialRefreshAttempted) || action.RefreshOnce?)
    }

    /** Carry out the action the bootstrap chose. */
    method Perform(action: BootAction, now: int, exchangeAnswer: Grant, refreshAnswer: Grant,
                   publicAnswer: Option<string>)
      requires Valid() && (action.RefreshOnce? ==> !initialRefreshAttempted)
      modifies this, window
      ensures Valid()
      ensures Performed(action, now, exchangeAnswer, refreshAnswer, publicAnswer)
    {
      match action {
        case Idle =>
        case Exchange(code) =>
          ExchangeAuthorizationCodeForTokens(code, exchangeAnswer, now);
        case Restore(token, expiry) =>
          userAccessToken := Some(token);
          expiresAt := expiry;
        case RefreshOnce =>
          initialRefreshAttempted := true;
          bootstrapRefreshes := bootstrapRefreshes + 1;
          var _ := RefreshAccessToken(refreshAnswer, now);
        case AcquirePublic =>
          var _ := GetPublicAccessToken(publicAnswer);
      }
    }

    /** One run of the bootstrap effect at time `now`: the decision on the state it reads,
        then that action, and never a second bootstrap refresh in a page load. */
    method Bootstrap(now: int, exchangeAnswer: Grant, refreshAnswer: Grant,
                     publicAnswer: Option<string>) returns (action: BootAction)
      requires Valid()
      modifies this, window
      ensures Valid()
      ensures action == BootstrapDecision(old(isProcessingAuth), old(window.code),
        old(userAccessToken), old(publicAccessToken), old(window.storage),
        old(initialRefreshAttempted), now)
      ensures Performed(action, now, exchangeAnswer, refreshAnswer, publicAnswer)
      ensures bootstrapRefreshes <= 1
    {
      action := BootstrapDecision(isProcessingAuth, window.code, userAccessToken,
        publicAccessToken, window.storage, initialRefreshAttempted, now);
      Perform(action, now, exchangeAnswer, refreshAnswer, publicAnswer);
    }

    /** One tick of the periodic expiry check: refresh when a user token is held and its
        expiry has passed. */
    method IntervalTick(now: int, answer: Grant) returns (refreshed: bool)
      requires Valid()
      modifies this, window
      ensures Valid()
      ensures refreshed == (Truthy(old(userAccessToken)) && old(expiresAt) < now)
      ensures refreshed ==> RefreshEffect(answer, now)
      ensures !refreshed ==> Untouched()
      ensures initialRefreshAttempted == old(initialRefreshAttempted)
    {
      refreshed := Truthy(userAccessToken) && expiresAt < now;
      if refreshed {
        var _ := RefreshAccessToken(answer, now);
      }
    }
  }
}
