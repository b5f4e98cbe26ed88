/** Whole flows through the model, each on fresh browser state: the behaviours the
    repository's hook tests check, and the login round trip the hooks implement between
    them. */
module Scenarios {
  import opened Types
  import opened Decimal
  import opened Browser
  import opened Pkce
  import opened SpotifyTokens
  import opened SpotifyApi
  import opened SpotifyLogin
  import opened Tracks
  import opened Playlist
  import Edge
  import SpotifyAuth

  /** A first visit (empty storage, no `code`) asks for a public token and keeps it. */
  method FirstVisitGetsPublicToken(now: int, granted: string)
    returns (action: BootAction, calls: seq<AuthCall>, publicToken: Option<string>)
    requires granted != ""
    ensures action == AcquirePublic && calls == [PublicTokenCall] && publicToken == Some(granted)
  {
    var w := new Window(map[], map[], None);
    var session := new TokenSession(w);
    action := session.Bootstrap(now, Refused, Refused, Some(granted));
    calls, publicToken := session.calls, session.publicAccessToken;
  }

  /** A refresh that is granted returns the new token, holds it, and writes the session. */
  method RefreshGivesNewToken(now: int)
    returns (token: Option<string>, userToken: Option<string>, stored: map<string, string>)
    ensures token == Some("new-token") && userToken == token
    ensures stored == map[AccessTokenKey := "new-token",
                          ExpiresAtKey := IntToString(now + 3600 * 1000 - 5 * 60 * 1000),
                          LoggedInKey := "true"]
  {
    var w := new Window(map[], map[], None);
    var session := new TokenSession(w);
    token := session.RefreshAccessToken(Granted("new-token", 3600), now);
    userToken, stored := session.userAccessToken, w.storage;
  }

  /** A fresh tab whose user session holds `old-token` and no public token. */
  method SignedIn(now: int) returns (session: TokenSession)
    ensures fresh(session) && fresh(session.window) && session.Valid()
    ensures session.userAccessToken == Some("old-token") && session.publicAccessToken == None
    ensures session.calls == []
  {
    var w := new Window(map[], map[], None);
    session := new TokenSession(w);
    session.SaveUserTokens("old-token", 3600, now);
  }

  /** A 401 on a user call refreshes once and retries once with the new token. */
  method RetryAfterUnauthorized(now: int)
    returns (result: Result<Option<string>, RequestError>, sent: seq<Fetch>, calls: seq<AuthCall>)
    ensures |sent| == 2 && calls == [RefreshCall]
    ensures sent[0].url == "https://api.spotify.com/v1/test"
    ensures ValueOf(sent[0].headers, "Authorization") == Some("Bearer " + "old-token")
    ensures ValueOf(sent[1].headers, "Authorization") == Some("Bearer " + "new-token")
    ensures result == Success(Some("{\"data\":\"retry-success\"}"))
  {
    var session := SignedIn(now);
    var responses := [Some(HttpResponse(401, "Unauthorized")),
                      Some(HttpResponse(200, "{\"data\":\"retry-success\"}"))];
    assert Recovering(responses) && Received(responses, 1).Some?;
    result, sent := MakeAuthenticatedRequest(session, "test", "GET", None, responses,
      Granted("new-token", 3600), None, now);
    assert session.userAccessToken == Some("new-token");
    calls := session.calls;
  }

  /** A second 401 is not retried again: the call fails with that status after two fetches. */
  method SecondUnauthorizedIsAnError(now: int)
    returns (result: Result<Option<string>, RequestError>, sent: seq<Fetch>)
    ensures |sent| == 2 && result == Failure(HttpError(401, "Unauthorized"))
  {
    var session := SignedIn(now);
    var unauthorized := Some(HttpResponse(401, "Unauthorized"));
    result, sent := MakeAuthenticatedRequest(session, "test", "GET", None,
      [unauthorized, unauthorized, unauthorized], Granted("new-token", 3600), None, now);
  }

  /** A login from a fresh tab: what storage holds when the tab leaves for Spotify. */
  method StartLogin(random: seq<byte>, sha256: seq<byte> -> seq<byte>)
    returns (verifier: string, storage: map<string, string>, stash: map<string, Stashed>)
    requires |random| == VerifierLength
    ensures |verifier| == 64 && verifier == GenerateRandomString(random)
    ensures storage == map[CodeVerifierKey := verifier] && stash == map[]
  {
    var w := new Window(map[], map[], None);
    verifier := Login(w, "client", "https://app.example/callback", random, sha256);
    storage, stash := w.storage, w.stash;
  }

  /** The first half of the login round trip. The login stores a verifier and leaves for the
      authorize page; the page load that comes back with `code` exchanges it together with that
      verifier, keeps the session, and drops both the verifier and the `code`. */
  method ReturnFromLogin(random: seq<byte>, sha256: seq<byte> -> seq<byte>, code: string,
                         token: string, now: int)
    returns (verifier: string, exchange: BootAction, exchangeCalls: seq<AuthCall>,
             userToken: Option<string>, stored: map<string, string>, codeAfter: Option<string>)
    requires |random| == VerifierLength && code != "" && token != ""
    ensures |verifier| == 64
    ensures exchange == Exchange(code) && exchangeCalls == [ExchangeCall(code, verifier)]
    ensures userToken == Some(token) && codeAfter == None
    ensures stored == SavedStorage(map[], token, now + 3600 * 1000 - 5 * 60 * 1000)
    ensures CodeVerifierKey !in stored
  {
    var storage, stash;
    verifier, storage, stash := StartLogin(random, sha256);
    assert storage - {CodeVerifierKey} == map[];
    // back from the authorize page, with the same storage
    var back := new Window(storage, stash, Some(code));
    var first := new TokenSession(back);
    exchange := first.Bootstrap(now, Granted(token, 3600), Refused, None);
    exchangeCalls, userToken := first.calls, first.userAccessToken;
    stored, codeAfter := back.storage, back.code;
  }

  /** The second half: a later load over the storage the exchange left, before the token
      expires, restores the session without a request. */
  method LaterVisitRestores(token: string, now: int, later: int)
    returns (restore: BootAction, restoreCalls: seq<AuthCall>, userToken: Option<string>)
    requires token != "" && now <= later < now + 3600 * 1000 - 5 * 60 * 1000
    ensures restore == Restore(token, now + 3600 * 1000 - 5 * 60 * 1000) && restoreCalls == []
    ensures userToken == Some(token)
  {
    var expiry := ExpiryTime(now, 3600);
    var again := new Window(SavedStorage(map[], token, expiry), map[], None);
    var second := new TokenSession(again);
    RestoreAfterSave(map[], token, expiry, later, None, None, false);
    restore := second.Bootstrap(later, Refused, Refused, None);
    restoreCalls, userToken := second.calls, second.userAccessToken;
  }

  /** Saving without a user token parks the playlist and its tracks, and the login stores
      its verifier beside them; no request is made. */
  method SaveWithoutToken(info: PlaylistInfo, tracks: seq<Track>, random: seq<byte>,
                          sha256: seq<byte> -> seq<byte>)
    returns (requests: seq<ApiRequest>, storage: map<string, string>, stash: map<string, Stashed>)
    requires |random| == VerifierLength
    ensures requests == []
    ensures stash == map[PlaylistInfoKey := StashedInfo(info), TracksKey := StashedTracks(tracks)]
    ensures storage == map[CodeVerifierKey := GenerateRandomString(random)]
  {
    var w := new Window(map[], map[], None);
    var list := new TrackList();
    list.tracks := tracks;
    var editor := new Editor(w, list);
    editor.playlistInfo := info;
    requests := editor.HandleSaveToSpotify(None, None, [], "client", "https://app.example/callback",
      random, sha256);
    ParkedStash(StashedInfo(info), StashedTracks(tracks));
    storage, stash := w.storage, w.stash;
  }

  /** The two parked records leave no verifier entry to remove. */
  lemma ParkedStash(info: Stashed, tracks: Stashed)
    ensures map[][PlaylistInfoKey := info][TracksKey := tracks] - {CodeVerifierKey}
      == map[PlaylistInfoKey := info, TracksKey := tracks]
  {
    assert PlaylistInfoKey[0] != CodeVerifierKey[0] && TracksKey[0] != CodeVerifierKey[0];
  }

  /** The page load after that login restores both records and removes them from storage,
      leaving only the verifier. */
  method SaveSurvivesLogin(info: PlaylistInfo, tracks: seq<Track>, random: seq<byte>,
                           sha256: seq<byte> -> seq<byte>)
    returns (requests: seq<ApiRequest>, restoredInfo: PlaylistInfo, restoredTracks: seq<Track>,
             leftover: set<string>)
    requires |random| == VerifierLength
    ensures requests == []
    ensures restoredInfo == info && restoredTracks == tracks
    ensures leftover == {CodeVerifierKey}
  {
    var storage, stash;
    requests, storage, stash := SaveWithoutToken(info, tracks, random, sha256);
    // the page load after the login: new editor and list over the same storage
    var back := new Window(storage, stash, None);
    var newList := new TrackList();
    var newEditor := new Editor(back, newList);
    newEditor.RestoreFromStorage();
    restoredInfo, restoredTracks := newEditor.playlistInfo, newList.tracks;
    assert back.stash == map[] && back.storage.Keys == {CodeVerifierKey};
    leftover := back.storage.Keys + back.stash.Keys;
  }

  /** A POST whose body is not JSON makes no code exchange: with the refresh cookie it
      refreshes, without it the answer is a 400 and the token endpoint is not called. */
  method UnparseableBodyIsBadRequest(config: Edge.Config, cookieToken: Option<string>,
                                     upstream: Edge.Upstream)
    returns (response: Edge.Response, sent: Option<Edge.TokenRequest>)
    ensures !SpotifyAuth.ConfigComplete(config) ==> response == SpotifyAuth.ConfigError && sent == None
    ensures SpotifyAuth.ConfigComplete(config) && !Truthy(cookieToken) ==>
      response == SpotifyAuth.MissingGrant && sent == None
    ensures SpotifyAuth.ConfigComplete(config) && Truthy(cookieToken) ==>
      && sent.Some?
      && sent.value.form == SpotifyAuth.GrantForm(SpotifyAuth.CookieRefresh(cookieToken.value),
                                                  config.redirectUri.value)
  {
    SpotifyAuth.UnparseableBody(cookieToken);
    response, sent := SpotifyAuth.Handle("POST", config, cookieToken, None, upstream);
  }
}
