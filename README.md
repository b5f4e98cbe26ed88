# Jammming: the token lifecycle and the authenticated-request layer, in Dafny

Jammming is a browser playlist builder for Spotify. Its client runs as React hooks. Two edge
handlers sit beside it and talk to the accounts service's token endpoint. This project models
the parts that hold state and can fail, and proves what they promise:

- **Token lifecycle** (`SpotifyTokens`, from `useSpotifyTokens`): which user token and public
  token are held, how they are mirrored in `localStorage`, and the save, clear, refresh,
  public-token and code-exchange operations. It also covers the load-time bootstrap decision
  (exchange a `code`, restore the stored session, refresh once, or fetch a public token) and
  the periodic expiry check.
- **Authenticated request** (`SpotifyApi`, from `useSpotifyApi`): the call that picks the user
  token, else the public token, and sends it as a Bearer credential. After a 401 or 403 it
  recovers a token at most once and retries at most once. It settles into a value, null, or
  one of four errors.
- **Edge handlers** (`SpotifyAuth`, `PublicAuth`, with the shared parts in `Edge`):
  - the authorization-code and refresh-token grant handler with its guards, its grant
    precedence (a code, then the refresh cookie, then a refresh token in the body), its
    form, and its cookie rotation and deletion;
  - the client-credentials handler.
- **PKCE login** (`Pkce`, `SpotifyLogin`): the 64-character verifier drawn from
  62 alphanumerics, the S256 challenge as unpadded base64url, and `spotifyLogin`. The login
  stores the verifier and only then navigates to the authorize endpoint with six query
  parameters.
- **Track list** (`Tracks`, from `useTracks` and `togglePlaylist` in `App.jsx`): a search
  replaces the results and keeps the playlist tracks; a toggle flips one track's flag.
- **Playlist save** (`Playlist`, from `usePlaylist`):
  - the button label;
  - parking the playlist in `localStorage` across a login, and restoring it afterwards;
  - the request sequence of a save: lookup, then create and fill, or update and rename.
- **Profile** (`SpotifyProfile`, from `useSpotifyProfile`).
- **Scenarios** (`Scenarios`): whole flows on fresh browser state. They cover the behaviour
  the repository's hook tests check, plus the login round trip: leave with a verifier, come
  back with a `code`, exchange it, and restore the session at a later load.

The browser is one `Browser.Window` object. It holds:

- `localStorage`, split into string items and the two JSON records usePlaylist writes; their
  key sets are disjoint;
- the `code` query parameter of the current URL;
- a log of storage writes and navigations, so that "written together" and "stored before
  navigating" can be stated.

Every asynchronous operation runs to completion. What the network answers is a parameter:

- a `Grant` for the token endpoint;
- a sequence of responses for the music API (the k-th fetch of a call receives the k-th
  answer);
- an `ApiReply` for what a hook's request gives back.

`crypto.getRandomValues` is an input sequence of bytes. SHA-256 is a function parameter.

Where the code and the repository's design notes disagree, the model follows the code:

- The session keys in `localStorage` are `spotify_access_token`, `spotify_token_expires_at`
  and `spotify_logged_in`, not the unprefixed names.
- After a refresh gives a new token, a retry that again gets 401 ends as an HTTP error with
  status 401. The session is kept, because the refresh itself succeeded. It does not end as a
  session-expired error that clears the session.
- A failed public-token request leaves no public token (`setPublicAccessToken(null)`).

## Model

| member | source | states |
|---|---|---|
| Types.Or | src/hooks/useSpotifyApi.js:11 | `a \|\| b` on strings: truthy exactly when either side is; it is `a` whenever `a` is truthy and `b` otherwise |
| Decimal.IntToString | src/hooks/useSpotifyTokens.js:16 | the decimal text of the stored expiry is non-empty, starts with `-` exactly for a negative number, and is all digits otherwise |
| Decimal.ParseInt | src/hooks/useSpotifyTokens.js:123-126 | `parseInt(s, 10)` is NaN exactly when no digit follows the leading whitespace and the optional sign |
| Decimal.ParseIntRoundTrip | src/hooks/useSpotifyTokens.js:123-126 | reading back a stored expiry gives the number that was written, for every integer |
| SpotifyTokens.ExpiryTime | src/hooks/useSpotifyTokens.js:11 | the expiry plus the five-minute margin is the moment the granted lifetime ends |
| SpotifyTokens.SavedStorage | src/hooks/useSpotifyTokens.js:15-17 | saving sets exactly the three session keys (token, decimal expiry, `"true"`) and leaves every other key as it was |
| SpotifyTokens.ClearedStorage | src/hooks/useSpotifyTokens.js:23-25 | clearing removes exactly the three session keys; every other key, the PKCE verifier included, keeps its value |
| SpotifyTokens.BootstrapDecision | src/hooks/useSpotifyTokens.js:111-137 | each branch holds exactly under its condition: nothing while processing; exchange iff a truthy code and no user token; restore iff a truthy stored token whose parsed expiry is in the future; refresh iff logged in and not yet attempted; a public-token fetch iff none of these applies and neither token is held; never a second refresh |
| SpotifyTokens.RestoreAfterSave | src/hooks/useSpotifyTokens.js:122-131 | a session saved at one load is restored, token and expiry intact, by any later load before the expiry that has no code |
| SpotifyTokens.NoSessionAfterClear | src/hooks/useSpotifyTokens.js:129-134 | after the session keys are cleared, no load restores or refreshes the session |
| SpotifyTokens.TokenSession.constructor | src/hooks/useSpotifyTokens.js:4-8 | the hook starts with no tokens, expiry 0, nothing in flight and no refresh attempted |
| SpotifyTokens.TokenSession.SaveUserTokens | src/hooks/useSpotifyTokens.js:10-18 | the token and expiry are held and mirrored in the three keys, written in that order; nothing else changes |
| SpotifyTokens.TokenSession.ClearUserTokens | src/hooks/useSpotifyTokens.js:20-26 | no user token, expiry 0, the three keys removed in order; the public token and the rest of storage are untouched |
| SpotifyTokens.TokenSession.RefreshAccessToken | src/hooks/useSpotifyTokens.js:28-47 | exactly one refresh request; a grant is returned, held, and written to the three keys in order; a refusal returns null, leaves no token and removes the three keys in order; the public token, the `code` in the URL and the rest of storage are untouched; the session keys leave the stash; never left processing |
| SpotifyTokens.TokenSession.GetPublicAccessToken | src/hooks/useSpotifyTokens.js:49-69 | exactly one public-token request; the public token becomes the answer (null on failure), which is also returned; the user session, storage, stash, URL and log are untouched and processing is not in progress |
| SpotifyTokens.TokenSession.ExchangeAuthorizationCodeForTokens | src/hooks/useSpotifyTokens.js:71-108 | without a stored verifier nothing is requested and nothing changes; otherwise the code and that verifier are sent; success removes the verifier, saves the session and drops the `code` from the URL, in that order, and the stash keeps everything but the verifier and the session keys; failure leaves no token and empty storage; the public token is untouched and processing is released in every case |
| SpotifyTokens.TokenSession.Perform | src/hooks/useSpotifyTokens.js:117-137 | carrying out the chosen branch: idle changes nothing; restore holds the stored token and its expiry with no request, leaving the public token, processing flag, storage, stash, URL and log as they were; exchange has the effect above; refresh has the whole effect of a refresh with its answer; public-token has the whole effect of a public-token request; exchange, refresh and public-token end with processing released; the refresh-attempted flag is set exactly by a refresh |
| SpotifyTokens.TokenSession.Bootstrap | src/hooks/useSpotifyTokens.js:111-145 | the action taken is the decision on the state the effect reads, it has that action's whole effect as `Perform` states it (nothing at all for idle), and a page load never starts more than one bootstrap refresh |
| SpotifyTokens.TokenSession.IntervalTick | src/hooks/useSpotifyTokens.js:147-157 | a tick refreshes exactly when a user token is held and its expiry has passed, with the whole effect of a refresh; otherwise no token, expiry, flag, storage, stash, URL or log changes and no request is made |
| SpotifyApi.Headers | src/hooks/useSpotifyApi.js:13-16 | JSON content type always; a Bearer credential for the token exactly when the token is truthy |
| SpotifyApi.Settle | src/hooks/useSpotifyApi.js:47-54 | a non-2xx status is an HTTP error carrying the status and body text; a 2xx response with an empty body is null; otherwise the body text is the value |
| SpotifyApi.RenewedToken | src/hooks/useSpotifyApi.js:30-44 | the token the recovery yields: with a user session, present exactly when the refresh is granted and then the granted token; without one, the public-token answer |
| SpotifyApi.MakeAuthenticatedRequest | src/hooks/useSpotifyApi.js:26-58 | one or two fetches, the first with the user token else the public token; a refresh happens iff the first answer is 401/403 and a user token is held, and then has the whole effect of a refresh; a public-token request iff it is 401/403, no user token and a public token, and then it has the whole effect of a public-token request (the user token, expiry and browser state untouched, processing released); with no recovery the session and browser state are exactly as before; a second fetch iff a token was held and a truthy one was recovered, sent with that token; the outcome is a network error, session-expired or token-acquisition failure exactly in its case, and otherwise the settlement of the last response |
| SpotifyAuth.UnparseableBody | api/spotify-auth.js:40-74 | a body that is not JSON reads as `{}`, so the grant is the refresh cookie when there is one and none otherwise |
| SpotifyAuth.SelectGrant | api/spotify-auth.js:47-74 | the grant follows the precedence code, then cookie, then body refresh token, each only when truthy, and carries the chosen values; no grant iff none is truthy |
| SpotifyAuth.GrantForm | api/spotify-auth.js:47-68 | an authorization-code form carries grant type, code, redirect URI and verifier and no refresh token; a refresh form carries grant type and refresh token and no code or verifier |
| SpotifyAuth.Handle | api/spotify-auth.js:8-121 | only POST; incomplete configuration is a 500; a code without a verifier and a missing grant are 400s; none of these contacts the token endpoint; otherwise the grant's form is sent with the client credentials; a 2xx from upstream is a 200 carrying only the access token and lifetime and rotating the refresh token for 30 days; a failed refresh deletes the cookie; a thrown fetch is a 500 with its message; the response is 2xx iff upstream granted |
| Scenarios.UnparseableBodyIsBadRequest | api/spotify-auth.js:20-74 | a POST whose body is not JSON: a 500 when the configuration is incomplete; with complete configuration, a 400 and no call to the token endpoint without the refresh cookie, and a refresh with that cookie when it is present |
| PublicAuth.Handle | api/public-auth.js:8-62 | only POST; a missing client id or secret is a 500 without a request; otherwise exactly the client-credentials form is sent; upstream failures keep their status and body; a thrown fetch is a 500; success is a 200 with the access token alone; no cookie is ever set |
| Edge.KeepCookie | api/spotify-auth.js:97-99 | the rotated cookie holds the new refresh token for 30 days (2592000 seconds) |
| Edge.SetCookieHeader | api/spotify-auth.js:98 | a user agent reading the header gets `spotify_refresh_token=<value>` as the name-value pair when the value has no `;`, and the trailing Max-Age parses back to the cookie's lifetime, after the fixed attributes |
| Browser.Window.constructor | src/hooks/useSpotifyTokens.js:114 | a page load starts with the given storage, the `code` of its URL and nothing logged |
| Browser.Window.GetItem | src/hooks/useSpotifyTokens.js:122 | `getItem` gives the stored string exactly when the key holds one, and null otherwise |
| Browser.Window.SetItem | src/hooks/useSpotifyTokens.js:15 | the key holds the new string, replacing any record there; every other key and the URL are unchanged; the write is logged |
| Browser.Window.StashItem | src/hooks/usePlaylist.js:92-93 | the key holds the record, replacing any string there; every other key and the URL are unchanged; the write is logged |
| Browser.Window.RemoveItem | src/hooks/useSpotifyTokens.js:23 | the key holds nothing afterwards, whatever it held; every other key is unchanged; the removal is logged |
| Browser.Window.Clear | src/hooks/useSpotifyTokens.js:104 | storage is empty afterwards; the URL is unchanged; the clear is logged |
| Browser.Window.ReplaceState | src/hooks/useSpotifyTokens.js:96-100 | the URL loses its query, so no `code` is left; storage is unchanged |
| Browser.Window.Navigate | src/hooks/useSpotifyLogin.js:32 | the navigation is logged after everything before it; storage and URL are unchanged |
| Pkce.GenerateRandomString | src/components/App.jsx:8-13 | one character per random byte, the byte's value modulo 62 indexing the alphabet |
| Pkce.AlphabetFacts | src/components/App.jsx:9-10 | the verifier alphabet has 62 characters, all alphanumeric, and the 64-letter base64 alphabet is it followed by `+/` |
| Pkce.UrlAlphabet | src/components/App.jsx:21-26 | every sextet's url-safe character reads back as that sextet |
| Pkce.VerifierIsAlphanumeric | src/components/App.jsx:9-12 | every verifier character is an ASCII letter or digit, within the character set and length section 4.1 of RFC 7636 allows |
| Pkce.PickCount | src/components/App.jsx:12 | the modulo reduction is biased: each of the first 8 alphabet characters is picked by 5 byte values, each of the other 54 by 4 |
| Types.Utf8 | src/components/App.jsx:16-17 | one character becomes one to four bytes, and a character below 128 becomes the single byte of its code |
| Types.Utf8Encode | src/components/App.jsx:16-17 | a string becomes at least one and at most four bytes per character |
| Types.Utf8EncodeAppend | src/components/App.jsx:16-17 | the encoding of a concatenation is the concatenation of the encodings, so it goes character by character in order |
| Types.AsciiEncoding | src/components/App.jsx:15-18 | on ASCII text, as every verifier is, `TextEncoder` gives one byte per character, its code |
| Pkce.Base64 | src/components/App.jsx:22 | `btoa` of n bytes has 4 * ceil(n/3) characters, and `=` appears exactly in the positions after the ceil(4n/3) data characters |
| Pkce.RemoveAll | src/components/App.jsx:23 | `replace(/=/g, "")` leaves no `=` and every other character |
| Pkce.StripPadding | src/components/App.jsx:22-23 | removing `=` from the base64 text leaves exactly the alphabet characters of the data |
| Pkce.ReplaceAll | src/components/App.jsx:24-25 | a global one-character replacement changes exactly the occurrences of that character |
| Pkce.Base64Encode | src/components/App.jsx:21-26 | the challenge text of n bytes has ceil(4n/3) characters and contains no `=`, `+` or `/` |
| Pkce.DigestChallengeLength | src/components/App.jsx:15-26 | a 32-byte SHA-256 digest gives a 44-character `btoa` text and a 43-character challenge |
| Pkce.SubstitutionIsReversible | src/components/App.jsx:24-25 | undoing the `-`/`_` substitution gives back the unpadded standard base64 text |
| Pkce.DecodeSextetsRoundTrip | src/components/App.jsx:22 | the 6-bit groups of any byte sequence decode back to that sequence |
| Pkce.EncodeRoundTrip | src/components/App.jsx:21-26 | base64url decoding of the encoding gives back the digest, for every digest |
| Pkce.EncodeInjective | src/components/App.jsx:21-26 | two digests with the same challenge are equal |
| Pkce.DecodeSextetsCanonical | src/components/App.jsx:22 | the decoder accepts only what the encoder produces: sextets that decode to some bytes are those bytes' sextets |
| Pkce.DecodeUrlCanonical | src/components/App.jsx:21-26 | a text that decodes to some bytes is the challenge encoding of those bytes |
| Pkce.OnlyEncodingDecodes | src/components/App.jsx:21-26 | a text decodes to a digest if and only if it is that digest's encoding |
| SpotifyLogin.Challenge | src/hooks/useSpotifyLogin.js:13-15 | the S256 challenge decodes to the SHA-256 of the verifier's UTF-8 bytes, is the only text that does, is URL-safe, and has 43 characters for a 32-byte digest |
| SpotifyLogin.AuthorizeParams | src/hooks/useSpotifyLogin.js:22-29 | the authorize query has six parameters carrying response type `code`, the client id, the four scopes, method `S256`, the challenge and the redirect URI |
| SpotifyLogin.Login | src/hooks/useSpotifyLogin.js:12-33 | the verifier is 64 alphanumeric characters drawn from the random bytes; it is stored under `code_verifier`; then, and only then, the tab navigates to the authorize endpoint with the challenge of that same verifier |
| Tracks.InPlaylist | src/hooks/useTracks.js:20 | the kept tracks are exactly the flagged ones |
| Tracks.InPlaylistKeepsOrder | src/hooks/useTracks.js:20 | the filter keeps the flagged tracks in their order and with their multiplicity |
| Tracks.Ids | src/hooks/useTracks.js:21 | the id set holds exactly the ids of the tracks |
| Tracks.MarkNotInPlaylist | src/hooks/useTracks.js:15-18 | each result is the returned track with its flag cleared, position by position |
| Tracks.DropIds | src/hooks/useTracks.js:24 | the kept results are exactly those whose id is not in the set |
| Tracks.MergeSearch | src/hooks/useTracks.js:19-26 | after a search, the list starts with exactly the previous playlist tracks in order; the rest is exactly the results whose ids are not in the playlist, unflagged and in reply order; no earlier result survives unless returned again |
| Tracks.Toggle | src/hooks/useTracks.js:33-41 | position by position, the track with the id has its flag flipped and every other track is unchanged |
| Tracks.ToggleTwice | src/hooks/useTracks.js:33-41 | toggling changes only the flag, only for that id, and toggling twice gives back the list |
| Tracks.IsBlank | src/hooks/useTracks.js:7 | a term is blank exactly when it is missing or every character is whitespace |
| Tracks.EncodeUriComponent | src/hooks/useTracks.js:12 | the encoded term holds only unreserved characters and `%` escapes, so no `&`, `=`, `#` or space |
| Tracks.SearchQuery | src/hooks/useTracks.js:12 | whatever the term, the search query splits into exactly the encoded term, `type=track` and `limit=10` |
| Tracks.SearchPath | src/hooks/useTracks.js:12 | the path is `search?` followed by a query of exactly those three parameters |
| Tracks.TrackList.constructor | src/hooks/useTracks.js:4 | the list starts empty |
| Tracks.TrackList.HandleSearch | src/hooks/useTracks.js:6-31 | a blank term empties the list without a request; otherwise one GET for the search path; a reply with items merges them in; any other reply or an error leaves the list as it was |
| Tracks.TrackList.TogglePlaylist | src/hooks/useTracks.js:33-41 | the list becomes its toggle at that id |
| Playlist.ButtonLabel | src/hooks/usePlaylist.js:39-47 | Save iff a user token and no playlist id; Update iff a playlist id; Login iff neither |
| Playlist.TrackUris | src/hooks/usePlaylist.js:56-58 | the uris sent are those of the flagged tracks, in list order |
| Playlist.TrackUrisArePlaylistUris | src/hooks/usePlaylist.js:56-58 | every flagged track's uri is sent, and every uri sent belongs to a flagged track |
| Playlist.GetPlaylistRequest | src/hooks/usePlaylist.js:49-53 | no lookup iff the id is empty; otherwise a GET with no body for `playlists/<id>` |
| Playlist.UpdateTracksRequest | src/hooks/usePlaylist.js:55-60 | a PUT to `playlists/<id>/tracks` whose uris are those of the flagged tracks, in list order: every flagged track's uri and no other |
| Playlist.CreateRequest | src/hooks/usePlaylist.js:62-70 | a POST of a private playlist with the name and the fixed description, under the profile id, or under `null` when no id is loaded |
| Playlist.RenameRequest | src/hooks/usePlaylist.js:72-76 | a PUT of the new name to the playlist's own resource, the one the lookup reads |
| Playlist.Editor.constructor | src/hooks/usePlaylist.js:14-21 | empty name and id, the Login label, no effect running |
| Playlist.Editor.RestoreFromStorage | src/hooks/usePlaylist.js:24-36 | a stashed playlist and track list are restored; both keys are removed whether or not they were there; nothing else changes |
| Playlist.Editor.UpdateButtonText | src/hooks/usePlaylist.js:39-47 | the label becomes the label for the token and the playlist id |
| Playlist.Editor.HandleButtonEffect | src/hooks/usePlaylist.js:78-82 | the effect is running afterwards, whether or not it was before; name, id, label and fade key are untouched |
| Playlist.Editor.EndButtonEffect | src/hooks/usePlaylist.js:81 | the timer ends the effect |
| Playlist.Editor.ParkAndLogin | src/hooks/usePlaylist.js:91-96 | the log is exactly: stash the playlist, stash the tracks, store the verifier drawn from the random bytes, navigate to the authorize URL with that verifier's challenge; storage then holds that verifier in place of the two records; the URL `code` is untouched |
| Playlist.Editor.CreateAndFill | src/hooks/usePlaylist.js:102-108 | one create request; a reply with an id records it and sends the tracks to that playlist; the fade-out replays only after an answered fill |
| Playlist.Editor.UpdateExisting | src/hooks/usePlaylist.js:109-113 | the tracks are sent, then the name unless the first update threw; the fade-out replays only after an answered track update and a rename that did not throw |
| Playlist.Editor.HandleSaveToSpotify | src/hooks/usePlaylist.js:88-117 | without a token: no request, and exactly the log, storage and stash of `ParkAndLogin`; with one: the window untouched; a thrown lookup ends the save; no known playlist means create and then fill with the new id; an existing one means update its tracks, then rename |
| SpotifyProfile.Profile.constructor | src/hooks/useSpotifyProfile.js:4 | no profile id at first |
| SpotifyProfile.Profile.Effect | src/hooks/useSpotifyProfile.js:17-23 | the profile is requested (`me`, GET) exactly when a user token is held and no id is known; the id is forgotten without a token |
| SpotifyProfile.Profile.GetUserProfileId | src/hooks/useSpotifyProfile.js:6-15 | the id is taken only from a reply that carries one; otherwise it stays as it was |
| Scenarios.FirstVisitGetsPublicToken | src/test/hooks/useSpotifyTokens.test.js:35-44 | a first visit makes one public-token request and holds the token it returns |
| Scenarios.RefreshGivesNewToken | src/test/hooks/useSpotifyTokens.test.js:46-66 | a granted refresh returns the new token, holds it, and stores exactly the three session keys |
| Scenarios.RetryAfterUnauthorized | src/test/hooks/useSpotifyApi.test.js:40-73 | a 401 with a user token gives one refresh and two fetches, the first with the old token and the second with the new one, and the retry's body is the value |
| Scenarios.SecondUnauthorizedIsAnError | src/hooks/useSpotifyApi.js:29-52 | a retry that also gets 401 is not retried again; the call fails with that HTTP error after two fetches |
| Scenarios.StartLogin | src/test/hooks/useSpotifyLogin.test.js:29-41 | a login stores the 64-character verifier and nothing else |
| Scenarios.ReturnFromLogin | src/hooks/useSpotifyTokens.js:71-108 | the load that comes back with a code exchanges it with the stored verifier, holds the user token, saves the session, and drops both the verifier and the code |
| Scenarios.LaterVisitRestores | src/hooks/useSpotifyTokens.js:122-131 | a later load before expiry restores that session without any request |
| Scenarios.SaveWithoutToken | src/hooks/usePlaylist.js:91-96 | a save without a token makes no request and leaves exactly the two stashed records and the verifier in storage |
| Scenarios.SaveSurvivesLogin | src/hooks/usePlaylist.js:24-36 | the load after that login restores the same playlist and tracks and leaves only the verifier |

## Left out

- JSON: `JSON.stringify` and `JSON.parse` of request bodies, responses and the two stashed records are library behaviour. Bodies and replies are values, the stash holds records, and a settled response's value is its text.
- Percent-encoding: `URLSearchParams` encoding of the authorize query and of the token forms is not modelled. Query and forms are ordered name-value pairs.
- Decoding: `encodeURIComponent` is modelled, but its inverse is not.
- Basic auth: the base64 `Authorization` header the edge handlers build with `Buffer` is not modelled. The request records the client id and secret.
- Cookies: parsing the request's `cookie` header is left out. The handler takes the refresh-cookie value as an input.
- Cryptography: the SHA-256 digest (`crypto.subtle.digest`) is a function parameter. `crypto.getRandomValues` is an input of 64 bytes.
- Clock, network and timers: `Date.now()` is a parameter, and the network's answers are parameters. The five-minute interval, the 500 ms button timer and the fade animation are left out; the timer's firing is `EndButtonEffect`.
- React scheduling: when effects re-run (their dependency arrays) is not modelled. Each model method is one run of an effect or handler, to completion.
- Concurrency: there is no interleaving of in-flight operations. Two concurrent 401s each refreshing, and a stale response landing late, are not modelled. The `isProcessingAuth` guard is modelled as the flag the bootstrap reads.
- Unusual JSON shapes: token-endpoint answers whose fields are not strings or numbers, a JSON `null` body, and stashed records of the wrong shape are not modelled. A record of the wrong kind under a key is ignored.
- Numbers: integers are unbounded. Floating-point precision of epoch milliseconds, and a non-numeric `expires_in`, are not modelled.
- Logging: `console.error` and `console.log` are left out.
- Missing answers: a fetch beyond the supplied answers counts as a rejected fetch, and a missing reply to a save request counts as a thrown request.
- Duplicated logic: `App.jsx` holds its own copies of the token logic, the request layer, `spotifyLogin` and `handleSearch`, matching the hooks. They are modelled once, from the hooks. Its `togglePlaylist` (`src/components/App.jsx:298-300`) maps the list held at render time rather than the previous state; run to completion one at a time, this is `Tracks.Toggle`. The auth helpers are modelled from `App.jsx`, lines 8-26, because `src/utils/authHelpers` is not part of this model.
- SpotifyTokens.TokenSession.ExchangeAuthorizationCodeForTokens: on a refused exchange, the log of storage writes is not stated. Only the resulting empty storage is.
