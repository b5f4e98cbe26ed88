/** `spotifyLogin()` (useSpotifyLogin, and the same function in App.jsx): start the
    authorization-code flow with PKCE (RFC 7636). A fresh verifier is drawn and stored, and
    the browser is sent to the authorize endpoint with the S256 challenge of that verifier. */
module SpotifyLogin {
  import opened Types
  import opened Browser
  import opened Pkce
  import opened SpotifyTokens

  const AuthorizeEndpoint := "https://accounts.spotify.com/authorize"
  const Scope := "user-read-private user-read-email playlist-modify-private playlist-modify-public"
  const VerifierLength := 64

  /** The S256 challenge of section 4.2 of RFC 7636: base64url of the SHA-256 digest of the
      verifier's UTF-8 bytes. `sha256` stands for `crypto.subtle.digest("SHA-256", ·)`. The
      challenge is the one text that decodes to that digest. */
  function Challenge(verifier: string, sha256: seq<byte> -> seq<byte>): (c: string)
    ensures DecodeUrl(c) == Some(sha256(Utf8Encode(verifier)))
    ensures forall s :: DecodeUrl(s) == Some(sha256(Utf8Encode(verifier))) ==> s == c
    ensures forall i :: 0 <= i < |c| ==> c[i] != '=' && c[i] != '+' && c[i] != '/'
    ensures |sha256(Utf8Encode(verifier))| == 32 ==> |c| == 43
  {
    var digest := sha256(Utf8Encode(verifier));
    OnlyEncodingDecodes(digest);
    Base64Encode(digest)
  }

  /** The query of the authorize URL, in the order the source lists it. */
  function AuthorizeParams(clientId: string, redirectUri: string, challenge: string): (q: seq<(string, string)>)
    ensures ValueOf(q, "response_type") == Some("code")
    ensures ValueOf(q, "client_id") == Some(clientId)
    ensures ValueOf(q, "scope") == Some(Scope)
    ensures ValueOf(q, "code_challenge_method") == Some("S256")
    ensures ValueOf(q, "code_challenge") == Some(challenge)
    ensures ValueOf(q, "redirect_uri") == Some(redirectUri)
    ensures |q| == 6
  {
    var q := [("response_type", "code"), ("client_id", clientId), ("scope", Scope),
              ("code_challenge_method", "S256"), ("code_challenge", challenge),
              ("redirect_uri", redirectUri)];
    assert ValueOf(q, "redirect_uri") == ValueOf(q[1..], "redirect_uri") == ValueOf(q[2..], "redirect_uri")
        == ValueOf(q[3..], "redirect_uri") == ValueOf(q[4..], "redirect_uri")
        == ValueOf(q[5..], "redirect_uri") == Some(redirectUri);
    assert ValueOf(q, "code_challenge") == ValueOf(q[1..], "code_challenge")
        == ValueOf(q[2..], "code_challenge") == ValueOf(q[3..], "code_challenge")
        == ValueOf(q[4..], "code_challenge") == Some(challenge);
    assert ValueOf(q, "code_challenge_method") == ValueOf(q[1..], "code_challenge_method")
        == ValueOf(q[2..], "code_challenge_method") == ValueOf(q[3..], "code_challenge_method")
        == Some("S256");
    assert ValueOf(q, "scope") == ValueOf(q[1..], "scope") == ValueOf(q[2..], "scope") == Some(Scope);
    q
  }

  /** The authorize URL for a verifier. */
  function LoginUrl(clientId: string, redirectUri: string, verifier: string,
                    sha256: seq<byte> -> seq<byte>): Url
  {
    Url(AuthorizeEndpoint, AuthorizeParams(clientId, redirectUri, Challenge(verifier, sha256)))
  }

  lemma AlphanumericIsAscii(s: string)
    requires forall i :: 0 <= i < |s| ==> IsAlphanumeric(s[i])
    ensures forall i :: 0 <= i < |s| ==> s[i] as int < 128
  {
    forall i | 0 <= i < |s| ensures s[i] as int < 128 {
      assert IsAlphanumeric(s[i]);
    }
  }

  /** `spotifyLogin()`. `random` is what `crypto.getRandomValues` fills the 64-byte array
      with; `clientId` and `redirectUri` are the build-time settings. The verifier is written
      to storage, and only then does the tab navigate. */
  method Login(w: Window, clientId: string, redirectUri: string, random: seq<byte>,
               sha256: seq<byte> -> seq<byte>)
    returns (verifier: string)
    requires w.Valid() && |random| == VerifierLength
    modifies w
    ensures w.Valid()
    ensures verifier == GenerateRandomString(random) && |verifier| == 64
    ensures forall i :: 0 <= i < |verifier| ==> IsAlphanumeric(verifier[i])
    ensures forall i :: 0 <= i < |verifier| ==> verifier[i] as int < 128
    ensures w.storage == old(w.storage)[CodeVerifierKey := verifier]
    ensures w.stash == old(w.stash) - {CodeVerifierKey} && w.code == old(w.code)
    ensures w.log == old(w.log) + [SetItem(CodeVerifierKey, verifier),
      Navigate(LoginUrl(clientId, redirectUri, verifier, sha256))]
  {
    verifier := GenerateRandomString(random);
    VerifierIsAlphanumeric(random);
    AlphanumericIsAscii(verifier);
    var codeChallenge := Challenge(verifier, sha256);
    w.SetItem(CodeVerifierKey, verifier);
    var params := AuthorizeParams(clientId, redirectUri, codeChallenge);
    w.Navigate(Url(AuthorizeEndpoint, params));
    AppendedInTurn(old(w.log), SetItem(CodeVerifierKey, verifier), Navigate(Url(AuthorizeEndpoint, params)));
  }
}
