/** The playlist editor (usePlaylist): the name and id of the playlist being edited, the
    label of its save button, and the save itself. Saving without a user token parks the
    playlist in `localStorage` and starts a login; the next page load restores it. Saving
    with a token creates the playlist on the first save and updates it afterwards. */
module Playlist {
  import opened Types
  import opened Browser
  import opened Tracks
  import opened SpotifyLogin
  import Pkce

  const PlaylistInfoKey := "playlistInfo"
  const TracksKey := "tracks"
  const Description := "Created with Jammming"

  const SaveLabel := "Save to Spotify"
  const UpdateLabel := "Update Playlist"
  const LoginLabel := "Login to Spotify"

  /** The label the button-text effect sets. */
  function ButtonLabel(userAccessToken: Option<string>, playlistId: string): (text: string)
    ensures text == SaveLabel <==> Truthy(userAccessToken) && playlistId == ""
    ensures text == UpdateLabel <==> playlistId != ""
    ensures text == LoginLabel <==> !Truthy(userAccessToken) && playlistId == ""
  {
    if Truthy(userAccessToken) && playlistId == "" then SaveLabel
    else if playlistId != "" then UpdateLabel
    else LoginLabel
  }

  /** The uris of the playlist's tracks, in list order: the body of the track update. */
  function TrackUris(ts: seq<Track>): (uris: seq<string>)
    ensures |uris| == |InPlaylist(ts)|
    ensures forall i :: 0 <= i < |uris| ==> uris[i] == InPlaylist(ts)[i].uri
  {
    var kept := InPlaylist(ts);
    seq(|kept|, i requires 0 <= i < |kept| => kept[i].uri)
  }

  /** The uris sent are those of the flagged tracks: every flagged track's uri is there, and
      every uri there belongs to a flagged track. */
  lemma TrackUrisArePlaylistUris(ts: seq<Track>)
    ensures forall i :: 0 <= i < |ts| && ts[i].isInPlaylist ==> ts[i].uri in TrackUris(ts)
    ensures forall u :: u in TrackUris(ts) ==> exists t :: t in ts && t.isInPlaylist && t.uri == u
  {
    var kept := InPlaylist(ts);
    var uris := TrackUris(ts);
    forall i | 0 <= i < |ts| && ts[i].isInPlaylist ensures ts[i].uri in uris {
      assert ts[i] in kept;
      var j :| 0 <= j < |kept| && kept[j] == ts[i];
      assert uris[j] == ts[i].uri;
    }
    forall u | u in uris ensures exists t :: t in ts && t.isInPlaylist && t.uri == u {
      var j :| 0 <= j < |uris| && uris[j] == u;
      assert kept[j] in kept;
    }
  }

  /** `getPlaylist(id)`: no request for an empty id. */
  function GetPlaylistRequest(id: string): (r: Option<ApiRequest>)
    ensures r.None? <==> id == ""
    ensures r.Some? ==> r.value.verb == "GET" && r.value.data == None
    ensures r.Some? ==> r.value.path == "playlists/" + id
  {
    if id == "" then None else Some(ApiRequest("playlists/" + id, "GET", None))
  }

  /** `updateSpotifyPlaylist(playlistId)`: replaces the playlist's tracks with the uris of the
      flagged tracks, in list order. */
  function UpdateTracksRequest(playlistId: string, ts: seq<Track>): (r: ApiRequest)
    ensures r.verb == "PUT" && r.path == "playlists/" + playlistId + "/tracks"
    ensures r.data.Some? && r.data.value.UrisBody?
    ensures |r.data.value.uris| == |InPlaylist(ts)|
    ensures forall i :: 0 <= i < |r.data.value.uris| ==> r.data.value.uris[i] == InPlaylist(ts)[i].uri
    ensures forall i :: 0 <= i < |ts| && ts[i].isInPlaylist ==> ts[i].uri in r.data.value.uris
    ensures forall u :: u in r.data.value.uris ==> exists t :: t in ts && t.isInPlaylist && t.uri == u
  {
    TrackUrisArePlaylistUris(ts);
    ApiRequest("playlists/" + playlistId + "/tracks", "PUT", Some(UrisBody(TrackUris(ts))))
  }

  /** `createNewPlaylist()`: a private playlist under `users/${userProfileId}/playlists`,
      where a profile id not loaded yet reads `null`. */
  function CreateRequest(profileId: Option<string>, name: string): (r: ApiRequest)
    ensures r.verb == "POST" && r.data == Some(CreateBody(name, Description, false))
    ensures profileId.Some? ==> r.path == "users/" + profileId.value + "/playlists"
    ensures profileId.None? ==> r.path == "users/null/playlists"
  {
    var owner := if profileId.Some? then profileId.value else "null";
    ApiRequest("users/" + owner + "/playlists", "POST", Some(CreateBody(name, Description, false)))
  }

  /** `updatePlaylistName(playlistId)`: sends the new name to the playlist's own resource, the
      one the lookup reads. */
  function RenameRequest(playlistId: string, name: string): (r: ApiRequest)
    ensures r.verb == "PUT" && r.data == Some(RenameBody(name))
    ensures r.path == "playlists/" + playlistId
    ensures playlistId != "" ==> GetPlaylistRequest(playlistId) == Some(ApiRequest(r.path, "GET", None))
  {
    ApiRequest("playlists/" + playlistId, "PUT", Some(RenameBody(name)))
  }

  /** What the k-th request of a save gives back; a missing reply is an error. */
  function Reply(replies: seq<ApiReply>, k: nat): ApiReply
  {
    if k < |replies| then replies[k] else Threw
  }

  /** JavaScript truthiness of a reply: an object is truthy, null and an error are not. */
  predicate Answered(r: ApiReply)
  {
    r.Object?
  }

  class Editor {
    const window: Window
    const list: TrackList
    var playlistInfo: PlaylistInfo
    var buttonText: string
    var isActiveEffect: bool
    /** Bumped to replay the "saved" fade-out. */
    var fadeKey: int

    ghost predicate Valid()
      reads this, window
    {
      window.Valid()
    }

    constructor (w: Window, l: TrackList)
      requires w.Valid()
      ensures Valid() && window == w && list == l
      ensures playlistInfo == PlaylistInfo("", "") && buttonText == LoginLabel
      ensures !isActiveEffect && fadeKey == 0
    {
      window, list := w, l;
      playlistInfo := PlaylistInfo("", "");
      buttonText := LoginLabel;
      isActiveEffect, fadeKey := false, 0;
    }

    /** The mount effect: a stashed playlist and track list are restored, and both keys are
        removed whether or not they were there. */
    method RestoreFromStorage()
      requires Valid()
      modifies this, window, list
      ensures Valid()
      ensures var s := old(window.stash);
        playlistInfo == if PlaylistInfoKey in s && s[PlaylistInfoKey].StashedInfo?
                        then s[PlaylistInfoKey].info else old(playlistInfo)
      ensures var s := old(window.stash);
        list.tracks == if TracksKey in s && s[TracksKey].StashedTracks?
                       then s[TracksKey].tracks else old(list.tracks)
      ensures window.stash == old(window.stash) - {PlaylistInfoKey, TracksKey}
      ensures window.storage == old(window.storage) - {PlaylistInfoKey, TracksKey}
      ensures window.code == old(window.code)
      ensures window.log == old(window.log) + [RemoveItem(PlaylistInfoKey), RemoveItem(TracksKey)]
      ensures buttonText == old(buttonText) && fadeKey == old(fadeKey)
      ensures isActiveEffect == old(isActiveEffect)
    {
      if PlaylistInfoKey in window.stash && window.stash[PlaylistInfoKey].StashedInfo? {
        playlistInfo := window.stash[PlaylistInfoKey].info;
      }
      if TracksKey in window.stash && window.stash[TracksKey].StashedTracks? {
        list.tracks := window.stash[TracksKey].tracks;
      }
      window.RemoveItem(PlaylistInfoKey);
      window.RemoveItem(TracksKey);
    }

    /** The button-text effect. */
    method UpdateButtonText(userAccessToken: Option<string>)
      modifies this
      ensures buttonText == ButtonLabel(userAccessToken, playlistInfo.id)
      ensures playlistInfo == old(playlistInfo) && fadeKey == old(fadeKey)
      ensures isActiveEffect == old(isActiveEffect)
    {
      if Truthy(userAccessToken) && playlistInfo.id == "" {
        buttonText := SaveLabel;
      } else if playlistInfo.id != "" {
        buttonText := UpdateLabel;
      } else if !Truthy(userAccessToken) {
        buttonText := LoginLabel;
      }
    }

    /** `handleButtonEffect()`: starts the button animation unless it is already running. */
    method HandleButtonEffect()
      modifies this
      ensures isActiveEffect
      ensures playlistInfo == old(playlistInfo) && fadeKey == old(fadeKey)
      ensures buttonText == old(buttonText)
    {
      if isActiveEffect {
        return;
      }
      isActiveEffect := true;
    }

    /** The timer the button effect starts, when it fires. */
    method EndButtonEffect()
      modifies this
      ensures !isActiveEffect
      ensures playlistInfo == old(playlistInfo) && fadeKey == old(fadeKey)
      ensures buttonText == old(buttonText)
    {
      isActiveEffect := false;
    }

    /** The save without a user token: park the playlist and the track list, then log in. */
    method ParkAndLogin(clientId: string, redirectUri: string, random: seq<byte>,
                        sha256: seq<byte> -> seq<byte>)
      requires Valid() && |random| == VerifierLength
      modifies window
      ensures Valid()
      ensures window.stash == old(window.stash)[PlaylistInfoKey := StashedInfo(playlistInfo)]
                [TracksKey := StashedTracks(list.tracks)] - {SpotifyTokens.CodeVerifierKey}
      ensures window.log == old(window.log)
        + [StashItem(PlaylistInfoKey, StashedInfo(playlistInfo)), StashItem(TracksKey, StashedTracks(list.tracks)),
           SetItem(SpotifyTokens.CodeVerifierKey, Pkce.GenerateRandomString(random)),
           Navigate(LoginUrl(clientId, redirectUri, Pkce.GenerateRandomString(random), sha256))]
      ensures window.storage == (old(window.storage) - {PlaylistInfoKey, TracksKey})
                [SpotifyTokens.CodeVerifierKey := Pkce.GenerateRandomString(random)]
      ensures window.code == old(window.code)
    {
      window.StashItem(PlaylistInfoKey, StashedInfo(playlistInfo));
      window.StashItem(TracksKey, StashedTracks(list.tracks));
      assert window.storage == old(window.storage) - {PlaylistInfoKey, TracksKey};
      var verifier := Login(window, clientId, redirectUri, random, sha256);
      FourAppended(old(window.log), StashItem(PlaylistInfoKey, StashedInfo(playlistInfo)),
        StashItem(TracksKey, StashedTracks(list.tracks)), SetItem(SpotifyTokens.CodeVerifierKey, verifier),
        Navigate(LoginUrl(clientId, redirectUri, verifier, sha256)));
    }

    /** The save of a playlist Spotify does not know: create it (the k-th request of the
        save), record the new id, then send the tracks. */
    method CreateAndFill(userProfileId: Option<string>, replies: seq<ApiReply>, k: nat)
      returns (requests: seq<ApiRequest>)
      modifies this
      ensures var created := Reply(replies, k);
        var made := created.Object? && Truthy(created.id);
        && requests == [CreateRequest(userProfileId, old(playlistInfo.name))]
             + (if made then [UpdateTracksRequest(created.id.value, list.tracks)] else [])
        && playlistInfo == (if made then old(playlistInfo).(id := created.id.value) else old(playlistInfo))
        && fadeKey == old(fadeKey) + (if made && Answered(Reply(replies, k + 1)) then 1 else 0)
      ensures buttonText == old(buttonText) && isActiveEffect == old(isActiveEffect)
    {
      requests := [CreateRequest(userProfileId, playlistInfo.name)];
      var newPlaylist := Reply(replies, k);
      if newPlaylist.Threw? {
        return;
      }
      if newPlaylist.Object? && Truthy(newPlaylist.id) {
        playlistInfo := playlistInfo.(id := newPlaylist.id.value);
        requests := requests + [UpdateTracksRequest(newPlaylist.id.value, list.tracks)];
        var response := Reply(replies, k + 1);
        if response.Threw? {
          return;
        }
        if Answered(response) {
          fadeKey := fadeKey + 1;
        }
      }
    }

    /** The save of a playlist that exists (its lookup was the first request): send the
        tracks, then the name. */
    method UpdateExisting(replies: seq<ApiReply>) returns (requests: seq<ApiRequest>)
      modifies this
      ensures requests == [UpdateTracksRequest(old(playlistInfo.id), list.tracks)]
        + (if Reply(replies, 1).Threw? then [] else [RenameRequest(old(playlistInfo.id), old(playlistInfo.name))])
      ensures fadeKey == old(fadeKey) +
        (if Answered(Reply(replies, 1)) && !Reply(replies, 2).Threw? then 1 else 0)
      ensures playlistInfo == old(playlistInfo)
      ensures buttonText == old(buttonText) && isActiveEffect == old(isActiveEffect)
    {
      requests := [UpdateTracksRequest(playlistInfo.id, list.tracks)];
      var response := Reply(replies, 1);
      if response.Threw? {
        return;
      }
      requests := requests + [RenameRequest(playlistInfo.id, playlistInfo.name)];
      if Reply(replies, 2).Threw? {
        return;
      }
      if Answered(response) {
        fadeKey := fadeKey + 1;
      }
    }

    /** `handleSaveToSpotify(e)`. `replies[k]` is what the k-th request of the save gives
        back; the login arguments are those `spotifyLogin` draws on. Returns the requests
        made, in order. A playlist counts as existing when its lookup gives back an object. */
    method HandleSaveToSpotify(userAccessToken: Option<string>, userProfileId: Option<string>,
                               replies: seq<ApiReply>, clientId: string, redirectUri: string,
                               random: seq<byte>, sha256: seq<byte> -> seq<byte>)
      returns (requests: seq<ApiRequest>)
      requires Valid() && |random| == VerifierLength
      modifies this, window
      ensures Valid()
      ensures buttonText == old(buttonText) && isActiveEffect == old(isActiveEffect)
      ensures playlistInfo.name == old(playlistInfo.name)
      // without a token: park the playlist, then log in; no API request
      ensures !Truthy(userAccessToken) ==>
        && requests == [] && playlistInfo == old(playlistInfo) && fadeKey == old(fadeKey)
        && window.stash == old(window.stash)[PlaylistInfoKey := StashedInfo(old(playlistInfo))]
             [TracksKey := StashedTracks(list.tracks)] - {SpotifyTokens.CodeVerifierKey}
        && window.log == old(window.log)
             + [StashItem(PlaylistInfoKey, StashedInfo(old(playlistInfo))), StashItem(TracksKey, StashedTracks(list.tracks)),
                SetItem(SpotifyTokens.CodeVerifierKey, Pkce.GenerateRandomString(random)),
                Navigate(LoginUrl(clientId, redirectUri, Pkce.GenerateRandomString(random), sha256))]
        && window.storage == (old(window.storage) - {PlaylistInfoKey, TracksKey})
             [SpotifyTokens.CodeVerifierKey := Pkce.GenerateRandomString(random)]
        && window.code == old(window.code)
      // with a token: the window is untouched
      ensures Truthy(userAccessToken) ==>
        window.log == old(window.log) && window.storage == old(window.storage)
        && window.stash == old(window.stash) && window.code == old(window.code)
      // a failed lookup ends the save
      ensures Truthy(userAccessToken) && old(playlistInfo.id) != "" && Reply(replies, 0).Threw? ==>
        requests == [GetPlaylistRequest(old(playlistInfo.id)).value]
        && playlistInfo == old(playlistInfo) && fadeKey == old(fadeKey)
      // no such playlist: create it, record its id, then send its tracks
      ensures var id := old(playlistInfo.id);
        var lookup := if id == "" then [] else [GetPlaylistRequest(id).value];
        var created := Reply(replies, |lookup|);
        var made := created.Object? && Truthy(created.id);
        Truthy(userAccessToken) && (id == "" || Reply(replies, 0).Null?) ==>
          && requests == lookup + [CreateRequest(userProfileId, old(playlistInfo.name))]
               + (if made then [UpdateTracksRequest(created.id.value, list.tracks)] else [])
          && playlistInfo.id == (if made then created.id.value else id)
          && fadeKey == old(fadeKey) + (if made && Answered(Reply(replies, |lookup| + 1)) then 1 else 0)
      // an existing playlist: send its tracks, then its name
      ensures var id := old(playlistInfo.id);
        Truthy(userAccessToken) && id != "" && Reply(replies, 0).Object? ==>
          && playlistInfo == old(playlistInfo)
          && requests == [GetPlaylistRequest(id).value, UpdateTracksRequest(id, list.tracks)]
               + (if Reply(replies, 1).Threw? then [] else [RenameRequest(id, old(playlistInfo.name))])
          && fadeKey == old(fadeKey) +
               (if Answered(Reply(replies, 1)) && !Reply(replies, 2).Threw? then 1 else 0)
    {
      if !Truthy(userAccessToken) {
        ParkAndLogin(clientId, redirectUri, random, sha256);
        return [];
      }
      requests := [];
      var existingPlaylist := false;
      var lookup := GetPlaylistRequest(playlistInfo.id);
      if lookup.Some? {
        requests := [lookup.value];
        var response := Reply(replies, 0);
        if response.Threw? {
          return;
        }
        existingPlaylist := Answered(response);
      }
      var more;
      if !existingPlaylist {
        more := CreateAndFill(userProfileId, replies, |requests|);
      } else {
        more := UpdateExisting(replies);
      }
      requests := requests + more;
    }
  }
}
