/** The browser state the client hooks touch: `localStorage`, the `code` parameter of the
    current URL's query string, and a log of the storage writes and navigations in the
    order they happen (so that "written together" and "stored before navigating" can be
    stated). */
module Browser {
  import opened Types

  /** The two records usePlaylist stashes in `localStorage` as JSON text before a login. */
  datatype Stashed = StashedInfo(info: PlaylistInfo) | StashedTracks(tracks: seq<Track>)

  /** A URL with its query parameters in insertion order (their percent-encoding is left to
      `URLSearchParams`). */
  datatype Url = Url(origin: string, query: seq<(string, string)>)

  datatype Effect =
    | SetItem(key: string, value: string)
    | StashItem(key: string, record: Stashed)
    | RemoveItem(key: string)
    | ClearStorage
    | ReplaceState
    | Navigate(url: Url)

  /** One browser tab. `localStorage` is a single key/value store; its string items and its
      JSON-record items are kept in two maps whose key sets never overlap. */
  class Window {
    var storage: map<string, string>
    var stash: map<string, Stashed>
    /** `new URLSearchParams(window.location.search).get("code")` */
    var code: Option<string>
    var log: seq<Effect>

    ghost predicate Valid()
      reads this
    {
      storage.Keys !! stash.Keys
    }

    constructor (storage0: map<string, string>, stash0: map<string, Stashed>, code0: Option<string>)
      requires storage0.Keys !! stash0.Keys
      ensures Valid()
      ensures storage == storage0 && stash == stash0 && code == code0 && log == []
    {
      storage, stash, code, log := storage0, stash0, code0, [];
    }

    /** `localStorage.getItem(key)` for a string item; null when absent. */
    function GetItem(key: string): (r: Option<string>)
      reads this
      ensures r.Some? <==> key in storage
      ensures r.Some? ==> r.value == storage[key]
    {
      if key in storage then Some(storage[key]) else None
    }

    method SetItem(key: string, value: string)
      requires Valid()
      modifies this
      ensures Valid()
      ensures storage == old(storage)[key := value] && stash == old(stash) - {key}
      ensures code == old(code) && log == old(log) + [Effect.SetItem(key, value)]
    {
      storage := storage[key := value];
      stash := stash - {key};
      log := log + [Effect.SetItem(key, value)];
    }

    /** `localStorage.setItem(key, JSON.stringify(record))` */
    method StashItem(key: string, record: Stashed)
      requires Valid()
      modifies this
      ensures Valid()
      ensures stash == old(stash)[key := record] && storage == old(storage) - {key}
      ensures code == old(code) && log == old(log) + [Effect.StashItem(key, record)]
    {
      stash := stash[key := record];
      storage := storage - {key};
      log := log + [Effect.StashItem(key, record)];
    }

    method RemoveItem(key: string)
      requires Valid()
      modifies this
      ensures Valid()
      ensures storage == old(storage) - {key} && stash == old(stash) - {key}
      ensures code == old(code) && log == old(log) + [Effect.RemoveItem(key)]
    {
      storage := storage - {key};
      stash := stash - {key};
      log := log + [Effect.RemoveItem(key)];
    }

    /** `localStorage.clear()` */
    method Clear()
      requires Valid()
      modifies this
      ensures Valid()
      ensures storage == map[] && stash == map[]
      ensures code == old(code) && log == old(log) + [ClearStorage]
    {
      storage, stash := map[], map[];
      log := log + [ClearStorage];
    }

    /** `window.history.replaceState({}, title, window.location.pathname)`: the query
        string, and with it the `code` parameter, is gone from the visible URL. */
    method ReplaceState()
      requires Valid()
      modifies this
      ensures Valid()
      ensures storage == old(storage) && stash == old(stash)
      ensures code == None && log == old(log) + [Effect.ReplaceState]
    {
      code := None;
      log := log + [Effect.ReplaceState];
    }

    /** `window.location.href = url` */
    method Navigate(url: Url)
      requires Valid()
      modifies this
      ensures Valid()
      ensures storage == old(storage) && stash == old(stash)
      ensures code == old(code) && log == old(log) + [Effect.Navigate(url)]
    {
      log := log + [Effect.Navigate(url)];
    }
  }
}
