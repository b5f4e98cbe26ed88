/** The track list (useTracks, and the same `togglePlaylist` in App.jsx): one list holds both
    the search results and the playlist, told apart by each track's `isInPlaylist` flag. A
    search replaces the results and keeps the playlist; a toggle moves one track between
    the two. */
module Tracks {
  import opened Types
  import opened Decimal

  // ---------------------------------------------------------------------------------------
  // The list transforms

  /** `tracks.filter((t) => t.isInPlaylist)` */
  function InPlaylist(ts: seq<Track>): (r: seq<Track>)
    ensures |r| <= |ts|
    ensures forall i :: 0 <= i < |r| ==> r[i].isInPlaylist
    ensures forall t :: t in r <==> t in ts && t.isInPlaylist
  {
    if ts == [] then []
    else if ts[0].isInPlaylist then [ts[0]] + InPlaylist(ts[1..])
    else InPlaylist(ts[1..])
  }

  /** `a` is `b` with some elements left out, the rest in the same order. */
  predicate IsSubsequence<T(==)>(a: seq<T>, b: seq<T>)
    decreases |b|
  {
    if a == [] then true
    else if b == [] then false
    else (a[0] == b[0] && IsSubsequence(a[1..], b[1..])) || IsSubsequence(a, b[1..])
  }

  /** The playlist part of the list keeps its order, and every flagged track, with its
      multiplicity. */
  lemma {:induction false} InPlaylistKeepsOrder(ts: seq<Track>)
    ensures IsSubsequence(InPlaylist(ts), ts)
    ensures forall t :: multiset(InPlaylist(ts))[t] == if t.isInPlaylist then multiset(ts)[t] else 0
  {
    if ts != [] {
      InPlaylistKeepsOrder(ts[1..]);
      assert ts == [ts[0]] + ts[1..];
      if ts[0].isInPlaylist {
        assert InPlaylist(ts)[1..] == InPlaylist(ts[1..]);
      }
    }
  }

  /** The ids of some tracks. */
  function Ids(ts: seq<Track>): (r: set<string>)
    ensures forall id :: id in r <==> exists i :: 0 <= i < |ts| && ts[i].id == id
  {
    if ts == [] then {} else {ts[0].id} + Ids(ts[1..])
  }

  /** `items.map((track) => ({...track, isInPlaylist: false}))` */
  function MarkNotInPlaylist(items: seq<Track>): (r: seq<Track>)
    ensures |r| == |items|
    ensures forall i :: 0 <= i < |r| ==> r[i] == items[i].(isInPlaylist := false)
  {
    if items == [] then [] else [items[0].(isInPlaylist := false)] + MarkNotInPlaylist(items[1..])
  }

  /** `ts.filter((t) => !ids.has(t.id))` */
  function DropIds(ts: seq<Track>, ids: set<string>): (r: seq<Track>)
    ensures |r| <= |ts|
    ensures forall t :: t in r <==> t in ts && t.id !in ids
  {
    if ts == [] then []
    else if ts[0].id in ids then DropIds(ts[1..], ids)
    else [ts[0]] + DropIds(ts[1..], ids)
  }

  /** The update a successful search applies to the previous list. After a search the list
      starts with exactly the previous playlist tracks in their order; every track after
      them is a result, unflagged, whose id is not in the playlist; every such result is
      there; and none of the previous search results survives unless the new search
      returned it again. */
  function MergeSearch(prev: seq<Track>, items: seq<Track>): (r: seq<Track>)
    ensures |InPlaylist(prev)| <= |r| && r[..|InPlaylist(prev)|] == InPlaylist(prev)
    ensures r[|InPlaylist(prev)|..] == DropIds(MarkNotInPlaylist(items), Ids(InPlaylist(prev)))
    ensures forall i :: |InPlaylist(prev)| <= i < |r| ==>
      && !r[i].isInPlaylist && r[i].id !in Ids(InPlaylist(prev))
      && exists j :: 0 <= j < |items| && r[i] == items[j].(isInPlaylist := false)
    ensures forall j :: 0 <= j < |items| && items[j].id !in Ids(InPlaylist(prev)) ==>
      items[j].(isInPlaylist := false) in r[|InPlaylist(prev)|..]
    ensures forall t :: t in r ==> t.isInPlaylist || t in MarkNotInPlaylist(items)
  {
    var inPlaylist := InPlaylist(prev);
    MergedShape(inPlaylist, items);
    inPlaylist + DropIds(MarkNotInPlaylist(items), Ids(inPlaylist))
  }

  /** The shape of flagged tracks followed by the results whose ids they do not hold. */
  lemma MergedShape(kept: seq<Track>, items: seq<Track>)
    requires forall i :: 0 <= i < |kept| ==> kept[i].isInPlaylist
    ensures var r := kept + DropIds(MarkNotInPlaylist(items), Ids(kept));
      && |kept| <= |r| && r[..|kept|] == kept
      && r[|kept|..] == DropIds(MarkNotInPlaylist(items), Ids(kept))
      && (forall i :: |kept| <= i < |r| ==>
            && !r[i].isInPlaylist && r[i].id !in Ids(kept)
            && exists j :: 0 <= j < |items| && r[i] == items[j].(isInPlaylist := false))
      && (forall j :: 0 <= j < |items| && items[j].id !in Ids(kept) ==>
            items[j].(isInPlaylist := false) in r[|kept|..])
      && (forall t :: t in r ==> t.isInPlaylist || t in MarkNotInPlaylist(items))
  {
    var added := DropIds(MarkNotInPlaylist(items), Ids(kept));
    AddedResults(items, Ids(kept));
    var r := kept + added;
    assert r[..|kept|] == kept;
    assert r[|kept|..] == added;
    assert forall i :: |kept| <= i < |r| ==> r[i] == added[i - |kept|];
  }

  /** The results a search adds: unflagged results whose id is not taken, all of them. */
  lemma AddedResults(items: seq<Track>, ids: set<string>)
    ensures var added := DropIds(MarkNotInPlaylist(items), ids);
      && (forall k :: 0 <= k < |added| ==>
            && !added[k].isInPlaylist && added[k].id !in ids
            && exists j :: 0 <= j < |items| && added[k] == items[j].(isInPlaylist := false))
      && (forall j :: 0 <= j < |items| && items[j].id !in ids ==>
            items[j].(isInPlaylist := false) in added)
  {
    var marked := MarkNotInPlaylist(items);
    var added := DropIds(marked, ids);
    forall k | 0 <= k < |added|
      ensures !added[k].isInPlaylist && added[k].id !in ids
      ensures exists j :: 0 <= j < |items| && added[k] == items[j].(isInPlaylist := false)
    {
      assert added[k] in added;
      assert added[k] in marked;
      var j :| 0 <= j < |marked| && marked[j] == added[k];
    }
    forall j | 0 <= j < |items| && items[j].id !in ids
      ensures items[j].(isInPlaylist := false) in added
    {
      assert marked[j] in marked;
    }
  }

  /** `tracks.map((t) => t.id === id ? {...t, isInPlaylist: !t.isInPlaylist} : t)` */
  function Toggle(ts: seq<Track>, id: string): (r: seq<Track>)
    ensures |r| == |ts|
    ensures forall i :: 0 <= i < |ts| ==>
      r[i] == if ts[i].id == id then ts[i].(isInPlaylist := !ts[i].isInPlaylist) else ts[i]
  {
    if ts == [] then []
    else
      var t := ts[0];
      [if t.id == id then t.(isInPlaylist := !t.isInPlaylist) else t] + Toggle(ts[1..], id)
  }

  /** Toggling keeps every track where it is and changes nothing but the flag; toggling the
      same id twice gives back the list. */
  lemma ToggleTwice(ts: seq<Track>, id: string)
    ensures Toggle(Toggle(ts, id), id) == ts
    ensures forall i :: 0 <= i < |ts| ==>
      Toggle(ts, id)[i].id == ts[i].id && Toggle(ts, id)[i].uri == ts[i].uri
      && (Toggle(ts, id)[i].isInPlaylist != ts[i].isInPlaylist <==> ts[i].id == id)
  {
  }

  // ---------------------------------------------------------------------------------------
  // The search request

  /** `!searchTerm?.trim()`: no term, or one made of whitespace only (`trim` leaves nothing
      exactly when skipping the leading whitespace leaves nothing). */
  predicate IsBlank(term: Option<string>)
    ensures IsBlank(term) <==>
      term.None? || forall i :: 0 <= i < |term.value| ==> IsJsWhitespace(term.value[i])
  {
    if term.None? then true
    else
      BlankIsAllWhitespace(term.value);
      SkipWhitespace(term.value) == []
  }

  lemma {:induction false} BlankIsAllWhitespace(s: string)
    ensures SkipWhitespace(s) == [] <==> forall i :: 0 <= i < |s| ==> IsJsWhitespace(s[i])
  {
    if s != [] && IsJsWhitespace(s[0]) {
      BlankIsAllWhitespace(s[1..]);
      assert forall i :: 1 <= i < |s| ==> s[i] == s[1..][i - 1];
    }
  }

  /** The characters `encodeURIComponent` leaves as they are. */
  predicate IsUriUnreserved(c: char)
  {
    ('A' <= c <= 'Z') || ('a' <= c <= 'z') || ('0' <= c <= '9')
    || c == '-' || c == '_' || c == '.' || c == '!' || c == '~' || c == '*' || c == '\''
    || c == '(' || c == ')'
  }

  predicate IsUpperHex(c: char)
  {
    ('0' <= c <= '9') || ('A' <= c <= 'F')
  }

  function HexDigit(d: nat): (c: char)
    requires d < 16
    ensures IsUpperHex(c)
  {
    if d < 10 then '0' + (d as char) else 'A' + ((d - 10) as char)
  }

  /** `%XY` for each byte, upper-case hex. */
  function PercentBytes(bs: seq<byte>): (r: string)
    ensures |r| == 3 * |bs|
    ensures forall i :: 0 <= i < |r| ==> if i % 3 == 0 then r[i] == '%' else IsUpperHex(r[i])
  {
    if bs == [] then []
    else
      var rest := PercentBytes(bs[1..]);
      var r := ['%', HexDigit(bs[0] / 16), HexDigit(bs[0] % 16)] + rest;
      assert forall i :: 3 <= i < |r| ==> r[i] == rest[i - 3];
      r
  }

  /** A character an encoded URI component may contain. */
  predicate IsComponentChar(c: char)
  {
    IsUriUnreserved(c) || c == '%'
  }

  /** `encodeURIComponent(s)`: unreserved characters as they are, every other character as
      the percent-encoding of its UTF-8 bytes. The result never contains a character that
      separates query parameters, so the term stays inside the `q` parameter. */
  function EncodeUriComponent(s: string): (r: string)
    ensures forall i :: 0 <= i < |r| ==> IsComponentChar(r[i])
    ensures forall i :: 0 <= i < |r| ==> r[i] != '&' && r[i] != '=' && r[i] != '#' && r[i] != ' '
  {
    if s == [] then []
    else
      var head := if IsUriUnreserved(s[0]) then [s[0]] else PercentBytes(Utf8(s[0]));
      var rest := EncodeUriComponent(s[1..]);
      assert forall i :: 0 <= i < |head| ==> IsComponentChar(head[i]);
      assert forall i :: |head| <= i < |head + rest| ==> (head + rest)[i] == rest[i - |head|];
      head + rest
  }

  /** The query string of a search: `q=${encodeURIComponent(term)}&type=track&limit=10`. */
  /** Whatever the term, it holds exactly three parameters: the encoded term, `type=track`
      and `limit=10`. */
  function SearchQuery(term: string): (q: string)
    ensures SplitOn(q, '&') == ["q=" + EncodeUriComponent(term), "type=track", "limit=10"]
  {
    var param := "q=" + EncodeUriComponent(term);
    TermParameterIsWhole(term);
    SplitOnPrefix(param, '&', "type=track" + ['&'] + "limit=10");
    FixedParameters();
    assert [param] + ["type=track", "limit=10"] == [param, "type=track", "limit=10"];
    param + ['&'] + ("type=track" + ['&'] + "limit=10")
  }

  /** The path of a search request: the search endpoint, then the query. */
  function SearchPath(term: string): (p: string)
    ensures |p| >= 7 && p[..7] == "search?"
    ensures SplitOn(p[7..], '&') == ["q=" + EncodeUriComponent(term), "type=track", "limit=10"]
  {
    var p := "search?" + SearchQuery(term);
    assert p[7..] == SearchQuery(term);
    p
  }

  /** The pieces of `s` between the occurrences of `sep`. */
  function SplitOn(s: string, sep: char): (r: seq<string>)
    ensures |r| >= 1
  {
    if s == [] then [[]]
    else
      var rest := SplitOn(s[1..], sep);
      if s[0] == sep then [[]] + rest else [[s[0]] + rest[0]] + rest[1..]
  }

  lemma {:induction false} SplitOnPrefix(a: string, sep: char, b: string)
    requires sep !in a
    ensures SplitOn(a + [sep] + b, sep) == [a] + SplitOn(b, sep)
  {
    if a == [] {
      assert a + [sep] + b == [sep] + b;
      assert ([sep] + b)[1..] == b;
    } else {
      assert (a + [sep] + b)[1..] == a[1..] + [sep] + b;
      SplitOnPrefix(a[1..], sep, b);
      assert [a[0]] + a[1..] == a;
    }
  }

  lemma {:induction false} SplitOnAbsent(s: string, sep: char)
    requires sep !in s
    ensures SplitOn(s, sep) == [s]
  {
    if s != [] {
      SplitOnAbsent(s[1..], sep);
      assert [s[0]] + s[1..] == s;
    }
  }

  /** The `q` parameter holds no separator. */
  lemma TermParameterIsWhole(term: string)
    ensures '&' !in "q=" + EncodeUriComponent(term)
  {
    var enc := EncodeUriComponent(term);
    var q := "q=" + enc;
    forall i | 0 <= i < |q| ensures q[i] != '&' {
      if i >= 2 { assert q[i] == enc[i - 2]; }
    }
  }

  /** The two fixed parameters after the term. */
  lemma FixedParameters()
    ensures SplitOn("type=track" + ['&'] + "limit=10", '&') == ["type=track", "limit=10"]
  {
    SplitOnPrefix("type=track", '&', "limit=10");
    SplitOnAbsent("limit=10", '&');
  }

  // ---------------------------------------------------------------------------------------
  // The hook's state

  class TrackList {
    var tracks: seq<Track>

    constructor ()
      ensures tracks == []
    {
      tracks := [];
    }

    /** `handleSearch(searchTerm)`. A blank term empties the list and makes no request.
        Otherwise one GET is made; `reply` is what it gave back. A reply with `tracks.items`
        merges them in; any other reply, or an error, leaves the list as it was. */
    method HandleSearch(searchTerm: Option<string>, reply: ApiReply)
      returns (request: Option<ApiRequest>)
      modifies this
      ensures IsBlank(searchTerm) ==> tracks == [] && request == None
      ensures !IsBlank(searchTerm) ==>
        request == Some(ApiRequest(SearchPath(searchTerm.value), "GET", None))
      ensures !IsBlank(searchTerm) && reply.Object? && reply.items.Some? ==>
        tracks == MergeSearch(old(tracks), reply.items.value)
      ensures !IsBlank(searchTerm) && !(reply.Object? && reply.items.Some?) ==>
        tracks == old(tracks)
    {
      if IsBlank(searchTerm) {
        tracks := [];
        return None;
      }
      request := Some(ApiRequest(SearchPath(searchTerm.value), "GET", None));
      if reply.Object? && reply.items.Some? {
        var newTracks := MarkNotInPlaylist(reply.items.value);
        var inPlaylist := InPlaylist(tracks);
        var inPlaylistIds := Ids(inPlaylist);
        tracks := inPlaylist + DropIds(newTracks, inPlaylistIds);
      }
    }

    /** `togglePlaylist(id)` */
    method TogglePlaylist(id: string)
      modifies this
      ensures tracks == Toggle(old(tracks), id)
    {
      tracks := Toggle(tracks, id);
    }
  }
}
