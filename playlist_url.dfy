/**
 * `extractPlaylistId`: the client's playlist-link parser, which applies the regular
 * expression `/\/playlist\/(\w+)/` and returns its capture group. Without the `g` flag
 * `match` reports the leftmost match, and `\w+` takes the longest run of word characters
 * there, so the identifier is the word run after the first `/playlist/` that is followed
 * by at least one word character.
 */
module PlaylistUrl {
  import opened Wrappers

  /** The literal the expression looks for. */
  const Marker := "/playlist/"

  /** Raised as `Error('Invalid playlist URL')` when nothing matches. */
  datatype UrlError = InvalidPlaylistUrl

  /** `\w` without the `u` flag: `[A-Za-z0-9_]`. */
  predicate IsWordChar(c: char)
  {
    ('a' <= c <= 'z') || ('A' <= c <= 'Z') || ('0' <= c <= '9') || c == '_'
  }

  /** The expression matches at `i`: the marker starts there and a word character follows it. */
  predicate MatchesAt(url: string, i: nat)
  {
    i + |Marker| < |url| && url[i..i + |Marker|] == Marker && IsWordChar(url[i + |Marker|])
  }

  /** `i` is the leftmost position where the expression matches. */
  ghost predicate IsFirstMatch(url: string, i: nat)
  {
    MatchesAt(url, i) && forall j :: 0 <= j < i ==> !MatchesAt(url, j)
  }

  /** `id` is the longest non-empty run of word characters that starts at `from`. */
  ghost predicate IsWordRunAt(url: string, from: nat, id: string)
  {
    && id != []
    && from + |id| <= |url|
    && url[from..from + |id|] == id
    && (forall k :: 0 <= k < |id| ==> IsWordChar(id[k]))
    && (from + |id| == |url| || !IsWordChar(url[from + |id|]))
  }

  /** The leftmost match at or after `from`, scanning left to right as the regex engine does. */
  function FirstMatchFrom(url: string, from: nat): (r: Option<nat>)
    ensures r.Some? ==> from <= r.value && MatchesAt(url, r.value)
    ensures r.Some? ==> forall j :: from <= j < r.value ==> !MatchesAt(url, j)
    ensures r.None? ==> forall j :: from <= j ==> !MatchesAt(url, j)
    decreases |url| - from
  {
    if from + |Marker| >= |url| then None
    else if MatchesAt(url, from) then Some(from)
    else FirstMatchFrom(url, from + 1)
  }

  /** Where the greedy `\w+` stops when it starts at `from`: the first non-word character, or the end. */
  function WordRunEnd(url: string, from: nat): (end: nat)
    requires from <= |url|
    ensures from <= end <= |url|
    ensures forall k :: from <= k < end ==> IsWordChar(url[k])
    ensures end == |url| || !IsWordChar(url[end])
    decreases |url| - from
  {
    if from == |url| || !IsWordChar(url[from]) then from else WordRunEnd(url, from + 1)
  }

  /**
   * The identifier the link names, or the error `extractPlaylistId` throws. It fails
   * exactly when no `/playlist/` is followed by a word character; otherwise the result is
   * the whole word run after the leftmost such marker.
   */
  function ExtractPlaylistId(url: string): (r: Result<string, UrlError>)
    ensures r.Failure? <==> forall i :: 0 <= i < |url| ==> !MatchesAt(url, i)
    ensures r.Success? ==> exists i: nat :: IsFirstMatch(url, i) && IsWordRunAt(url, i + |Marker|, r.value)
  {
    match FirstMatchFrom(url, 0)
    case None => Failure(InvalidPlaylistUrl)
    case Some(i) =>
      var start := i + |Marker|;
      var end := WordRunEnd(url, start);
      var id := url[start..end];
      assert forall k :: 0 <= k < |id| ==> id[k] == url[start + k];
      assert IsFirstMatch(url, i) && IsWordRunAt(url, start, id);
      Success(id)
  }

  /**
   * The leftmost-longest description determines the result: whenever `i` is the leftmost
   * match and `id` the word run after its marker, the parser returns exactly `id`.
   */
  lemma ExtractPlaylistIdIsFirstRun(url: string, i: nat, id: string)
    requires IsFirstMatch(url, i) && IsWordRunAt(url, i + |Marker|, id)
    ensures ExtractPlaylistId(url) == Success(id)
  {
    var m := FirstMatchFrom(url, 0);
    assert m == Some(i);
    var start := i + |Marker|;
    WordRunIsUnique(url, start, id, WordRunEnd(url, start));
  }

  /** Two maximal word runs from the same position have the same end. */
  lemma WordRunIsUnique(url: string, from: nat, id: string, end: nat)
    requires IsWordRunAt(url, from, id)
    requires from <= end <= |url|
    requires forall k :: from <= k < end ==> IsWordChar(url[k])
    requires end == |url| || !IsWordChar(url[end])
    ensures url[from..end] == id
  {
  }

  /** The scheme and host of the catalog's share links. */
  const ShareHost := "https:" + "//" + "open.spotify.com"

  /** A share link for the playlist `id`, followed by a query such as `?si=...`. */
  function ShareLink(id: string, query: string): string
  {
    ShareHost + Marker + id + query
  }

  /** A character that differs from the marker's rules out a match. */
  lemma MismatchIsNoMatch(url: string, i: nat, k: nat)
    requires k < |Marker| && i + k < |url| && url[i + k] != Marker[k]
    ensures !MatchesAt(url, i)
  {
    if i + |Marker| < |url| {
      assert url[i..i + |Marker|][k] == url[i + k];
    }
  }

  /** No position inside the share host starts a match: no `/` there is followed by `p`. */
  lemma ShareHostHasNoMatch(url: string, j: nat)
    requires |url| > |ShareHost| && url[..|ShareHost| + 1] == ShareHost + "/"
    requires j < |ShareHost|
    ensures !MatchesAt(url, j)
  {
    var scheme, host := "https:", "open.spotify.com";
    assert '/' !in scheme && '/' !in host;
    var prefix := ShareHost + "/";
    assert url[j] == prefix[j] && url[j + 1] == prefix[j + 1];
    if j < |scheme| {
      assert prefix[j] == scheme[j];
      MismatchIsNoMatch(url, j, 0);
    } else if j < |scheme| + 2 {
      assert prefix[j + 1] == if j == |scheme| then '/' else host[0];
      MismatchIsNoMatch(url, j, 1);
    } else {
      assert prefix[j] == host[j - |scheme| - 2];
      MismatchIsNoMatch(url, j, 0);
    }
  }

  /**
   * Round trip: a share link built from a word-character identifier and a query that
   * does not continue the identifier parses back to that identifier.
   */
  lemma ShareLinkRoundTrip(id: string, query: string)
    requires id != [] && forall k :: 0 <= k < |id| ==> IsWordChar(id[k])
    requires query == [] || !IsWordChar(query[0])
    ensures ExtractPlaylistId(ShareLink(id, query)) == Success(id)
  {
    var url := ShareLink(id, query);
    var at := |ShareHost|;
    var start := at + |Marker|;
    assert url == ShareHost + (Marker + id + query);
    assert url[..at + 1] == ShareHost + "/";
    assert url[at..start] == Marker;
    assert url[start..start + |id|] == id;
    assert start + |id| < |url| ==> url[start + |id|] == query[0];
    assert url[start] == id[0];
    forall j: nat | j < at
      ensures !MatchesAt(url, j)
    {
      ShareHostHasNoMatch(url, j);
    }
    assert IsFirstMatch(url, at);
    ExtractPlaylistIdIsFirstRun(url, at, id);
  }

  /** The link a user copies from the catalog's share menu gives its identifier. */
  lemma ExtractPlaylistIdShareLink(url: string)
    requires url == "https://open.spotify.com/playlist/abc123?si=xyz"
    ensures ExtractPlaylistId(url) == Success("abc123")
  {
    var id, query := "abc123", "?si=xyz";
    assert url == ShareLink(id, query);
    assert forall k :: 0 <= k < |id| ==> IsWordChar(id[k]);
    ShareLinkParses(url, id, query);
  }

  /** `ShareLinkRoundTrip`, stated for a link given by its text. */
  lemma ShareLinkParses(url: string, id: string, query: string)
    requires url == ShareLink(id, query)
    requires id != [] && forall k :: 0 <= k < |id| ==> IsWordChar(id[k])
    requires query == [] || !IsWordChar(query[0])
    ensures ExtractPlaylistId(url) == Success(id)
  {
    ShareLinkRoundTrip(id, query);
  }
}
