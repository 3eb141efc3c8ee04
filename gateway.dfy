/**
 * The server's `GET /playlists/:playlistId` handler, from the playlist the catalog
 * returned to the JSON array it sends back. The catalog calls are inputs: the playlist
 * lookup is its (possibly missing) response, and the per-track detail lookup is a
 * function from a track id to the detail it resolves to, or `None` when that call fails.
 */
module Gateway {
  import opened Wrappers
  import opened Catalog
  import opened Lists

  /** At most this many playlist items are expanded into records. */
  const PlaylistTrackLimit := 25

  /** `item.track.id`; `None` when the item has no track to look up. */
  datatype PlaylistItem = PlaylistItem(trackId: Option<string>)
  /** `body.tracks`, with its possibly missing `items`. */
  datatype TracksPage = TracksPage(items: Option<seq<PlaylistItem>>)
  /** The playlist's `body`, with its possibly missing `tracks`. */
  datatype PlaylistBody = PlaylistBody(tracks: Option<TracksPage>)
  /** What the playlist lookup resolved to, with its possibly missing `body`. */
  datatype PlaylistInfo = PlaylistInfo(body: Option<PlaylistBody>)

  /** One element of the response array: `{albumCover, artist, song}`. */
  datatype PlaylistRecord = PlaylistRecord(albumCover: Option<string>, artist: string, song: string)

  /** Why the handler answered with a server error instead of records. */
  datatype GatewayError =
    | PlaylistUnavailable  // the playlist, its body, its tracks or its items are missing
    | UpstreamError        // a per-track detail lookup failed

  /** `playlistInfo.body.tracks.items`, or `None` if any link of that chain is missing. */
  function PlaylistItems(info: Option<PlaylistInfo>): (r: Option<seq<PlaylistItem>>)
    ensures r.None? <==>
      info.None? || info.value.body.None? || info.value.body.value.tracks.None?
      || info.value.body.value.tracks.value.items.None?
    ensures r.Some? ==> r.value == info.value.body.value.tracks.value.items.value
  {
    if info.None? || info.value.body.None? || info.value.body.value.tracks.None? then None
    else info.value.body.value.tracks.value.items
  }

  /** `tracks.slice(0, 25)`: the first 25 items, or all of them when there are fewer. */
  function Capped(items: seq<PlaylistItem>): (r: seq<PlaylistItem>)
    ensures |r| == if |items| < PlaylistTrackLimit then |items| else PlaylistTrackLimit
    ensures forall i :: 0 <= i < |r| ==> r[i] == items[i]
  {
    if |items| < PlaylistTrackLimit then items else items[..PlaylistTrackLimit]
  }

  /** `spotifyApi.getTrack(track.track.id)` for one item. */
  function Lookup(item: PlaylistItem, getTrack: string -> Option<Track>): (r: Option<Track>)
    ensures item.trackId.None? ==> r.None?
    ensures item.trackId.Some? ==> r == getTrack(item.trackId.value)
  {
    if item.trackId.None? then None else getTrack(item.trackId.value)
  }

  /**
   * The `Promise.all` over the detail lookups: every item's detail, in item order,
   * or nothing at all as soon as one lookup fails.
   */
  function DetailedTracks(items: seq<PlaylistItem>, getTrack: string -> Option<Track>): (r: Option<seq<Track>>)
    ensures r.Some? <==> forall i :: 0 <= i < |items| ==> Lookup(items[i], getTrack).Some?
    ensures r.Some? ==> |r.value| == |items|
    ensures r.Some? ==> forall i :: 0 <= i < |items| ==> Lookup(items[i], getTrack) == Some(r.value[i])
  {
    if items == [] then Some([])
    else
      var first := Lookup(items[0], getTrack);
      var rest := DetailedTracks(items[1..], getTrack);
      assert forall i :: 1 <= i < |items| ==> items[i] == items[1..][i - 1];
      if first.None? || rest.None? then None else Some([first.value] + rest.value)
  }

  /** The `{albumCover, artist, song}` record built from one track's detail. */
  function ToRecord(t: Track): (r: PlaylistRecord)
    ensures r.song == t.name
    ensures r.artist == Join(ArtistNames(t), ArtistSeparator)
    ensures r.albumCover.None? <==> t.album.images == []
    ensures r.albumCover.Some? ==> r.albumCover.value == t.album.images[0].url
  {
    PlaylistRecord(AlbumCover(t), ArtistLine(t), t.name)
  }

  /**
   * The handler's outcome: the JSON array it responds with, or the error behind its 500.
   * Without the playlist's items there is no record at all; with them, the request
   * succeeds exactly when each of the first 25 detail lookups does, and record `i` is
   * then built from item `i`'s detail: the song is the track's name, the artist line
   * joins the artists' names, and the album cover is the first image URL or `null`.
   */
  function GetPlaylistTracks(info: Option<PlaylistInfo>, getTrack: string -> Option<Track>)
    : (r: Result<seq<PlaylistRecord>, GatewayError>)
    ensures r == Failure(PlaylistUnavailable) <==>
      info.None? || info.value.body.None? || info.value.body.value.tracks.None?
      || info.value.body.value.tracks.value.items.None?
    ensures PlaylistItems(info).Some? ==>
      var items := PlaylistItems(info).value;
      (r.Success? <==>
        forall i :: 0 <= i < |items| && i < PlaylistTrackLimit ==> Lookup(items[i], getTrack).Some?)
    ensures r.Success? ==>
      var items := PlaylistItems(info).value;
      && |r.value| == (if |items| < PlaylistTrackLimit then |items| else PlaylistTrackLimit)
      && forall i :: 0 <= i < |r.value| ==>
           var t := Lookup(items[i], getTrack);
           && t.Some?
           && r.value[i].song == t.value.name
           && r.value[i].artist == ArtistLine(t.value)
           && (r.value[i].albumCover.None? <==> t.value.album.images == [])
           && (r.value[i].albumCover.Some? ==> r.value[i].albumCover.value == t.value.album.images[0].url)
  {
    match PlaylistItems(info)
    case None => Failure(PlaylistUnavailable)
    case Some(items) =>
      var capped := Capped(items);
      assert forall i :: 0 <= i < |items| && i < PlaylistTrackLimit ==> capped[i] == items[i];
      match DetailedTracks(capped, getTrack)
      case None => Failure(UpstreamError)
      case Some(details) => Success(seq(|details|, i requires 0 <= i < |details| => ToRecord(details[i])))
  }

  /** Items past the 25th are never looked at: two playlists that agree on their first 25 items get the same response. */
  lemma GetPlaylistTracksIgnoresTail(
    info: Option<PlaylistInfo>, info': Option<PlaylistInfo>, getTrack: string -> Option<Track>)
    requires PlaylistItems(info).Some? && PlaylistItems(info').Some?
    requires Capped(PlaylistItems(info).value) == Capped(PlaylistItems(info').value)
    ensures GetPlaylistTracks(info, getTrack) == GetPlaylistTracks(info', getTrack)
  {
  }
}
