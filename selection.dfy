/**
 * The selected-songs list of the search component as values: the record it holds, the
 * pure functions its event handlers apply to it, and what they guarantee. Three handlers
 * key records differently, as the component does: the add/remove toggle by `id`, the
 * delete button and the "is selected" check by `songTitle`, and the playlist import not
 * at all.
 */
module Selection {
  import opened Wrappers
  import opened Lists
  import opened Catalog
  import opened Gateway
  import opened PlaylistUrl

  /**
   * One entry of `selectedSongs`. Entries made from a search result carry the track's `id`;
   * entries imported from a playlist have no `id` property at all (`None`).
   */
  datatype SelectedItem = SelectedItem(id: Option<string>, songTitle: string, artist: string, albumCover: Option<string>)

  /** The entry `handleSelectSong` adds for a search result. */
  function FromSearchResult(t: Track): (r: SelectedItem)
    ensures r.id == Some(t.id)
    ensures r.songTitle == t.name
    ensures r.artist == Join(ArtistNames(t), ", ")
    ensures r.albumCover.None? <==> t.album.images == []
    ensures r.albumCover.Some? ==> r.albumCover.value == t.album.images[0].url
  {
    SelectedItem(Some(t.id), t.name, ArtistLine(t), AlbumCover(t))
  }

  /** `selectedSongs.some(selectedSong => selectedSong.id === song.id)` */
  predicate HasId(items: seq<SelectedItem>, id: string)
    ensures HasId(items, id) <==> exists i :: 0 <= i < |items| && items[i].id == Some(id)
  {
    Any(items, (x: SelectedItem) => x.id == Some(id))
  }

  /** `prevSongs.filter(selectedSong => selectedSong.id !== song.id)` */
  function WithoutId(items: seq<SelectedItem>, id: string): (r: seq<SelectedItem>)
    ensures forall x :: x in r <==> x in items && x.id != Some(id)
  {
    Filter(items, (x: SelectedItem) => x.id != Some(id))
  }

  /**
   * What `handleSelectSong(song)` turns the list into: remove by `id` if present, else append.
   * Either way the track's `id` flips between present and absent, and every entry with
   * another `id` stays.
   */
  function Toggled(items: seq<SelectedItem>, t: Track): (r: seq<SelectedItem>)
    ensures HasId(r, t.id) <==> !HasId(items, t.id)
    ensures forall x :: x in items && x.id != Some(t.id) ==> x in r
  {
    if HasId(items, t.id) then WithoutId(items, t.id)
    else
      var r := items + [FromSearchResult(t)];
      assert r[|items|].id == Some(t.id);
      r
  }

  /** `prevSongs.filter(selectedSong => selectedSong.songTitle !== song.songTitle)` */
  function WithoutTitle(items: seq<SelectedItem>, title: string): (r: seq<SelectedItem>)
    ensures forall x :: x in r <==> x in items && x.songTitle != title
  {
    Filter(items, (x: SelectedItem) => x.songTitle != title)
  }

  /**
   * `selectedSongs.some(selectedSong => selectedSong.songTitle === song.songTitle)`, where
   * `key` is the argument's `songTitle` property (`None` when the argument has none).
   */
  predicate TitleSelected(items: seq<SelectedItem>, key: Option<string>)
    ensures TitleSelected(items, key) <==> exists i :: 0 <= i < |items| && Some(items[i].songTitle) == key
  {
    Any(items, (x: SelectedItem) => Some(x.songTitle) == key)
  }

  /** No two entries that have an `id` share it (entries without one are never compared). */
  predicate DifferentIds(a: SelectedItem, b: SelectedItem)
  {
    a.id.Some? ==> a.id != b.id
  }

  /** The invariant the toggle keeps: an `id` occurs at most once in the list. */
  ghost predicate IdsDistinct(items: seq<SelectedItem>)
  {
    Pairwise(items, DifferentIds)
  }

  /**
   * Toggling a track whose `id` is absent appends exactly one entry, built from the track:
   * its `id`, its name as `songTitle`, its artists' names joined with `", "`, and its first
   * image URL or `null`. Earlier entries stay as they were.
   */
  lemma ToggleAbsentAppends(items: seq<SelectedItem>, t: Track)
    requires !HasId(items, t.id)
    ensures var r := Toggled(items, t);
      && |r| == |items| + 1
      && r[..|items|] == items
      && r[|items|].id == Some(t.id)
      && r[|items|].songTitle == t.name
      && r[|items|].artist == Join(ArtistNames(t), ", ")
      && (r[|items|].albumCover.None? <==> t.album.images == [])
      && (r[|items|].albumCover.Some? ==> r[|items|].albumCover.value == t.album.images[0].url)
  {
  }

  /**
   * Toggling a track whose `id` is present removes every entry with that `id` and keeps every
   * other entry; the list gets strictly shorter.
   */
  lemma {:induction false} TogglePresentRemoves(items: seq<SelectedItem>, t: Track)
    requires HasId(items, t.id)
    ensures var r := Toggled(items, t);
      && (forall x :: x in r ==> x.id != Some(t.id))
      && (forall x :: x in items && x.id != Some(t.id) ==> x in r)
      && |r| < |items|
  {
    var keep := (x: SelectedItem) => x.id != Some(t.id);
    FilterKeepsAll(items, keep);
    assert Filter(items, keep) != items by {
      var i :| 0 <= i < |items| && items[i].id == Some(t.id);
      assert items[i] in items && !keep(items[i]);
    }
    FilterShrinks(items, keep);
  }

  /**
   * Under the invariant that an `id` occurs at most once, toggling a present `id` removes
   * exactly one entry, the one carrying it, and closes the gap it leaves.
   */
  lemma {:induction false} TogglePresentRemovesOne(items: seq<SelectedItem>, t: Track)
    requires IdsDistinct(items) && HasId(items, t.id)
    ensures |Toggled(items, t)| == |items| - 1
    ensures exists i :: (0 <= i < |items| && items[i].id == Some(t.id) &&
      Toggled(items, t) == items[..i] + items[i + 1..])
  {
    var i :| 0 <= i < |items| && items[i].id == Some(t.id);
    var keep := (x: SelectedItem) => x.id != Some(t.id);
    forall j | 0 <= j < |items| && j != i
      ensures keep(items[j])
    {
      if j < i {
        assert DifferentIds(items[j], items[i]);
      } else {
        assert DifferentIds(items[i], items[j]);
      }
    }
    FilterDropsOne(items, keep, i);
  }

  /** Toggling a track that was not selected, and toggling it again, restores the list. */
  lemma {:induction false} ToggleTwiceRestores(items: seq<SelectedItem>, t: Track)
    requires !HasId(items, t.id)
    ensures Toggled(Toggled(items, t), t) == items
  {
    var added := FromSearchResult(t);
    var once := items + [added];
    assert Toggled(items, t) == once;
    assert once[|items|] == added;
    assert HasId(once, t.id);
    var keep := (x: SelectedItem) => x.id != Some(t.id);
    FilterAppend(items, [added], keep);
    FilterKeepsAll(items, keep);
    assert Filter([added], keep) == [] + Filter([], keep);
  }

  /**
   * The toggle keeps the invariant that an `id` occurs at most once: it appends only an
   * `id` that is absent, and removing entries cannot create a repeat.
   */
  lemma {:induction false} ToggleKeepsIdsDistinct(items: seq<SelectedItem>, t: Track)
    requires IdsDistinct(items)
    ensures IdsDistinct(Toggled(items, t))
  {
    if HasId(items, t.id) {
      FilterKeepsPairwise(items, (x: SelectedItem) => x.id != Some(t.id), DifferentIds);
    } else {
      var r := items + [FromSearchResult(t)];
      forall i, j | 0 <= i < j < |r| ensures DifferentIds(r[i], r[j]) {
        if j < |items| {
          assert r[i] == items[i] && r[j] == items[j];
        }
      }
    }
  }

  /**
   * Deleting removes exactly the entries whose `songTitle` is the given title, whatever
   * their `id`, and keeps the rest in order: deleting an absent title changes nothing, and
   * deleting twice is deleting once.
   */
  lemma {:induction false} DeleteByTitle(items: seq<SelectedItem>, title: string)
    ensures !TitleSelected(items, Some(title)) ==> WithoutTitle(items, title) == items
    ensures WithoutTitle(WithoutTitle(items, title), title) == WithoutTitle(items, title)
  {
    var keep := (x: SelectedItem) => x.songTitle != title;
    FilterKeepsAll(items, keep);
    FilterIdempotent(items, keep);
  }

  /** Deleting keeps the invariant that an `id` occurs at most once. */
  lemma DeleteKeepsIdsDistinct(items: seq<SelectedItem>, title: string)
    requires IdsDistinct(items)
    ensures IdsDistinct(WithoutTitle(items, title))
  {
    FilterKeepsPairwise(items, (x: SelectedItem) => x.songTitle != title, DifferentIds);
  }

  /**
   * `response.json()` as `formatPlaylistTracks` sees it: `null`, a value that is not an object,
   * or an array or object whose `Object.values` are the records.
   */
  datatype Payload = Null | NotAnObject | Records(values: seq<PlaylistRecord>)

  /**
   * `formatPlaylistTracks`: nothing for `null` or a non-object; otherwise one entry per
   * record, in order, with `song` renamed to `songTitle`, `artist` and `albumCover` copied,
   * and no `id`.
   */
  function FormatPlaylistTracks(p: Payload): (r: seq<SelectedItem>)
    ensures !p.Records? ==> r == []
    ensures p.Records? ==> |r| == |p.values| && forall i :: 0 <= i < |r| ==>
      && r[i].id.None?
      && r[i].songTitle == p.values[i].song
      && r[i].artist == p.values[i].artist
      && r[i].albumCover == p.values[i].albumCover
  {
    match p
    case Records(values) =>
      seq(|values|, i requires 0 <= i < |values| =>
        SelectedItem(None, values[i].song, values[i].artist, values[i].albumCover))
    case _ => []
  }

  /** Why a playlist import left the list alone. */
  datatype ImportError =
    | InvalidLink   // `extractPlaylistId` threw
    | FetchFailed   // the request, or parsing its body as JSON, failed

  /**
   * What `handlePastePlaylist` appends for the link in the input field, given what the
   * server answers for each playlist id: the formatted records, or why nothing is appended.
   */
  function PasteOutcome(link: string, fetchPlaylist: string -> Option<Payload>): (r: Result<seq<SelectedItem>, ImportError>)
    ensures r == Failure(InvalidLink) <==> ExtractPlaylistId(link).Failure?
    ensures r == Failure(FetchFailed) <==>
      ExtractPlaylistId(link).Success? && fetchPlaylist(ExtractPlaylistId(link).value).None?
    ensures r.Success? ==> r.value == FormatPlaylistTracks(fetchPlaylist(ExtractPlaylistId(link).value).value)
  {
    match ExtractPlaylistId(link)
    case Failure(_) => Failure(InvalidLink)
    case Success(id) =>
      match fetchPlaylist(id)
      case None => Failure(FetchFailed)
      case Some(payload) => Success(FormatPlaylistTracks(payload))
  }

  /** Imported entries have no `id`, so appending them keeps the invariant that an `id` occurs at most once. */
  lemma ImportKeepsIdsDistinct(items: seq<SelectedItem>, imported: seq<SelectedItem>)
    requires IdsDistinct(items)
    requires forall x :: x in imported ==> x.id.None?
    ensures IdsDistinct(items + imported)
  {
    var r := items + imported;
    forall i, j | 0 <= i < j < |r| ensures DifferentIds(r[i], r[j]) {
      if j < |items| {
        assert r[i] == items[i] && r[j] == items[j];
      } else {
        assert r[j] in imported;
      }
    }
  }

  /** What the client receives from the server: the records on success; a 500's text body does not parse as JSON. */
  function ServerPayload(response: Result<seq<PlaylistRecord>, GatewayError>): (r: Option<Payload>)
    ensures r.Some? <==> response.Success?
    ensures r.Some? ==> r.value == Records(response.value)
  {
    if response.Success? then Some(Records(response.value)) else None
  }

  /**
   * Both tiers together: when the server expands the playlist, an import appends one entry
   * per expanded item, at most 25, in playlist order, each titled with the track's name,
   * crediting its artists joined with `", "`, and without an `id`.
   */
  lemma PasteFromServer(link: string, info: Option<PlaylistInfo>, getTrack: string -> Option<Track>)
    requires ExtractPlaylistId(link).Success?
    requires GetPlaylistTracks(info, getTrack).Success?
    ensures var fetch := (id: string) => ServerPayload(GetPlaylistTracks(info, getTrack));
      var r := PasteOutcome(link, fetch);
      var items := PlaylistItems(info).value;
      && r.Success?
      && |r.value| == (if |items| < PlaylistTrackLimit then |items| else PlaylistTrackLimit)
      && forall i :: 0 <= i < |r.value| ==>
           var t := Lookup(items[i], getTrack);
           && t.Some?
           && r.value[i].id.None?
           && r.value[i].songTitle == t.value.name
           && r.value[i].artist == ArtistLine(t.value)
  {
  }

  /**
   * The `songTitle` property of a catalog search result. Search results carry `name`, not
   * `songTitle`, so the property is undefined.
   */
  const SearchResultSongTitle: Option<string> := None

  /**
   * As written, the search list asks `isSongSelected(track)` of a search result, whose
   * `songTitle` is undefined, while every entry's `songTitle` is a string: a track that was
   * just added, and is in the list under its `id`, still reads as not selected.
   */
  lemma SelectedSearchResultReadsUnselected(t: Track)
    ensures var items := Toggled([], t);
      HasId(items, t.id) && !TitleSelected(items, SearchResultSongTitle)
  {
    assert Toggled([], t)[0].id == Some(t.id);
  }

  /** The check the search list evidently intends: is the result in the list under its `id`, the toggle's own key. */
  predicate IsTrackSelected(items: seq<SelectedItem>, t: Track)
  {
    HasId(items, t.id)
  }

  /** With the intended check, every toggle flips whether the track reads as selected. */
  lemma ToggleFlipsSelection(items: seq<SelectedItem>, t: Track)
    ensures IsTrackSelected(Toggled(items, t), t) <==> !IsTrackSelected(items, t)
  {
    var r := Toggled(items, t);
    if !IsTrackSelected(items, t) {
      assert r[|items|].id == Some(t.id);
    }
  }
}
