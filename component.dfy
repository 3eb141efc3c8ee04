/**
 * The search component's state and the event handlers that update it. Each React state
 * hook becomes a field and each setter call an assignment; the handlers run one event at
 * a time. The network calls are parameters: `search` gives what `/search` answers for a
 * query and `fetchPlaylist` what `/playlists/:id` answers for an id, `None` when the
 * request or the parsing of its body fails.
 */
module Component {
  import opened Wrappers
  import opened Catalog
  import opened Selection
  import PlaylistUrl

  class SearchComponent {
    var query: string
    var searchResults: seq<Track>
    var selectedSongs: seq<SelectedItem>
    var playlistLink: string

    /** An `id` occurs at most once among the selected songs; every handler keeps this. */
    ghost predicate Valid()
      reads this
    {
      IdsDistinct(selectedSongs)
    }

    /** The initial state of the hooks: every string empty and every list empty. */
    constructor ()
      ensures Valid()
      ensures query == "" && searchResults == [] && selectedSongs == [] && playlistLink == ""
    {
      query := "";
      searchResults := [];
      selectedSongs := [];
      playlistLink := "";
    }

    /**
     * Typing in the search box, then the effect that runs on the new query: an empty query
     * clears the results without a request; otherwise a successful search replaces them,
     * and a failed one leaves them as they were.
     */
    method ChangeQuery(q: string, search: string -> Option<seq<Track>>)
      requires Valid()
      modifies this`query, this`searchResults
      ensures Valid()
      ensures query == q
      ensures q == "" ==> searchResults == []
      ensures q != "" && search(q).Some? ==> searchResults == search(q).value
      ensures q != "" && search(q).None? ==> searchResults == old(searchResults)
    {
      query := q;
      if query == "" {
        searchResults := [];
        return;
      }
      var data := search(query);
      if data.Some? {
        searchResults := data.value;
      }
    }

    /** `handleSelectSong`: remove every entry with the track's `id`, or append a new entry for it. */
    method HandleSelectSong(song: Track)
      requires Valid()
      modifies this`selectedSongs
      ensures Valid()
      ensures selectedSongs == Toggled(old(selectedSongs), song)
      ensures HasId(old(selectedSongs), song.id) ==> |selectedSongs| == |old(selectedSongs)| - 1
      ensures !HasId(old(selectedSongs), song.id) ==> |selectedSongs| == |old(selectedSongs)| + 1
    {
      ToggleKeepsIdsDistinct(selectedSongs, song);
      if HasId(selectedSongs, song.id) {
        TogglePresentRemovesOne(selectedSongs, song);
      }
      var isSongSelected := HasId(selectedSongs, song.id);
      if isSongSelected {
        selectedSongs := WithoutId(selectedSongs, song.id);
      } else {
        selectedSongs := selectedSongs + [FromSearchResult(song)];
      }
    }

    /** `isSongSelected`: some entry's `songTitle` equals the argument's `songTitle` property `key`. */
    predicate IsSongSelected(key: Option<string>)
      reads this
      ensures IsSongSelected(key) <==>
        exists i :: 0 <= i < |selectedSongs| && Some(selectedSongs[i].songTitle) == key
    {
      TitleSelected(selectedSongs, key)
    }

    /** `handleDeleteSelectedSong`: drop every entry titled like the given one. */
    method HandleDeleteSelectedSong(song: SelectedItem)
      requires Valid()
      modifies this`selectedSongs
      ensures Valid()
      ensures selectedSongs == WithoutTitle(old(selectedSongs), song.songTitle)
    {
      DeleteKeepsIdsDistinct(selectedSongs, song.songTitle);
      selectedSongs := WithoutTitle(selectedSongs, song.songTitle);
    }

    /** Typing in the playlist-link field. */
    method SetPlaylistLink(link: string)
      requires Valid()
      modifies this`playlistLink
      ensures Valid()
      ensures playlistLink == link
    {
      playlistLink := link;
    }

    /**
     * `handlePastePlaylist`: parse the link, fetch the playlist, and append every formatted
     * record after the current entries, without de-duplication, then clear the link field.
     * A bad link or a failed fetch changes nothing.
     */
    method HandlePastePlaylist(fetchPlaylist: string -> Option<Payload>) returns (r: Result<seq<SelectedItem>, ImportError>)
      requires Valid()
      modifies this`selectedSongs, this`playlistLink
      ensures Valid()
      ensures r == PasteOutcome(old(playlistLink), fetchPlaylist)
      ensures r.Success? ==> selectedSongs == old(selectedSongs) + r.value && playlistLink == ""
      ensures r.Success? ==> |selectedSongs| == |old(selectedSongs)| + |r.value|
      ensures r.Failure? ==> selectedSongs == old(selectedSongs) && playlistLink == old(playlistLink)
    {
      var playlistId := PlaylistUrl.ExtractPlaylistId(playlistLink);
      if playlistId.Failure? {
        return Failure(InvalidLink);
      }
      var data := fetchPlaylist(playlistId.value);
      if data.None? {
        return Failure(FetchFailed);
      }
      var formattedTracks := FormatPlaylistTracks(data.value);
      ImportKeepsIdsDistinct(selectedSongs, formattedTracks);
      selectedSongs := selectedSongs + formattedTracks;
      playlistLink := "";
      r := Success(formattedTracks);
    }

    /** `handleCloseModal`: the link field is cleared. */
    method HandleCloseModal()
      requires Valid()
      modifies this`playlistLink
      ensures Valid()
      ensures playlistLink == ""
    {
      playlistLink := "";
    }
  }
}
