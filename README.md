# Selection list, playlist import and playlist shaping of a music-recommender web app

The application is a browser search component backed by a small Express server that
forwards to the Spotify Web API. Search, metadata and playback all happen upstream. This
project models the logic the two tiers apply to the data they pass along:

- **Server, `GET /playlists/:playlistId`** (`gateway.dfy`, module `Gateway`). It checks that
  the playlist's body, tracks and items exist. It keeps the first 25 items and looks up each
  one's track detail, failing as a whole if any lookup fails. It then maps each detail to
  `{albumCover, artist, song}`.
- **Shared track shaping** (`catalog.dfy`, module `Catalog`). Artist names are joined with
  `", "`, and the album cover is the first image URL or `null`. Both tiers use this.
- **Client, `extractPlaylistId`** (`playlist_url.dfy`, module `PlaylistUrl`). The regular
  expression `/\/playlist\/(\w+)/` becomes a leftmost search for a match plus a greedy run of
  word characters.
- **Client, the selected-songs list** (`selection.dfy`, module `Selection`). These are the pure
  functions behind the handlers. The toggle is keyed by `id`, delete and the "is selected"
  check by `songTitle`, and the playlist import appends without de-duplication. The three
  keys are kept as the code has them.
- **Client, the component state** (`component.dfy`, class `Component.SearchComponent`).
  `query`, `searchResults`, `selectedSongs` and `playlistLink` are fields. Each handler is a
  method that replaces them, and every handler keeps the invariant that an `id` occurs at most
  once in the list.
- `lists.dfy` (module `Lists`) holds the JavaScript array operations used throughout
  (`filter`, `some`, `join`) and their lemmas. `wrappers.dfy` holds `Option` and `Result`.

Upstream calls are inputs. The playlist lookup is an `Option<PlaylistInfo>`. The per-track
detail lookup is a function `string -> Option<Track>`. The client's requests to `/search` and
`/playlists/:id` are functions from the query or id to `Option` of the parsed body. `None`
means the request failed, or its body was not JSON (the server's 500 answers with plain text).

Behaviour of the code that the model keeps as it is:

- Toggling a track whose `id` is already in the list removes it; adding is never a no-op.
- A playlist import appends every record, even one already in the list.
- Delete removes every entry with the given title, whatever its `id`.
- A search response is applied when it arrives, even if the query has changed since.

## Model

| member | source | states |
|---|---|---|
| `Lists.Filter` | my-music-recommender/src/SearchComponent.js:32 | the result holds exactly the input's elements that pass the predicate, and is no longer than the input |
| `Lists.FilterAppend` | my-music-recommender/src/SearchComponent.js:67 | filtering distributes over concatenation, so survivors keep their original order |
| `Lists.FilterKeepsAll` | my-music-recommender/src/SearchComponent.js:67 | a filter returns its input unchanged exactly when every element passes |
| `Lists.FilterIdempotent` | my-music-recommender/src/SearchComponent.js:67 | filtering twice with the same predicate equals filtering once |
| `Lists.FilterShrinks` | my-music-recommender/src/SearchComponent.js:32 | a filter that drops an element returns a strictly shorter list |
| `Lists.FilterDropsOne` | my-music-recommender/src/SearchComponent.js:32 | a filter that rejects exactly one position returns the list with that one entry cut out |
| `Lists.FilterKeepsPairwise` | my-music-recommender/src/SearchComponent.js:32 | a relation holding between every earlier and later element still holds after filtering |
| `Lists.Any` | my-music-recommender/src/SearchComponent.js:30 | `some` is true exactly when some element satisfies the predicate |
| `Lists.JoinSpellsParts` | my-music-recommender/src/SearchComponent.js:37 | `join` puts part `i` at its offset and a separator after every part but the last, in order |
| `Lists.OffsetNext` | server/server.js:68 | each joined part moves the next part's start by its length plus the separator |
| `Lists.Join` | my-music-recommender/src/SearchComponent.js:37 | `join` gives the empty string for no parts, and otherwise ends exactly where its last part ends |
| `Catalog.AlbumCover` | server/server.js:67 | the cover is `null` exactly when the album has no images, and is otherwise the first image's URL |
| `Catalog.ArtistNames` | server/server.js:68 | one name per artist, in the track's order |
| `Catalog.ArtistLine` | server/server.js:68 | no artists give the empty line, and a single artist gives just that name |
| `Catalog.ArtistLineSpellsNames` | server/server.js:68 | the artist line lists each artist's name in the track's order, with `", "` between neighbours and nothing after the last |
| `Gateway.PlaylistItems` | server/server.js:50-54 | there are no items exactly when the playlist, its body, its tracks or its items are missing; otherwise they are `body.tracks.items` |
| `Gateway.Capped` | server/server.js:57 | `slice(0, 25)` keeps `min(n, 25)` items, each equal to the item at the same position |
| `Gateway.Lookup` | server/server.js:61 | an item without a track id fails; otherwise the result is the detail lookup of that id |
| `Gateway.DetailedTracks` | server/server.js:60-63 | the lookups give a result exactly when every lookup succeeds, with one detail per item in item order |
| `Gateway.ToRecord` | server/server.js:66-70 | `song` is the track's name, `artist` joins its artists' names with `", "`, and `albumCover` is `null` exactly when there are no images and is otherwise the first URL |
| `Gateway.GetPlaylistTracks` | server/server.js:47-77 | a missing playlist, body, tracks or items is an error with no records; otherwise the request succeeds exactly when each of the first 25 lookups does; then there are `min(n, 25)` records, record `i` is item `i`'s track, and each record's song, artist line and cover come from that track |
| `Gateway.GetPlaylistTracksIgnoresTail` | server/server.js:57 | playlists that agree on their first 25 items get the same response |
| `PlaylistUrl.FirstMatchFrom` | my-music-recommender/src/SearchComponent.js:72 | it finds the leftmost position from `from` where `/playlist/` is followed by a word character, or reports that there is none |
| `PlaylistUrl.WordRunEnd` | my-music-recommender/src/SearchComponent.js:72 | greedy `\w+` stops at the first non-word character or at the end |
| `PlaylistUrl.ExtractPlaylistId` | my-music-recommender/src/SearchComponent.js:71-78 | it fails exactly when no `/playlist/` is followed by a word character; on success the id is non-empty, made only of word characters, follows the leftmost such marker, and ends at a non-word character or the end |
| `PlaylistUrl.ExtractPlaylistIdIsFirstRun` | my-music-recommender/src/SearchComponent.js:72-74 | conversely, the leftmost match together with the maximal word run after it determines the result |
| `PlaylistUrl.WordRunIsUnique` | my-music-recommender/src/SearchComponent.js:72 | two maximal word runs that start at the same position are equal |
| `PlaylistUrl.MismatchIsNoMatch` | my-music-recommender/src/SearchComponent.js:72 | a character that differs from the marker rules out a match at that position |
| `PlaylistUrl.ShareHostHasNoMatch` | my-music-recommender/src/SearchComponent.js:72 | no position inside `https://open.spotify.com` starts a match |
| `PlaylistUrl.ShareLinkRoundTrip` | my-music-recommender/src/SearchComponent.js:71-78 | a share link built from a word-character id, followed by a query that starts with a non-word character, parses back to that id |
| `PlaylistUrl.ShareLinkParses` | my-music-recommender/src/SearchComponent.js:71-78 | the same round trip, for a link given as text |
| `PlaylistUrl.ExtractPlaylistIdShareLink` | my-music-recommender/src/SearchComponent.js:71-78 | `https://open.spotify.com/playlist/abc123?si=xyz` gives `abc123` |
| `Selection.FromSearchResult` | my-music-recommender/src/SearchComponent.js:34-39 | the new entry takes the track's `id`, its name as title, its artists' names joined with `", "`, and its first image URL or `null` |
| `Selection.HasId` | my-music-recommender/src/SearchComponent.js:30 | true exactly when some entry's `id` is the track's `id` |
| `Selection.WithoutId` | my-music-recommender/src/SearchComponent.js:32 | it keeps exactly the entries whose `id` differs |
| `Selection.Toggled` | my-music-recommender/src/SearchComponent.js:29-40 | the track's `id` goes from present to absent or from absent to present, and every entry with another `id` stays |
| `Selection.ToggleAbsentAppends` | my-music-recommender/src/SearchComponent.js:33-39 | toggling an absent `id` appends one entry and leaves the earlier entries as they were; the new entry's `id`, title, artist line and cover come from the track |
| `Selection.TogglePresentRemoves` | my-music-recommender/src/SearchComponent.js:30-32 | toggling a present `id` leaves no entry with that `id`, keeps every other entry, and shortens the list |
| `Selection.TogglePresentRemovesOne` | my-music-recommender/src/SearchComponent.js:30-32 | when each `id` occurs at most once, toggling a present `id` cuts out exactly the one entry carrying it |
| `Selection.ToggleTwiceRestores` | my-music-recommender/src/SearchComponent.js:29-40 | toggling an absent track twice restores the original list |
| `Selection.ToggleKeepsIdsDistinct` | my-music-recommender/src/SearchComponent.js:29-40 | the toggle keeps every `id` at most once in the list |
| `Selection.WithoutTitle` | my-music-recommender/src/SearchComponent.js:67 | it keeps exactly the entries whose title differs, whatever their `id` |
| `Selection.DeleteByTitle` | my-music-recommender/src/SearchComponent.js:66-68 | deleting an absent title leaves the list unchanged, and deleting twice equals deleting once |
| `Selection.DeleteKeepsIdsDistinct` | my-music-recommender/src/SearchComponent.js:66-68 | delete keeps every `id` at most once in the list |
| `Selection.TitleSelected` | my-music-recommender/src/SearchComponent.js:44-46 | true exactly when some entry's title equals the argument's `songTitle` property |
| `Selection.FormatPlaylistTracks` | my-music-recommender/src/SearchComponent.js:81-94 | `null` or a non-object gives `[]`; otherwise there is one entry per record, in order, with `song` renamed to `songTitle`, `artist` and `albumCover` copied, and no `id` |
| `Selection.PasteOutcome` | my-music-recommender/src/SearchComponent.js:103-117 | a bad link or a failed fetch each give their own error; otherwise the result is the formatted records of the fetched playlist |
| `Selection.ImportKeepsIdsDistinct` | my-music-recommender/src/SearchComponent.js:117 | appending imported entries, which have no `id`, keeps every `id` at most once |
| `Selection.ServerPayload` | server/server.js:73-76 | the client gets the records exactly when the server succeeded; a 500's text body yields nothing |
| `Selection.PasteFromServer` | my-music-recommender/src/SearchComponent.js:109-117 | across both tiers, an import appends `min(n, 25)` entries in playlist order, titled with each track's name and crediting its joined artists |
| `Selection.SelectedSearchResultReadsUnselected` | my-music-recommender/src/SearchComponent.js:161 | the check as written reads a just-selected search result as not selected |
| `Selection.ToggleFlipsSelection` | my-music-recommender/src/SearchComponent.js:161-173 | with the check keyed by `id`, every toggle flips whether the track reads as selected |
| `Component.SearchComponent.constructor` | my-music-recommender/src/SearchComponent.js:7-11 | the initial state is all empty, and the invariant holds |
| `Component.SearchComponent.ChangeQuery` | my-music-recommender/src/SearchComponent.js:14-27 | an empty query clears the results; a successful search replaces them; a failed search leaves them as they were |
| `Component.SearchComponent.HandleSelectSong` | my-music-recommender/src/SearchComponent.js:29-41 | the list becomes the toggled list and the invariant is kept; it shrinks by exactly one when the `id` was present and grows by exactly one otherwise |
| `Component.SearchComponent.IsSongSelected` | my-music-recommender/src/SearchComponent.js:44-46 | true exactly when some entry's title equals the argument's `songTitle` property |
| `Component.SearchComponent.HandleDeleteSelectedSong` | my-music-recommender/src/SearchComponent.js:66-68 | the list loses exactly the entries with the given title, and the invariant is kept |
| `Component.SearchComponent.SetPlaylistLink` | my-music-recommender/src/SearchComponent.js:192 | the link field takes the typed value |
| `Component.SearchComponent.HandlePastePlaylist` | my-music-recommender/src/SearchComponent.js:103-124 | on success the list becomes the old list followed by the formatted records, its length grows by their number, and the link field is cleared; a bad link or a failed fetch leaves both as they were |
| `Component.SearchComponent.HandleCloseModal` | my-music-recommender/src/SearchComponent.js:98-101 | the link field is cleared; no element of the rendered markup calls this handler, so the running app never invokes it |

## Findings

| source | as written | input that shows it | evidently intended | confidence | as-written member | corrected member |
|---|---|---|---|---|---|---|
| my-music-recommender/src/SearchComponent.js:161 | `isSongSelected(track)` compares each entry's `songTitle` with the search result's `songTitle`. Catalog search results have `name` and no `songTitle`, so the comparison is against `undefined` and is always false. | Toggle any track `t` into an empty list. The list then holds an entry with `id` `t.id`, yet `isSongSelected(t)` is false, so the plus button stays where the minus button belongs. | Decide "selected" by `id`, the key the toggle itself uses. | not executed; high | `Selection.SelectedSearchResultReadsUnselected` | `Selection.ToggleFlipsSelection` |

## Left out

- Rendering: JSX, icons, CSS, `App.js`, and the `showPlaylistModal` flag with `handleUploadPlaylist`, which only drive what is displayed.
- Playback: `currentPlayingSong`, `handlePlaySong` and the server's `PUT /play`. These are I/O side effects with no logic of their own.
- The server's `GET /search`. It forwards the query to the catalog with a limit of 10 and returns the items as they are; the client takes its answer as an input.
- Access-token handling (`clientCredentialsGrant`, `setAccessToken`). It is shared mutable state across requests and matters only under concurrency. A failure to obtain a token fails the request like any other upstream failure, and the model covers that through its inputs.
- The concurrency of `Promise.all`. Only its all-or-nothing outcome is modelled.
- Asynchrony on the client. Each handler runs to completion in one step, and the model does not capture a search response that arrives after a later query. The code has no guard against that.
- `console.log` and `console.error` diagnostics.
- `data_extraction.py` is not part of this model. It is a script around a catalog client library and a data-frame library.
- Component.SearchComponent.HandlePastePlaylist: the exception thrown by `extractPlaylistId` escapes the handler as a rejected promise, because line 105 is outside the `try`. The model returns `Failure(InvalidLink)` instead; the state change is the same, namely none.
- Selection.FormatPlaylistTracks: records are assumed to have the server's `{albumCover, artist, song}` shape. A value of another shape, whose fields would read as `undefined`, is not modelled. `Object.values` on a non-array object is taken to list values in the order the payload gives.
- Gateway.GetPlaylistTracks: a rejected playlist lookup and a lookup that resolves to nothing are one input, `None`, both reported as `PlaylistUnavailable`. An item with a `null` track and a failed detail lookup are likewise one case. Each of these ends in the same 500 response. Track details are assumed to carry `artists` and `album.images`.
