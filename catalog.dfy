/**
 * The catalog's track object as the client and the server read it, and the two
 * derived display fields both tiers compute from it in the same way: the artist
 * line and the album cover.
 */
module Catalog {
  import opened Wrappers
  import opened Lists

  datatype Image = Image(url: string)
  datatype Album = Album(images: seq<Image>)
  datatype Artist = Artist(name: string)

  /** A track as the catalog returns it: `id`, `name`, `artists[].name`, `album.images[].url`. */
  datatype Track = Track(id: string, name: string, artists: seq<Artist>, album: Album)

  /** What `join(', ')` puts between two artist names. */
  const ArtistSeparator := ", "

  /** `track.artists.map(artist => artist.name)` */
  function ArtistNames(t: Track): (names: seq<string>)
    ensures |names| == |t.artists|
    ensures forall i :: 0 <= i < |names| ==> names[i] == t.artists[i].name
  {
    seq(|t.artists|, i requires 0 <= i < |t.artists| => t.artists[i].name)
  }

  /**
   * The artist names joined with `", "`: empty for a track without artists, the name alone
   * for a single artist.
   */
  function ArtistLine(t: Track): (line: string)
    ensures t.artists == [] ==> line == ""
    ensures |t.artists| == 1 ==> line == t.artists[0].name
  {
    Join(ArtistNames(t), ArtistSeparator)
  }

  /** The first image URL, or `null` when the album has no images. */
  function AlbumCover(t: Track): (cover: Option<string>)
    ensures cover.None? <==> t.album.images == []
    ensures cover.Some? ==> cover.value == t.album.images[0].url
  {
    if |t.album.images| > 0 then Some(t.album.images[0].url) else None
  }

  /**
   * The artist line lists every artist's name in the track's own order: name `i` starts
   * at `Offset(names, ", ", i)`, a `", "` follows every name but the last, and the last
   * name ends the line.
   */
  lemma ArtistLineSpellsNames(t: Track, i: nat)
    requires i < |t.artists|
    ensures var names := ArtistNames(t);
      var at := Offset(names, ArtistSeparator, i);
      && at + |t.artists[i].name| <= |ArtistLine(t)|
      && ArtistLine(t)[at..at + |t.artists[i].name|] == t.artists[i].name
      && (i + 1 < |t.artists| ==>
            at + |t.artists[i].name| + 2 <= |ArtistLine(t)| &&
            ArtistLine(t)[at + |t.artists[i].name|..at + |t.artists[i].name| + 2] == ArtistSeparator)
      && (i + 1 == |t.artists| ==> at + |t.artists[i].name| == |ArtistLine(t)|)
  {
    var names := ArtistNames(t);
    JoinSpellsParts(names, ArtistSeparator, i);
  }
}
