/**
 * The song catalog (src/songDatabase.ts). The module-level `songs` array is
 * assigned only by the file loader, so every query takes the catalog as a
 * parameter; `Math.random()` becomes a parameter `rand` in [0, 1).
 */
module Catalog {
  import opened Wrappers

  /** A playable song. The body text is one field, `lyrics`. */
  datatype Song = Song(id: int, name: string, artist: string, lyrics: string)

  /** `getSongById`: the first song carrying `id`, or `undefined`. */
  function SongById(songs: seq<Song>, id: int): (r: Option<Song>)
    ensures r.None? <==> forall i :: 0 <= i < |songs| ==> songs[i].id != id
    ensures r.Some? ==> exists i :: 0 <= i < |songs| && songs[i] == r.value && r.value.id == id
                          && forall j :: 0 <= j < i ==> songs[j].id != id
  {
    if songs == [] then None
    else if songs[0].id == id then Some(songs[0])
    else
      var r := SongById(songs[1..], id);
      assert forall i :: 0 < i < |songs| ==> songs[i] == songs[1..][i - 1];
      r
  }

  /** `songs.filter(song => song.artist === artist)`. */
  function ByArtist(songs: seq<Song>, artist: string): (r: seq<Song>)
    ensures |r| <= |songs|
    ensures forall s :: s in r <==> s in songs && s.artist == artist
  {
    if songs == [] then []
    else (if songs[0].artist == artist then [songs[0]] else []) + ByArtist(songs[1..], artist)
  }

  /** Filtering keeps catalog order: it distributes over concatenation. */
  lemma {:induction false} ByArtistAppend(a: seq<Song>, b: seq<Song>, artist: string)
    ensures ByArtist(a + b, artist) == ByArtist(a, artist) + ByArtist(b, artist)
  {
    if a == [] {
      assert a + b == b;
    } else {
      assert (a + b)[0] == a[0];
      assert (a + b)[1..] == a[1..] + b;
      ByArtistAppend(a[1..], b, artist);
    }
  }

  /** `getSongFromArtist`: the names of the songs by `artist`, in catalog order. */
  function SongFromArtist(songs: seq<Song>, artist: string): (r: seq<string>)
    ensures |r| == |ByArtist(songs, artist)|
    ensures forall i :: 0 <= i < |r| ==> r[i] == ByArtist(songs, artist)[i].name
  {
    if songs == [] then []
    else (if songs[0].artist == artist then [songs[0].name] else []) + SongFromArtist(songs[1..], artist)
  }

  /** Every name listed by `SongFromArtist` belongs to a song of that artist, and every such song is listed. */
  lemma SongFromArtistExact(songs: seq<Song>, artist: string)
    ensures forall n :: n in SongFromArtist(songs, artist) <==>
      exists s :: s in songs && s.artist == artist && s.name == n
  {
    var r := SongFromArtist(songs, artist);
    var f := ByArtist(songs, artist);
    forall n | n in r ensures exists s :: s in songs && s.artist == artist && s.name == n {
      var i :| 0 <= i < |r| && r[i] == n;
      assert f[i] in f;
    }
    forall n | exists s :: s in songs && s.artist == artist && s.name == n ensures n in r {
      var s :| s in songs && s.artist == artist && s.name == n;
      var i :| 0 <= i < |f| && f[i] == s;
      assert r[i] == n;
    }
  }

  /** `getSongCount`. */
  function SongCount(songs: seq<Song>): (n: nat)
    ensures n == |songs|
  {
    |songs|
  }

  /** `Math.floor(rand * n)`: an index in [0, n) whenever `n` is positive. */
  function PickIndex(rand: real, n: nat): (k: int)
    requires 0.0 <= rand < 1.0
    ensures n > 0 ==> 0 <= k < n
  {
    if n > 0 then FloorBelow(rand, n); (rand * n as real).Floor else 0
  }

  lemma FloorBelow(r: real, n: nat)
    requires 0.0 <= r < 1.0 && n > 0
    ensures 0 <= (r * n as real).Floor < n
  {
    var x := n as real;
    var y := r * x;
    assert x - y == (1.0 - r) * x;
    assert 0.0 <= y < x;
    var f := y.Floor;
    assert f as real <= y < f as real + 1.0;
    assert f as real < x;
  }

  /**
   * `getRandomSong(artist?)`: a truthy (non-empty) artist restricts the pool to
   * that artist's songs; indexing an empty pool yields `undefined`.
   */
  function RandomSong(songs: seq<Song>, artist: Option<string>, rand: real): (r: Option<Song>)
    requires 0.0 <= rand < 1.0
    ensures artist.Some? && artist.value != [] ==>
      (r.Some? <==> exists s :: s in songs && s.artist == artist.value)
    ensures artist.Some? && artist.value != [] && r.Some? ==> r.value in songs && r.value.artist == artist.value
    ensures artist.Some? && artist.value != [] && r.Some? ==>
      var pool := ByArtist(songs, artist.value); |pool| > 0 && r.value == pool[PickIndex(rand, |pool|)]
    ensures (artist.None? || artist.value == []) ==> (r.Some? <==> |songs| > 0)
    ensures (artist.None? || artist.value == []) && r.Some? ==> r.value == songs[PickIndex(rand, |songs|)]
  {
    var pool := if artist.Some? && artist.value != [] then ByArtist(songs, artist.value) else songs;
    var k := PickIndex(rand, |pool|);
    assert artist.Some? && artist.value != [] ==>
      ((exists s :: s in songs && s.artist == artist.value) ==> |pool| > 0);
    if 0 <= k < |pool| then assert pool[k] in pool; Some(pool[k]) else None
  }
}
