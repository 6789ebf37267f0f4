/**
 * One round of the guessing game (the `currentGame` record of
 * src/extension.ts and its `startGame`, `next` and `guess` handlers).
 * The record is updated in place, so it is a class whose methods say what
 * the new state is.
 */
module Round {
  import opened Wrappers
  import opened Masking
  import opened Catalog

  /** Which of the handler's branches a guess took: the character occurs nowhere,
      it occurs and the title is still incomplete, or the title is complete. */
  datatype GuessOutcome = Absent | Progress | Won

  /** The three views as the guessed set reveals them. */
  ghost predicate ShowsGuesses(song: Song, g: set<char>, name: string, artist: string, lyrics: string)
  {
    && name == RevealChar(song.name, g)
    && artist == RevealChar(song.artist, g)
    && lyrics == RevealChar(song.lyrics, g)
  }

  /** The title is complete under `g` and the views show the originals. */
  ghost predicate ShowsAll(song: Song, g: set<char>, name: string, artist: string, lyrics: string)
  {
    && Placeholder !in RevealChar(song.name, g)
    && name == song.name && artist == song.artist && lyrics == song.lyrics
  }

  ghost predicate ViewsAgree(song: Song, g: set<char>, name: string, artist: string, lyrics: string)
  {
    ShowsGuesses(song, g, name, artist, lyrics) || ShowsAll(song, g, name, artist, lyrics)
  }

  /** A guess of a character that occurs nowhere leaves agreeing views agreeing. */
  lemma AbsentKeepsAgreement(song: Song, g: set<char>, ch: char, name: string, artist: string, lyrics: string)
    requires ViewsAgree(song, g, name, artist, lyrics)
    requires ch !in song.name && ch !in song.artist && ch !in song.lyrics
    ensures ViewsAgree(song, g + {ch}, name, artist, lyrics)
  {
    RevealIgnoresAbsent(song.name, g, ch);
    RevealIgnoresAbsent(song.artist, g, ch);
    RevealIgnoresAbsent(song.lyrics, g, ch);
  }

  /** The freshly masked views agree with an empty guessed set. */
  lemma MaskedAgreement(song: Song)
    ensures ViewsAgree(song, {}, MaskText(song.name), MaskText(song.artist), MaskText(song.lyrics))
  {
    RevealNothingIsMask(song.name);
    RevealNothingIsMask(song.artist);
    RevealNothingIsMask(song.lyrics);
  }

  /** Recomputed views agree, and so do the originals once the title is complete. */
  lemma RevealedAgreement(song: Song, g: set<char>)
    ensures ViewsAgree(song, g, RevealChar(song.name, g), RevealChar(song.artist, g), RevealChar(song.lyrics, g))
    ensures Placeholder !in RevealChar(song.name, g) ==> ViewsAgree(song, g, song.name, song.artist, song.lyrics)
  {
  }

  class Game {
    var song: Song
    var maskedName: string
    var maskedArtist: string
    var maskedLyrics: string
    var guessedChars: set<char>
    var guessCount: int

    /**
     * The round invariant: the counter is the number of distinct guesses,
     * and the views either follow the guesses or, once the title is complete,
     * show everything.
     */
    ghost predicate Valid()
      reads this
    {
      && guessCount == |guessedChars|
      && ViewsAgree(song, guessedChars, maskedName, maskedArtist, maskedLyrics)
    }

    /** `startGame` once a song was drawn: everything masked, nothing guessed. */
    constructor (song: Song)
      ensures Valid()
      ensures this.song == song && guessedChars == {} && guessCount == 0
      ensures maskedName == MaskText(song.name)
      ensures maskedArtist == MaskText(song.artist)
      ensures maskedLyrics == MaskText(song.lyrics)
    {
      this.song := song;
      maskedName := MaskText(song.name);
      maskedArtist := MaskText(song.artist);
      maskedLyrics := MaskText(song.lyrics);
      guessedChars := {};
      guessCount := 0;
      new;
      MaskedAgreement(song);
    }

    /**
     * The `next` handler: draw a song and reset the round. On an empty catalog
     * `getRandomSong()` is `undefined`, reading its `name` throws before
     * `currentGame` is assigned, and the round is left as it was.
     */
    method Next(songs: seq<Song>, rand: real) returns (ok: bool)
      requires Valid() && 0.0 <= rand < 1.0
      modifies this
      ensures Valid()
      ensures ok <==> |songs| > 0
      ensures !ok ==> unchanged(this)
      ensures ok ==> song == songs[PickIndex(rand, |songs|)]
      ensures ok ==> guessedChars == {} && guessCount == 0
      ensures ok ==> maskedName == MaskText(song.name) && maskedArtist == MaskText(song.artist)
                     && maskedLyrics == MaskText(song.lyrics)
    {
      var drawn := RandomSong(songs, None, rand);
      if drawn.None? {
        return false;
      }
      var s := drawn.value;
      song := s;
      maskedName := MaskText(s.name);
      maskedArtist := MaskText(s.artist);
      maskedLyrics := MaskText(s.lyrics);
      guessedChars := {};
      guessCount := 0;
      MaskedAgreement(s);
      return true;
    }

    /**
     * The `guess` handler. A new character costs one guess and joins the
     * guessed set; a repeated one costs nothing. If the character occurs in
     * the title, artist or lyrics the three views are recomputed, and when the
     * title then has no placeholder all three show the originals. Otherwise
     * the views stay as they were.
     */
    method Guess(ch: char) returns (outcome: GuessOutcome)
      requires Valid()
      modifies this
      ensures Valid()
      ensures song == old(song)
      ensures guessedChars == old(guessedChars) + {ch}
      ensures guessCount == old(guessCount) + (if ch in old(guessedChars) then 0 else 1)
      ensures outcome == Absent <==> ch !in song.name && ch !in song.artist && ch !in song.lyrics
      ensures outcome == Absent ==>
        maskedName == old(maskedName) && maskedArtist == old(maskedArtist) && maskedLyrics == old(maskedLyrics)
      ensures outcome == Won <==> outcome != Absent && Placeholder !in RevealChar(song.name, guessedChars)
      ensures outcome == Won ==> maskedName == song.name && maskedArtist == song.artist && maskedLyrics == song.lyrics
      ensures outcome == Progress ==> ShowsGuesses(song, guessedChars, maskedName, maskedArtist, maskedLyrics)
    {
      var s := song;
      ghost var g0 := guessedChars;
      if ch !in guessedChars {
        guessCount := guessCount + 1;
        assert |guessedChars + {ch}| == |guessedChars| + 1;
      } else {
        assert guessedChars + {ch} == guessedChars;
      }
      guessedChars := guessedChars + {ch};
      var g := guessedChars;
      // `includes` with a one-character needle is membership (Strings.ContainsChar).
      if ch in s.name || ch in s.artist || ch in s.lyrics {
        var name := RevealChar(s.name, g);
        RevealedAgreement(s, g);
        if Placeholder !in name {
          // complete title: show the whole song
          maskedName, maskedArtist, maskedLyrics := s.name, s.artist, s.lyrics;
          return Won;
        }
        maskedName, maskedArtist, maskedLyrics := name, RevealChar(s.artist, g), RevealChar(s.lyrics, g);
        outcome := Progress;
      } else {
        AbsentKeepsAgreement(s, g0, ch, maskedName, maskedArtist, maskedLyrics);
        outcome := Absent;
      }
    }
  }

  /**
   * The `startGame` command: draw a song and open a round on it. With an empty
   * catalog the drawn song is `undefined` and the command fails before any
   * round exists.
   */
  method StartGame(songs: seq<Song>, rand: real) returns (game: Game?)
    requires 0.0 <= rand < 1.0
    ensures game == null <==> |songs| == 0
    ensures game != null ==> fresh(game) && game.Valid()
    ensures game != null ==> game.song == songs[PickIndex(rand, |songs|)] && game.guessedChars == {} && game.guessCount == 0
    ensures game != null ==>
      && game.maskedName == MaskText(game.song.name)
      && game.maskedArtist == MaskText(game.song.artist)
      && game.maskedLyrics == MaskText(game.song.lyrics)
  {
    var drawn := RandomSong(songs, None, rand);
    if drawn.None? {
      return null;
    }
    game := new Game(drawn.value);
  }
}
