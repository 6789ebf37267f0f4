/**
 * The data-cleaning script (src/Spider/process_music_json.py) that turns
 * scraped songs into the game's catalog: credit lines are cut from the front
 * of each lyric, unsuitable titles and multi-singer songs are dropped, and
 * the survivors are numbered from 26. Reading and writing the JSON files is
 * not modelled: the input is a sequence of raw records, the output a result.
 */
module MusicData {
  import opened Wrappers
  import opened Strings
  import opened Masking
  import opened Catalog

  /** The two characters backslash and `n` that separate lines in the scraped lyrics. */
  const Separator: string := "\\n"

  /** Python `s.split('\\n')`: pieces between non-overlapping separators, left to right. */
  function SplitLines(s: string): (r: seq<string>)
    ensures |r| >= 1
    ensures r[0] <= s
    ensures forall k :: 0 <= k < |r| ==> !Contains(r[k], Separator)
    decreases |s|
  {
    if |s| < 2 then
      assert !Contains(s, Separator);
      [s]
    else if s[..2] == Separator then
      assert !Contains("", Separator);
      [""] + SplitLines(s[2..])
    else
      var rest := SplitLines(s[1..]);
      assert rest[0] != [] ==> rest[0][0] == s[1];
      NoSeparatorCons(s[0], rest[0]);
      var r := [[s[0]] + rest[0]] + rest[1..];
      assert forall k :: 1 <= k < |r| ==> r[k] == rest[k];
      r
  }

  /**
   * Putting one character in front of a piece without a separator creates
   * one only when it is the backslash and the piece starts with `n`.
   */
  lemma NoSeparatorCons(c: char, t: string)
    requires !Contains(t, Separator)
    requires !(c == '\\' && t != [] && t[0] == 'n')
    ensures !Contains([c] + t, Separator)
  {
    var u := [c] + t;
    if Contains(u, Separator) {
      var i :| 0 <= i <= |u| - 2 && OccursAt(u, Separator, i);
      assert u[i] == Separator[0] && u[i + 1] == Separator[1];
      if i == 0 {
        assert false;
      } else {
        assert t[i - 1..i + 1] == Separator;
        assert OccursAt(t, Separator, i - 1);
        assert false;
      }
    }
  }

  /** Python `sep.join(lines)`. */
  function Join(lines: seq<string>, sep: string): string
  {
    if lines == [] then ""
    else if |lines| == 1 then lines[0]
    else lines[0] + sep + Join(lines[1..], sep)
  }

  /** Splitting loses nothing: joining the pieces with the separator gives the text back. */
  lemma {:induction false} SplitJoin(s: string)
    ensures Join(SplitLines(s), Separator) == s
    decreases |s|
  {
    if |s| < 2 {
    } else if s[..2] == Separator {
      SplitJoin(s[2..]);
      JoinEmptyHead(SplitLines(s[2..]), Separator);
      assert s == s[..2] + s[2..];
    } else {
      SplitJoin(s[1..]);
      JoinExtendedHead(s[0], SplitLines(s[1..]), Separator);
      assert s == [s[0]] + s[1..];
    }
  }

  /** An empty first piece contributes just one separator. */
  lemma JoinEmptyHead(rest: seq<string>, sep: string)
    requires |rest| >= 1
    ensures Join([""] + rest, sep) == sep + Join(rest, sep)
  {
    assert ([""] + rest)[1..] == rest;
  }

  /** A character put in front of the first piece comes first in the joined text. */
  lemma JoinExtendedHead(c: char, rest: seq<string>, sep: string)
    requires |rest| >= 1
    ensures Join([[c] + rest[0]] + rest[1..], sep) == [c] + Join(rest, sep)
  {
    var r := [[c] + rest[0]] + rest[1..];
    if |rest| > 1 {
      assert r[1..] == rest[1..];
    }
  }

  /** `skip_keywords`: credit markers; note the ASCII and the full-width colon. */
  const SkipKeywords: seq<string> := ["作词", "作曲", "编曲", "制作", "词：", "曲：", "-", "：", ":", "翻唱", "授权"]

  predicate HasSkipKeyword(line: string)
  {
    exists k :: 0 <= k < |SkipKeywords| && Contains(line, SkipKeywords[k])
  }

  /** A line that can start the lyric: not blank and free of credit markers. */
  predicate IsLyricLine(line: string)
  {
    !IsBlank(line) && !HasSkipKeyword(line)
  }

  /** The first lyric line at or after `i`, or 0 when there is none. */
  function FirstFrom(lines: seq<string>, i: nat): (k: nat)
    ensures (exists j :: i <= j < |lines| && IsLyricLine(lines[j])) ==>
      i <= k < |lines| && IsLyricLine(lines[k]) && forall j :: i <= j < k ==> !IsLyricLine(lines[j])
    ensures (forall j :: i <= j < |lines| ==> !IsLyricLine(lines[j])) ==> k == 0
    decreases |lines| - i
  {
    if i >= |lines| then 0
    else if IsLyricLine(lines[i]) then i
    else FirstFrom(lines, i + 1)
  }

  /** `start_index` after the search loop. */
  function StartIndex(lines: seq<string>): nat
  {
    FirstFrom(lines, 0)
  }

  /** What `clean_lyric` returns. */
  function Cleaned(lyric: string): string
  {
    var lines := SplitLines(lyric);
    Join(lines[StartIndex(lines)..], "\n")
  }

  /**
   * `clean_lyric`: split at the literal backslash-n, skip leading blank and
   * credit lines, and join what is left with real newlines.
   */
  method CleanLyric(lyric: string) returns (r: string)
    ensures r == Cleaned(lyric)
  {
    var lines := SplitLines(lyric);
    var startIndex := 0;
    var i := 0;
    while i < |lines|
      invariant 0 <= i <= |lines|
      invariant startIndex == 0
      invariant FirstFrom(lines, i) == StartIndex(lines)
    {
      if IsBlank(lines[i]) {
        i := i + 1;
        continue;
      }
      if HasSkipKeyword(lines[i]) {
        i := i + 1;
        continue;
      }
      startIndex := i;
      break;
    }
    r := Join(lines[startIndex..], "\n");
  }

  /**
   * The kept lines are a suffix of the split lines that starts at the first
   * lyric line; every line before it is blank or a credit line, and lines after
   * it stay even if they carry a credit marker.
   */
  lemma StartIndexIsFirstLyricLine(lines: seq<string>)
    requires exists j :: 0 <= j < |lines| && IsLyricLine(lines[j])
    ensures var k := StartIndex(lines);
      k < |lines| && IsLyricLine(lines[k]) && forall j :: 0 <= j < k ==> !IsLyricLine(lines[j])
  {
  }

  /** With no lyric line at all, nothing is cut. */
  lemma NoLyricLineKeepsAll(lyric: string)
    requires forall j :: 0 <= j < |SplitLines(lyric)| ==> !IsLyricLine(SplitLines(lyric)[j])
    ensures Cleaned(lyric) == Join(SplitLines(lyric), "\n")
  {
    var lines := SplitLines(lyric);
    assert lines[0..] == lines;
  }

  /** The kept lines are a non-empty suffix of the split lines: never more lines than the input. */
  lemma StartIndexInRange(lyric: string)
    ensures var lines := SplitLines(lyric);
      0 <= StartIndex(lines) < |lines| && Cleaned(lyric) == Join(lines[StartIndex(lines)..], "\n")
  {
    var lines := SplitLines(lyric);
    if exists j :: 0 <= j < |lines| && IsLyricLine(lines[j]) {
      StartIndexIsFirstLyricLine(lines);
    }
  }

  predicate IsAsciiLetter(c: char)
  {
    'a' <= c <= 'z' || 'A' <= c <= 'Z'
  }

  /** `should_skip_song`: titles with brackets, Latin letters or 串烧 (medley) are dropped. */
  function ShouldSkipSong(songName: string): (skip: bool)
    ensures skip <==> '(' in songName || ')' in songName
                      || (exists i :: 0 <= i < |songName| && IsAsciiLetter(songName[i]))
                      || Contains(songName, "串烧")
  {
    if '(' in songName || ')' in songName then true
    else if exists i :: 0 <= i < |songName| && IsAsciiLetter(songName[i]) then true
    else if Contains(songName, "串烧") then true
    else false
  }

  /** Every guessable character of a kept title is a Han character, so case never matters in play. */
  lemma KeptTitleGuessablesAreHan(songName: string)
    requires !ShouldSkipSong(songName)
    ensures forall i :: 0 <= i < |songName| && IsGuessable(songName[i]) ==> '\U{4e00}' <= songName[i] <= '\U{9fa5}'
  {
    forall i | 0 <= i < |songName| && IsGuessable(songName[i])
      ensures '\U{4e00}' <= songName[i] <= '\U{9fa5}'
    {
      assert !IsAsciiLetter(songName[i]);
    }
  }

  /** A scraped record: `song_name`, the `singer_name` list and the raw `lyric`. */
  datatype RawSong = RawSong(songName: string, singerName: seq<string>, lyric: string)

  /** A record of `processed_data`, before it gets its id. */
  datatype Entry = Entry(name: string, artist: string, lyric: string)

  /** Passes the singer-count and title checks. */
  predicate Admitted(item: RawSong)
  {
    |item.singerName| <= 1 && !ShouldSkipSong(item.songName)
  }

  /** `item['singer_name'][0]` raises IndexError for an admitted item without singers. */
  predicate Crashes(item: RawSong)
  {
    Admitted(item) && |item.singerName| == 0
  }

  /** The entry built for an admitted item with one singer. */
  function EntryOf(item: RawSong): Entry
    requires |item.singerName| == 1
  {
    Entry(item.songName, item.singerName[0], Cleaned(item.lyric))
  }

  /** Kept: admitted, one singer, and a lyric that is not blank once cleaned. */
  predicate Kept(item: RawSong)
  {
    Admitted(item) && |item.singerName| == 1 && !IsBlank(Cleaned(item.lyric))
  }

  /** `processed_data` after the first loop, when no item crashed it. */
  function Selected(data: seq<RawSong>): (r: seq<Entry>)
    ensures |r| <= |data|
  {
    if data == [] then []
    else
      var last := data[|data| - 1];
      Selected(data[..|data| - 1]) + (if Kept(last) then [EntryOf(last)] else [])
  }

  /** Every selected entry is built from a kept record. */
  lemma {:induction false} SelectedSound(data: seq<RawSong>)
    ensures forall e :: e in Selected(data) ==> exists i :: 0 <= i < |data| && Kept(data[i]) && e == EntryOf(data[i])
    decreases |data|
  {
    if data != [] {
      var init, last := data[..|data| - 1], data[|data| - 1];
      SelectedSound(init);
      forall e | e in Selected(data)
        ensures exists i :: 0 <= i < |data| && Kept(data[i]) && e == EntryOf(data[i])
      {
        if e in Selected(init) {
          var i :| 0 <= i < |init| && Kept(init[i]) && e == EntryOf(init[i]);
          assert data[i] == init[i];
        } else {
          assert Kept(data[|data| - 1]) && e == EntryOf(data[|data| - 1]);
        }
      }
    }
  }

  /** Every kept record yields a selected entry. */
  lemma {:induction false} SelectedComplete(data: seq<RawSong>)
    ensures forall i :: 0 <= i < |data| && Kept(data[i]) ==> EntryOf(data[i]) in Selected(data)
    decreases |data|
  {
    if data != [] {
      var init := data[..|data| - 1];
      SelectedComplete(init);
      forall i | 0 <= i < |data| && Kept(data[i]) ensures EntryOf(data[i]) in Selected(data) {
        if i < |init| {
          assert data[i] == init[i];
        } else {
          assert Selected(data) == Selected(init) + [EntryOf(data[i])];
        }
      }
    }
  }

  /** One more record extends the selection by at most that record's entry. */
  lemma SelectedStep(data: seq<RawSong>, i: int)
    requires 0 <= i < |data|
    ensures Selected(data[..i + 1]) == Selected(data[..i]) + (if Kept(data[i]) then [EntryOf(data[i])] else [])
  {
    assert data[..i + 1][..i] == data[..i];
  }

  /** The filter keeps input order: it distributes over concatenation. */
  lemma {:induction false} SelectedAppend(a: seq<RawSong>, b: seq<RawSong>)
    ensures Selected(a + b) == Selected(a) + Selected(b)
    decreases |b|
  {
    if b == [] {
      assert a + b == a;
    } else {
      var b' := b[..|b| - 1];
      assert (a + b)[..|a + b| - 1] == a + b';
      SelectedAppend(a, b');
    }
  }

  /** The first id `process_music_data` hands out. */
  const FirstId := 26

  /**
   * `process_music_data` without the file I/O: the kept records in input order,
   * numbered consecutively from 26, or the IndexError an admitted record
   * without singers raises.
   */
  method ProcessMusicData(data: seq<RawSong>) returns (r: Result<seq<Song>, string>)
    ensures r.Failure? <==> exists i :: 0 <= i < |data| && Crashes(data[i])
    ensures r.Success? ==> |r.value| == |Selected(data)|
    ensures r.Success? ==> forall j :: 0 <= j < |r.value| ==>
      var e := Selected(data)[j];
      r.value[j] == Song(FirstId + j, e.name, e.artist, e.lyric)
  {
    var processedData: seq<Entry> := [];
    var i := 0;
    while i < |data|
      invariant 0 <= i <= |data|
      invariant forall j :: 0 <= j < i ==> !Crashes(data[j])
      invariant processedData == Selected(data[..i])
    {
      var item := data[i];
      SelectedStep(data, i);
      if |item.singerName| > 1 {
        i := i + 1;
        continue;
      }
      if ShouldSkipSong(item.songName) {
        i := i + 1;
        continue;
      }
      if |item.singerName| == 0 {
        return Failure("IndexError: list index out of range");
      }
      var lyric := CleanLyric(item.lyric);
      var newItem := Entry(item.songName, item.singerName[0], lyric);
      if IsBlank(newItem.lyric) {
        i := i + 1;
        continue;
      }
      processedData := processedData + [newItem];
      i := i + 1;
    }
    assert data[..i] == data;
    var finalData := Numbered(processedData);
    return Success(finalData);
  }

  /** The `enumerate(processed_data, start=26)` loop that adds the ids. */
  method Numbered(entries: seq<Entry>) returns (songs: seq<Song>)
    ensures |songs| == |entries|
    ensures forall j :: 0 <= j < |songs| ==>
      songs[j] == Song(FirstId + j, entries[j].name, entries[j].artist, entries[j].lyric)
  {
    songs := [];
    var idx := 0;
    while idx < |entries|
      invariant 0 <= idx <= |entries|
      invariant |songs| == idx
      invariant forall j :: 0 <= j < idx ==>
        songs[j] == Song(FirstId + j, entries[j].name, entries[j].artist, entries[j].lyric)
    {
      var item := entries[idx];
      songs := songs + [Song(FirstId + idx, item.name, item.artist, item.lyric)];
      idx := idx + 1;
    }
  }
}
