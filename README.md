# lyricsWordle in Dafny

This project models lyricsWordle, a song-title guessing game that runs as a
VS Code extension. The player sees a song's title, artist and lyrics with
every Han character and ASCII letter replaced by `_`. Each guessed character
uncovers its occurrences. The round is won when the title has no `_` left.
A leaderboard keeps, for each song, the smallest number of guesses with which
it was solved. A Python script builds the song catalog from scraped data: it
cuts credit lines from the lyrics, drops unsuitable titles and numbers the
remaining songs from 26.

The project has one module per part of the program:

- `Masking` (`masking.dfy`): `maskText` and `revealChar`.
- `Round` (`round.dfy`): the current round (`currentGame`) as a class `Game`, with the `startGame`, `next` and `guess` handlers.
- `Catalog` (`catalog.dfy`): the song-database queries.
  - The catalog is passed in as a sequence.
  - `Math.random()` becomes a parameter in [0, 1).
- `LeaderboardStore` (`leaderboard.ts` becomes `leaderboard.dfy`): the class `Leaderboard`.
  - Its `Map` is a `map` plus the key insertion order.
  - That order is the iteration order, and it decides ties in the stable sorts.
- `StableSort` (`stable_sort.dfy`): the stable sort by a numeric key that `Array.prototype.sort` performs, plus counting lemmas used for ranks.
- `MusicData` (`music_data.dfy`): `clean_lyric`, `should_skip_song` and the two loops of `process_music_data`.
- `Strings` and `Wrappers`: substring search, ASCII lower-casing, Python's blank test, and `Option`/`Result`.

Where the program works step by step, the model keeps its form:

- The round and the leaderboard are classes whose methods update their fields.
- `clean_lyric`, `process_music_data` and the ranking `forEach` are loops with invariants.

Each such method is proved against a function of its inputs. The lemmas beside it state what the program promises about that function.

## Model

| member | source | states |
|---|---|---|
| Masking.MaskText | src/extension.ts:175-177 | same length; each Han character (U+4E00..U+9FA5) or ASCII letter becomes `_`, every other character is kept |
| Masking.RevealChar | src/extension.ts:180-184 | same length; a guessed character shows as itself, an unguessed guessable one as `_`, anything else as itself |
| Masking.Count | src/extension.ts:69 | the number of occurrences is zero exactly when the character is absent, and at most the length |
| Masking.RevealNothingIsMask | src/extension.ts:180-184 | revealing with an empty guessed set is exactly the initial mask |
| Masking.RevealIsCaseSensitive | src/extension.ts:182 | guessing `A` leaves every `a` masked |
| Masking.RevealMonotone | src/extension.ts:181-183 | a position visible under a guessed set stays visible under any larger set |
| Masking.RevealIgnoresAbsent | src/extension.ts:181-183 | adding a character that does not occur in the text changes no view |
| Masking.PlaceholdersNeverIncrease | src/extension.ts:181-183 | the number of `_` never grows as the guessed set grows |
| Masking.GuessOccurringCharUncovers | src/extension.ts:181-183 | guessing a guessable character that occurs leaves strictly fewer `_` than the full mask |
| Masking.CompleteIff | src/extension.ts:69 | the view has no `_` iff the text has none and every guessable character in it was guessed |
| Masking.UnderscoreBlocksCompletion | src/extension.ts:69 | a title containing a literal `_` can never be completed |
| Masking.CompleteStaysComplete | src/extension.ts:69 | once the title is complete, further guesses keep it complete |
| Strings.ContainsChar | src/extension.ts:61-63 | `includes` of a one-character string holds exactly when the character occurs |
| Strings.LowerChar | src/leaderboard.ts:151-154 | ASCII upper-case letters move 32 code points to lower case; every other character is unchanged |
| Strings.ToLower | src/leaderboard.ts:151-154 | same length, lower-cased character by character |
| Round.AbsentKeepsAgreement | src/extension.ts:81-83 | a guess of a character absent from title, artist and lyrics keeps the views consistent with the guesses |
| Round.MaskedAgreement | src/extension.ts:17-24 | the freshly masked views are the views of the empty guessed set |
| Round.RevealedAgreement | src/extension.ts:65-73 | recomputed views are consistent, and so are the originals once the title is complete |
| Round.Game.constructor | src/extension.ts:17-24 | the new round shows the three masked texts, with no guesses and a zero count |
| Round.StartGame | src/extension.ts:14-24 | an empty catalog gives no round; otherwise a fresh valid round on the song at index floor(rand·n) whose name, artist and lyrics views are each masked with `MaskText`, with nothing guessed |
| Round.Game.Next | src/extension.ts:37-51 | draws the song at floor(rand·n), re-masks all views and resets guesses and count; an empty catalog throws, so the round is unchanged |
| Round.Game.Guess | src/extension.ts:52-85 | the count rises iff the character is new, and the character joins the set; an absent character leaves the views as they were; Won iff the character occurs and the revealed title has no `_`, and then the views show the originals; otherwise the views are the revealed texts |
| Catalog.SongById | src/songDatabase.ts:26-28 | None iff no song has the id; otherwise the first song with that id |
| Catalog.ByArtist | src/songDatabase.ts:33 | exactly the songs whose artist is equal, never longer than the catalog |
| Catalog.ByArtistAppend | src/songDatabase.ts:33 | the filter keeps catalog order: it distributes over concatenation |
| Catalog.SongFromArtist | src/songDatabase.ts:44-46 | the names of the filtered songs, position by position |
| Catalog.SongFromArtistExact | src/songDatabase.ts:44-46 | a name is listed iff some song of that artist carries it |
| Catalog.SongCount | src/songDatabase.ts:40-42 | the catalog length |
| Catalog.PickIndex | src/songDatabase.ts:34-36 | floor(rand·n) lies in [0, n) for every positive n |
| Catalog.RandomSong | src/songDatabase.ts:31-37 | a non-empty artist yields a song iff one of that artist exists, and it is the song at floor(rand·n) of that artist's songs in catalog order; without an artist, the song at floor(rand·n) of the catalog iff the catalog is non-empty |
| LeaderboardStore.Leaderboard.constructor | src/leaderboard.ts:30-34 | a board without a stored file is empty and well formed |
| LeaderboardStore.Leaderboard.UpdateScore | src/leaderboard.ts:67-82 | returns true iff the song has no entry or the count beats the stored best; exactly then the entry is replaced by (id, guesses, now); a new id is appended to the iteration order |
| LeaderboardStore.UpdateIsLocal | src/leaderboard.ts:71-76 | only the song's own entry changes, it is present afterwards, and its best becomes the smaller of old and new |
| LeaderboardStore.BestNeverIncreases | src/leaderboard.ts:67-82 | over any sequence of updates an entry stays, its best never rises, and it ends at most every count submitted for it |
| LeaderboardStore.RecordSequence | src/leaderboard.ts:67-82 | counts 5, 7, 3 for one song report true, false, true and leave the best at 3 |
| LeaderboardStore.Leaderboard.GetScore | src/leaderboard.ts:85-87 | the stored record iff the song has one |
| LeaderboardStore.Leaderboard.AllScores | src/leaderboard.ts:90-92 | every stored record, nothing else, and no song twice |
| LeaderboardStore.ValuesIn | src/leaderboard.ts:91 | the records of the keys, in iteration order |
| LeaderboardStore.Leaderboard.Ranked | src/leaderboard.ts:108-109 | all stored records, ascending by best, no song twice |
| LeaderboardStore.SliceEnd | src/leaderboard.ts:98 | the end of `slice(0, limit)`: `limit` capped at n, or n+limit (at least 0) for a negative limit |
| LeaderboardStore.Leaderboard.TopScores | src/leaderboard.ts:95-99 | exactly the first `limit` entries of the ranked board: length of `slice(0, limit)`, ascending, no song twice, and no entry left out has a smaller best than one listed |
| LeaderboardStore.PrefixDistinct | src/leaderboard.ts:98 | a prefix of a list without repeated songs has none either |
| LeaderboardStore.PrefixHoldsBest | src/leaderboard.ts:96-98 | what a prefix of a sorted list leaves out is no better than what it holds |
| LeaderboardStore.FindIndex | src/leaderboard.ts:111 | -1 iff no record has the id; otherwise the first position with it |
| LeaderboardStore.Leaderboard.SongRank | src/leaderboard.ts:102-112 | -1 iff no entry; otherwise in 1..size, above the number of strictly better entries and at most the number of equal-or-better ones |
| LeaderboardStore.MinOf | src/leaderboard.ts:119-120 | a lower bound of all bests that is one of them |
| LeaderboardStore.RoundedTenths | src/leaderboard.ts:124 | ten times the average rounded half up, as an exact integer |
| LeaderboardStore.Leaderboard.Stats | src/leaderboard.ts:115-127 | entry count; on an empty board average and best are 0; otherwise the rounded average and a best that is the minimum and attained |
| LeaderboardStore.EmptyBoardStats | src/leaderboard.ts:115-127 | an empty board reports (0, 0, 0) |
| LeaderboardStore.Joined | src/leaderboard.ts:133-147 | a row for each record whose song the table knows and no other rows; never more rows than records, and no song twice when the records have none twice |
| LeaderboardStore.JoinedDistinctStep | src/leaderboard.ts:133-147 | a row added in front belongs to a song none of the later rows has |
| LeaderboardStore.JoinedAppend | src/leaderboard.ts:133-147 | rows come out in record order: joining distributes over concatenation |
| LeaderboardStore.Searched | src/leaderboard.ts:150-156 | exactly the rows whose lower-cased name or artist contains the lower-cased search; no more rows than given, and no song twice when the input has none twice |
| LeaderboardStore.SearchedDistinctStep | src/leaderboard.ts:150-156 | keeping or dropping the first row repeats no song of the later rows |
| LeaderboardStore.SearchedAppend | src/leaderboard.ts:150-156 | the filter keeps row order: it distributes over concatenation |
| LeaderboardStore.Leaderboard.Candidates | src/leaderboard.ts:133-156 | a row for every known song's entry that matches a non-empty search (any entry when the search is empty), only such rows, and no song twice |
| LeaderboardStore.Leaderboard.FormattedRecords | src/leaderboard.ts:130-172 | ranks are 1..n in output order; each row is a known, matching entry, every such entry is listed, and no song is listed twice; ascending by guesses, or newest first by time |
| LeaderboardStore.RankedRowsDistinct | src/leaderboard.ts:167-169 | numbering the rows lists no song twice |
| LeaderboardStore.AssignRanks | src/leaderboard.ts:167-169 | the same rows in the same order, the one at position j ranked j+1 |
| LeaderboardStore.RankedRowsAreCandidates | src/leaderboard.ts:133-156 | every ranked row is the row of a known entry that matches the search |
| LeaderboardStore.RankedRowsCoverCandidates | src/leaderboard.ts:133-156 | every known, matching entry has a ranked row |
| LeaderboardStore.RankedRowsKeepOrder | src/leaderboard.ts:159-164 | ranking keeps the sorted order by guesses or by time |
| LeaderboardStore.TextBeforeAfterPrefix | src/leaderboard.ts:160-161 | a shared prefix does not decide the text order |
| LeaderboardStore.TimeTextMisordersMonths | src/leaderboard.ts:160-161 | as written, 2024/9/30 is listed before the newer 2024/10/1 |
| StableSort.Insert | src/leaderboard.ts:97 | one longer, and the same elements plus the inserted one |
| StableSort.InsertSorted | src/leaderboard.ts:97 | inserting into a sorted sequence keeps it sorted |
| StableSort.SortBy | src/leaderboard.ts:96-97 | same length, a permutation, and sorted by the key |
| StableSort.SortByMembers | src/leaderboard.ts:96-97 | sorting keeps exactly the same elements |
| StableSort.InsertDistinct | src/leaderboard.ts:97 | inserting a new element into a list without repeats gives one without repeats |
| StableSort.SortByDistinct | src/leaderboard.ts:96-97 | sorting a list without repeats gives one without repeats |
| StableSort.SortByDistinctBy | src/leaderboard.ts:96-97 | sorting a list with no id twice gives one with no id twice |
| StableSort.WithKeyOfInsert | src/leaderboard.ts:97 | an inserted element goes in front of every element with the same key |
| StableSort.SortByStable | src/leaderboard.ts:96-97 | stability: the elements with any one key keep their input order |
| StableSort.CountsAppend | src/leaderboard.ts:108-111 | counts of keys below or at a bound add up over concatenation |
| StableSort.CountsOfSort | src/leaderboard.ts:108-111 | sorting does not change those counts |
| StableSort.PositionBetweenCounts | src/leaderboard.ts:108-111 | in a sorted sequence the position of a key lies between the two counts |
| MusicData.SplitLines | src/Spider/process_music_json.py:7 | at least one piece, the first a prefix of the text, and no piece contains the separator |
| MusicData.NoSeparatorCons | src/Spider/process_music_json.py:7 | a character put in front of a separator-free piece makes a separator only as a backslash before `n` |
| MusicData.SplitJoin | src/Spider/process_music_json.py:7 | joining the pieces with backslash-n gives the lyric back |
| MusicData.FirstFrom | src/Spider/process_music_json.py:13-22 | the first non-blank line without a credit keyword at or after i, or 0 when there is none |
| MusicData.CleanLyric | src/Spider/process_music_json.py:5-28 | equals the lines from the first lyric line on, joined with newlines |
| MusicData.StartIndexIsFirstLyricLine | src/Spider/process_music_json.py:13-22 | the kept part starts at a lyric line, and every earlier line is blank or a credit line |
| MusicData.NoLyricLineKeepsAll | src/Spider/process_music_json.py:13-25 | with no lyric line at all, every line is kept |
| MusicData.StartIndexInRange | src/Spider/process_music_json.py:25-28 | the kept lines are a non-empty suffix of the split lines |
| MusicData.ShouldSkipSong | src/Spider/process_music_json.py:30-46 | true iff the title has a bracket, an ASCII letter or 串烧 |
| MusicData.KeptTitleGuessablesAreHan | src/Spider/process_music_json.py:38-40 | every guessable character of a kept title is a Han character |
| MusicData.Selected | src/Spider/process_music_json.py:57-77 | never more entries than records |
| MusicData.SelectedSound | src/Spider/process_music_json.py:57-77 | every entry comes from a record with one singer, an admitted title and a non-blank cleaned lyric |
| MusicData.SelectedComplete | src/Spider/process_music_json.py:57-77 | every such record yields its entry |
| MusicData.SelectedStep | src/Spider/process_music_json.py:57-77 | one more record adds at most its own entry, at the end |
| MusicData.SelectedAppend | src/Spider/process_music_json.py:57-77 | the filter keeps input order: it distributes over concatenation |
| MusicData.ProcessMusicData | src/Spider/process_music_json.py:48-83 | fails iff an admitted record has no singer; otherwise the selected entries in order with ids 26, 27, … |
| MusicData.Numbered | src/Spider/process_music_json.py:80-83 | the entries in order, the one at position j with id 26+j |

## Left out

- The webview panel, its HTML and script, and the information messages are not modelled. They are user interface.
  - The page's input box sends one trimmed character, which is why a guess is a `char`.
- File I/O is not modelled: reading and writing `leaderboard.json`, loading `songs.json`, and the script's JSON read/write and prints.
  - The board starts empty, as it does when the file is missing.
  - A board loaded from a file could hold records filed under another song's id; the model does not cover that.
- `Date.now()` and `Math.random()` are parameters.
  - The real arithmetic of `Math.floor(Math.random() * n)` is exact in the model. Floating-point rounding is not modelled.
- The `async` wrapper of the message handler and the `currentGame` undefined guard are not modelled. A guess always has a round.
- Round.Game: `guessedChars` is a set.
  - The order in which the page lists the guesses is not modelled.
  - Strings are sequences of code points, while JavaScript splits into UTF-16 units. The two agree on the Basic Multilingual Plane, which holds every guessable character.
- Masking.RevealChar: the source's second parameter, the character just guessed, is never read, so the model omits it.
- The song's body field is a single `lyrics` field. The catalog interface names it `lyric` while the game reads `song.lyrics`.
- LeaderboardStore.Leaderboard.FormattedRecords orders the `time` sort by the numeric timestamp, newest first. It also keeps that timestamp in the row.
  - The source formats the time with `toLocaleString('zh-CN')` and compares the texts with `localeCompare`. That text order is modelled only as code-point order, for the finding below.
  - The in-place `sort` and `forEach` are modelled on sequences rather than on a shared array.
- LeaderboardStore.Searched lower-cases ASCII letters only. Full Unicode case mapping is not modelled.
- LeaderboardStore.Leaderboard.Stats gives the average in exact integer tenths: Math.round(10·total/n), rounding half up. Floating-point division is not modelled.
- LeaderboardStore.Leaderboard.TopScores takes an integer limit. The default of 10 and non-integer limits are not modelled.
- MusicData.ProcessMusicData takes records whose `singer_name` is a list, reporting the `IndexError` of an empty list as a failure. Records that lack a key are not modelled.
- Strings.IsBlank is Python's `not s.strip()` written as "every character is whitespace", using the character set for which `str.isspace` holds.

## Findings

| source | as written | input that shows it | evidently intended | confidence | as-written member | corrected member |
|---|---|---|---|---|---|---|
| src/leaderboard.ts:144-161 | the `time` sort compares the `toLocaleString('zh-CN')` texts with `localeCompare`, newest text first | rows with timestamps 2024/9/30 08:00:00 and 2024/10/1 08:00:00: the texts first differ at `9` versus `1`, so the September row is listed first | newest first by the actual time | medium, not executed; it assumes the zh-CN format without zero padding | LeaderboardStore.TimeTextMisordersMonths | LeaderboardStore.RankedRowsKeepOrder |
