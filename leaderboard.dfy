/**
 * The leaderboard (src/leaderboard.ts): a map from song id to the best
 * (smallest) number of guesses with which the song was solved, and the
 * queries over it. File persistence is not modelled; the missing-file case is
 * the empty initial board. `Date.now()` is the parameter `now`.
 */
module LeaderboardStore {
  import opened Wrappers
  import opened Strings
  import opened StableSort

  datatype ScoreRecord = ScoreRecord(songId: int, minGuesses: int, timestamp: int)

  /** The sort key of `(a, b) => a.minGuesses - b.minGuesses`. */
  function MinGuesses(r: ScoreRecord): int
  {
    r.minGuesses
  }

  /** The song a score belongs to. */
  function ScoreId(r: ScoreRecord): int
  {
    r.songId
  }

  /** `getStats` result; `averageTenths` is `averageGuesses` times ten. */
  datatype LeaderboardStats = LeaderboardStats(totalSongs: nat, averageTenths: int, bestRecord: int)

  /** The name and artist the caller's song table supplies for an id. */
  datatype SongInfo = SongInfo(name: string, artist: string)

  /** A listing row; `timestamp` is the raw time, the source formats it for display. */
  datatype LeaderboardRecord = LeaderboardRecord(rank: int, songId: int, songName: string, artist: string,
                                                 guesses: int, timestamp: int)

  datatype SortKey = ByGuesses | ByTime

  /** The song a listing row belongs to. */
  function RowId(x: LeaderboardRecord): int
  {
    x.songId
  }

  /**
   * `order` lists the keys of `scores` in the iteration order of the
   * JavaScript `Map` (first insertion), and each record is filed under its
   * own song id.
   */
  ghost predicate WellFormed(scores: map<int, ScoreRecord>, order: seq<int>)
  {
    && Distinct(order)
    && (forall i :: 0 <= i < |order| ==> order[i] in scores)
    && (forall k :: k in scores ==> k in order)
    && |order| == |scores|
    && (forall k :: k in scores ==> scores[k].songId == k)
  }

  /** `Array.from(scores.values())`. */
  function ValuesIn(scores: map<int, ScoreRecord>, order: seq<int>): (r: seq<ScoreRecord>)
    requires forall i :: 0 <= i < |order| ==> order[i] in scores
    ensures |r| == |order|
    ensures forall i :: 0 <= i < |order| ==> r[i] == scores[order[i]]
  {
    if order == [] then [] else [scores[order[0]]] + ValuesIn(scores, order[1..])
  }

  /** The condition under which `updateScore` writes. */
  predicate Improves(scores: map<int, ScoreRecord>, songId: int, guesses: int)
  {
    songId !in scores || guesses < scores[songId].minGuesses
  }

  /** The map after `updateScore(songId, guesses)` at time `now`. */
  function Updated(scores: map<int, ScoreRecord>, songId: int, guesses: int, now: int): map<int, ScoreRecord>
  {
    if Improves(scores, songId, guesses) then scores[songId := ScoreRecord(songId, guesses, now)] else scores
  }

  /** Only the entry of `songId` can change; its best never grows, and it ends up present. */
  lemma UpdateIsLocal(scores: map<int, ScoreRecord>, songId: int, guesses: int, now: int)
    ensures var m := Updated(scores, songId, guesses, now);
      && m.Keys == scores.Keys + {songId}
      && (forall k :: k in scores && k != songId ==> m[k] == scores[k])
      && (songId in scores ==> m[songId].minGuesses <= scores[songId].minGuesses)
      && (songId in scores ==> m[songId].minGuesses == if guesses < scores[songId].minGuesses then guesses else scores[songId].minGuesses)
  {
  }

  /** One call of `updateScore`, for reasoning about several in a row. */
  datatype Attempt = Attempt(songId: int, guesses: int, now: int)

  function UpdatedAll(scores: map<int, ScoreRecord>, attempts: seq<Attempt>): map<int, ScoreRecord>
    decreases |attempts|
  {
    if attempts == [] then scores
    else UpdatedAll(Updated(scores, attempts[0].songId, attempts[0].guesses, attempts[0].now), attempts[1..])
  }

  /**
   * Across any sequence of `updateScore` calls an entry is never removed, and
   * its stored best is never larger than before; it is at most every count
   * submitted for it.
   */
  lemma {:induction false} BestNeverIncreases(scores: map<int, ScoreRecord>, attempts: seq<Attempt>, id: int)
    requires id in scores
    ensures id in UpdatedAll(scores, attempts)
    ensures UpdatedAll(scores, attempts)[id].minGuesses <= scores[id].minGuesses
    ensures forall i :: 0 <= i < |attempts| && attempts[i].songId == id ==>
      UpdatedAll(scores, attempts)[id].minGuesses <= attempts[i].guesses
    decreases |attempts|
  {
    if attempts != [] {
      var a := attempts[0];
      var m := Updated(scores, a.songId, a.guesses, a.now);
      UpdateIsLocal(scores, a.songId, a.guesses, a.now);
      BestNeverIncreases(m, attempts[1..], id);
      forall i | 0 <= i < |attempts| && attempts[i].songId == id
        ensures UpdatedAll(scores, attempts)[id].minGuesses <= attempts[i].guesses
      {
        if i > 0 {
          assert attempts[1..][i - 1] == attempts[i];
        }
      }
    }
  }

  /** `findIndex(score => score.songId === songId)`: the first position with that id, or -1. */
  function FindIndex(s: seq<ScoreRecord>, songId: int): (k: int)
    ensures -1 <= k < |s|
    ensures k == -1 <==> forall i :: 0 <= i < |s| ==> s[i].songId != songId
    ensures k != -1 ==> s[k].songId == songId && forall i :: 0 <= i < k ==> s[i].songId != songId
  {
    if s == [] then -1
    else if s[0].songId == songId then 0
    else
      var k := FindIndex(s[1..], songId);
      assert forall i :: 1 <= i < |s| ==> s[i] == s[1..][i - 1];
      if k == -1 then -1 else k + 1
  }

  /** The record filed under `songId` is found, and found where it stands. */
  lemma FoundAtItsRank(s: seq<ScoreRecord>, songId: int, x: ScoreRecord)
    requires x in s && x.songId == songId
    requires forall y :: y in s && y.songId == songId ==> y == x
    ensures 0 <= FindIndex(s, songId) < |s| && s[FindIndex(s, songId)] == x
  {
  }

  /** JavaScript `slice(0, limit)`: a negative end counts back from the end. */
  function SliceEnd(limit: int, n: nat): (e: nat)
    ensures e <= n
    ensures limit >= 0 ==> e == if limit < n then limit else n
    ensures limit < 0 ==> e == if n + limit > 0 then n + limit else 0
  {
    if limit >= 0 then (if limit < n then limit else n) else if n + limit > 0 then n + limit else 0
  }

  function Sum(s: seq<ScoreRecord>): int
  {
    if s == [] then 0 else s[0].minGuesses + Sum(s[1..])
  }

  /** `reduce((min, r) => Math.min(min, r.minGuesses), Infinity)` on a non-empty sequence. */
  function MinOf(s: seq<ScoreRecord>): (m: int)
    requires s != []
    ensures forall i :: 0 <= i < |s| ==> m <= s[i].minGuesses
    ensures exists i :: 0 <= i < |s| && m == s[i].minGuesses
  {
    if |s| == 1 then s[0].minGuesses
    else
      var rest := MinOf(s[1..]);
      assert forall i :: 1 <= i < |s| ==> s[i] == s[1..][i - 1];
      if s[0].minGuesses <= rest then s[0].minGuesses else rest
  }

  /** A prefix of a sorted sequence is sorted. */
  lemma PrefixSorted(s: seq<ScoreRecord>, e: nat)
    requires SortedBy(s, MinGuesses) && e <= |s|
    ensures SortedBy(s[..e], MinGuesses)
  {
    var r := s[..e];
    forall i, j | 0 <= i < j < |r| ensures MinGuesses(r[i]) <= MinGuesses(r[j]) {
      assert r[i] == s[i] && r[j] == s[j];
    }
  }

  /** A prefix of a sequence without repeated songs has none either. */
  lemma PrefixDistinct(s: seq<ScoreRecord>, e: nat)
    requires DistinctBy(s, ScoreId) && e <= |s|
    ensures DistinctBy(s[..e], ScoreId)
  {
    var r := s[..e];
    forall i, j | 0 <= i < j < |r| ensures ScoreId(r[i]) != ScoreId(r[j]) {
      assert r[i] == s[i] && r[j] == s[j];
    }
  }

  /** Whatever a sorted sequence's prefix leaves out is no better than what the prefix holds. */
  lemma PrefixHoldsBest(s: seq<ScoreRecord>, e: nat)
    requires SortedBy(s, MinGuesses) && e <= |s|
    ensures forall x, i :: x in s && x !in s[..e] && 0 <= i < e ==> s[..e][i].minGuesses <= x.minGuesses
  {
    forall x, i | x in s && x !in s[..e] && 0 <= i < e ensures s[..e][i].minGuesses <= x.minGuesses {
      var q :| 0 <= q < |s| && s[q] == x;
      assert s[..e][i] == s[i];
      assert MinGuesses(s[i]) <= MinGuesses(s[q]);
    }
  }

  /** `t` is `total / n * 10` rounded half up: `t <= 10 * total / n + 1/2 < t + 1`. */
  predicate IsRoundedTenths(t: int, total: int, n: nat)
  {
    2 * n * t <= 20 * total + n < 2 * n * (t + 1)
  }

  /** `Math.round(total / n * 10)` in exact arithmetic. */
  function RoundedTenths(total: int, n: nat): (t: int)
    requires n > 0
    ensures IsRoundedTenths(t, total, n)
  {
    (20 * total + n) / (2 * n)
  }

  /** The listing row built from a score and its song; the rank is set later. */
  function RowOf(score: ScoreRecord, info: SongInfo): LeaderboardRecord
  {
    LeaderboardRecord(0, score.songId, info.name, info.artist, score.minGuesses, score.timestamp)
  }

  /** The `map` to rows and the `filter` that drops scores whose song the table does not know. */
  function Joined(scores: seq<ScoreRecord>, songs: map<int, SongInfo>): (r: seq<LeaderboardRecord>)
    ensures |r| <= |scores|
    ensures forall x :: x in r <==> exists v :: v in scores && v.songId in songs && x == RowOf(v, songs[v.songId])
    ensures DistinctBy(scores, ScoreId) ==> DistinctBy(r, RowId)
  {
    if scores == [] then []
    else
      var v := scores[0];
      var rest := Joined(scores[1..], songs);
      assert forall w :: w in scores <==> w == v || w in scores[1..];
      var r := (if v.songId in songs then [RowOf(v, songs[v.songId])] else []) + rest;
      if DistinctBy(scores, ScoreId) then
        JoinedDistinctStep(scores, songs, rest, r);
        r
      else
        r
  }

  /** One more score in front adds a row for a song none of the later rows has. */
  lemma JoinedDistinctStep(scores: seq<ScoreRecord>, songs: map<int, SongInfo>,
                           rest: seq<LeaderboardRecord>, r: seq<LeaderboardRecord>)
    requires scores != [] && DistinctBy(scores, ScoreId)
    requires DistinctBy(scores[1..], ScoreId) ==> DistinctBy(rest, RowId)
    requires forall x :: x in rest ==> exists v :: v in scores[1..] && v.songId in songs && x == RowOf(v, songs[v.songId])
    requires r == (if scores[0].songId in songs then [RowOf(scores[0], songs[scores[0].songId])] else []) + rest
    ensures DistinctBy(r, RowId)
  {
    var t := scores[1..];
    forall i, j | 0 <= i < j < |t| ensures ScoreId(t[i]) != ScoreId(t[j]) {
      assert t[i] == scores[i + 1] && t[j] == scores[j + 1];
    }
    forall x | x in rest ensures x.songId != scores[0].songId {
      var v :| v in t && v.songId in songs && x == RowOf(v, songs[v.songId]);
      var k :| 0 <= k < |t| && t[k] == v;
      assert t[k] == scores[k + 1];
    }
    if scores[0].songId in songs {
      forall i, j | 0 <= i < j < |r| ensures RowId(r[i]) != RowId(r[j]) {
        assert r[j] == rest[j - 1];
        if i > 0 {
          assert r[i] == rest[i - 1];
        }
      }
    }
  }

  /** The row-building filter keeps the order of the scores. */
  lemma {:induction false} JoinedAppend(a: seq<ScoreRecord>, b: seq<ScoreRecord>, songs: map<int, SongInfo>)
    ensures Joined(a + b, songs) == Joined(a, songs) + Joined(b, songs)
  {
    if a == [] {
      assert a + b == b;
    } else {
      assert (a + b)[0] == a[0];
      assert (a + b)[1..] == a[1..] + b;
      JoinedAppend(a[1..], b, songs);
    }
  }

  /** The search test, with ASCII-only lower-casing. */
  predicate MatchesSearch(x: LeaderboardRecord, search: string)
  {
    Contains(ToLower(x.songName), ToLower(search)) || Contains(ToLower(x.artist), ToLower(search))
  }

  function Searched(rows: seq<LeaderboardRecord>, search: string): (r: seq<LeaderboardRecord>)
    ensures |r| <= |rows|
    ensures forall x :: x in r <==> x in rows && MatchesSearch(x, search)
    ensures DistinctBy(rows, RowId) ==> DistinctBy(r, RowId)
  {
    if rows == [] then []
    else
      assert forall w :: w in rows <==> w == rows[0] || w in rows[1..];
      var rest := Searched(rows[1..], search);
      var r := (if MatchesSearch(rows[0], search) then [rows[0]] else []) + rest;
      if DistinctBy(rows, RowId) then
        SearchedDistinctStep(rows, rest, r);
        r
      else
        r
  }

  /** Keeping or dropping the first row cannot repeat a song of the later rows. */
  lemma SearchedDistinctStep(rows: seq<LeaderboardRecord>, rest: seq<LeaderboardRecord>, r: seq<LeaderboardRecord>)
    requires rows != [] && DistinctBy(rows, RowId)
    requires DistinctBy(rows[1..], RowId) ==> DistinctBy(rest, RowId)
    requires forall x :: x in rest ==> x in rows[1..]
    requires r == [rows[0]] + rest || r == rest
    ensures DistinctBy(r, RowId)
  {
    var t := rows[1..];
    forall i, j | 0 <= i < j < |t| ensures RowId(t[i]) != RowId(t[j]) {
      assert t[i] == rows[i + 1] && t[j] == rows[j + 1];
    }
    forall x | x in rest ensures x.songId != rows[0].songId {
      var k :| 0 <= k < |t| && t[k] == x;
      assert t[k] == rows[k + 1];
    }
    if r != rest {
      forall i, j | 0 <= i < j < |r| ensures RowId(r[i]) != RowId(r[j]) {
        assert r[j] == rest[j - 1];
        if i > 0 {
          assert r[i] == rest[i - 1];
        }
      }
    }
  }

  /** The search filter keeps the order of the rows. */
  lemma {:induction false} SearchedAppend(a: seq<LeaderboardRecord>, b: seq<LeaderboardRecord>, search: string)
    ensures Searched(a + b, search) == Searched(a, search) + Searched(b, search)
  {
    if a == [] {
      assert a + b == b;
    } else {
      assert (a + b)[0] == a[0];
      assert (a + b)[1..] == a[1..] + b;
      SearchedAppend(a[1..], b, search);
    }
  }

  function GuessesKey(x: LeaderboardRecord): int
  {
    x.guesses
  }

  /** Newest first: a larger timestamp sorts earlier. */
  function TimeKey(x: LeaderboardRecord): int
  {
    -x.timestamp
  }

  /**
   * Strict code-point order on strings, standing in for `localeCompare` on the
   * digit-and-separator texts that `toLocaleString('zh-CN')` produces.
   */
  predicate TextBefore(a: string, b: string)
  {
    if a == [] then b != []
    else if b == [] then false
    else if a[0] != b[0] then a[0] < b[0]
    else TextBefore(a[1..], b[1..])
  }

  /**
   * The time sort as written: `b.timestamp.localeCompare(a.timestamp)` on the
   * formatted texts puts the row with text `x` first when `y` is before `x`.
   */
  predicate TimeTextFirst(x: string, y: string)
  {
    TextBefore(y, x)
  }

  /** A common prefix does not decide the order. */
  lemma {:induction false} TextBeforeAfterPrefix(p: string, a: string, b: string)
    ensures TextBefore(p + a, p + b) == TextBefore(a, b)
  {
    if p != [] {
      assert (p + a)[0] == p[0] == (p + b)[0];
      assert (p + a)[1..] == p[1..] + a && (p + b)[1..] == p[1..] + b;
      TextBeforeAfterPrefix(p[1..], a, b);
    } else {
      assert p + a == a && p + b == b;
    }
  }

  /**
   * As written, a row from 30 September 2024 is listed before a newer one from
   * 1 October 2024: the texts first differ at the month, where `9` is after `1`.
   */
  lemma TimeTextMisordersMonths()
    ensures TimeTextFirst("2024/9/30 08:00:00", "2024/10/1 08:00:00")
    ensures !TimeTextFirst("2024/10/1 08:00:00", "2024/9/30 08:00:00")
  {
    var year, sep, oct := "2024/", "9/30 08:00:00", "10/1 08:00:00";
    assert oct[0] < sep[0];
    TextBeforeAfterPrefix(year, oct, sep);
    TextBeforeAfterPrefix(year, sep, oct);
    assert year + sep == "2024/9/30 08:00:00";
    assert year + oct == "2024/10/1 08:00:00";
  }

  function KeyOf(sortBy: SortKey): LeaderboardRecord -> int
  {
    if sortBy == ByGuesses then GuessesKey else TimeKey
  }

  class Leaderboard {
    var scores: map<int, ScoreRecord>
    /** Iteration order of the JavaScript `Map`. */
    var order: seq<int>

    ghost predicate Valid()
      reads this
    {
      WellFormed(scores, order)
    }

    /** A new board whose backing file is missing or unreadable: no scores. */
    constructor ()
      ensures Valid() && scores == map[] && order == []
    {
      scores := map[];
      order := [];
    }

    /**
     * `updateScore`: writes `{songId, guesses, now}` and reports a new record
     * exactly when the song has no entry yet or `guesses` beats the stored best;
     * otherwise nothing changes.
     */
    method UpdateScore(songId: int, guesses: int, now: int) returns (isNewRecord: bool)
      requires Valid()
      modifies this
      ensures Valid()
      ensures isNewRecord <==> Improves(old(scores), songId, guesses)
      ensures scores == Updated(old(scores), songId, guesses, now)
      ensures order == if songId in old(scores) then old(order) else old(order) + [songId]
    {
      isNewRecord := false;
      if songId !in scores || guesses < scores[songId].minGuesses {
        if songId !in scores {
          order := order + [songId];
        }
        scores := scores[songId := ScoreRecord(songId, guesses, now)];
        isNewRecord := true;
      }
    }

    /** `getScore`. */
    function GetScore(songId: int): (r: Option<ScoreRecord>)
      reads this
      ensures r.Some? <==> songId in scores
      ensures r.Some? ==> r.value == scores[songId]
    {
      if songId in scores then Some(scores[songId]) else None
    }

    /** `getAllScores`: every entry once, in map order. */
    function AllScores(): (r: seq<ScoreRecord>)
      reads this
      requires Valid()
      ensures |r| == |scores|
      ensures forall x :: x in r ==> x.songId in scores && scores[x.songId] == x
      ensures forall k :: k in scores ==> scores[k] in r
      ensures DistinctBy(r, ScoreId)
    {
      var r := ValuesIn(scores, order);
      assert forall k :: k in scores ==> exists i :: 0 <= i < |order| && order[i] == k;
      assert forall i :: 0 <= i < |r| ==> ScoreId(r[i]) == order[i];
      r
    }

    /** The entries sorted by best guess count, ties in map order. */
    function Ranked(): (r: seq<ScoreRecord>)
      reads this
      requires Valid()
      ensures |r| == |scores|
      ensures SortedBy(r, MinGuesses)
      ensures forall x :: x in r ==> x.songId in scores && scores[x.songId] == x
      ensures forall k :: k in scores ==> scores[k] in r
      ensures DistinctBy(r, ScoreId)
    {
      var all := AllScores();
      SortByMembersAll(all, MinGuesses);
      SortByDistinctBy(all, MinGuesses, ScoreId);
      SortBy(all, MinGuesses)
    }

    /**
     * `getTopScores(limit)`: the first `limit` entries of the ranking (a
     * negative `limit` drops that many from the end), drawn from the board,
     * ascending, and none better left out.
     */
    function TopScores(limit: int): (r: seq<ScoreRecord>)
      reads this
      requires Valid()
      ensures |r| == SliceEnd(limit, |scores|)
      ensures SortedBy(r, MinGuesses)
      ensures forall x :: x in r ==> x.songId in scores && scores[x.songId] == x
      ensures forall k, i :: k in scores && 0 <= i < |r| && scores[k] !in r ==> r[i].minGuesses <= scores[k].minGuesses
      ensures DistinctBy(r, ScoreId)
      ensures r == Ranked()[..SliceEnd(limit, |scores|)]
    {
      var ranked := Ranked();
      var e := SliceEnd(limit, |ranked|);
      PrefixSorted(ranked, e);
      PrefixDistinct(ranked, e);
      PrefixHoldsBest(ranked, e);
      ranked[..e]
    }

    /**
     * `getSongRank`: -1 for a song without an entry; otherwise its 1-based
     * position in the ranking, which is more than the number of entries with a
     * strictly better best and at most the number with an equal or better one.
     */
    function SongRank(songId: int): (r: int)
      reads this
      requires Valid()
      ensures r == -1 <==> songId !in scores
      ensures r != -1 ==> 1 <= r <= |scores|
      ensures r != -1 ==>
        var g := scores[songId].minGuesses;
        CountBelow(AllScores(), MinGuesses, g) < r <= CountAtMost(AllScores(), MinGuesses, g)
    {
      if songId !in scores then -1
      else
        var ranked := Ranked();
        FoundAtItsRank(ranked, songId, scores[songId]);
        var p := FindIndex(ranked, songId);
        PositionBetweenCounts(ranked, MinGuesses, p);
        CountsOfSort(AllScores(), MinGuesses, scores[songId].minGuesses);
        p + 1
    }

    /**
     * `getStats`: the number of entries, the average best rounded to one
     * decimal (in tenths) and the smallest best, with 0 for both on an empty board.
     */
    function Stats(): (st: LeaderboardStats)
      reads this
      requires Valid()
      ensures st.totalSongs == |scores|
      ensures |scores| == 0 ==> st.averageTenths == 0 && st.bestRecord == 0
      ensures |scores| > 0 ==> IsRoundedTenths(st.averageTenths, Sum(AllScores()), |scores|)
      ensures |scores| > 0 ==> forall k :: k in scores ==> st.bestRecord <= scores[k].minGuesses
      ensures |scores| > 0 ==> exists k :: k in scores && scores[k].minGuesses == st.bestRecord
    {
      var all := AllScores();
      var n := |all|;
      if n == 0 then LeaderboardStats(0, 0, 0)
      else
        var best := MinOf(all);
        var tenths := RoundedTenths(Sum(all), n);
        assert forall k :: k in scores ==> exists i :: 0 <= i < n && all[i] == scores[k];
        var i :| 0 <= i < n && best == all[i].minGuesses;
        assert all[i] in all;
        assert all[i].songId in scores && scores[all[i].songId].minGuesses == best;
        LeaderboardStats(n, tenths, best)
    }

    /** The rows before sorting: known songs only, and only matches of a non-empty search. */
    function Candidates(songs: map<int, SongInfo>, searchText: string): (rows: seq<LeaderboardRecord>)
      reads this
      requires Valid()
      ensures forall x :: x in rows ==>
        x.songId in scores && x.songId in songs && x == RowOf(scores[x.songId], songs[x.songId])
        && (searchText != [] ==> MatchesSearch(x, searchText))
      ensures forall k :: k in scores && k in songs && (searchText == [] || MatchesSearch(RowOf(scores[k], songs[k]), searchText)) ==>
        RowOf(scores[k], songs[k]) in rows
      ensures DistinctBy(rows, RowId)
    {
      var all := AllScores();
      var joined := Joined(all, songs);
      assert forall k :: k in scores && k in songs ==> RowOf(scores[k], songs[k]) in joined by {
        forall k | k in scores && k in songs ensures RowOf(scores[k], songs[k]) in joined {
          assert scores[k] in all && scores[k].songId == k;
        }
      }
      if searchText != [] then Searched(joined, searchText) else joined
    }

    /**
     * `getFormattedRecords`: one row per entry whose song the table knows,
     * kept only if it matches a non-empty search, sorted by guesses (ascending)
     * or by time (newest first), and ranked 1..n in output order.
     */
    method FormattedRecords(songs: map<int, SongInfo>, searchText: string, sortBy: SortKey)
      returns (records: seq<LeaderboardRecord>)
      requires Valid()
      ensures forall i :: 0 <= i < |records| ==> records[i].rank == i + 1
      ensures forall i :: 0 <= i < |records| ==>
        var id := records[i].songId;
        id in scores && id in songs && records[i] == RowOf(scores[id], songs[id]).(rank := i + 1)
      ensures searchText != [] ==> forall i :: 0 <= i < |records| ==> MatchesSearch(records[i], searchText)
      ensures forall k :: k in scores && k in songs && (searchText == [] || MatchesSearch(RowOf(scores[k], songs[k]), searchText)) ==>
        exists i :: 0 <= i < |records| && records[i].songId == k
      ensures sortBy == ByGuesses ==> forall i, j :: 0 <= i < j < |records| ==> records[i].guesses <= records[j].guesses
      ensures sortBy == ByTime ==> forall i, j :: 0 <= i < j < |records| ==> records[i].timestamp >= records[j].timestamp
      ensures forall i, j :: 0 <= i < j < |records| ==> records[i].songId != records[j].songId
    {
      var rows := Candidates(songs, searchText);
      var sorted := SortBy(rows, KeyOf(sortBy));
      SortByMembersAll(rows, KeyOf(sortBy));
      SortByDistinctBy(rows, KeyOf(sortBy), RowId);
      records := AssignRanks(sorted);
      RankedRowsDistinct(sorted, records);
      RankedRowsAreCandidates(sorted, records, scores, songs, searchText);
      RankedRowsCoverCandidates(sorted, records, scores, songs, searchText);
      RankedRowsKeepOrder(sorted, records, sortBy);
    }
  }

  /** The `forEach` that numbers the sorted rows 1..n in place. */
  method AssignRanks(sorted: seq<LeaderboardRecord>) returns (records: seq<LeaderboardRecord>)
    ensures |records| == |sorted|
    ensures forall j :: 0 <= j < |records| ==> records[j] == sorted[j].(rank := j + 1)
  {
    records := sorted;
    var i := 0;
    while i < |records|
      invariant 0 <= i <= |records| == |sorted|
      invariant forall j :: 0 <= j < i ==> records[j] == sorted[j].(rank := j + 1)
      invariant forall j :: i <= j < |records| ==> records[j] == sorted[j]
    {
      records := records[i := records[i].(rank := i + 1)];
      i := i + 1;
    }
  }

  /** Every numbered row is the row of a known, matching entry. */
  lemma RankedRowsAreCandidates(sorted: seq<LeaderboardRecord>, records: seq<LeaderboardRecord>,
                                scores: map<int, ScoreRecord>, songs: map<int, SongInfo>, searchText: string)
    requires |records| == |sorted|
    requires forall j :: 0 <= j < |records| ==> records[j] == sorted[j].(rank := j + 1)
    requires forall x :: x in sorted ==>
      x.songId in scores && x.songId in songs && x == RowOf(scores[x.songId], songs[x.songId])
      && (searchText != [] ==> MatchesSearch(x, searchText))
    ensures forall i :: 0 <= i < |records| ==>
      var id := records[i].songId;
      id in scores && id in songs && records[i] == RowOf(scores[id], songs[id]).(rank := i + 1)
    ensures searchText != [] ==> forall i :: 0 <= i < |records| ==> MatchesSearch(records[i], searchText)
  {
    forall j | 0 <= j < |records|
      ensures var id := records[j].songId;
        id in scores && id in songs && records[j] == RowOf(scores[id], songs[id]).(rank := j + 1)
      ensures searchText != [] ==> MatchesSearch(records[j], searchText)
    {
      assert sorted[j] in sorted;
    }
  }

  /** Numbering changes no song id, so no song is listed twice. */
  lemma RankedRowsDistinct(sorted: seq<LeaderboardRecord>, records: seq<LeaderboardRecord>)
    requires DistinctBy(sorted, RowId)
    requires |records| == |sorted|
    requires forall j :: 0 <= j < |records| ==> records[j] == sorted[j].(rank := j + 1)
    ensures forall i, j :: 0 <= i < j < |records| ==> records[i].songId != records[j].songId
  {
    assert forall i :: 0 <= i < |records| ==> records[i].songId == RowId(sorted[i]);
  }

  /** Every known, matching entry gets a numbered row. */
  lemma RankedRowsCoverCandidates(sorted: seq<LeaderboardRecord>, records: seq<LeaderboardRecord>,
                                  scores: map<int, ScoreRecord>, songs: map<int, SongInfo>, searchText: string)
    requires forall k :: k in scores ==> scores[k].songId == k
    requires |records| == |sorted|
    requires forall j :: 0 <= j < |records| ==> records[j] == sorted[j].(rank := j + 1)
    requires forall k :: k in scores && k in songs && (searchText == [] || MatchesSearch(RowOf(scores[k], songs[k]), searchText)) ==>
      RowOf(scores[k], songs[k]) in sorted
    ensures forall k :: k in scores && k in songs && (searchText == [] || MatchesSearch(RowOf(scores[k], songs[k]), searchText)) ==>
      exists i :: 0 <= i < |records| && records[i].songId == k
  {
    forall k | k in scores && k in songs && (searchText == [] || MatchesSearch(RowOf(scores[k], songs[k]), searchText))
      ensures exists i :: 0 <= i < |records| && records[i].songId == k
    {
      var q :| 0 <= q < |sorted| && sorted[q] == RowOf(scores[k], songs[k]);
      assert records[q].songId == k;
    }
  }

  /** Numbering the rows keeps the order the sort chose. */
  lemma RankedRowsKeepOrder(sorted: seq<LeaderboardRecord>, records: seq<LeaderboardRecord>, sortBy: SortKey)
    requires SortedBy(sorted, KeyOf(sortBy))
    requires |records| == |sorted|
    requires forall j :: 0 <= j < |records| ==> records[j] == sorted[j].(rank := j + 1)
    ensures sortBy == ByGuesses ==> forall i, j :: 0 <= i < j < |records| ==> records[i].guesses <= records[j].guesses
    ensures sortBy == ByTime ==> forall i, j :: 0 <= i < j < |records| ==> records[i].timestamp >= records[j].timestamp
  {
    if sortBy == ByGuesses {
      assert forall i, j :: 0 <= i < j < |records| ==> GuessesKey(sorted[i]) <= GuessesKey(sorted[j]);
    } else {
      assert forall i, j :: 0 <= i < j < |records| ==> TimeKey(sorted[i]) <= TimeKey(sorted[j]);
    }
  }

  /**
   * Three results for one song: 5 sets the record, 7 does not beat it, 3
   * does; the stored best ends at 3.
   */
  method RecordSequence() returns (first: bool, second: bool, third: bool, best: int)
    ensures first && !second && third && best == 3
  {
    var board := new Leaderboard();
    first := board.UpdateScore(1, 5, 1000);
    second := board.UpdateScore(1, 7, 2000);
    third := board.UpdateScore(1, 3, 3000);
    best := board.scores[1].minGuesses;
  }

  /** An empty board reports zero entries, average and best. */
  method EmptyBoardStats() returns (st: LeaderboardStats)
    ensures st == LeaderboardStats(0, 0, 0)
  {
    var board := new Leaderboard();
    st := board.Stats();
  }
}
