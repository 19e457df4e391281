/** The ranking engine (top_ttfl.py, top_players_by_ttfl): per player and
    team, the count and mean of the TTFL scores over the season; per player,
    the mean over their `last_x` latest games; then the players with enough
    games, best first by recent mean (season mean when there is none), cut
    to the first `top_n`.

    A frame is a sequence of game rows. Scores are reals and a missing score
    is None (NaN); a missing or unparseable GAME_DATE is None (NaT). */
module Ranking {
  import opened Common
  import opened Sorting

  /** One row of the players+games frame. */
  datatype Game = Game(personId: int, name: string, team: string, gameDate: Option<Day>, score: Option<real>)

  /** The frame: its rows, and whether it has a GAME_DATE column at all. */
  datatype GameFrame = GameFrame(hasGameDate: bool, games: seq<Game>)

  function Min(a: int, b: int): int { if a <= b then a else b }

  function Max(a: int, b: int): int { if a >= b then a else b }

  // -----------------------------------------------------------------------
  // Groups

  /** The distinct keys of a column in order of first appearance: the
      groups a groupby forms. */
  function FirstAppearances<K(==,!new)>(ks: seq<K>): (r: seq<K>)
    ensures forall i, j :: 0 <= i < j < |r| ==> r[i] != r[j]
    ensures forall k :: k in r <==> k in ks
  {
    if ks == [] then []
    else
      var n := |ks| - 1;
      var r0 := FirstAppearances(ks[..n]);
      assert ks == ks[..n] + [ks[n]];
      if ks[n] in r0 then r0 else r0 + [ks[n]]
  }

  /** The season grouping key (PERSON_ID, DISPLAY_FIRST_LAST, TEAM_ABBREVIATION). */
  datatype SeasonKey = SeasonKey(personId: int, name: string, team: string)

  function KeyOf(g: Game): SeasonKey {
    SeasonKey(g.personId, g.name, g.team)
  }

  function SeasonKeys(games: seq<Game>): seq<SeasonKey> {
    FirstAppearances(seq(|games|, i requires 0 <= i < |games| => KeyOf(games[i])))
  }

  function PersonIds(games: seq<Game>): seq<int> {
    FirstAppearances(seq(|games|, i requires 0 <= i < |games| => games[i].personId))
  }

  /** The rows of one season group, in frame order. */
  function GroupOf(games: seq<Game>, key: SeasonKey): (r: seq<Game>)
    ensures forall g :: g in r ==> g in games && KeyOf(g) == key
  {
    if games == [] then []
    else
      var last := games[|games| - 1];
      GroupOf(games[..|games| - 1], key) + (if KeyOf(last) == key then [last] else [])
  }

  /** The rows of one player, in frame order. */
  function GamesOf(games: seq<Game>, pid: int): (r: seq<Game>)
    ensures forall g :: g in r ==> g in games && g.personId == pid
  {
    if games == [] then []
    else
      var last := games[|games| - 1];
      GamesOf(games[..|games| - 1], pid) + (if last.personId == pid then [last] else [])
  }

  /** A season group is exactly the frame's rows with its key: each such
      row occurs in it as often as in the frame, and no other row does. */
  lemma {:induction false} GroupOfCounts(games: seq<Game>, key: SeasonKey, g: Game)
    ensures multiset(GroupOf(games, key))[g] == if KeyOf(g) == key then multiset(games)[g] else 0
  {
    if games != [] {
      var init, last := games[..|games| - 1], games[|games| - 1];
      GroupOfCounts(init, key, g);
      assert games == init + [last];
    }
  }

  /** A player's games are exactly the frame's rows with their PERSON_ID,
      each as often as in the frame. */
  lemma {:induction false} GamesOfCounts(games: seq<Game>, pid: int, g: Game)
    ensures multiset(GamesOf(games, pid))[g] == if g.personId == pid then multiset(games)[g] else 0
  {
    if games != [] {
      var init, last := games[..|games| - 1], games[|games| - 1];
      GamesOfCounts(init, pid, g);
      assert games == init + [last];
    }
  }

  /** The non-null scores of some rows, in order. */
  function Scores(games: seq<Game>): (r: seq<real>)
    ensures |r| <= |games|
  {
    if games == [] then []
    else
      var last := games[|games| - 1];
      Scores(games[..|games| - 1]) + (if last.score.Some? then [last.score.value] else [])
  }

  /** Series.mean(): NaN (None) for no values. */
  function Mean(xs: seq<real>): Option<real> {
    if xs == [] then None else Some(Sum(xs) / (|xs| as real))
  }

  lemma {:induction false} SumBounds(xs: seq<real>, lo: real, hi: real)
    requires forall k :: 0 <= k < |xs| ==> lo <= xs[k] <= hi
    ensures (|xs| as real) * lo <= Sum(xs) <= (|xs| as real) * hi
  {
    if xs != [] {
      SumBounds(xs[..|xs| - 1], lo, hi);
    }
  }

  /** A mean lies between the least and the greatest of its values. */
  lemma MeanBounds(xs: seq<real>, lo: real, hi: real)
    requires xs != []
    requires forall k :: 0 <= k < |xs| ==> lo <= xs[k] <= hi
    ensures lo <= Mean(xs).value <= hi
  {
    SumBounds(xs, lo, hi);
    QuotientBounds(Sum(xs), |xs| as real, lo, hi);
  }

  lemma QuotientBounds(s: real, n: real, lo: real, hi: real)
    requires n > 0.0 && n * lo <= s <= n * hi
    ensures lo <= s / n <= hi
  {
    var q := s / n;
    assert q * n == s;
    assert (q - lo) * n >= 0.0;
    assert (hi - q) * n >= 0.0;
  }

  // -----------------------------------------------------------------------
  // Season aggregation (lines 35-41)

  /** N_GAMES (the count of non-null scores) and SEASON_AVG of one group. */
  datatype SeasonRow = SeasonRow(key: SeasonKey, nGames: nat, seasonAvg: Option<real>)

  function SeasonRowFor(games: seq<Game>, key: SeasonKey): SeasonRow {
    var scores := Scores(GroupOf(games, key));
    SeasonRow(key, |scores|, Mean(scores))
  }

  function SeasonTable(games: seq<Game>): (r: seq<SeasonRow>)
    ensures |r| == |SeasonKeys(games)|
  {
    var keys := SeasonKeys(games);
    seq(|keys|, i requires 0 <= i < |keys| => SeasonRowFor(games, keys[i]))
  }

  // -----------------------------------------------------------------------
  // Rolling window (lines 44-58)

  /** Order by GAME_DATE with NaT last, as sort_values places it. */
  predicate DateLe(a: Option<Day>, b: Option<Day>) {
    b.None? || (a.Some? && a.value <= b.value)
  }

  function GameBefore(x: Game, y: Game): bool {
    DateLe(x.gameDate, y.gameDate)
  }

  lemma GameBeforeTotal()
    ensures TotalPreorder(GameBefore)
  {
  }

  /** Sorting by GameBefore orders the games by date, NaT last. */
  lemma SortedByDate(games: seq<Game>)
    ensures var s := Sort(games, GameBefore);
      forall i, j :: 0 <= i < j < |s| ==> DateLe(s[i].gameDate, s[j].gameDate)
  {
    var s := Sort(games, GameBefore);
    GameBeforeTotal();
    SortSorted(games, GameBefore);
    forall i, j | 0 <= i < j < |s| ensures DateLe(s[i].gameDate, s[j].gameDate) {
      assert GameBefore(s[i], s[j]);
    }
  }

  /** DataFrame.tail(n): the last n rows, or all but the first -n rows for
      a negative n. */
  function Tail<T>(s: seq<T>, n: int): (r: seq<T>)
    ensures |r| == if n >= 0 then Min(n, |s|) else Max(0, |s| + n)
    ensures r == s[|s| - |r|..]
  {
    if n >= 0 then s[|s| - Min(n, |s|)..] else s[Min(-n, |s|)..]
  }

  /** DataFrame.head(n): the first n rows, or all but the last -n rows for
      a negative n. */
  function Head<T>(s: seq<T>, n: int): (r: seq<T>)
    ensures |r| == if n >= 0 then Min(n, |s|) else Max(0, |s| + n)
    ensures r == s[..|r|]
  {
    if n >= 0 then s[..Min(n, |s|)] else s[..|s| - Min(-n, |s|)]
  }

  /** A player's rows by date, then the last `last_x` of them. */
  function Window(games: seq<Game>, pid: int, lastX: int): seq<Game> {
    Tail(Sort(GamesOf(games, pid), GameBefore), lastX)
  }

  /** LASTX_N and LASTX_AVG of one player. */
  datatype RollingRow = RollingRow(personId: int, lastxN: nat, lastxAvg: Option<real>)

  function RollingRowFor(games: seq<Game>, pid: int, lastX: int): RollingRow {
    var w := Window(games, pid, lastX);
    RollingRow(pid, |w|, Mean(Scores(w)))
  }

  /** The frame has a GAME_DATE column with at least one date in it. */
  predicate HasDates(frame: GameFrame) {
    frame.hasGameDate && exists i | 0 <= i < |frame.games| :: frame.games[i].gameDate.Some?
  }

  function RollingTable(frame: GameFrame, lastX: int): (r: seq<RollingRow>)
    ensures HasDates(frame) ==> |r| == |PersonIds(frame.games)|
    ensures !HasDates(frame) ==> r == []
  {
    var pids := PersonIds(frame.games);
    if HasDates(frame) then seq(|pids|, i requires 0 <= i < |pids| => RollingRowFor(frame.games, pids[i], lastX))
    else []
  }

  /** The `lastx_list` loop: one entry per player, in group order. */
  method RollingStats(frame: GameFrame, lastX: int) returns (rolling: seq<RollingRow>)
    ensures rolling == RollingTable(frame, lastX)
  {
    rolling := [];
    if !HasDates(frame) {
      return;
    }
    var pids := PersonIds(frame.games);
    ghost var table := RollingTable(frame, lastX);
    for i := 0 to |pids|
      invariant rolling == table[..i]
    {
      var sorted := Sort(GamesOf(frame.games, pids[i]), GameBefore);
      var lastGames := Tail(sorted, lastX);
      var row := RollingRow(pids[i], |lastGames|, Mean(Scores(lastGames)));
      assert table[i] == row;
      PrefixSnoc(table, i);
      rolling := rolling + [row];
    }
    assert table[..|pids|] == table;
  }

  /** The window holds the player's latest games: it is the end of the
      player's games sorted by date (a permutation of them), it has
      min(last_x, number of games) rows, and every game left out is dated no
      later than every game kept. */
  lemma WindowHoldsLatestGames(games: seq<Game>, pid: int, lastX: int)
    ensures
      var s := Sort(GamesOf(games, pid), GameBefore);
      var w := Window(games, pid, lastX);
      && multiset(s) == multiset(GamesOf(games, pid))
      && w == s[|s| - |w|..]
      && |w| == (if lastX >= 0 then Min(lastX, |s|) else Max(0, |s| + lastX))
      && forall i, j :: 0 <= i < |s| - |w| <= j < |s| ==> DateLe(s[i].gameDate, s[j].gameDate)
  {
    SortedByDate(GamesOf(games, pid));
  }

  // -----------------------------------------------------------------------
  // Merge, filter, sort, head (lines 60-66)

  /** One output row: the season stats of a group and, when the player has
      rolling stats, their LASTX_N and LASTX_AVG (None otherwise). */
  datatype RankedRow = RankedRow(
    personId: int, name: string, team: string,
    nGames: nat, seasonAvg: Option<real>,
    lastxN: Option<nat>, lastxAvg: Option<real>)

  /** The rolling row of a player, if any. */
  function FindRolling(rolling: seq<RollingRow>, pid: int): (r: Option<RollingRow>)
    ensures r.Some? ==> r.value in rolling && r.value.personId == pid
    ensures r.None? ==> forall k :: 0 <= k < |rolling| ==> rolling[k].personId != pid
  {
    if rolling == [] then None
    else if rolling[0].personId == pid then Some(rolling[0])
    else FindRolling(rolling[1..], pid)
  }

  /** A left merge on PERSON_ID. */
  function MergeRow(s: SeasonRow, rolling: seq<RollingRow>): RankedRow {
    var m := FindRolling(rolling, s.key.personId);
    RankedRow(s.key.personId, s.key.name, s.key.team, s.nGames, s.seasonAvg,
              if m.Some? then Some(m.value.lastxN) else None,
              if m.Some? then m.value.lastxAvg else None)
  }

  function Merged(season: seq<SeasonRow>, rolling: seq<RollingRow>): (r: seq<RankedRow>)
    ensures |r| == |season|
  {
    seq(|season|, i requires 0 <= i < |season| => MergeRow(season[i], rolling))
  }

  /** out[out["N_GAMES"] >= min_games], order kept. */
  function Eligible(rows: seq<RankedRow>, minGames: int): (r: seq<RankedRow>)
    ensures forall x :: x in r ==> x in rows && x.nGames >= minGames
    ensures forall x :: x in rows && x.nGames >= minGames ==> x in r
  {
    if rows == [] then []
    else
      var last := rows[|rows| - 1];
      var r0 := Eligible(rows[..|rows| - 1], minGames);
      assert rows == rows[..|rows| - 1] + [last];
      r0 + (if last.nGames >= minGames then [last] else [])
  }

  /** SORT_KEY: LASTX_AVG, falling back to SEASON_AVG where it is NaN. */
  function SortKey(r: RankedRow): Option<real> {
    if r.lastxAvg.Some? then r.lastxAvg else r.seasonAvg
  }

  /** Descending order on the sort key, NaN last. */
  function RanksAbove(a: RankedRow, b: RankedRow): bool {
    var x, y := SortKey(a), SortKey(b);
    y.None? || (x.Some? && x.value >= y.value)
  }

  lemma RanksAboveTotal()
    ensures TotalPreorder(RanksAbove)
  {
  }

  /** The players with enough games, joined with their rolling stats. */
  function Candidates(frame: GameFrame, lastX: int, minGames: int): seq<RankedRow> {
    Eligible(Merged(SeasonTable(frame.games), RollingTable(frame, lastX)), minGames)
  }

  /** What top_players_by_ttfl returns. */
  function Ranking(frame: GameFrame, topN: int, lastX: int, minGames: int): seq<RankedRow> {
    Head(Sort(Candidates(frame, lastX, minGames), RanksAbove), topN)
  }

  /** top_players_by_ttfl(df, top_n, last_x, min_games). */
  method TopPlayersByTtfl(frame: GameFrame, topN: int, lastX: int, minGames: int) returns (out: seq<RankedRow>)
    ensures out == Ranking(frame, topN, lastX, minGames)
  {
    var season := SeasonTable(frame.games);
    var rolling := RollingStats(frame, lastX);
    var merged := Merged(season, rolling);
    var kept := Eligible(merged, minGames);
    var sorted := Sort(kept, RanksAbove);
    out := Head(sorted, topN);
  }

  /** The head of a sorted permutation: in order, drawn from the input, and
      nothing left out comes before anything kept. */
  lemma HeadOfSorted<T>(cands: seq<T>, before: (T, T) -> bool, n: int)
    requires Sorted(Sort(cands, before), before)
    ensures
      var out := Head(Sort(cands, before), n);
      && (forall i, j :: 0 <= i < j < |out| ==> before(out[i], out[j]))
      && multiset(out) <= multiset(cands)
      && (forall r, x :: r in out && x in multiset(cands) - multiset(out) ==> before(r, x))
  {
    var s := Sort(cands, before);
    var out := Head(s, n);
    var k := |out|;
    CutMultisets(s, k);
    PrefixBeforeSuffix(s, before, k);
  }

  lemma CutMultisets<T>(s: seq<T>, k: nat)
    requires k <= |s|
    ensures multiset(s[..k]) <= multiset(s)
    ensures multiset(s) - multiset(s[..k]) == multiset(s[k..])
  {
    assert s == s[..k] + s[k..];
  }

  /** In a sorted sequence, everything up to a cut comes before everything
      after it. */
  lemma PrefixBeforeSuffix<T>(s: seq<T>, before: (T, T) -> bool, k: nat)
    requires Sorted(s, before) && k <= |s|
    ensures forall r, x :: r in s[..k] && x in multiset(s[k..]) ==> before(r, x)
  {
    forall r, x | r in s[..k] && x in multiset(s[k..]) ensures before(r, x) {
      var i :| 0 <= i < k && s[..k][i] == r;
      var j :| 0 <= j < |s| - k && s[k..][j] == x;
      assert s[i] == r && s[k + j] == x;
    }
  }

  lemma SortedByRank(rows: seq<RankedRow>)
    ensures Sorted(Sort(rows, RanksAbove), RanksAbove)
  {
    RanksAboveTotal();
    SortSorted(rows, RanksAbove);
  }

  /** The top-N cut: at most top_n rows (all but the last -top_n for a
      negative top_n), only players with at least min_games games, in
      non-increasing sort-key order, drawn from the candidates, and no
      candidate left out ranks above a returned row. */
  lemma RankingIsTopCut(frame: GameFrame, topN: int, lastX: int, minGames: int)
    ensures
      var out := Ranking(frame, topN, lastX, minGames);
      var cands := Candidates(frame, lastX, minGames);
      && (topN >= 0 ==> |out| <= topN)
      && |out| == (if topN >= 0 then Min(topN, |cands|) else Max(0, |cands| + topN))
      && (forall r :: r in out ==> r.nGames >= minGames)
      && (forall i, j :: 0 <= i < j < |out| ==> RanksAbove(out[i], out[j]))
      && multiset(out) <= multiset(cands)
      && (forall r, x :: r in out && x in multiset(cands) - multiset(out) ==> RanksAbove(r, x))
  {
    var cands := Candidates(frame, lastX, minGames);
    var out := Ranking(frame, topN, lastX, minGames);
    SortedByRank(cands);
    HeadOfSorted(cands, RanksAbove, topN);
    forall r | r in out ensures r.nGames >= minGames {
      assert r in multiset(out);
    }
  }

  // -----------------------------------------------------------------------
  // What each returned row holds

  lemma RankedRowInMerged(frame: GameFrame, topN: int, lastX: int, minGames: int, r: RankedRow)
    requires r in Ranking(frame, topN, lastX, minGames)
    ensures r in Merged(SeasonTable(frame.games), RollingTable(frame, lastX))
  {
    var cands := Candidates(frame, lastX, minGames);
    var s := Sort(cands, RanksAbove);
    assert r in multiset(s);
  }

  lemma KeyHasGame(games: seq<Game>, key: SeasonKey)
    requires key in SeasonKeys(games)
    ensures key.personId in PersonIds(games)
  {
    var keys := seq(|games|, i requires 0 <= i < |games| => KeyOf(games[i]));
    var ids := seq(|games|, i requires 0 <= i < |games| => games[i].personId);
    assert key in keys;
    var i :| 0 <= i < |keys| && keys[i] == key;
    assert ids[i] == key.personId;
  }

  lemma SeasonKeyHasGame(games: seq<Game>, key: SeasonKey)
    requires key in SeasonKeys(games)
    ensures exists g :: g in games && KeyOf(g) == key
  {
    var keys := seq(|games|, k requires 0 <= k < |games| => KeyOf(games[k]));
    var k :| 0 <= k < |keys| && keys[k] == key;
    assert games[k] in games;
  }

  /** Every returned row is the group of some row of the frame: the ranking
      invents no player. */
  lemma RankedRowHasGame(frame: GameFrame, topN: int, lastX: int, minGames: int, r: RankedRow)
    requires r in Ranking(frame, topN, lastX, minGames)
    ensures exists g :: g in frame.games && KeyOf(g) == SeasonKey(r.personId, r.name, r.team)
  {
    var season := SeasonTable(frame.games);
    RankedRowInMerged(frame, topN, lastX, minGames, r);
    var i :| 0 <= i < |season| && Merged(season, RollingTable(frame, lastX))[i] == r;
    var key := SeasonKeys(frame.games)[i];
    assert season[i] == SeasonRowFor(frame.games, key);
    SeasonKeyHasGame(frame.games, key);
  }

  /** Every player of the frame finds their own rolling row. */
  lemma FindRollingOfPlayer(frame: GameFrame, lastX: int, pid: int)
    requires HasDates(frame) && pid in PersonIds(frame.games)
    ensures FindRolling(RollingTable(frame, lastX), pid) == Some(RollingRowFor(frame.games, pid, lastX))
  {
    var pids := PersonIds(frame.games);
    var rolling := RollingTable(frame, lastX);
    forall i | 0 <= i < |rolling|
      ensures rolling[i] == RollingRowFor(frame.games, pids[i], lastX)
      ensures rolling[i].personId == pids[i]
    {
    }
    FindRollingKeyed(rolling, pids, pid, RollingRowFor(frame.games, pid, lastX));
  }

  /** In a table whose i-th row carries the i-th key, and whose rows for
      one key are all the same row, a key that occurs finds that row. */
  lemma FindRollingKeyed(rolling: seq<RollingRow>, pids: seq<int>, pid: int, row: RollingRow)
    requires |rolling| == |pids| && pid in pids
    requires forall i :: 0 <= i < |rolling| ==> rolling[i].personId == pids[i]
    requires forall i :: 0 <= i < |rolling| && pids[i] == pid ==> rolling[i] == row
    ensures FindRolling(rolling, pid) == Some(row)
  {
    var p :| 0 <= p < |pids| && pids[p] == pid;
    assert rolling[p].personId == pid;
    var m := FindRolling(rolling, pid);
    var q :| 0 <= q < |rolling| && rolling[q] == m.value;
    assert pids[q] == pid;
  }

  /** Each returned row carries its group's N_GAMES (the group's non-null
      scores) and SEASON_AVG (their mean), and, when the frame has dates,
      the player's rolling stats: LASTX_N is min(last_x, the player's number
      of rows) for a non-negative last_x. Without dates there are no rolling
      stats and the row ranks by its season mean. */
  lemma RankedRowStats(frame: GameFrame, topN: int, lastX: int, minGames: int, r: RankedRow)
    requires r in Ranking(frame, topN, lastX, minGames)
    ensures
      var scores := Scores(GroupOf(frame.games, SeasonKey(r.personId, r.name, r.team)));
      r.nGames == |scores| && r.seasonAvg == Mean(scores)
    ensures !HasDates(frame) ==> r.lastxN.None? && r.lastxAvg.None? && SortKey(r) == r.seasonAvg
    ensures HasDates(frame) ==>
      var w := Window(frame.games, r.personId, lastX);
      && r.lastxN == Some(|w|)
      && r.lastxAvg == Mean(Scores(w))
      && (lastX >= 0 ==> r.lastxN == Some(Min(lastX, |GamesOf(frame.games, r.personId)|)))
  {
    var season := SeasonTable(frame.games);
    var rolling := RollingTable(frame, lastX);
    RankedRowInMerged(frame, topN, lastX, minGames, r);
    var i :| 0 <= i < |season| && Merged(season, rolling)[i] == r;
    var key := SeasonKeys(frame.games)[i];
    assert season[i] == SeasonRowFor(frame.games, key);
    if HasDates(frame) {
      KeyHasGame(frame.games, key);
      FindRollingOfPlayer(frame, lastX, key.personId);
      WindowHoldsLatestGames(frame.games, key.personId, lastX);
    }
  }
}
