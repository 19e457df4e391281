/** The exclusion script (top_ttfl_excluding_history.py): for each target
    date, the teams that play, the players of those teams, minus the players
    picked in the recent TTFL history, ranked by the ranking engine.

    The players frame, the cached history files, the scoreboard and the
    clock are parameters: the frame is what fetch_players_ttfl returns, the
    history is the cache's file map with the order in which the directory
    listing returns its files, the scoreboard is the outcome of each call
    for a date, and today is a day number. Dates are day numbers and
    `parseIso` stands for datetime.fromisoformat. */
module Eligibility {
  import opened Common
  import CS = CacheStore
  import H = TtflHistory
  import R = Ranking
  import Rt = Retry
  import T = TeamResolution

  // -----------------------------------------------------------------------
  // The recent history (_load_recent_history, lines 16-37)

  type HistoryFiles = map<string, CS.Artifact<H.HistoryTable>>

  /** The tables of the listed files, in listing order; a path that is not a
      readable table (a directory, unreadable content) is skipped. */
  function ReadTables(files: HistoryFiles, listing: seq<string>): (r: seq<H.HistoryTable>)
    ensures forall t :: t in r ==> exists p :: p in listing && p in files && files[p] == CS.Artifact.Table(t)
  {
    if listing == [] then []
    else
      var p := listing[|listing| - 1];
      ReadTables(files, listing[..|listing| - 1]) +
        (if p in files && files[p].Table? then [files[p].value] else [])
  }

  /** A table's rows as read_csv and the concatenation see them: a column
      the file does not have reads as missing, and so does a Joueur cell
      holding one of read_csv's NA spellings. */
  function RowsOf(t: H.HistoryTable): (r: seq<H.HistoryRow>)
    ensures |r| == |t.rows|
  {
    var u := H.CsvRoundTrip(t);
    seq(|u.rows|, k requires 0 <= k < |u.rows| =>
      H.HistoryRow(if u.hasDate then u.rows[k].date else None,
                   if u.hasJoueur then u.rows[k].joueur else None))
  }

  /** pd.concat(dfs, ignore_index=True): the rows, table after table. */
  function AllRows(tables: seq<H.HistoryTable>): seq<H.HistoryRow> {
    if tables == [] then []
    else AllRows(tables[..|tables| - 1]) + RowsOf(tables[|tables| - 1])
  }

  /** Whether the concatenation has a Date column: some table has one. */
  predicate AnyDate(tables: seq<H.HistoryTable>)
    ensures AnyDate(tables) <==> exists t :: t in tables && t.hasDate
  {
    tables != [] && (AnyDate(tables[..|tables| - 1]) || tables[|tables| - 1].hasDate)
  }

  predicate AnyJoueur(tables: seq<H.HistoryTable>)
    ensures AnyJoueur(tables) <==> exists t :: t in tables && t.hasJoueur
  {
    tables != [] && (AnyJoueur(tables[..|tables| - 1]) || tables[|tables| - 1].hasJoueur)
  }

  /** start <= Date <= end with start = target - lookback_days and end =
      target; a missing date compares false. */
  predicate InWindow(date: Option<Day>, target: Day, lookbackDays: int) {
    date.Some? && target - lookbackDays <= date.value <= target
  }

  /** The rows inside the window, in order. */
  function WindowRows(rows: seq<H.HistoryRow>, target: Day, lookbackDays: int): (r: seq<H.HistoryRow>)
    ensures forall x :: x in r <==> x in rows && InWindow(x.date, target, lookbackDays)
  {
    if rows == [] then []
    else
      var last := rows[|rows| - 1];
      assert rows == rows[..|rows| - 1] + [last];
      WindowRows(rows[..|rows| - 1], target, lookbackDays) +
        (if InWindow(last.date, target, lookbackDays) then [last] else [])
  }

  /** What _load_recent_history returns for a target date. */
  function RecentHistory(files: HistoryFiles, listing: seq<string>, target: Day, lookbackDays: int): H.HistoryTable {
    var tables := ReadTables(files, listing);
    if tables == [] || !AnyDate(tables) then H.EmptyHistory()
    else H.HistoryTable(true, AnyJoueur(tables), WindowRows(AllRows(tables), target, lookbackDays))
  }

  /** _load_recent_history(target_date, lookback_days): read every listed
      file, concatenate, keep the rows dated inside the window. */
  method LoadRecentHistory(files: HistoryFiles, listing: seq<string>, target: Day, lookbackDays: int)
    returns (recent: H.HistoryTable)
    ensures recent == RecentHistory(files, listing, target, lookbackDays)
  {
    if listing == [] {
      return H.EmptyHistory();
    }
    var dfs: seq<H.HistoryTable> := [];
    for i := 0 to |listing|
      invariant dfs == ReadTables(files, listing[..i])
    {
      assert listing[..i + 1][..i] == listing[..i];
      var f := listing[i];
      if f in files && files[f].Table? {
        dfs := dfs + [files[f].value];
      }
    }
    assert listing[..|listing|] == listing;
    if dfs == [] {
      return H.EmptyHistory();
    }
    var all, hasDate, hasJoueur := Concat(dfs);
    if !hasDate {
      return H.EmptyHistory();
    }
    var kept := InWindowRows(all, target, lookbackDays);
    recent := H.HistoryTable(true, hasJoueur, kept);
  }

  /** pd.concat: the rows and which of the two columns the result has. */
  method Concat(dfs: seq<H.HistoryTable>) returns (all: seq<H.HistoryRow>, hasDate: bool, hasJoueur: bool)
    ensures all == AllRows(dfs) && hasDate == AnyDate(dfs) && hasJoueur == AnyJoueur(dfs)
  {
    all, hasDate, hasJoueur := [], false, false;
    for i := 0 to |dfs|
      invariant all == AllRows(dfs[..i])
      invariant hasDate == AnyDate(dfs[..i]) && hasJoueur == AnyJoueur(dfs[..i])
    {
      assert dfs[..i + 1][..i] == dfs[..i];
      all := all + RowsOf(dfs[i]);
      hasDate := hasDate || dfs[i].hasDate;
      hasJoueur := hasJoueur || dfs[i].hasJoueur;
    }
    assert dfs[..|dfs|] == dfs;
  }

  /** The boolean mask of line 36 applied to the concatenated rows. */
  method InWindowRows(rows: seq<H.HistoryRow>, target: Day, lookbackDays: int) returns (kept: seq<H.HistoryRow>)
    ensures kept == WindowRows(rows, target, lookbackDays)
  {
    kept := [];
    for i := 0 to |rows|
      invariant kept == WindowRows(rows[..i], target, lookbackDays)
    {
      assert rows[..i + 1][..i] == rows[..i];
      if InWindow(rows[i].date, target, lookbackDays) {
        kept := kept + [rows[i]];
      }
    }
    assert rows[..|rows|] == rows;
  }

  // -----------------------------------------------------------------------
  // The exclusion set (lines 175-177)

  /** The trimmed, lower-cased Joueur of every recent row, when the recent
      history has a Joueur column. */
  function ExcludeNames(recent: H.HistoryTable): set<string> {
    if recent.hasJoueur then
      set x | x in recent.rows && x.joueur.Some? :: NormName(x.joueur.value)
    else {}
  }

  /** Cached file p holds a row, inside the window, whose Joueur reads back
      as present and normalises to n (the file needs both columns for that). */
  predicate FileExcludes(files: HistoryFiles, p: string, target: Day, lookbackDays: int, n: string) {
    && p in files && files[p].Table?
    && var t := files[p].value;
    && t.hasDate && t.hasJoueur
    && exists k :: 0 <= k < |t.rows| && InWindow(t.rows[k].date, target, lookbackDays)
         && H.CsvCell(t.rows[k].joueur).Some? && NormName(t.rows[k].joueur.value) == n
  }

  lemma {:induction false} ReadTablesComplete(files: HistoryFiles, listing: seq<string>, p: string)
    requires p in listing && p in files && files[p].Table?
    ensures files[p].value in ReadTables(files, listing)
  {
    var last := listing[|listing| - 1];
    if p != last {
      assert p in listing[..|listing| - 1] by {
        assert listing == listing[..|listing| - 1] + [last];
      }
      ReadTablesComplete(files, listing[..|listing| - 1], p);
    }
  }

  lemma {:induction false} AllRowsMember(tables: seq<H.HistoryTable>, x: H.HistoryRow)
    ensures x in AllRows(tables) <==> exists t :: t in tables && x in RowsOf(t)
  {
    if tables != [] {
      var init, last := tables[..|tables| - 1], tables[|tables| - 1];
      AllRowsMember(init, x);
      assert tables == init + [last];
      if x in AllRows(tables) && x !in AllRows(init) {
        assert x in RowsOf(last);
      }
    }
  }

  /** Which names the exclusion set holds does not depend on the order in
      which the directory listing returns the files: a name is excluded iff
      some cached history file has a row inside the window, both ends
      included, whose Joueur normalises to it. Unreadable files, rows with
      no date, Joueur cells that read_csv reads as missing and files without
      a Date or Joueur column contribute nothing. */
  lemma ExclusionFromFiles(files: HistoryFiles, listing: seq<string>, target: Day, lookbackDays: int, n: string)
    requires forall p :: p in files && H.IsHistoryPath(p) ==> p in listing
    requires forall p :: p in listing ==> H.IsHistoryPath(p)
    ensures n in ExcludeNames(RecentHistory(files, listing, target, lookbackDays)) <==>
            exists p :: H.IsHistoryPath(p) && FileExcludes(files, p, target, lookbackDays, n)
  {
    if n in ExcludeNames(RecentHistory(files, listing, target, lookbackDays)) {
      ExcludedNameHasFile(files, listing, target, lookbackDays, n);
    }
    if exists p :: H.IsHistoryPath(p) && FileExcludes(files, p, target, lookbackDays, n) {
      var p :| H.IsHistoryPath(p) && FileExcludes(files, p, target, lookbackDays, n);
      FileNameExcluded(files, listing, target, lookbackDays, n, p);
    }
  }

  lemma ExcludedNameHasFile(files: HistoryFiles, listing: seq<string>, target: Day, lookbackDays: int, n: string)
    requires forall p :: p in listing ==> H.IsHistoryPath(p)
    requires n in ExcludeNames(RecentHistory(files, listing, target, lookbackDays))
    ensures exists p :: H.IsHistoryPath(p) && FileExcludes(files, p, target, lookbackDays, n)
  {
    var tables := ReadTables(files, listing);
    var recent := RecentHistory(files, listing, target, lookbackDays);
    var x :| x in recent.rows && x.joueur.Some? && NormName(x.joueur.value) == n;
    assert tables != [] && AnyDate(tables);
    AllRowsMember(tables, x);
    var t :| t in tables && x in RowsOf(t);
    var p :| p in listing && p in files && files[p] == CS.Artifact.Table(t);
    var k :| 0 <= k < |t.rows| && RowsOf(t)[k] == x;
    assert FileExcludes(files, p, target, lookbackDays, n);
  }

  lemma FileNameExcluded(files: HistoryFiles, listing: seq<string>, target: Day, lookbackDays: int, n: string, p: string)
    requires forall p :: p in files && H.IsHistoryPath(p) ==> p in listing
    requires H.IsHistoryPath(p) && FileExcludes(files, p, target, lookbackDays, n)
    ensures n in ExcludeNames(RecentHistory(files, listing, target, lookbackDays))
  {
    var tables := ReadTables(files, listing);
    var t := files[p].value;
    var k :| 0 <= k < |t.rows| && InWindow(t.rows[k].date, target, lookbackDays)
      && H.CsvCell(t.rows[k].joueur).Some? && NormName(t.rows[k].joueur.value) == n;
    ReadTablesComplete(files, listing, p);
    var x := RowsOf(t)[k];
    assert x == H.HistoryRow(t.rows[k].date, t.rows[k].joueur);
    assert x in RowsOf(t);
    AllRowsMember(tables, x);
    assert x in RecentHistory(files, listing, target, lookbackDays).rows;
  }

  // -----------------------------------------------------------------------
  // The target dates (lines 55-83)

  /** Why main stops before processing any date. */
  datatype DateError =
    | InvalidStart(start: string)   // --start does not parse
    | MissingDays                   // --start without --days
    | NonPositiveDays               // --days <= 0
    | InvalidDate(part: string)     // a --date part does not parse

  /** The non-empty pieces, in order. */
  function NonEmpty(parts: seq<string>): (r: seq<string>)
    ensures forall p :: p in r <==> p in parts && p != ""
  {
    if parts == [] then []
    else
      var init, last := parts[..|parts| - 1], parts[|parts| - 1];
      assert parts == init + [last];
      NonEmpty(init) + (if last != "" then [last] else [])
  }

  /** The trimmed, non-empty pieces of one --date value, in order. */
  function KeptParts(parts: seq<string>): seq<string> {
    NonEmpty(Trimmed(parts))
  }

  /** Every --date value split on commas, pieces trimmed, empty ones
      skipped. */
  function DateParts(args: seq<string>): seq<string> {
    if args == [] then []
    else DateParts(args[..|args| - 1]) + KeptParts(Split(args[|args| - 1], ','))
  }

  /** Parse the pieces in order; the first that does not parse is the
      error. */
  function ParseAll(parts: seq<string>, parseIso: string -> Option<Day>): Result<seq<Day>, DateError> {
    if parts == [] then Ok([])
    else
      var init, last := parts[..|parts| - 1], parts[|parts| - 1];
      match ParseAll(init, parseIso)
      case Err(e) => Err(e)
      case Ok(ds) =>
        match parseIso(last)
        case None => Err(InvalidDate(last))
        case Some(d) => Ok(ds + [d])
  }

  /** The dates main processes, or why it stops: --start with --days gives
      that many consecutive days, --date gives the listed dates, and neither
      gives today. */
  function TargetDates(start: Option<string>, days: Option<int>, dateArgs: seq<string>, today: Day,
                       parseIso: string -> Option<Day>): Result<seq<Day>, DateError>
  {
    if start.Some? then
      match parseIso(start.value)
      case None => Err(InvalidStart(start.value))
      case Some(s) =>
        if days.None? then Err(MissingDays)
        else if days.value <= 0 then Err(NonPositiveDays)
        else Ok(seq(days.value, i requires 0 <= i < days.value => s + i))
    else if dateArgs != [] then ParseAll(DateParts(dateArgs), parseIso)
    else Ok([today])
  }

  /** The date-list building of main. */
  method BuildDates(start: Option<string>, days: Option<int>, dateArgs: seq<string>, today: Day,
                    parseIso: string -> Option<Day>) returns (r: Result<seq<Day>, DateError>)
    ensures r == TargetDates(start, days, dateArgs, today, parseIso)
  {
    var dates: seq<Day> := [];
    if start.Some? {
      var s := parseIso(start.value);
      if s.None? {
        return Err(InvalidStart(start.value));
      }
      if days.None? {
        return Err(MissingDays);
      }
      if days.value <= 0 {
        return Err(NonPositiveDays);
      }
      for i := 0 to days.value
        invariant dates == seq(i, k requires 0 <= k < i => s.value + k)
      {
        dates := dates + [s.value + i];
      }
    } else if dateArgs != [] {
      r := ParseDateArgs(dateArgs, parseIso);
      return;
    } else {
      dates := [today];
    }
    r := Ok(dates);
  }

  /** The loop over the --date values. */
  method ParseDateArgs(dateArgs: seq<string>, parseIso: string -> Option<Day>) returns (r: Result<seq<Day>, DateError>)
    ensures r == ParseAll(DateParts(dateArgs), parseIso)
  {
    var dates: seq<Day> := [];
    for i := 0 to |dateArgs|
      invariant ParseAll(DateParts(dateArgs[..i]), parseIso) == Ok(dates)
    {
      DatePartsSnoc(dateArgs, i);
      var next := ParseDateValue(DateParts(dateArgs[..i]), dates, dateArgs[i], parseIso);
      if next.Err? {
        ArgErrorStops(dateArgs[..i + 1], dateArgs[i + 1..], parseIso);
        SliceJoin(dateArgs, i + 1);
        return next;
      }
      dates := next.value;
    }
    assert dateArgs[..|dateArgs|] == dateArgs;
    r := Ok(dates);
  }

  lemma DatePartsSnoc(dateArgs: seq<string>, i: nat)
    requires i < |dateArgs|
    ensures DateParts(dateArgs[..i + 1]) == DateParts(dateArgs[..i]) + KeptParts(Split(dateArgs[i], ','))
  {
    assert dateArgs[..i + 1][..i] == dateArgs[..i];
  }

  /** Once the values read so far hold a piece that does not parse, the
      later values change nothing. */
  lemma ArgErrorStops(a: seq<string>, b: seq<string>, parseIso: string -> Option<Day>)
    requires ParseAll(DateParts(a), parseIso).Err?
    ensures ParseAll(DateParts(a + b), parseIso) == ParseAll(DateParts(a), parseIso)
  {
    DatePartsAppend(a, b);
    ParseAllAppendErr(DateParts(a), DateParts(b), parseIso);
  }

  /** The inner loop over the comma-separated pieces of one --date value,
      appending to the dates parsed so far; `pieces[j]` is the j-th piece
      already stripped. */
  method ParseDateValue(prefix: seq<string>, dates0: seq<Day>, value: string, parseIso: string -> Option<Day>)
    returns (r: Result<seq<Day>, DateError>)
    requires ParseAll(prefix, parseIso) == Ok(dates0)
    ensures r == ParseAll(prefix + KeptParts(Split(value, ',')), parseIso)
  {
    var pieces := Trimmed(Split(value, ','));
    var dates := dates0;
    assert prefix + NonEmpty(pieces[..0]) == prefix;
    for j := 0 to |pieces|
      invariant ParseAll(prefix + NonEmpty(pieces[..j]), parseIso) == Ok(dates)
    {
      var part := pieces[j];
      if part == "" {
        PieceStep(prefix, pieces, j, parseIso, dates);
        continue;
      }
      var d := parseIso(part);
      if d.None? {
        InvalidPieceStops(prefix, pieces, j, parseIso);
        return Err(InvalidDate(part));
      }
      PieceStep(prefix, pieces, j, parseIso, dates);
      dates := dates + [d.value];
    }
    assert pieces[..|pieces|] == pieces;
    r := Ok(dates);
  }

  lemma ParseAllSnoc(done: seq<string>, part: string, parseIso: string -> Option<Day>, dates: seq<Day>)
    requires ParseAll(done, parseIso) == Ok(dates)
    ensures ParseAll(done + [part], parseIso) ==
            if parseIso(part).None? then Err(InvalidDate(part)) else Ok(dates + [parseIso(part).value])
  {
    var s := done + [part];
    assert s[..|s| - 1] == done;
    assert s[|s| - 1] == part;
  }

  lemma NonEmptyStep(pieces: seq<string>, j: nat)
    requires j < |pieces|
    ensures NonEmpty(pieces[..j + 1]) == NonEmpty(pieces[..j]) + (if pieces[j] != "" then [pieces[j]] else [])
  {
    assert pieces[..j + 1][..j] == pieces[..j];
  }

  /** One piece more: an empty piece changes nothing, one that parses adds
      its date. */
  lemma PieceStep(prefix: seq<string>, pieces: seq<string>, j: nat, parseIso: string -> Option<Day>, dates: seq<Day>)
    requires j < |pieces|
    requires ParseAll(prefix + NonEmpty(pieces[..j]), parseIso) == Ok(dates)
    requires pieces[j] == "" || parseIso(pieces[j]).Some?
    ensures ParseAll(prefix + NonEmpty(pieces[..j + 1]), parseIso) ==
            Ok(if pieces[j] == "" then dates else dates + [parseIso(pieces[j]).value])
  {
    NonEmptyStep(pieces, j);
    var done := prefix + NonEmpty(pieces[..j]);
    if pieces[j] == "" {
      assert prefix + NonEmpty(pieces[..j + 1]) == done;
    } else {
      assert prefix + NonEmpty(pieces[..j + 1]) == done + [pieces[j]];
      ParseAllSnoc(done, pieces[j], parseIso, dates);
    }
  }

  /** A piece that does not parse ends the dates of the whole value with its
      error, whatever follows it. */
  lemma InvalidPieceStops(prefix: seq<string>, pieces: seq<string>, j: nat, parseIso: string -> Option<Day>)
    requires j < |pieces|
    requires ParseAll(prefix + NonEmpty(pieces[..j]), parseIso).Ok?
    requires pieces[j] != "" && parseIso(pieces[j]).None?
    ensures ParseAll(prefix + NonEmpty(pieces), parseIso) == Err(InvalidDate(pieces[j]))
  {
    InvalidPieceFails(prefix, pieces, j, parseIso);
    var x := prefix + NonEmpty(pieces[..j + 1]);
    NonEmptySplitAt(pieces, j + 1);
    AppendAssoc(prefix, NonEmpty(pieces[..j + 1]), NonEmpty(pieces[j + 1..]));
    ParseAllAppendErr(x, NonEmpty(pieces[j + 1..]), parseIso);
  }

  lemma InvalidPieceFails(prefix: seq<string>, pieces: seq<string>, j: nat, parseIso: string -> Option<Day>)
    requires j < |pieces|
    requires ParseAll(prefix + NonEmpty(pieces[..j]), parseIso).Ok?
    requires pieces[j] != "" && parseIso(pieces[j]).None?
    ensures ParseAll(prefix + NonEmpty(pieces[..j + 1]), parseIso) == Err(InvalidDate(pieces[j]))
  {
    NonEmptyStep(pieces, j);
    var done := prefix + NonEmpty(pieces[..j]);
    assert prefix + NonEmpty(pieces[..j + 1]) == done + [pieces[j]];
    ParseAllSnoc(done, pieces[j], parseIso, ParseAll(done, parseIso).value);
  }

  lemma NonEmptySplitAt(pieces: seq<string>, j: nat)
    requires j <= |pieces|
    ensures NonEmpty(pieces) == NonEmpty(pieces[..j]) + NonEmpty(pieces[j..])
  {
    NonEmptyAppend(pieces[..j], pieces[j..]);
    SliceJoin(pieces, j);
  }

  lemma {:induction false} ParseAllAppendErr(a: seq<string>, b: seq<string>, parseIso: string -> Option<Day>)
    requires ParseAll(a, parseIso).Err?
    ensures ParseAll(a + b, parseIso) == ParseAll(a, parseIso)
  {
    if b != [] {
      var b0 := b[..|b| - 1];
      ParseAllAppendErr(a, b0, parseIso);
      AppendSnoc(a, b);
    } else {
      AppendEmpty(a);
    }
  }

  lemma {:induction false} NonEmptyAppend(a: seq<string>, b: seq<string>)
    ensures NonEmpty(a + b) == NonEmpty(a) + NonEmpty(b)
  {
    if b != [] {
      var b0 := b[..|b| - 1];
      NonEmptyAppend(a, b0);
      AppendSnoc(a, b);
    } else {
      AppendEmpty(a);
    }
  }

  lemma {:induction false} DatePartsAppend(a: seq<string>, b: seq<string>)
    ensures DateParts(a + b) == DateParts(a) + DateParts(b)
  {
    if b != [] {
      var b0 := b[..|b| - 1];
      DatePartsAppend(a, b0);
      AppendSnoc(a, b);
    } else {
      AppendEmpty(a);
    }
  }

  /** The pieces are exactly the stripped, non-empty comma-separated pieces
      of the --date values. */
  lemma {:induction false} DatePartsMember(args: seq<string>, p: string)
    ensures p in DateParts(args) <==>
            p != "" && exists i :: 0 <= i < |args| && p in Trimmed(Split(args[i], ','))
  {
    if args != [] {
      var init, last := args[..|args| - 1], args[|args| - 1];
      DatePartsMember(init, p);
      if p != "" && exists i :: 0 <= i < |args| && p in Trimmed(Split(args[i], ',')) {
        var i :| 0 <= i < |args| && p in Trimmed(Split(args[i], ','));
        if i < |args| - 1 {
          assert init[i] == args[i];
        }
      }
    }
  }

  /** With --date values, the dates are the pieces parsed in order; the
      first piece that does not parse stops everything with its error. */
  lemma {:induction false} ParseAllMeaning(parts: seq<string>, parseIso: string -> Option<Day>)
    ensures ParseAll(parts, parseIso).Ok? <==> forall p :: p in parts ==> parseIso(p).Some?
    ensures ParseAll(parts, parseIso).Ok? ==>
      var ds := ParseAll(parts, parseIso).value;
      |ds| == |parts| && forall i :: 0 <= i < |parts| ==> parseIso(parts[i]) == Some(ds[i])
    ensures ParseAll(parts, parseIso).Err? ==>
      exists i :: 0 <= i < |parts| && ParseAll(parts, parseIso).error == InvalidDate(parts[i])
        && parseIso(parts[i]).None? && forall j :: 0 <= j < i ==> parseIso(parts[j]).Some?
  {
    if parts != [] {
      var init, last := parts[..|parts| - 1], parts[|parts| - 1];
      ParseAllMeaning(init, parseIso);
      assert parts == init + [last];
      if ParseAll(init, parseIso).Err? {
        var i :| 0 <= i < |init| && ParseAll(init, parseIso).error == InvalidDate(init[i])
          && parseIso(init[i]).None? && forall j :: 0 <= j < i ==> parseIso(init[j]).Some?;
        assert parts[i] == init[i];
      }
    }
  }

  // -----------------------------------------------------------------------
  // The players frame, its name column and the candidates (lines 89-98,
  // 163, 175-182)

  /** A row of the players frame: the columns the ranking reads (its
      DISPLAY_FIRST_LAST is `game.name`), the TEAM_ID the id mapping reads,
      and the two other name columns main may choose. */
  datatype PlayerRow = PlayerRow(game: R.Game, teamId: Option<int>, displayName: string, player: string)

  /** The frame: its column names and its rows. */
  datatype PlayersFrame = PlayersFrame(columns: set<string>, rows: seq<PlayerRow>)

  const DISPLAY_FIRST_LAST := "DISPLAY_FIRST_LAST"
  const NAME_CANDIDATES: seq<string> := [DISPLAY_FIRST_LAST, "DISPLAY_NAME", "Player"]

  /** The first candidate that is a column. */
  function FirstPresent(candidates: seq<string>, columns: set<string>): (c: Option<nat>)
    ensures c.None? <==> forall k :: 0 <= k < |candidates| ==> candidates[k] !in columns
    ensures c.Some? ==> c.value < |candidates| && candidates[c.value] in columns
                        && forall k :: 0 <= k < c.value ==> candidates[k] !in columns
  {
    if candidates == [] then None
    else if candidates[0] in columns then Some(0)
    else
      match FirstPresent(candidates[1..], columns)
      case None => None
      case Some(k) => Some(k + 1)
  }

  /** The column the names are read from, if the frame has one of the three. */
  function NameColumn(columns: set<string>): Option<string> {
    match FirstPresent(NAME_CANDIDATES, columns)
    case None => None
    case Some(k) => Some(NAME_CANDIDATES[k])
  }

  /** The name-column loop of main. */
  method ChooseNameColumn(columns: set<string>) returns (nameCol: Option<string>)
    ensures nameCol == NameColumn(columns)
    ensures nameCol.Some? ==> nameCol.value in columns && nameCol.value in NAME_CANDIDATES
    ensures nameCol.None? <==> forall c :: c in NAME_CANDIDATES ==> c !in columns
  {
    nameCol := None;
    for k := 0 to |NAME_CANDIDATES|
      invariant nameCol.None? ==> forall m :: 0 <= m < k ==> NAME_CANDIDATES[m] !in columns
      invariant nameCol.Some? ==> nameCol == NameColumn(columns)
    {
      if nameCol.None? && NAME_CANDIDATES[k] in columns {
        nameCol := Some(NAME_CANDIDATES[k]);
      }
    }
  }

  /** A row's value in the chosen name column. */
  function NameOf(row: PlayerRow, nameCol: string): string {
    if nameCol == DISPLAY_FIRST_LAST then row.game.name
    else if nameCol == "DISPLAY_NAME" then row.displayName
    else row.player
  }

  /** `_name_norm`: the name, stripped and lower-cased. */
  function NameNorm(row: PlayerRow, nameCol: string): string {
    NormName(NameOf(row, nameCol))
  }

  /** players_on_day: the normalised names of the rows whose normalised
      TEAM_ABBREVIATION is among the resolved teams. */
  function PlayersOnDay(frame: PlayersFrame, nameCol: string, teams: set<string>): set<string> {
    set k | 0 <= k < |frame.rows| && NormTeam(frame.rows[k].game.team) in teams :: NameNorm(frame.rows[k], nameCol)
  }

  /** No row's team plays. */
  predicate NobodyPlays(frame: PlayersFrame, teams: set<string>) {
    forall k | 0 <= k < |frame.rows| :: NormTeam(frame.rows[k].game.team) !in teams
  }

  /** ... which is exactly when players_on_day is empty. */
  lemma NobodyPlaysIff(frame: PlayersFrame, nameCol: string, teams: set<string>)
    ensures NobodyPlays(frame, teams) <==> PlayersOnDay(frame, nameCol, teams) == {}
  {
    if !NobodyPlays(frame, teams) {
      var k :| 0 <= k < |frame.rows| && NormTeam(frame.rows[k].game.team) in teams;
      assert NameNorm(frame.rows[k], nameCol) in PlayersOnDay(frame, nameCol, teams);
    }
  }

  predicate IsCandidate(row: PlayerRow, nameCol: string, onDay: set<string>, exclude: set<string>) {
    NameNorm(row, nameCol) in onDay && NameNorm(row, nameCol) !in exclude
  }

  /** The rows of players on the day, minus the recently picked ones, in
      frame order. */
  function CandidateRows(rows: seq<PlayerRow>, nameCol: string, onDay: set<string>, exclude: set<string>)
    : (r: seq<PlayerRow>)
    ensures |r| <= |rows|
    ensures forall x :: x in r <==> x in rows && IsCandidate(x, nameCol, onDay, exclude)
  {
    if rows == [] then []
    else
      var last := rows[|rows| - 1];
      assert rows == rows[..|rows| - 1] + [last];
      CandidateRows(rows[..|rows| - 1], nameCol, onDay, exclude) +
        (if IsCandidate(last, nameCol, onDay, exclude) then [last] else [])
  }

  /** The team of every row, as the id mapping reads it. */
  function PlayerTeams(frame: PlayersFrame): seq<T.PlayerTeam> {
    seq(|frame.rows|, k requires 0 <= k < |frame.rows| => T.PlayerTeam(frame.rows[k].teamId, frame.rows[k].game.team))
  }

  /** The candidates as the ranking engine sees them. */
  function CandidateFrame(frame: PlayersFrame, rows: seq<PlayerRow>): (g: R.GameFrame)
    ensures |g.games| == |rows|
  {
    R.GameFrame("GAME_DATE" in frame.columns, seq(|rows|, k requires 0 <= k < |rows| => rows[k].game))
  }

  // -----------------------------------------------------------------------
  // One date, then every date (lines 100-189)

  /** The scoreboard call: attempts 5, base delay 2 seconds. */
  const RETRIES := 5
  const BASE_DELAY := 2.0
  /** print_top_players' default min_games, which main does not override. */
  const MIN_GAMES := 10

  /** What main prints for a date. */
  datatype DayReport =
    | NoGamesFound                       // nobody plays that day
    | NoneEligible                       // everybody left was picked recently
    | Ranked(rows: seq<R.RankedRow>)     // the top table (empty: no player has enough games)

  /** Why main stops. The first three print a message and return; the last
      three are exceptions that end the run. */
  datatype RunError =
    | BadDates(dateError: DateError)
    | NoNameColumn
    | ScoreboardFailed(target: Day, cause: Rt.RetryError)   // RuntimeError wrapping the last API error
    | TeamsUnresolved(target: Day, teamError: T.TeamError)    // RuntimeError wrapping the resolution error
    | MissingDisplayFirstLast                               // KeyError in the ranking's groupby
    | MissingLastxStd                                       // KeyError: a dateless ranking has no LASTX_STD to print

  /** What main works on besides its options: the players frame, the cached
      history files with the listing order, and what the k-th scoreboard
      call for a date returns. */
  datatype Env = Env(
    frame: PlayersFrame,
    files: HistoryFiles,
    listing: seq<string>,
    scoreboard: Day -> nat -> Rt.Attempt<seq<T.Frame>>)

  /** The names excluded on a target date. */
  function Excluded(env: Env, target: Day, lookback: int): set<string> {
    ExcludeNames(RecentHistory(env.files, env.listing, target, lookback))
  }

  /** The rows left once the day's players are known and the recent
      picks are set aside. */
  function DayCandidates(env: Env, nameCol: string, target: Day, lookback: int, teams: set<string>): seq<PlayerRow> {
    CandidateRows(env.frame.rows, nameCol, PlayersOnDay(env.frame, nameCol, teams), Excluded(env, target, lookback))
  }

  /** The teams playing on a date: the scoreboard call with its retries,
      then the resolution of the team ids to abbreviations. */
  function DayTeams(env: Env, target: Day): Result<set<string>, RunError> {
    match Rt.RetryOutcome(env.scoreboard(target), RETRIES)
    case Err(e) => Err(ScoreboardFailed(target, e))
    case Ok(frames) =>
      match T.Resolve(frames, PlayerTeams(env.frame), "TEAM_ID" in env.frame.columns)
      case Err(e) => Err(TeamsUnresolved(target, e))
      case Ok(teams) => Ok(teams)
  }

  /** What the date prints once its teams are known. */
  function DayReportFor(env: Env, nameCol: string, target: Day, top: int, lookback: int, teams: set<string>)
    : Result<DayReport, RunError>
  {
    if NobodyPlays(env.frame, teams) then Ok(NoGamesFound)
    else RankCandidates(env.frame, DayCandidates(env, nameCol, target, lookback, teams), top, lookback)
  }

  /** The report once the candidates are known: none, or their ranking (a
      frame without DISPLAY_FIRST_LAST cannot be grouped, and a non-empty
      ranking without dates has no LASTX_STD column for the printer). */
  function RankCandidates(frame: PlayersFrame, cands: seq<PlayerRow>, top: int, lookback: int): Result<DayReport, RunError> {
    if cands == [] then Ok(NoneEligible)
    else if DISPLAY_FIRST_LAST !in frame.columns then Err(MissingDisplayFirstLast)
    else
      var rows := R.Ranking(CandidateFrame(frame, cands), top, lookback, MIN_GAMES);
      if rows != [] && !R.HasDates(CandidateFrame(frame, cands)) then Err(MissingLastxStd)
      else Ok(Ranked(rows))
  }

  /** The body of the date loop for one target date. */
  function DayOutcome(env: Env, nameCol: string, target: Day, top: int, lookback: int): Result<DayReport, RunError> {
    match DayTeams(env, target)
    case Err(e) => Err(e)
    case Ok(teams) => DayReportFor(env, nameCol, target, top, lookback, teams)
  }

  /** The body of the loop as a function of the date. */
  function DayStep(env: Env, nameCol: string, top: int, lookback: int): Day -> Result<DayReport, RunError> {
    d => DayOutcome(env, nameCol, d, top, lookback)
  }

  /** The reports printed and the error that ended the run, if any. */
  datatype Run = Run(reports: seq<DayReport>, error: Option<RunError>)

  /** The date loop: each date in turn until one raises. */
  function RunDays(step: Day -> Result<DayReport, RunError>, dates: seq<Day>): Run {
    if dates == [] then Run([], None)
    else
      var prev := RunDays(step, dates[..|dates| - 1]);
      if prev.error.Some? then prev
      else
        match step(dates[|dates| - 1])
        case Err(e) => Run(prev.reports, Some(e))
        case Ok(rep) => Run(prev.reports + [rep], None)
  }

  /** main, after argument parsing: the dates, the name column, then the
      loop. */
  function ScriptRun(env: Env, start: Option<string>, days: Option<int>, dateArgs: seq<string>, today: Day,
                parseIso: string -> Option<Day>, top: int, lookback: int): Run
  {
    match TargetDates(start, days, dateArgs, today, parseIso)
    case Err(e) => Run([], Some(BadDates(e)))
    case Ok(dates) =>
      match NameColumn(env.frame.columns)
      case None => Run([], Some(NoNameColumn))
      case Some(nameCol) => RunDays(DayStep(env, nameCol, top, lookback), dates)
  }

  /** One pass of the date loop. */
  method ProcessDay(env: Env, nameCol: string, target: Day, top: int, lookback: int)
    returns (r: Result<DayReport, RunError>)
    ensures r == DayOutcome(env, nameCol, target, top, lookback)
  {
    var sb, sleeps, calls := Rt.CallWithRetries(env.scoreboard(target), RETRIES, BASE_DELAY);
    if sb.Err? {
      return Err(ScoreboardFailed(target, sb.error));
    }
    var teams := T.ResolveTeams(sb.value, PlayerTeams(env.frame), "TEAM_ID" in env.frame.columns);
    if teams.Err? {
      return Err(TeamsUnresolved(target, teams.error));
    }
    var onDay := PlayersOnDay(env.frame, nameCol, teams.value);
    NobodyPlaysIff(env.frame, nameCol, teams.value);
    if onDay == {} {
      return Ok(NoGamesFound);
    }
    var recent := LoadRecentHistory(env.files, env.listing, target, lookback);
    var exclude := ExcludeNames(recent);
    var cands := CandidateRows(env.frame.rows, nameCol, onDay, exclude);
    if cands == [] {
      return Ok(NoneEligible);
    }
    if DISPLAY_FIRST_LAST !in env.frame.columns {
      return Err(MissingDisplayFirstLast);
    }
    var frame := CandidateFrame(env.frame, cands);
    var table := R.TopPlayersByTtfl(frame, top, lookback, MIN_GAMES);
    if table != [] && !R.HasDates(frame) {
      return Err(MissingLastxStd);
    }
    r := Ok(Ranked(table));
  }

  /** main: build the dates, choose the name column, then process the dates
      in order, stopping at the first that raises. */
  method RunMain(env: Env, start: Option<string>, days: Option<int>, dateArgs: seq<string>, today: Day,
                 parseIso: string -> Option<Day>, top: int, lookback: int) returns (run: Run)
    ensures run == ScriptRun(env, start, days, dateArgs, today, parseIso, top, lookback)
  {
    var dates := BuildDates(start, days, dateArgs, today, parseIso);
    if dates.Err? {
      return Run([], Some(BadDates(dates.error)));
    }
    var nameCol := ChooseNameColumn(env.frame.columns);
    if nameCol.None? {
      return Run([], Some(NoNameColumn));
    }
    var reports: seq<DayReport> := [];
    var ds := dates.value;
    var step := DayStep(env, nameCol.value, top, lookback);
    for i := 0 to |ds|
      invariant RunDays(step, ds[..i]) == Run(reports, None)
    {
      assert ds[..i + 1][..i] == ds[..i];
      var r := ProcessDay(env, nameCol.value, ds[i], top, lookback);
      if r.Err? {
        RunStops(step, ds, i + 1);
        return Run(reports, Some(r.error));
      }
      reports := reports + [r.value];
    }
    assert ds[..|ds|] == ds;
    run := Run(reports, None);
  }

  /** Once a date raises, the later dates change nothing. */
  lemma {:induction false} RunStops(step: Day -> Result<DayReport, RunError>, dates: seq<Day>, n: nat)
    requires n <= |dates|
    requires RunDays(step, dates[..n]).error.Some?
    ensures RunDays(step, dates) == RunDays(step, dates[..n])
    decreases |dates| - n
  {
    if n < |dates| {
      assert dates[..n + 1][..n] == dates[..n];
      RunStops(step, dates, n + 1);
    } else {
      assert dates[..n] == dates;
    }
  }

  /** The loop reports every date in order until the first that raises, and
      nothing after it: without an error every date has its report; with
      one, the date after the last report is the one that raised. */
  lemma {:induction false} RunDaysMeaning(step: Day -> Result<DayReport, RunError>, dates: seq<Day>)
    ensures
      var run := RunDays(step, dates);
      && |run.reports| <= |dates|
      && (forall i :: 0 <= i < |run.reports| ==> step(dates[i]) == Ok(run.reports[i]))
      && (run.error.None? ==> |run.reports| == |dates|)
      && (run.error.Some? ==>
            |run.reports| < |dates| && step(dates[|run.reports|]) == Err(run.error.value))
  {
    if dates != [] {
      var init := dates[..|dates| - 1];
      RunDaysMeaning(step, init);
      var prev := RunDays(step, init);
      var run := RunDays(step, dates);
      forall i | 0 <= i < |prev.reports| ensures dates[i] == init[i] { }
      if prev.error.None? {
        assert run.reports[..|prev.reports|] == prev.reports || run.reports == prev.reports;
      }
    }
  }

  /** The directory listing is exactly the glob of history files. */
  predicate ListingIsGlob(env: Env) {
    && (forall p :: p in env.files && H.IsHistoryPath(p) ==> p in env.listing)
    && (forall p :: p in env.listing ==> H.IsHistoryPath(p))
  }

  /** The frame row a ranked row was grouped from. */
  predicate RowOf(x: PlayerRow, r: R.RankedRow) {
    x.game.personId == r.personId && x.game.name == r.name && x.game.team == r.team
  }

  lemma RankedFromCandidates(frame: PlayersFrame, cands: seq<PlayerRow>, top: int, lookback: int, r: R.RankedRow)
    requires r in R.Ranking(CandidateFrame(frame, cands), top, lookback, MIN_GAMES)
    ensures exists x :: x in cands && RowOf(x, r)
  {
    var g := CandidateFrame(frame, cands);
    R.RankedRowHasGame(g, top, lookback, MIN_GAMES, r);
    var game :| game in g.games && R.KeyOf(game) == R.SeasonKey(r.personId, r.name, r.team);
    var k :| 0 <= k < |g.games| && g.games[k] == game;
    assert RowOf(cands[k], r);
  }

  /** The bounds the ranking engine guarantees, for the lookback used as
      last_x. */
  lemma RankingBounds(frame: PlayersFrame, cands: seq<PlayerRow>, top: int, lookback: int)
    ensures
      var rows := R.Ranking(CandidateFrame(frame, cands), top, lookback, MIN_GAMES);
      && (top >= 0 ==> |rows| <= top)
      && (forall r :: r in rows ==> r.nGames >= MIN_GAMES)
      && (lookback >= 0 ==> forall r :: r in rows && r.lastxN.Some? ==> r.lastxN.value <= lookback)
  {
    var g := CandidateFrame(frame, cands);
    R.RankingIsTopCut(g, top, lookback, MIN_GAMES);
    forall r | r in R.Ranking(g, top, lookback, MIN_GAMES) && r.lastxN.Some? && lookback >= 0
      ensures r.lastxN.value <= lookback
    {
      R.RankedRowStats(g, top, lookback, MIN_GAMES, r);
    }
  }

  /** A candidate plays that day and no history file in the window names
      them. */
  predicate PlaysAndNotPicked(env: Env, nameCol: string, target: Day, lookback: int, teams: set<string>, x: PlayerRow) {
    && x in env.frame.rows
    && NameNorm(x, nameCol) in PlayersOnDay(env.frame, nameCol, teams)
    && !exists p | p in env.files :: H.IsHistoryPath(p) && FileExcludes(env.files, p, target, lookback, NameNorm(x, nameCol))
  }

  lemma CandidateEligible(env: Env, nameCol: string, target: Day, lookback: int, teams: set<string>, x: PlayerRow)
    requires ListingIsGlob(env)
    requires x in DayCandidates(env, nameCol, target, lookback, teams)
    ensures PlaysAndNotPicked(env, nameCol, target, lookback, teams, x)
  {
    ExclusionFromFiles(env.files, env.listing, target, lookback, NameNorm(x, nameCol));
  }

  lemma RankedOutcome(env: Env, nameCol: string, target: Day, top: int, lookback: int, rows: seq<R.RankedRow>)
    requires DayOutcome(env, nameCol, target, top, lookback) == Ok(Ranked(rows))
    ensures DayTeams(env, target).Ok?
    ensures DayReportFor(env, nameCol, target, top, lookback, DayTeams(env, target).value) == Ok(Ranked(rows))
  {
  }

  lemma RankedReport(env: Env, nameCol: string, target: Day, top: int, lookback: int, teams: set<string>, rows: seq<R.RankedRow>)
    requires DayReportFor(env, nameCol, target, top, lookback, teams) == Ok(Ranked(rows))
    ensures RankCandidates(env.frame, DayCandidates(env, nameCol, target, lookback, teams), top, lookback) == Ok(Ranked(rows))
  {
  }

  lemma RankedCandidates(frame: PlayersFrame, cands: seq<PlayerRow>, top: int, lookback: int, rows: seq<R.RankedRow>)
    requires RankCandidates(frame, cands, top, lookback) == Ok(Ranked(rows))
    ensures rows == R.Ranking(CandidateFrame(frame, cands), top, lookback, MIN_GAMES)
    ensures rows != [] ==> R.HasDates(CandidateFrame(frame, cands))
  {
  }

  /** A ranked day: at most top rows, each with at least ten games, each
      grouped from a row of a player whose team plays that day and whom no
      cached history file inside the window names; and last_x is the same
      lookback that bounds the history window. */
  lemma RankedDay(env: Env, nameCol: string, target: Day, top: int, lookback: int, rows: seq<R.RankedRow>)
    requires ListingIsGlob(env)
    requires DayOutcome(env, nameCol, target, top, lookback) == Ok(Ranked(rows))
    ensures DayTeams(env, target).Ok?
    ensures forall r :: r in rows ==>
      exists x :: RowOf(x, r) && PlaysAndNotPicked(env, nameCol, target, lookback, DayTeams(env, target).value, x)
    ensures top >= 0 ==> |rows| <= top
    ensures forall r :: r in rows ==> r.nGames >= MIN_GAMES
    ensures lookback >= 0 ==> forall r :: r in rows && r.lastxN.Some? ==> r.lastxN.value <= lookback
  {
    RankedOutcome(env, nameCol, target, top, lookback, rows);
    var teams := DayTeams(env, target).value;
    RankedReport(env, nameCol, target, top, lookback, teams, rows);
    var cands := DayCandidates(env, nameCol, target, lookback, teams);
    RankedCandidates(env.frame, cands, top, lookback, rows);
    RankingBounds(env.frame, cands, top, lookback);
    forall r | r in rows
      ensures exists x :: RowOf(x, r) && PlaysAndNotPicked(env, nameCol, target, lookback, teams, x)
    {
      RankedFromCandidates(env.frame, cands, top, lookback, r);
      var x :| x in cands && RowOf(x, r);
      CandidateEligible(env, nameCol, target, lookback, teams, x);
    }
  }
}
