/** Which teams play on a date, from the scoreboard's result sets (the team
    resolution inside `main` of top_ttfl_excluding_history.py).

    Frame by frame it collects team ids from every home/away id column pair
    present, and abbreviations from every home/away abbreviation pair
    present; while no abbreviation has been found at all, it also takes
    every column whose name contains TEAM_ABBREVIATION. If that gives no
    abbreviation but some ids, the ids are mapped to abbreviations through
    the players frame. No abbreviation at all is an error that ends the
    run. */
module TeamResolution {
  import opened Common

  /** A scoreboard cell. */
  datatype Cell = Null | Int(i: int) | Text(s: string)

  /** A scoreboard result set: its column names and its rows; a column a
      row does not list reads as null. */
  datatype Frame = Frame(columns: seq<string>, rows: seq<map<string, Cell>>)

  /** A row of the players frame, as far as the id mapping reads it. */
  datatype PlayerTeam = PlayerTeam(teamId: Option<int>, team: string)

  datatype TeamError =
    | NoTeams           // RuntimeError: unable to determine teams
    | NoTeamIdColumn    // KeyError: the players frame has no TEAM_ID column

  const ID_PAIRS: seq<(string, string)> := [
    ("HOME_TEAM_ID", "VISITOR_TEAM_ID"),
    ("TEAM_ID_HOME", "TEAM_ID_AWAY"),
    ("TEAM_ID_HOME", "TEAM_ID_VISITOR"),
    ("HOME_TEAM_ID", "AWAY_TEAM_ID")]

  const ABBR_PAIRS: seq<(string, string)> := [
    ("HOME_TEAM_ABBREVIATION", "VISITOR_TEAM_ABBREVIATION"),
    ("TEAM_ABBREVIATION_HOME", "TEAM_ABBREVIATION_AWAY"),
    ("HOME_TEAM_ABBREVIATION", "AWAY_TEAM_ABBREVIATION")]

  const ABBR_MARK := "TEAM_ABBREVIATION"

  function CellAt(row: map<string, Cell>, c: string): Cell {
    if c in row then row[c] else Null
  }

  /** int(cell): integers only; a null cell raises. */
  function AsInt(c: Cell): Option<int> {
    if c.Int? then Some(c.i) else None
  }

  /** A non-null cell as `astype(str)` writes it. */
  function AsText(c: Cell): Option<string> {
    match c
    case Null => None
    case Int(i) => Some(IntToString(i))
    case Text(s) => Some(s)
  }

  // -----------------------------------------------------------------------
  // What one frame contributes

  /** The ids one row adds for a pair: the home id if it converts, then the
      away id if that converts too. A home id that does not convert skips
      the row; an away id that does not convert leaves the home id added. */
  function RowIds(row: map<string, Cell>, a: string, b: string): set<int> {
    var x, y := AsInt(CellAt(row, a)), AsInt(CellAt(row, b));
    if x.None? then {} else {x.value} + (if y.Some? then {y.value} else {})
  }

  function RowsIds(rows: seq<map<string, Cell>>, a: string, b: string): set<int> {
    if rows == [] then {}
    else RowsIds(rows[..|rows| - 1], a, b) + RowIds(rows[|rows| - 1], a, b)
  }

  /** The ids from the pairs whose two columns the frame has. */
  function IdsFromPairs(d: Frame, pairs: seq<(string, string)>): set<int> {
    if pairs == [] then {}
    else
      var p := pairs[|pairs| - 1];
      IdsFromPairs(d, pairs[..|pairs| - 1]) +
        (if p.0 in d.columns && p.1 in d.columns then RowsIds(d.rows, p.0, p.1) else {})
  }

  /** `d[c].dropna().astype(str).str.strip().str.upper().unique()`. */
  function ColumnAbbrs(d: Frame, c: string): set<string> {
    set k | 0 <= k < |d.rows| && AsText(CellAt(d.rows[k], c)).Some? :: NormTeam(AsText(CellAt(d.rows[k], c)).value)
  }

  function AbbrsFromPairs(d: Frame, pairs: seq<(string, string)>): set<string> {
    if pairs == [] then {}
    else
      var p := pairs[|pairs| - 1];
      AbbrsFromPairs(d, pairs[..|pairs| - 1]) +
        (if p.0 in d.columns && p.1 in d.columns then ColumnAbbrs(d, p.0) + ColumnAbbrs(d, p.1) else {})
  }

  predicate Marked(c: string) {
    Contains(Upper(c), ABBR_MARK)
  }

  /** The abbreviations of the columns whose upper-cased name contains
      TEAM_ABBREVIATION. */
  function MarkedAbbrs(d: Frame, cols: seq<string>): set<string> {
    if cols == [] then {}
    else
      var c := cols[|cols| - 1];
      MarkedAbbrs(d, cols[..|cols| - 1]) + (if Marked(c) then ColumnAbbrs(d, c) else {})
  }

  datatype Found = Found(ids: set<int>, abbrs: set<string>)

  /** One frame's turn of the loop. */
  function Step(acc: Found, d: Frame): Found {
    var ids := acc.ids + IdsFromPairs(d, ID_PAIRS);
    var abbrs := acc.abbrs + AbbrsFromPairs(d, ABBR_PAIRS);
    Found(ids, if abbrs == {} then MarkedAbbrs(d, d.columns) else abbrs)
  }

  function Fold(frames: seq<Frame>): Found {
    if frames == [] then Found({}, {})
    else Step(Fold(frames[..|frames| - 1]), frames[|frames| - 1])
  }

  /** The abbreviations of the players whose TEAM_ID is among the ids. */
  function MappedAbbrs(players: seq<PlayerTeam>, ids: set<int>): set<string> {
    set k | 0 <= k < |players| && players[k].teamId.Some? && players[k].teamId.value in ids :: NormTeam(players[k].team)
  }

  /** The outcome of the whole resolution. */
  function Resolve(frames: seq<Frame>, players: seq<PlayerTeam>, hasTeamIdColumn: bool): Result<set<string>, TeamError> {
    var found := Fold(frames);
    if found.abbrs == {} && found.ids != {} && !hasTeamIdColumn then Err(NoTeamIdColumn)
    else
      var abbrs := if found.abbrs == {} && found.ids != {} then MappedAbbrs(players, found.ids) else found.abbrs;
      if abbrs == {} then Err(NoTeams) else Ok(abbrs)
  }

  // -----------------------------------------------------------------------
  // The loops

  /** The row loop for one id pair. */
  method AddRowIds(rows: seq<map<string, Cell>>, a: string, b: string, ids0: set<int>) returns (ids: set<int>)
    ensures ids == ids0 + RowsIds(rows, a, b)
  {
    ids := ids0;
    for k := 0 to |rows|
      invariant ids == ids0 + RowsIds(rows[..k], a, b)
    {
      assert rows[..k + 1][..k] == rows[..k];
      var row := rows[k];
      var x := AsInt(CellAt(row, a));
      if x.Some? {
        ids := ids + {x.value};
        var y := AsInt(CellAt(row, b));
        if y.Some? {
          ids := ids + {y.value};
        }
      }
    }
    assert rows[..|rows|] == rows;
  }

  /** One frame: the id pairs, the abbreviation pairs, then the fallback
      columns while nothing has been found. */
  method ScanFrame(d: Frame, acc: Found) returns (next: Found)
    ensures next == Step(acc, d)
  {
    var ids := ScanIdPairs(d, acc.ids);
    var abbrs := ScanAbbrPairs(d, acc.abbrs);
    if abbrs == {} {
      abbrs := ScanMarked(d);
    }
    next := Found(ids, abbrs);
  }

  method ScanIdPairs(d: Frame, ids0: set<int>) returns (ids: set<int>)
    ensures ids == ids0 + IdsFromPairs(d, ID_PAIRS)
  {
    ids := ids0;
    for p := 0 to |ID_PAIRS|
      invariant ids == ids0 + IdsFromPairs(d, ID_PAIRS[..p])
    {
      assert ID_PAIRS[..p + 1][..p] == ID_PAIRS[..p];
      var (a, b) := ID_PAIRS[p];
      if a in d.columns && b in d.columns {
        ids := AddRowIds(d.rows, a, b, ids);
      }
    }
    assert ID_PAIRS[..|ID_PAIRS|] == ID_PAIRS;
  }

  method ScanAbbrPairs(d: Frame, abbrs0: set<string>) returns (abbrs: set<string>)
    ensures abbrs == abbrs0 + AbbrsFromPairs(d, ABBR_PAIRS)
  {
    abbrs := abbrs0;
    for p := 0 to |ABBR_PAIRS|
      invariant abbrs == abbrs0 + AbbrsFromPairs(d, ABBR_PAIRS[..p])
    {
      assert ABBR_PAIRS[..p + 1][..p] == ABBR_PAIRS[..p];
      var (a, b) := ABBR_PAIRS[p];
      if a in d.columns && b in d.columns {
        abbrs := abbrs + ColumnAbbrs(d, a);
        abbrs := abbrs + ColumnAbbrs(d, b);
      }
    }
    assert ABBR_PAIRS[..|ABBR_PAIRS|] == ABBR_PAIRS;
  }

  method ScanMarked(d: Frame) returns (abbrs: set<string>)
    ensures abbrs == MarkedAbbrs(d, d.columns)
  {
    abbrs := {};
    for c := 0 to |d.columns|
      invariant abbrs == MarkedAbbrs(d, d.columns[..c])
    {
      assert d.columns[..c + 1][..c] == d.columns[..c];
      var col := d.columns[c];
      if Marked(col) {
        abbrs := abbrs + ColumnAbbrs(d, col);
      }
    }
    assert d.columns[..|d.columns|] == d.columns;
  }

  /** The resolution: every frame in turn, then the id mapping, then the
      verdict. */
  method ResolveTeams(frames: seq<Frame>, players: seq<PlayerTeam>, hasTeamIdColumn: bool)
    returns (r: Result<set<string>, TeamError>)
    ensures r == Resolve(frames, players, hasTeamIdColumn)
    ensures r.Ok? ==> r.value != {}
  {
    var found := Found({}, {});
    for f := 0 to |frames|
      invariant found == Fold(frames[..f])
    {
      assert frames[..f + 1][..f] == frames[..f];
      found := ScanFrame(frames[f], found);
    }
    assert frames[..|frames|] == frames;
    var teamAbbrs := found.abbrs;
    if teamAbbrs == {} && found.ids != {} {
      if !hasTeamIdColumn {
        return Err(NoTeamIdColumn);
      }
      teamAbbrs := MappedAbbrs(players, found.ids);
    }
    if teamAbbrs == {} {
      return Err(NoTeams);
    }
    return Ok(teamAbbrs);
  }

  // -----------------------------------------------------------------------
  // Properties

  lemma {:induction false} FoldGrows(frames: seq<Frame>, i: nat)
    requires i <= |frames|
    ensures Fold(frames[..i]).ids <= Fold(frames).ids
    ensures Fold(frames[..i]).abbrs <= Fold(frames).abbrs
    decreases |frames| - i
  {
    if i < |frames| {
      FoldGrows(frames, i + 1);
      FoldAt(frames, i);
    } else {
      assert frames[..i] == frames;
    }
  }

  lemma {:induction false} PairAbbrsInFrame(d: Frame, pairs: seq<(string, string)>, j: nat)
    requires j < |pairs| && pairs[j].0 in d.columns && pairs[j].1 in d.columns
    ensures ColumnAbbrs(d, pairs[j].0) + ColumnAbbrs(d, pairs[j].1) <= AbbrsFromPairs(d, pairs)
  {
    if j < |pairs| - 1 {
      PairAbbrsInFrame(d, pairs[..|pairs| - 1], j);
    }
  }

  lemma FoldAt(frames: seq<Frame>, i: nat)
    requires i < |frames|
    ensures Fold(frames[..i + 1]) == Step(Fold(frames[..i]), frames[i])
  {
    assert frames[..i + 1][..i] == frames[..i];
  }

  lemma StepKeepsPairAbbrs(acc: Found, d: Frame)
    ensures AbbrsFromPairs(d, ABBR_PAIRS) <= Step(acc, d).abbrs
    ensures acc.ids + IdsFromPairs(d, ID_PAIRS) == Step(acc, d).ids
  {
  }

  /** What a frame's abbreviation pairs give ends up in the resolution. */
  lemma {:induction false} FrameAbbrsKept(frames: seq<Frame>, i: nat)
    requires i < |frames|
    ensures AbbrsFromPairs(frames[i], ABBR_PAIRS) <= Fold(frames).abbrs
  {
    var init := frames[..|frames| - 1];
    StepKeepsPairAbbrs(Fold(init), frames[|frames| - 1]);
    if i < |frames| - 1 {
      FrameAbbrsKept(init, i);
    }
  }

  /** Every home/away abbreviation pair of every frame contributes: the
      resolution unions all of them instead of stopping at the first pair or
      the first frame that has one. */
  lemma PairAbbreviationsKept(frames: seq<Frame>, i: nat, j: nat)
    requires i < |frames| && j < |ABBR_PAIRS|
    requires ABBR_PAIRS[j].0 in frames[i].columns && ABBR_PAIRS[j].1 in frames[i].columns
    ensures ColumnAbbrs(frames[i], ABBR_PAIRS[j].0) + ColumnAbbrs(frames[i], ABBR_PAIRS[j].1) <= Fold(frames).abbrs
  {
    PairAbbrsInFrame(frames[i], ABBR_PAIRS, j);
    FrameAbbrsKept(frames, i);
  }

  lemma {:induction false} PairIdsInFrame(d: Frame, pairs: seq<(string, string)>, j: nat)
    requires j < |pairs| && pairs[j].0 in d.columns && pairs[j].1 in d.columns
    ensures RowsIds(d.rows, pairs[j].0, pairs[j].1) <= IdsFromPairs(d, pairs)
  {
    if j < |pairs| - 1 {
      PairIdsInFrame(d, pairs[..|pairs| - 1], j);
    }
  }

  lemma {:induction false} RowIdsInRows(rows: seq<map<string, Cell>>, a: string, b: string, k: nat)
    requires k < |rows|
    ensures RowIds(rows[k], a, b) <= RowsIds(rows, a, b)
  {
    if k < |rows| - 1 {
      RowIdsInRows(rows[..|rows| - 1], a, b, k);
    }
  }

  /** Likewise every id pair of every frame contributes, row by row: a row
      whose home id converts adds it, and its away id when that converts. */
  lemma PairIdsKept(frames: seq<Frame>, i: nat, j: nat, k: nat)
    requires i < |frames| && j < |ID_PAIRS| && k < |frames[i].rows|
    requires ID_PAIRS[j].0 in frames[i].columns && ID_PAIRS[j].1 in frames[i].columns
    ensures RowIds(frames[i].rows[k], ID_PAIRS[j].0, ID_PAIRS[j].1) <= Fold(frames).ids
  {
    var d := frames[i];
    RowIdsInRows(d.rows, ID_PAIRS[j].0, ID_PAIRS[j].1, k);
    PairIdsInFrame(d, ID_PAIRS, j);
    FoldAt(frames, i);
    StepKeepsPairAbbrs(Fold(frames[..i]), d);
    FoldGrows(frames, i + 1);
  }

  /** When some frame has an abbreviation pair with a non-null cell, the
      resolution succeeds with the scoreboard's own abbreviations and the
      players frame is not consulted. */
  lemma PairAbbreviationsDecide(frames: seq<Frame>, players: seq<PlayerTeam>, hasTeamIdColumn: bool, i: nat, j: nat, k: nat)
    requires i < |frames| && j < |ABBR_PAIRS| && k < |frames[i].rows|
    requires ABBR_PAIRS[j].0 in frames[i].columns && ABBR_PAIRS[j].1 in frames[i].columns
    requires AsText(CellAt(frames[i].rows[k], ABBR_PAIRS[j].0)).Some?
    ensures Resolve(frames, players, hasTeamIdColumn) == Ok(Fold(frames).abbrs)
  {
    PairAbbreviationsKept(frames, i, j);
    var d := frames[i];
    assert NormTeam(AsText(CellAt(d.rows[k], ABBR_PAIRS[j].0)).value) in ColumnAbbrs(d, ABBR_PAIRS[j].0);
  }
}
