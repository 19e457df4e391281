/** The history tracker (ttfl_history.py): it reads the page of players
    already chosen, keeps the Date and Joueur columns of its MuTabme table,
    and keeps one dated CSV of it in cache/ttfl, deleting every older one
    when it refreshes. */
module TtflHistory {
  import opened Common
  import opened Html
  import opened CacheStore
  import ParseTable

  const TTFL_CACHE_DIR := "cache/ttfl"
  const HISTORY_PREFIX := "cache/ttfl/ttfl_history_"
  const HISTORY_SUFFIX := ".csv"

  // -----------------------------------------------------------------------
  // Cache file names

  /** _cache_path_for_date(d). */
  function CachePathForDate(d: string): string {
    HISTORY_PREFIX + d + HISTORY_SUFFIX
  }

  /** The paths glob("cache/ttfl/ttfl_history_*.csv") lists: the wildcard
      matches any text without a slash. */
  predicate IsHistoryPath(p: string) {
    && |p| >= |HISTORY_PREFIX| + |HISTORY_SUFFIX|
    && p[..|HISTORY_PREFIX|] == HISTORY_PREFIX
    && p[|p| - |HISTORY_SUFFIX|..] == HISTORY_SUFFIX
    && forall k :: |HISTORY_PREFIX| <= k < |p| - |HISTORY_SUFFIX| ==> p[k] != '/'
  }

  /** Each date has its own file, and the refresh glob finds it exactly when
      the date text has no slash. */
  lemma CachePathForDateMatches(d: string, e: string)
    ensures IsHistoryPath(CachePathForDate(d)) <==> forall k :: 0 <= k < |d| ==> d[k] != '/'
    ensures CachePathForDate(d) == CachePathForDate(e) ==> d == e
  {
    var p := CachePathForDate(d);
    var n := |HISTORY_PREFIX|;
    assert p[..n] == HISTORY_PREFIX;
    assert p[|p| - |HISTORY_SUFFIX|..] == HISTORY_SUFFIX;
    assert forall k :: 0 <= k < |d| ==> p[n + k] == d[k];
    if CachePathForDate(d) == CachePathForDate(e) {
      assert d == p[n..n + |d|];
    }
  }

  // -----------------------------------------------------------------------
  // The extracted table

  datatype HistoryRow = HistoryRow(date: Option<Day>, joueur: Option<string>)

  /** A frame whose columns are among Date and Joueur (in that order). A row
      holds None for a column the frame does not have. */
  datatype HistoryTable = HistoryTable(hasDate: bool, hasJoueur: bool, rows: seq<HistoryRow>)

  /** pd.DataFrame(columns=["Date", "Joueur"]). */
  function EmptyHistory(): HistoryTable {
    HistoryTable(true, true, [])
  }

  // -----------------------------------------------------------------------
  // The CSV round trip

  /** The texts that pandas' read_csv reads as a missing value by default. */
  const CSV_NA_VALUES: set<string> := {
    "", "#N/A", "#N/A N/A", "#NA", "-1.#IND", "-1.#QNAN", "-NaN", "-nan", "1.#IND", "1.#QNAN",
    "<NA>", "N/A", "NA", "NULL", "NaN", "None", "n/a", "nan", "null" }

  /** A Joueur cell written by to_csv and read back by read_csv: a missing
      value is written as "", and every NA spelling reads back as missing. */
  function CsvCell(v: Option<string>): (r: Option<string>)
    ensures r.Some? <==> v.Some? && v.value !in CSV_NA_VALUES
    ensures r.Some? ==> r == v
  {
    if v.Some? && v.value in CSV_NA_VALUES then None else v
  }

  /** A history table saved with to_csv and loaded again with read_csv: the
      same columns and rows, the dates as they were, and each Joueur through
      CsvCell. */
  function CsvRoundTrip(t: HistoryTable): (r: HistoryTable)
    ensures r.hasDate == t.hasDate && r.hasJoueur == t.hasJoueur && |r.rows| == |t.rows|
    ensures forall k :: 0 <= k < |r.rows| ==> r.rows[k].date == t.rows[k].date
  {
    HistoryTable(t.hasDate, t.hasJoueur,
      seq(|t.rows|, k requires 0 <= k < |t.rows| => HistoryRow(t.rows[k].date, CsvCell(t.rows[k].joueur))))
  }

  /** The round trip keeps a table exactly when none of its Joueur cells is
      an NA spelling (the padding "" of a short row included). */
  lemma CsvRoundTripKeeps(t: HistoryTable)
    ensures CsvRoundTrip(t) == t <==>
      forall k :: 0 <= k < |t.rows| && t.rows[k].joueur.Some? ==> t.rows[k].joueur.value !in CSV_NA_VALUES
  {
    var r := CsvRoundTrip(t);
    if forall k :: 0 <= k < |t.rows| && t.rows[k].joueur.Some? ==> t.rows[k].joueur.value !in CSV_NA_VALUES {
      assert forall k :: 0 <= k < |t.rows| ==> r.rows[k] == t.rows[k];
    } else {
      var k :| 0 <= k < |t.rows| && t.rows[k].joueur.Some? && t.rows[k].joueur.value in CSV_NA_VALUES;
      assert r.rows[k].joueur.None?;
    }
  }

  /** Saving and loading a second time changes nothing more. */
  lemma CsvRoundTripIdempotent(t: HistoryTable)
    ensures CsvRoundTrip(CsvRoundTrip(t)) == CsvRoundTrip(t)
  {
    CsvRoundTripKeeps(CsvRoundTrip(t));
  }

  datatype HistoryError =
    | TableMissing              // RuntimeError: no table #MuTabme
    | NoBody                    // the table has no tbody (AttributeError on None)
    | CacheDirFailed            // os.makedirs of the cache directory failed
    | LoadFailed(e: LoadError)  // the cached CSV could not be read
    | FetchFailed               // the history page could not be fetched
    | SaveFailed                // the CSV could not be written

  // -----------------------------------------------------------------------
  // Header de-duplication

  /** How many times key occurs in keys. */
  function Occurrences(keys: seq<string>, key: string): nat {
    if keys == [] then 0
    else Occurrences(keys[..|keys| - 1], key) + (if keys[|keys| - 1] == key then 1 else 0)
  }

  /** The unique name of column i: its stripped label the first time that
      label occurs, and `label__k` at its k-th repetition. */
  function UniqueName(headers: seq<string>, i: nat): string
    requires i < |headers|
  {
    var key := Trim(headers[i]);
    var count := Occurrences(Trimmed(headers)[..i], key);
    if count == 0 then key else key + "__" + NatToString(count)
  }

  /** The renaming loop of _parse_mu_table_from_html, with its `seen` counter
      dict: the output has one name per header, each its UniqueName. */
  method UniqueHeaders(headers: seq<string>) returns (unique: seq<string>)
    ensures unique == UniqueNames(headers)
  {
    var seen: map<string, nat> := map[];
    unique := [];
    ghost var keys := Trimmed(headers);
    for i := 0 to |headers|
      invariant |unique| == i
      invariant unique == UniqueNames(headers)[..i]
      invariant CountsPrefix(keys, i, seen)
    {
      var key := Trim(headers[i]);
      var cnt := if key in seen then seen[key] else 0;
      var name := if cnt == 0 then key else key + "__" + NatToString(cnt);
      UniqueNameFromSeen(headers, i, seen, cnt);
      SeenStep(keys, i, seen, cnt);
      seen := seen[key := cnt + 1];
      unique := unique + [name];
    }
  }

  function UniqueNames(headers: seq<string>): (r: seq<string>)
    ensures |r| == |headers|
  {
    seq(|headers|, i requires 0 <= i < |headers| => UniqueName(headers, i))
  }

  /** The `seen` dict counts each stripped header in the headers so far. */
  ghost predicate CountsPrefix(keys: seq<string>, i: nat, seen: map<string, nat>)
    requires i <= |keys|
  {
    && (forall k :: k in seen ==> seen[k] == Occurrences(keys[..i], k))
    && (forall k :: k !in seen ==> Occurrences(keys[..i], k) == 0)
  }

  lemma UniqueNameFromSeen(headers: seq<string>, i: nat, seen: map<string, nat>, cnt: nat)
    requires i < |headers| && CountsPrefix(Trimmed(headers), i, seen)
    requires cnt == if Trim(headers[i]) in seen then seen[Trim(headers[i])] else 0
    ensures UniqueNames(headers)[..i + 1] == UniqueNames(headers)[..i] +
      [if cnt == 0 then Trim(headers[i]) else Trim(headers[i]) + "__" + NatToString(cnt)]
  {
  }

  lemma SeenStep(keys: seq<string>, i: nat, seen: map<string, nat>, cnt: nat)
    requires i < |keys| && CountsPrefix(keys, i, seen)
    requires cnt == if keys[i] in seen then seen[keys[i]] else 0
    ensures CountsPrefix(keys, i + 1, seen[keys[i] := cnt + 1])
  {
    forall k ensures Occurrences(keys[..i + 1], k) == Occurrences(keys[..i], k) + (if k == keys[i] then 1 else 0) {
      OccurrencesSnoc(keys, i, k);
    }
  }

  lemma OccurrencesSnoc(keys: seq<string>, i: nat, k: string)
    requires i < |keys|
    ensures Occurrences(keys[..i + 1], k) == Occurrences(keys[..i], k) + (if keys[i] == k then 1 else 0)
  {
    assert keys[..i + 1][..i] == keys[..i];
  }

  lemma {:induction false} OccurrencesMonotone(keys: seq<string>, key: string, m: nat, n: nat)
    requires m <= n <= |keys|
    ensures Occurrences(keys[..m], key) <= Occurrences(keys[..n], key)
  {
    if m < n {
      OccurrencesMonotone(keys, key, m, n - 1);
      assert keys[..n][..n - 1] == keys[..n - 1];
    }
  }

  /** An earlier occurrence of a key raises the count seen by a later one. */
  lemma LaterOccurrenceCountsMore(keys: seq<string>, i: nat, j: nat)
    requires i < j <= |keys|
    ensures Occurrences(keys[..j], keys[i]) >= Occurrences(keys[..i], keys[i]) + 1
  {
    assert keys[..i + 1][..i] == keys[..i];
    OccurrencesMonotone(keys, keys[i], i + 1, j);
  }

  lemma SuffixedContainsSeparator(key: string, digits: string)
    ensures Contains(key + "__" + digits, "__")
  {
    assert ContainsAt(key + "__" + digits, "__", |key|);
  }

  /** In `long__d` the separator sits where `short__e` has a digit. */
  lemma SeparatorMeetsDigit(long: string, d: string, short: string, e: string)
    requires |short| < |long| && forall k :: 0 <= k < |e| ==> IsDigit(e[k])
    requires long + "__" + d == short + "__" + e
    ensures (long + "__" + d)[|long| + 1] == '_'
    ensures IsDigit((short + "__" + e)[|long| + 1])
  {
  }

  /** `a__m` and `b__n` with decimal m, n are the same text only for the
      same label and the same number. */
  lemma SuffixedSplit(a: string, m: nat, b: string, n: nat)
    requires a + "__" + NatToString(m) == b + "__" + NatToString(n)
    ensures a == b && m == n
  {
    var s := a + "__" + NatToString(m);
    var dm, dn := NatToString(m), NatToString(n);
    if |a| < |b| {
      SeparatorMeetsDigit(b, dn, a, dm);
    } else if |b| < |a| {
      SeparatorMeetsDigit(a, dm, b, dn);
    }
    assert a == s[..|a|] == b;
    assert dm == s[|a| + 2..] == dn;
    NatToStringInjective(m, n);
  }

  /** The renamed headers are pairwise distinct, provided no stripped header
      already contains `__` (a header `x__1` beside two headers `x` would
      collide with the second `x`). */
  lemma UniqueNamesDistinct(headers: seq<string>, i: nat, j: nat)
    requires i < j < |headers|
    requires forall k :: 0 <= k < |headers| ==> !Contains(Trim(headers[k]), "__")
    ensures UniqueName(headers, i) != UniqueName(headers, j)
  {
    var keys := Trimmed(headers);
    var ki, kj := keys[i], keys[j];
    var ci, cj := Occurrences(keys[..i], ki), Occurrences(keys[..j], kj);
    if ki == kj {
      LaterOccurrenceCountsMore(keys, i, j);
    }
    if ci == 0 && cj != 0 {
      SuffixedContainsSeparator(kj, NatToString(cj));
    } else if ci != 0 && cj == 0 {
      SuffixedContainsSeparator(ki, NatToString(ci));
    } else if ci != 0 && cj != 0 && UniqueName(headers, i) == UniqueName(headers, j) {
      SuffixedSplit(ki, ci, kj, cj);
    }
  }

  // -----------------------------------------------------------------------
  // Choosing the Date and Joueur columns

  /** `str(h).strip().lower()` of every header. */
  function NormHeaders(headers: seq<string>): (r: seq<string>)
    ensures |r| == |headers|
  {
    seq(|headers|, i requires 0 <= i < |headers| => NormName(headers[i]))
  }

  /** The first header whose stripped, lower-cased text is `target`. */
  function FirstMatch(headers: seq<string>, target: string): (r: Option<nat>)
    ensures r.Some? ==> r.value < |headers| && NormHeaders(headers)[r.value] == target
    ensures r.Some? ==> forall k :: 0 <= k < r.value ==> NormHeaders(headers)[k] != target
    ensures r.None? ==> forall k :: 0 <= k < |headers| ==> NormHeaders(headers)[k] != target
  {
    IndexOfName(NormHeaders(headers), target)
  }

  /** The first position holding a name (pandas label lookup), if any. */
  function IndexOfName(names: seq<string>, name: string): (r: Option<nat>)
    ensures r.Some? ==> r.value < |names| && names[r.value] == name
    ensures r.Some? ==> forall k :: 0 <= k < r.value ==> names[k] != name
    ensures r.None? ==> name !in names
  {
    if names == [] then None
    else if names[0] == name then Some(0)
    else
      var rest := IndexOfName(names[1..], name);
      if rest.Some? then Some(rest.value + 1) else None
  }

  /** A header reading `date` or `joueur` once lower-cased has no `__`. */
  lemma NoSeparatorInTarget(key: string, target: string)
    requires target == "date" || target == "joueur"
    requires Lower(key) == target
    ensures !Contains(key, "__")
  {
    forall p | 0 <= p <= |key| - 2 ensures !ContainsAt(key, "__", p) {
      assert key[p..p + 2][0] == key[p];
      assert Lower(key)[p] == LowerChar(key[p]);
    }
  }

  /** The first matching header is the first occurrence of its stripped
      text, so it keeps that text as its renamed label. */
  lemma FirstMatchKeepsLabel(headers: seq<string>, target: string, i: nat)
    requires FirstMatch(headers, target) == Some(i)
    ensures Occurrences(Trimmed(headers)[..i], Trimmed(headers)[i]) == 0
    ensures UniqueName(headers, i) == Trim(headers[i])
  {
    var keys := Trimmed(headers);
    forall k | 0 <= k < i ensures keys[..i][k] != keys[i] {
      assert NormHeaders(headers)[k] == Lower(keys[k]);
      assert NormHeaders(headers)[i] == Lower(keys[i]);
    }
    OccurrencesZero(keys[..i], keys[i]);
  }

  /** Selecting the Date (or Joueur) column by its renamed label reaches the
      one column at the first matching header: the renamed label of that
      column is the plain stripped header, and no other column carries it. */
  lemma SelectedColumnIsUnique(headers: seq<string>, target: string, i: nat, j: nat)
    requires target == "date" || target == "joueur"
    requires FirstMatch(headers, target) == Some(i)
    requires j < |headers| && UniqueName(headers, j) == UniqueName(headers, i)
    ensures j == i
  {
    var keys := Trimmed(headers);
    FirstMatchKeepsLabel(headers, target, i);
    NoSeparatorInTarget(keys[i], target);
    var cj := Occurrences(keys[..j], keys[j]);
    if cj != 0 {
      SuffixedContainsSeparator(keys[j], NatToString(cj));
    } else if j < i {
      LaterOccurrenceCountsMore(keys, j, i);
    } else if i < j {
      LaterOccurrenceCountsMore(keys, i, j);
    }
  }

  lemma {:induction false} OccurrencesZero(keys: seq<string>, key: string)
    requires forall k :: 0 <= k < |keys| ==> keys[k] != key
    ensures Occurrences(keys, key) == 0
  {
    if keys != [] {
      OccurrencesZero(keys[..|keys| - 1], key);
    }
  }

  // -----------------------------------------------------------------------
  // Rows

  /** A row's cell texts fitted to n columns: padded with "" or cut. */
  function FitCells(cells: seq<string>, n: nat): (r: seq<string>)
    ensures |r| == n
  {
    seq(n, i requires 0 <= i < n => if i < |cells| then cells[i] else "")
  }

  /** The stored rows: one per body row that has cells, fitted to the
      header count. */
  function FittedRows(n: nat, trs: seq<Row>): (r: seq<seq<string>>)
    ensures forall k :: 0 <= k < |r| ==> |r[k]| == n
  {
    var ne := ParseTable.NonEmptyRows(trs);
    seq(|ne|, k requires 0 <= k < |ne| => FitCells(CellTexts(ne[k]), n))
  }

  /** The row loop of _parse_mu_table_from_html: rows without cells are
      skipped, every other one is padded with "" to the header count or cut
      to it, in order. */
  method NormalizeRows(n: nat, trs: seq<Row>) returns (rows: seq<seq<string>>)
    ensures rows == FittedRows(n, trs)
    ensures forall k :: 0 <= k < |rows| ==> |rows[k]| == n
  {
    rows := [];
    for t := 0 to |trs|
      invariant rows == FittedRows(n, trs[..t])
    {
      assert trs[..t + 1][..t] == trs[..t];
      var cells := CellTexts(trs[t]);
      if cells != [] {
        if |cells| < n {
          cells := cells + seq(n - |cells|, _ => "");
        }
        assert cells[..n] == FitCells(CellTexts(trs[t]), n);
        rows := rows + [cells[..n]];
      }
    }
    assert trs[..|trs|] == trs;
  }

  /** The Date and Joueur columns of the fitted rows, the dates parsed. */
  function SelectColumns(headers: seq<string>, rows: seq<seq<string>>, parseDate: string -> Option<Day>): HistoryTable
    requires forall k :: 0 <= k < |rows| ==> |rows[k]| == |headers|
  {
    var di := FirstMatch(headers, "date");
    var ji := FirstMatch(headers, "joueur");
    if di.None? && ji.None? then EmptyHistory()
    else HistoryTable(di.Some?, ji.Some?, PickRows(rows, |headers|, di, ji, parseDate))
  }

  /** One HistoryRow per fitted row: the parsed Date cell and the Joueur cell
      of the chosen columns, None for a column the table lacks. */
  function PickRows(rows: seq<seq<string>>, n: nat, di: Option<nat>, ji: Option<nat>,
                    parseDate: string -> Option<Day>): (r: seq<HistoryRow>)
    requires forall k :: 0 <= k < |rows| ==> |rows[k]| == n
    requires di.Some? ==> di.value < n
    requires ji.Some? ==> ji.value < n
    ensures |r| == |rows|
  {
    seq(|rows|, k requires 0 <= k < |rows| =>
      HistoryRow(if di.Some? then parseDate(rows[k][di.value]) else None,
                 if ji.Some? then Some(rows[k][ji.value]) else None))
  }

  /** What _parse_mu_table_from_html gives for a page. The header list is
      every th of the table; cells are the th and td of each body row. */
  function HistoryFromPage(doc: Document, parseDate: string -> Option<Day>): Result<HistoryTable, HistoryError> {
    var found := FindTable(doc.tables, ParseTable.TABLE_ID);
    if found.None? then Err(TableMissing)
    else
      var headers := AllHeaderTexts(found.value.sections);
      var tbody := FindSection(found.value.sections, TBody);
      if tbody.None? then Err(NoBody)
      else Ok(SelectColumns(headers, FittedRows(|headers|, tbody.value.rows), parseDate))
  }

  /** _parse_mu_table_from_html: rename the headers, fit the rows, then pick
      the Date and Joueur columns through their renamed labels. */
  method ParseMuTableFromHtml(doc: Document, parseDate: string -> Option<Day>) returns (r: Result<HistoryTable, HistoryError>)
    ensures r == HistoryFromPage(doc, parseDate)
    ensures r == Err(TableMissing) <==> FindTable(doc.tables, ParseTable.TABLE_ID).None?
  {
    var found := FindTable(doc.tables, ParseTable.TABLE_ID);
    if found.None? {
      return Err(TableMissing);
    }
    var table := found.value;
    var headers := AllHeaderTexts(table.sections);
    var tbody := FindSection(table.sections, TBody);
    if tbody.None? {
      return Err(NoBody);
    }
    var rows := NormalizeRows(|headers|, tbody.value.rows);
    var unique := UniqueHeaders(headers);
    var history := SelectHistoryColumns(headers, unique, rows, parseDate);
    return Ok(history);
  }

  /** The column df[label] reads, for the renamed label of the first header
      matching `target`: it is that header's own column. */
  method LabelledColumn(headers: seq<string>, unique: seq<string>, target: string) returns (c: Option<nat>)
    requires target == "date" || target == "joueur"
    requires unique == UniqueNames(headers)
    ensures c == FirstMatch(headers, target)
  {
    var m := FirstMatch(headers, target);
    if m.None? {
      return None;
    }
    c := IndexOfName(unique, unique[m.value]);
    SelectedColumnIsUnique(headers, target, m.value, c.value);
  }

  /** The column selection of _parse_mu_table_from_html: the Date and Joueur
      columns are looked up by their renamed labels, as df[list(...)] does,
      and the dates are parsed. */
  method SelectHistoryColumns(headers: seq<string>, unique: seq<string>, rows: seq<seq<string>>,
                              parseDate: string -> Option<Day>) returns (history: HistoryTable)
    requires unique == UniqueNames(headers)
    requires forall k :: 0 <= k < |rows| ==> |rows[k]| == |headers|
    ensures history == SelectColumns(headers, rows, parseDate)
  {
    var dateCol := LabelledColumn(headers, unique, "date");
    var joueurCol := LabelledColumn(headers, unique, "joueur");
    if dateCol.None? && joueurCol.None? {
      return EmptyHistory();
    }
    var out := PickColumns(rows, |headers|, dateCol, joueurCol, parseDate);
    return HistoryTable(dateCol.Some?, joueurCol.Some?, out);
  }

  /** The row loop building the two-column frame. */
  method PickColumns(rows: seq<seq<string>>, n: nat, dateCol: Option<nat>, joueurCol: Option<nat>,
                     parseDate: string -> Option<Day>) returns (out: seq<HistoryRow>)
    requires forall k :: 0 <= k < |rows| ==> |rows[k]| == n
    requires dateCol.Some? ==> dateCol.value < n
    requires joueurCol.Some? ==> joueurCol.value < n
    ensures out == PickRows(rows, n, dateCol, joueurCol, parseDate)
  {
    out := [];
    for k := 0 to |rows|
      invariant out == PickRows(rows[..k], n, dateCol, joueurCol, parseDate)
    {
      var date := if dateCol.Some? then parseDate(rows[k][dateCol.value]) else None;
      var joueur := if joueurCol.Some? then Some(rows[k][joueurCol.value]) else None;
      out := out + [HistoryRow(date, joueur)];
    }
    assert rows[..|rows|] == rows;
  }

  /** What the extraction promises of a table `h` built from the headers
      and body rows of the table: the Date/Joueur columns are the first
      headers reading `date` / `joueur` once stripped and lower-cased; with
      neither, `h` is the empty Date/Joueur frame; otherwise there is one
      row per body row that has cells, in order, holding the cells of those
      columns ("" past the row's end, the date parsed). */
  ghost predicate ExtractedFrom(headers: seq<string>, body: seq<Row>, parseDate: string -> Option<Day>, h: HistoryTable) {
    var di := FirstMatch(headers, "date");
    var ji := FirstMatch(headers, "joueur");
    && (di.None? && ji.None? ==> h == EmptyHistory())
    && (di.Some? || ji.Some? ==>
          && h.hasDate == di.Some? && h.hasJoueur == ji.Some?
          && |h.rows| == |ParseTable.NonEmptyRows(body)|
          && (forall k :: 0 <= k < |h.rows| && ji.Some? ==>
               var cells := CellTexts(ParseTable.NonEmptyRows(body)[k]);
               h.rows[k].joueur == Some(if ji.value < |cells| then cells[ji.value] else ""))
          && (forall k :: 0 <= k < |h.rows| && ji.None? ==> h.rows[k].joueur == None)
          && (forall k :: 0 <= k < |h.rows| && di.Some? ==>
               var cells := CellTexts(ParseTable.NonEmptyRows(body)[k]);
               h.rows[k].date == parseDate(if di.value < |cells| then cells[di.value] else ""))
          && (forall k :: 0 <= k < |h.rows| && di.None? ==> h.rows[k].date == None))
  }

  lemma SelectColumnsShape(headers: seq<string>, body: seq<Row>, parseDate: string -> Option<Day>)
    ensures ExtractedFrom(headers, body, parseDate, SelectColumns(headers, FittedRows(|headers|, body), parseDate))
  {
    var di := FirstMatch(headers, "date");
    var ji := FirstMatch(headers, "joueur");
    if di.Some? || ji.Some? {
      var ne := ParseTable.NonEmptyRows(body);
      var h := SelectColumns(headers, FittedRows(|headers|, body), parseDate);
      assert h.rows == PickRows(FittedRows(|headers|, body), |headers|, di, ji, parseDate);
      forall k | 0 <= k < |h.rows|
        ensures ji.Some? ==> h.rows[k].joueur == Some(if ji.value < |CellTexts(ne[k])| then CellTexts(ne[k])[ji.value] else "")
        ensures ji.None? ==> h.rows[k].joueur == None
        ensures di.Some? ==> h.rows[k].date == parseDate(if di.value < |CellTexts(ne[k])| then CellTexts(ne[k])[di.value] else "")
        ensures di.None? ==> h.rows[k].date == None
      {
        PickedRow(headers, body, di, ji, parseDate, k);
      }
    }
  }

  /** Row k of the picked columns, in terms of the k-th body row with cells. */
  lemma PickedRow(headers: seq<string>, body: seq<Row>, di: Option<nat>, ji: Option<nat>,
                  parseDate: string -> Option<Day>, k: nat)
    requires di.Some? ==> di.value < |headers|
    requires ji.Some? ==> ji.value < |headers|
    requires k < |FittedRows(|headers|, body)|
    ensures k < |ParseTable.NonEmptyRows(body)|
    ensures
      var cells := CellTexts(ParseTable.NonEmptyRows(body)[k]);
      var row := PickRows(FittedRows(|headers|, body), |headers|, di, ji, parseDate)[k];
      && row.joueur == (if ji.Some? then Some(if ji.value < |cells| then cells[ji.value] else "") else None)
      && row.date == (if di.Some? then parseDate(if di.value < |cells| then cells[di.value] else "") else None)
  {
    var rows := FittedRows(|headers|, body);
    var fitted := FitCells(CellTexts(ParseTable.NonEmptyRows(body)[k]), |headers|);
    assert rows[k] == fitted;
  }

  lemma HistoryFromPageShape(doc: Document, parseDate: string -> Option<Day>)
    requires HistoryFromPage(doc, parseDate).Ok?
    ensures
      var t := FindTable(doc.tables, ParseTable.TABLE_ID).value;
      ExtractedFrom(AllHeaderTexts(t.sections), FindSection(t.sections, TBody).value.rows,
                    parseDate, HistoryFromPage(doc, parseDate).value)
  {
    var t := FindTable(doc.tables, ParseTable.TABLE_ID).value;
    SelectColumnsShape(AllHeaderTexts(t.sections), FindSection(t.sections, TBody).value.rows, parseDate);
  }

  // -----------------------------------------------------------------------
  // The single-slot dated cache

  /** The history files present: every file the refresh glob lists. */
  function HistoryFiles(files: map<string, Artifact<HistoryTable>>): set<string> {
    set p | p in files && IsHistoryPath(p)
  }

  /** get_ttfl_history(cache_date, force_refresh). A cached file for the date
      is returned as it is unless a refresh is forced; otherwise every
      history file is deleted first (failures, such as a directory that
      matches the pattern, are ignored), then the page is fetched, parsed
      and saved under the date. `page` is what the fetch returned (None when
      it failed); `parseDate` is pd.to_datetime on one cell. */
  method GetTtflHistory(store: FileStore<HistoryTable>, cacheDate: string, forceRefresh: bool,
                        page: Option<Document>, parseDate: string -> Option<Day>)
    returns (r: Result<HistoryTable, HistoryError>)
    requires store.Valid()
    modifies store
    ensures store.Valid()
    // the cache directory cannot be created: nothing else happens
    ensures !(DirChain(TTFL_CACHE_DIR) !! old(store.files).Keys) ==>
      r == Err(CacheDirFailed) && store.files == old(store.files) && store.dirs == old(store.dirs)
    // a cache hit: the stored table as read_csv gives it back (or the error
    // reading it), no fetch, no change to files
    ensures DirChain(TTFL_CACHE_DIR) !! old(store.files).Keys && old(store.IsCached(CachePathForDate(cacheDate))) && !forceRefresh ==>
      && store.files == old(store.files)
      && store.dirs == old(store.dirs) + DirChain(TTFL_CACHE_DIR)
      && r == match old(store.Load(CachePathForDate(cacheDate)))
              case Ok(t) => Ok(CsvRoundTrip(t))
              case Err(e) => Err(LoadFailed(e))
    // a refresh whose page parses: it succeeds exactly when the table can be saved
    ensures DirChain(TTFL_CACHE_DIR) !! old(store.files).Keys && (!old(store.IsCached(CachePathForDate(cacheDate))) || forceRefresh) &&
            page.Some? && HistoryFromPage(page.value, parseDate).Ok? ==>
      && (r.Ok? <==> SaveSucceeds(old(store.files) - HistoryFiles(old(store.files)),
                                  old(store.dirs) + DirChain(TTFL_CACHE_DIR), CachePathForDate(cacheDate)))
      && (r.Err? ==> r == Err(SaveFailed))
      && store.dirs == old(store.dirs) + DirChain(TTFL_CACHE_DIR) +
           (if DirChain(TargetDir(CachePathForDate(cacheDate))) !! (old(store.files) - HistoryFiles(old(store.files))).Keys
            then DirChain(TargetDir(CachePathForDate(cacheDate))) else {})
    // a refresh that fetches or parses nothing: only the cache directory is added
    ensures DirChain(TTFL_CACHE_DIR) !! old(store.files).Keys && (!old(store.IsCached(CachePathForDate(cacheDate))) || forceRefresh) &&
            (page.None? || HistoryFromPage(page.value, parseDate).Err?) ==>
      store.dirs == old(store.dirs) + DirChain(TTFL_CACHE_DIR)
    // a refresh: every older history file is gone, then the new table replaces them
    ensures DirChain(TTFL_CACHE_DIR) !! old(store.files).Keys && (!old(store.IsCached(CachePathForDate(cacheDate))) || forceRefresh) ==>
      && (page.None? ==> r == Err(FetchFailed))
      && (page.Some? && HistoryFromPage(page.value, parseDate).Err? ==> r == HistoryFromPage(page.value, parseDate))
      && (r.Ok? ==> page.Some? && r == HistoryFromPage(page.value, parseDate))
      && store.files == if r.Ok? then (old(store.files) - HistoryFiles(old(store.files)))[CachePathForDate(cacheDate) := Artifact.Table(r.value)]
                        else old(store.files) - HistoryFiles(old(store.files))
  {
    var made := store.Makedirs(TTFL_CACHE_DIR);
    if !made {
      return Err(CacheDirFailed);
    }
    var cachePath := CachePathForDate(cacheDate);
    assert store.IsCached(cachePath) == old(store.IsCached(cachePath)) by {
      CachePathNotInCacheDirChain(cacheDate);
    }
    if store.IsCached(cachePath) && !forceRefresh {
      var loaded := store.Load(cachePath);
      match loaded {
        case Ok(t) => return Ok(CsvRoundTrip(t));
        case Err(e) => return Err(LoadFailed(e));
      }
    }
    RemoveOldCaches(store);
    if page.None? {
      return Err(FetchFailed);
    }
    var parsed := ParseMuTableFromHtml(page.value, parseDate);
    if parsed.Err? {
      return parsed;
    }
    var saved := store.Save(parsed.value, cachePath);
    if !saved {
      return Err(SaveFailed);
    }
    return parsed;
  }

  /** Remove every listed path, file or directory, that matches the history
      pattern. */
  method RemoveOldCaches(store: FileStore<HistoryTable>)
    requires store.Valid()
    modifies store
    ensures store.Valid()
    ensures store.files == old(store.files) - HistoryFiles(old(store.files))
    ensures store.dirs == old(store.dirs)
  {
    ghost var before := store.files;
    var listed := set p | p in store.files.Keys + store.dirs && IsHistoryPath(p);
    var todo := listed;
    while todo != {}
      invariant todo <= listed
      invariant store.Valid()
      invariant store.files == before - (listed - todo)
      invariant store.dirs == old(store.dirs)
      decreases |todo|
    {
      var p :| p in todo;
      var _ := store.Remove(p);
      todo := todo - {p};
    }
    assert before - listed == before - HistoryFiles(before);
  }

  lemma CachePathNotInCacheDirChain(d: string)
    ensures NormDir(CachePathForDate(d)) !in DirChain(TTFL_CACHE_DIR)
  {
    var p := CachePathForDate(d);
    assert p[|p| - 1] == 'v';
    assert NormDir(p) == p by {
      assert p[0] != '/';
    }
    if p in DirChain(TTFL_CACHE_DIR) {
      DirChainShorter(TTFL_CACHE_DIR, p);
    }
  }

  /** A date's cache file sits directly in cache/ttfl and has the extension
      .csv, whatever dots the date holds, provided it has no slash. */
  lemma CachePathShape(d: string)
    requires forall k :: 0 <= k < |d| ==> d[k] != '/'
    ensures Extension(CachePathForDate(d)) == HISTORY_SUFFIX
    ensures DirName(CachePathForDate(d)) == TTFL_CACHE_DIR
    ensures TargetDir(CachePathForDate(d)) == TTFL_CACHE_DIR
  {
    var p := CachePathForDate(d);
    var n := |HISTORY_PREFIX|;
    assert p[10] == '/' && p[11] == 't';
    assert forall i :: 10 < i < |p| ==> p[i] != '/' by {
      forall i | 10 < i < |p| ensures p[i] != '/' {
        if i >= n && i < n + |d| {
          assert p[i] == d[i - n];
        }
      }
    }
    assert LastIndexOf(p, '/') == 10;
    assert p[|p| - 4] == '.';
    assert LastIndexOf(p, '.') == |p| - 4;
    assert p[|p| - 4..] == HISTORY_SUFFIX;
    assert p[..11] == TTFL_CACHE_DIR + "/";
    assert NormDir(TTFL_CACHE_DIR + "/") == TTFL_CACHE_DIR by {
      assert !AllSlashes(TTFL_CACHE_DIR + "/") by { assert (TTFL_CACHE_DIR + "/")[0] != '/'; }
      assert RStripSlashes(TTFL_CACHE_DIR + "/") == RStripSlashes(TTFL_CACHE_DIR);
    }
  }

  /** The save of a refresh can only be blocked by a directory bearing the
      file's own name: once cache/ttfl exists, a date without a slash is
      always saved. */
  lemma RefreshSaveSucceeds(files: map<string, Artifact<HistoryTable>>, dirs: set<string>, d: string)
    requires forall k :: 0 <= k < |d| ==> d[k] != '/'
    requires DirChain(TTFL_CACHE_DIR) !! files.Keys
    requires CachePathForDate(d) !in dirs
    ensures SaveSucceeds(files - HistoryFiles(files), dirs + DirChain(TTFL_CACHE_DIR), CachePathForDate(d))
  {
    var p := CachePathForDate(d);
    CachePathShape(d);
    FileNameIsNormal(p);
    CachePathNotInCacheDirChain(d);
    SaveWithExtensionSucceeds(files - HistoryFiles(files), dirs + DirChain(TTFL_CACHE_DIR), p);
  }

  /** After a successful refresh the file for the date is the only history
      file left. */
  lemma RefreshLeavesSingleFile(old_files: map<string, Artifact<HistoryTable>>, d: string, t: HistoryTable, p: string)
    requires p in (old_files - HistoryFiles(old_files))[CachePathForDate(d) := Artifact.Table(t)]
    requires IsHistoryPath(p)
    ensures p == CachePathForDate(d)
  {
  }
}
