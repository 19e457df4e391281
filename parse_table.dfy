/** The generic reader of the history table (parse_ttfl_table.py): it finds
    the table whose id is MuTabme, takes its column headers from the first
    row of its thead, and turns every non-empty row of its tbody into a
    record mapping each header to the row's cell text, or to None where the
    cell is empty or missing. */
module ParseTable {
  import opened Common
  import opened Html

  /** The id of the table both readers look for. */
  const TABLE_ID := "MuTabme"

  datatype ParseError =
    | TableNotFound   // ValueError: no table with id MuTabme
    | NoHeaders       // ValueError: the thead gives no header cells

  /** A row as a Python dict from header to cell text (None for no text). */
  type Record = map<string, Option<string>>

  /** The headers: the cells of the first row of the first thead, or none. */
  function TableHeaders(t: Table): seq<string> {
    var thead := FindSection(t.sections, THead);
    if thead.Some? && |thead.value.rows| > 0 then CellTexts(thead.value.rows[0]) else []
  }

  /** The rows of the first tbody, or none when the table has no tbody. */
  function BodyRows(t: Table): seq<Row> {
    var tbody := FindSection(t.sections, TBody);
    if tbody.Some? then tbody.value.rows else []
  }

  /** `cell.get_text(strip=True) or None`. */
  function CellValue(text: string): Option<string> {
    if text == "" then None else Some(text)
  }

  /** The rows that have at least one cell, in their order. */
  function NonEmptyRows(rows: seq<Row>): (r: seq<Row>)
    ensures |r| <= |rows|
    ensures forall i :: 0 <= i < |r| ==> r[i] != [] && r[i] in rows
  {
    if rows == [] then []
    else
      var last := rows[|rows| - 1];
      var r0 := NonEmptyRows(rows[..|rows| - 1]);
      assert forall i :: 0 <= i < |r0| ==> r0[i] in rows;
      r0 + (if last == [] then [] else [last])
  }

  /** Exactly the rows with cells are kept, each as often as it occurs. */
  lemma {:induction false} NonEmptyRowsCounts(rows: seq<Row>, x: Row)
    ensures multiset(NonEmptyRows(rows))[x] == if x != [] then multiset(rows)[x] else 0
  {
    if rows != [] {
      var init, last := rows[..|rows| - 1], rows[|rows| - 1];
      NonEmptyRowsCounts(init, x);
      assert rows == init + [last];
      assert multiset(rows) == multiset(init) + multiset{last};
      assert NonEmptyRows(rows) == NonEmptyRows(init) + (if last == [] then [] else [last]);
    }
  }

  /** The last position at which h occurs in hs (-1 if nowhere). */
  function LastPosition(hs: seq<string>, h: string): (k: int)
    ensures -1 <= k < |hs|
    ensures k >= 0 <==> h in hs
    ensures k >= 0 ==> hs[k] == h
    ensures forall i :: k < i < |hs| ==> hs[i] != h
  {
    if hs == [] then -1
    else if hs[|hs| - 1] == h then |hs| - 1
    else LastPosition(hs[..|hs| - 1], h)
  }

  /** dict(zip(hs, vs)) for equally long lists: pairs are entered left to
      right, so a later pair overwrites an earlier one with the same key. */
  function ZipDict(hs: seq<string>, vs: seq<Option<string>>): Record
    requires |hs| == |vs|
  {
    if hs == [] then map[]
    else ZipDict(hs[..|hs| - 1], vs[..|vs| - 1])[hs[|hs| - 1] := vs[|vs| - 1]]
  }

  /** Row values fitted to n columns: cut after n, padded with None. */
  function Fit(vals: seq<Option<string>>, n: nat): (r: seq<Option<string>>)
    ensures |r| == n
  {
    seq(n, i requires 0 <= i < n => if i < |vals| then vals[i] else None)
  }

  function RowValues(row: Row): (r: seq<Option<string>>)
    ensures |r| == |row|
  {
    seq(|row|, i requires 0 <= i < |row| => CellValue(row[i].text))
  }

  /** The record one row becomes. */
  function RowRecord(headers: seq<string>, row: Row): Record {
    ZipDict(headers, Fit(RowValues(row), |headers|))
  }

  /** The records of the non-empty rows, in order. */
  function Records(headers: seq<string>, rows: seq<Row>): (r: seq<Record>)
    ensures |r| == |NonEmptyRows(rows)|
    ensures forall i :: 0 <= i < |r| ==> r[i] == RowRecord(headers, NonEmptyRows(rows)[i])
  {
    if rows == [] then []
    else
      var last := rows[|rows| - 1];
      Records(headers, rows[..|rows| - 1]) + (if last == [] then [] else [RowRecord(headers, last)])
  }

  /** parse_table: the two error cases, then one record per non-empty body
      row, in order, built by padding the row's values with None up to the
      header count and zipping them with the headers. */
  method ParseMuTabme(doc: Document) returns (r: Result<seq<Record>, ParseError>)
    ensures r.Err? && r.error == TableNotFound <==> FindTable(doc.tables, TABLE_ID).None?
    ensures r.Err? && r.error == NoHeaders <==>
      FindTable(doc.tables, TABLE_ID).Some? && TableHeaders(FindTable(doc.tables, TABLE_ID).value) == []
    ensures r.Ok? ==>
      var t := FindTable(doc.tables, TABLE_ID).value;
      var rows := NonEmptyRows(BodyRows(t));
      && |r.value| == |rows|
      && forall i :: 0 <= i < |rows| ==> r.value[i] == RowRecord(TableHeaders(t), rows[i])
    ensures r.Ok? && FindSection(FindTable(doc.tables, TABLE_ID).value.sections, TBody).None? ==> r.value == []
  {
    var found := FindTable(doc.tables, TABLE_ID);
    if found.None? {
      return Err(TableNotFound);
    }
    var table := found.value;
    var headers: seq<string> := [];
    var thead := FindSection(table.sections, THead);
    if thead.Some? && |thead.value.rows| > 0 {
      headers := CellTexts(thead.value.rows[0]);
    }
    if headers == [] {
      return Err(NoHeaders);
    }
    var records: seq<Record> := [];
    var tbody := FindSection(table.sections, TBody);
    if tbody.Some? {
      var trs := tbody.value.rows;
      for k := 0 to |trs|
        invariant records == Records(headers, trs[..k])
      {
        assert trs[..k + 1][..k] == trs[..k];
        var cells := trs[k];
        if cells != [] {
          var rowData := PadRow(cells, |headers|);
          records := records + [ZipDict(headers, rowData[..|headers|])];
        }
      }
      assert trs[..|trs|] == trs;
    }
    return Ok(records);
  }

  /** The row's values, padded with None up to n; zip then cuts them at n. */
  method PadRow(cells: Row, n: nat) returns (rowData: seq<Option<string>>)
    ensures |rowData| >= n
    ensures rowData[..n] == Fit(RowValues(cells), n)
  {
    rowData := RowValues(cells);
    while |rowData| < n
      invariant |cells| <= |rowData| <= if |cells| < n then n else |cells|
      invariant forall i :: 0 <= i < |rowData| ==>
        rowData[i] == if i < |cells| then CellValue(cells[i].text) else None
    {
      rowData := rowData + [None];
    }
  }

  // -----------------------------------------------------------------------
  // What a record holds

  lemma {:induction false} ZipDictKeys(hs: seq<string>, vs: seq<Option<string>>)
    requires |hs| == |vs|
    ensures forall x :: x in ZipDict(hs, vs) <==> x in hs
  {
    if hs != [] {
      var n := |hs| - 1;
      ZipDictKeys(hs[..n], vs[..n]);
      assert hs == hs[..n] + [hs[n]];
    }
  }

  lemma {:induction false} ZipDictValue(hs: seq<string>, vs: seq<Option<string>>, h: string)
    requires |hs| == |vs| && h in hs
    ensures h in ZipDict(hs, vs) && ZipDict(hs, vs)[h] == vs[LastPosition(hs, h)]
  {
    var n := |hs| - 1;
    if hs[n] != h {
      assert hs == hs[..n] + [hs[n]];
      ZipDictValue(hs[..n], vs[..n], h);
    }
  }

  /** Every record has exactly the distinct headers as keys, and a header
      that occurs more than once takes the value of its LAST column. That
      value is the cell's text, None for an empty cell, and None for a
      column the row is too short to reach; cells beyond the last header
      are dropped. */
  lemma RecordFields(headers: seq<string>, row: Row, h: string)
    ensures h in RowRecord(headers, row) <==> h in headers
    ensures h in headers ==>
      var k := LastPosition(headers, h);
      RowRecord(headers, row)[h] ==
        if k < |row| && row[k].text != "" then Some(row[k].text) else None
  {
    ZipDictKeys(headers, Fit(RowValues(row), |headers|));
    if h in headers {
      ZipDictValue(headers, Fit(RowValues(row), |headers|), h);
    }
  }

  /** Rows without cells are skipped; every other body row gives one record,
      in the body's order. */
  lemma {:induction false} NonEmptyRowsCount(rows: seq<Row>)
    ensures |NonEmptyRows(rows)| == |rows| - |set i | 0 <= i < |rows| && rows[i] == []|
  {
    if rows != [] {
      var n := |rows| - 1;
      NonEmptyRowsCount(rows[..n]);
      var e0 := set i | 0 <= i < n && rows[..n][i] == [];
      var e := set i | 0 <= i < |rows| && rows[i] == [];
      if rows[n] == [] {
        assert e == e0 + {n};
      } else {
        assert e == e0;
      }
    }
  }
}
