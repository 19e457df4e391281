/** The part of an HTML page that the two table readers look at, after the
    markup has been parsed: tables with their id attribute, each made of
    sections (thead, tbody, tfoot, or rows placed directly in the table), each
    section a list of rows, each row a list of th/td cells. A cell carries the
    text BeautifulSoup's get_text(strip=True) gives for it; markup parsing
    itself is not part of this model. */
module Html {
  import opened Common

  datatype Cell = Cell(isHeader: bool, text: string)

  type Row = seq<Cell>

  datatype SectionKind = THead | TBody | TFoot | Bare

  datatype Section = Section(kind: SectionKind, rows: seq<Row>)

  datatype Table = Table(id: string, sections: seq<Section>)

  datatype Document = Document(tables: seq<Table>)

  /** BeautifulSoup's find(): the first element that matches, in document
      order. */
  function FindFirst<T>(xs: seq<T>, matches: T -> bool): (r: Option<T>)
    ensures r.None? <==> forall i :: 0 <= i < |xs| ==> !matches(xs[i])
    ensures r.Some? ==> exists i :: 0 <= i < |xs| && xs[i] == r.value && matches(xs[i])
                                    && forall j :: 0 <= j < i ==> !matches(xs[j])
  {
    if xs == [] then None
    else if matches(xs[0]) then Some(xs[0])
    else FindFirst(xs[1..], matches)
  }

  /** soup.find("table", id=...): the first table carrying that id. */
  function FindTable(tables: seq<Table>, id: string): (r: Option<Table>)
    ensures r.None? <==> forall i :: 0 <= i < |tables| ==> tables[i].id != id
    ensures r.Some? ==> r.value.id == id && r.value in tables
  {
    FindFirst(tables, (t: Table) => t.id == id)
  }

  /** table.find("thead") / table.find("tbody"): the first section of a kind. */
  function FindSection(sections: seq<Section>, kind: SectionKind): (r: Option<Section>)
    ensures r.None? <==> forall i :: 0 <= i < |sections| ==> sections[i].kind != kind
    ensures r.Some? ==> r.value.kind == kind && r.value in sections
  {
    FindFirst(sections, (s: Section) => s.kind == kind)
  }

  /** The texts of a row's cells, th and td alike, in order. */
  function CellTexts(row: Row): (r: seq<string>)
    ensures |r| == |row|
    ensures forall i :: 0 <= i < |row| ==> r[i] == row[i].text
  {
    seq(|row|, i requires 0 <= i < |row| => row[i].text)
  }

  /** The texts of the th cells of a list of rows, in document order. */
  function HeaderCellsOfRows(rows: seq<Row>): seq<string> {
    if rows == [] then []
    else HeaderTextsOfRow(rows[0]) + HeaderCellsOfRows(rows[1..])
  }

  function HeaderTextsOfRow(row: Row): seq<string> {
    if row == [] then []
    else (if row[0].isHeader then [row[0].text] else []) + HeaderTextsOfRow(row[1..])
  }

  /** table.find_all("th"): every header cell of the table, in document
      order, whichever section it sits in. */
  function AllHeaderTexts(sections: seq<Section>): seq<string> {
    if sections == [] then []
    else HeaderCellsOfRows(sections[0].rows) + AllHeaderTexts(sections[1..])
  }
}
