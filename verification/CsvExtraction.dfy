/** Extraction of the cells of a CSV table below its header row. */
module CsvExtraction {
  import opened Wrappers
  import opened Csv
  import Texts
  import Values

  const U32_MAX := 0xffff_ffff

  /** A non-empty cell under its trimmed header; the subject of the source is named after `row`. */
  datatype Cell = Cell(key: string, value: string, normalized: Values.KnowledgeValue, row: nat, column: nat)

  predicate IsBlank(header: string) { Texts.Trim(header) == "" }

  predicate HasBlank(headers: Record) { headers == [] || exists i :: 0 <= i < |headers| && IsBlank(headers[i]) }

  /** One cell: nothing when it is empty. */
  function CellOf(header: string, value: string, row: nat, column: nat): (r: Result<seq<Cell>>)
    ensures r.Ok? ==> |r.value| == if value == "" then 0 else 1
  {
    if value == "" then Ok([])
    else if row > U32_MAX || column > U32_MAX then Err(MalformedInput)
    else match Values.Normalize(value)
      case Err(e) => Err(e)
      case Ok(normalized) => Ok([Cell(Texts.Trim(header), value, normalized, row, column)])
  }

  /** The cells of a record up to a column. */
  function CellsOf(headers: Record, record: Record, row: nat, columns: nat): Result<seq<Cell>>
    requires columns <= |headers| == |record|
  {
    if columns == 0 then Ok([])
    else match CellsOf(headers, record, row, columns - 1)
      case Err(e) => Err(e)
      case Ok(cells) =>
        match CellOf(headers[columns - 1], record[columns - 1], row, columns - 1)
        case Err(e) => Err(e)
        case Ok(cell) => Ok(cells + cell)
  }

  /** The cells of the records up to a row, the header row excluded. */
  function CellsBefore(records: seq<Record>, rows: nat): Result<seq<Cell>>
    requires 1 <= rows <= |records|
  {
    if rows == 1 then Ok([])
    else match CellsBefore(records, rows - 1)
      case Err(e) => Err(e)
      case Ok(cells) =>
        if |records[rows - 1]| != |records[0]| then Err(MalformedInput)
        else match CellsOf(records[0], records[rows - 1], rows - 1, |records[0]|)
          case Err(e) => Err(e)
          case Ok(more) => Ok(cells + more)
  }

  function Extracted(text: string): Result<seq<Cell>> {
    match Parsed(text)
    case Err(e) => Err(e)
    case Ok(records) =>
      if records == [] then Ok([])
      else if HasBlank(records[0]) then Err(MalformedInput)
      else CellsBefore(records, |records|)
  }

  /** The columns of one row in order, skipping empty cells. */
  method ExtractRow(headers: Record, record: Record, row: nat) returns (r: Result<seq<Cell>>)
    requires |record| == |headers|
    ensures r == CellsOf(headers, record, row, |headers|)
  {
    hide CellOf;
    var cells: seq<Cell> := [];
    for column := 0 to |headers|
      invariant CellsOf(headers, record, row, column) == Ok(cells)
    {
      var cell := CellOf(headers[column], record[column], row, column);
      if cell.Err? {
        RefusedCell(headers, record, row, column + 1, cell.error);
        return Err(cell.error);
      }
      cells := cells + cell.value;
    }
    r := Ok(cells);
  }

  /** The extractor: the rows below the header in order, each as wide as the header. */
  method ExtractCsv(text: string) returns (r: Result<seq<Cell>>)
    ensures r == Extracted(text)
  {
    hide Parsed, CellsOf, HasBlank;
    var parsed := ParseCsv(text);
    if parsed.Err? { return Err(parsed.error); }
    var records := parsed.value;
    if records == [] { return Ok([]); }
    var headers := records[0];
    if HasBlank(headers) { return Err(MalformedInput); }
    var cells: seq<Cell> := [];
    for row := 1 to |records|
      invariant CellsBefore(records, row) == Ok(cells)
    {
      if |records[row]| != |headers| {
        RefusedBefore(records, row + 1, MalformedInput);
        return Err(MalformedInput);
      }
      var more := ExtractRow(headers, records[row], row);
      if more.Err? {
        RefusedBefore(records, row + 1, more.error);
        return Err(more.error);
      }
      cells := cells + more.value;
    }
    r := Ok(cells);
  }

  /** The first refusal is the refusal of the whole. */
  lemma {:induction false} RefusedCell(headers: Record, record: Record, row: nat, columns: nat, e: Error)
    requires columns <= |headers| == |record| && CellsOf(headers, record, row, columns) == Err(e)
    ensures CellsOf(headers, record, row, |headers|) == Err(e)
    decreases |headers| - columns
  {
    if columns < |headers| { RefusedCell(headers, record, row, columns + 1, e); }
  }

  lemma {:induction false} RefusedBefore(records: seq<Record>, rows: nat, e: Error)
    requires 1 <= rows <= |records| && CellsBefore(records, rows) == Err(e)
    ensures CellsBefore(records, |records|) == Err(e)
    decreases |records| - rows
  {
    if rows < |records| { RefusedBefore(records, rows + 1, e); }
  }

  // ---- What is extracted ----

  predicate Precedes(c: Cell, d: Cell) { c.row < d.row || (c.row == d.row && c.column < d.column) }

  ghost predicate InOrder(cells: seq<Cell>) { forall i, j :: 0 <= i < j < |cells| ==> Precedes(cells[i], cells[j]) }

  predicate IsCellOf(records: seq<Record>, c: Cell)
    requires records != []
  {
    && 0 < c.row < |records| && c.column < |records[0]| && c.column < |records[c.row]|
    && c.value == records[c.row][c.column] && c.value != "" && c.key == Texts.Trim(records[0][c.column])
    && Values.Normalize(c.value) == Ok(c.normalized)
  }

  /** Nothing about a cell stops its extraction. */
  predicate IsExtractable(value: string, row: nat, column: nat) {
    value == "" || (row < 0x1_0000_0000 && column < 0x1_0000_0000 && Values.Normalize(value).Ok?)
  }

  /** The rows below the header, up to a row, have its width and extractable cells. */
  ghost predicate RowsExtractable(records: seq<Record>, rows: nat)
    requires 1 <= rows <= |records|
  {
    && (forall i :: 1 <= i < rows ==> |records[i]| == |records[0]|)
    && forall i, j :: 1 <= i < rows && 0 <= j < |records[i]| ==> IsExtractable(records[i][j], i, j)
  }

  lemma {:induction false} RowExactly(records: seq<Record>, row: nat, columns: nat)
    requires records != [] && 0 < row < |records| && columns <= |records[0]| == |records[row]|
    ensures var r := CellsOf(records[0], records[row], row, columns);
      && (r.Ok? <==> forall j :: 0 <= j < columns ==> IsExtractable(records[row][j], row, j))
      && (r.Ok? ==> InOrder(r.value) && forall c :: c in r.value <==>
         c.row == row && c.column < columns && IsCellOf(records, c))
  {
    hide Values.Normalize, Texts.Trim;
    if columns > 0 {
      RowExactly(records, row, columns - 1);
    }
  }

  lemma {:induction false} RowsExactly(records: seq<Record>, rows: nat)
    requires 1 <= rows <= |records|
    ensures var r := CellsBefore(records, rows);
      && (r.Ok? <==> RowsExtractable(records, rows))
      && (r.Ok? ==> InOrder(r.value) && forall c :: c in r.value <==> c.row < rows && IsCellOf(records, c))
  {
    hide Values.Normalize, Texts.Trim, CellsOf, IsExtractable;
    if rows > 1 {
      RowsExactly(records, rows - 1);
      if |records[rows - 1]| == |records[0]| {
        RowExactly(records, rows - 1, |records[0]|);
      }
    }
  }

  /** Every header is more than whitespace. */
  ghost predicate HeadersNamed(headers: Record) {
    headers != [] && forall i :: 0 <= i < |headers| ==> Texts.Trim(headers[i]) != ""
  }

  /** Extraction succeeds exactly on tables without blank headers whose rows are extractable, and
      then lists exactly the non-empty cells below the header, once each, by row and column. */
  lemma CellsExactly(text: string, records: seq<Record>)
    requires Parsed(text) == Ok(records) && records != []
    ensures Extracted(text).Ok? <==> HeadersNamed(records[0]) && RowsExtractable(records, |records|)
    ensures Extracted(text).Ok? ==> InOrder(Extracted(text).value) && forall c :: c in Extracted(text).value <==>
      IsCellOf(records, c)
    ensures !HeadersNamed(records[0]) ==> Extracted(text) == Err(MalformedInput)
  {
    hide Parsed, CellsBefore, RowsExtractable, InOrder, Values.Normalize, Texts.Trim;
    RowsExactly(records, |records|);
  }

  /** Without records there are no cells, and what cannot be read as records is refused. */
  lemma NoTable(text: string)
    ensures Parsed(text) == Ok([]) ==> Extracted(text) == Ok([])
    ensures Parsed(text).Err? ==> Extracted(text) == Err(MalformedInput)
  {
    FailsOnOddQuotes(text);
    hide Parsed;
  }

  /** The cells lose nothing below the header: tables of as many rows under one header that give the
      same cells are the same. */
  lemma CellsDetermineTable(s: string, t: string, a: seq<Record>, b: seq<Record>)
    requires Parsed(s) == Ok(a) && Parsed(t) == Ok(b) && a != [] && |a| == |b| && a[0] == b[0]
    requires Extracted(s).Ok? && Extracted(s) == Extracted(t)
    ensures a == b
  {
    CellsExactly(s, a);
    CellsExactly(t, b);
    hide Parsed, Extracted, Values.Normalize, Texts.Trim;
    forall i, j | 1 <= i < |a| && 0 <= j < |a[0]|
      ensures a[i][j] == b[i][j]
    {
      SameCell(a, b, i, j);
      SameCell(b, a, i, j);
    }
    forall i | 0 <= i < |a|
      ensures a[i] == b[i]
    {
    }
  }

  lemma SameCell(a: seq<Record>, b: seq<Record>, i: nat, j: nat)
    requires 1 <= i < |a| == |b| && j < |a[0]| == |a[i]| && |b[0]| == |b[i]| == |a[0]|
    requires IsExtractable(a[i][j], i, j)
    requires forall c :: IsCellOf(a, c) ==> IsCellOf(b, c)
    ensures a[i][j] != "" ==> b[i][j] == a[i][j]
  {
    hide Values.Normalize, Texts.Trim;
    if a[i][j] != "" {
      assert IsCellOf(a, Cell(Texts.Trim(a[0][j]), a[i][j], Values.Normalize(a[i][j]).value, i, j));
    }
  }
}
