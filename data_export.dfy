/**
 * The string and matrix builders of the export hook: the CSV text, the spreadsheet
 * matrix, the PDF table description and the printable HTML document, together with
 * readers that parse those strings back, so that what the builders promise can be
 * stated as round trips.
 */
module DataExport {
  import opened Wrappers
  import opened Seqs
  import opened JsValues

  /** `{ headers, data }`: one header per column and one row of cell texts per record. */
  datatype ExportData = ExportData(headers: seq<string>, data: seq<seq<string>>)

  /** A file the browser is asked to save. */
  datatype Download = Download(filename: string, content: string)

  /** The workbook handed to the spreadsheet writer. */
  datatype Workbook = Workbook(filename: string, sheetName: string, matrix: seq<seq<string>>)

  /** The document handed to the PDF writer: an optional heading and one table. */
  datatype PdfDocument = PdfDocument(filename: string, heading: Option<string>, head: seq<string>,
                                     body: seq<seq<string>>, startY: int)

  /** A parameter with default value `'export'`: it applies only when the argument is omitted. */
  function FilenameOrDefault(filename: Option<string>): string
  {
    filename.GetOr("export")
  }

  /** `"${cell}"`: the cell between double quotes, inserted verbatim. */
  function QuoteCell(cell: string): string
  {
    "\"" + cell + "\""
  }

  function QuoteAll(row: seq<string>): (r: seq<string>)
    ensures |r| == |row|
    ensures forall j :: 0 <= j < |row| ==> r[j] == QuoteCell(row[j])
  {
    seq(|row|, j requires 0 <= j < |row| => QuoteCell(row[j]))
  }

  /** `headers.join(',')`, with no quoting. */
  function HeaderLine(headers: seq<string>): string
  {
    Join(",", headers)
  }

  /** `row.map(cell => `"${cell}"`).join(',')` */
  function RowLine(row: seq<string>): string
  {
    Join(",", QuoteAll(row))
  }

  function RowLines(rows: seq<seq<string>>): (r: seq<string>)
    ensures |r| == |rows|
    ensures forall i :: 0 <= i < |rows| ==> r[i] == RowLine(rows[i])
  {
    seq(|rows|, i requires 0 <= i < |rows| => RowLine(rows[i]))
  }

  /** The text of `exportToCSV`: the header line, then one line per row, joined by `'\n'`. */
  function CsvContent(d: ExportData): string
  {
    Join("\n", [HeaderLine(d.headers)] + RowLines(d.data))
  }

  /** `exportToCSV(data, filename)`: the download it triggers. */
  function ExportToCsv(d: ExportData, filename: Option<string>): (r: Download)
    ensures r.filename == FilenameOrDefault(filename) + ".csv"
    ensures r.content == CsvContent(d)
  {
    Download(FilenameOrDefault(filename) + ".csv", CsvContent(d))
  }

  /** `exportToExcel(data, filename)`: one sheet whose first row holds the headers. */
  function ExportToExcel(d: ExportData, filename: Option<string>): (r: Workbook)
    ensures r.filename == FilenameOrDefault(filename) + ".xlsx" && r.sheetName == "Sheet1"
    ensures |r.matrix| == 1 + |d.data| && r.matrix[0] == d.headers && r.matrix[1..] == d.data
  {
    Workbook(FilenameOrDefault(filename) + ".xlsx", "Sheet1", [d.headers] + d.data)
  }

  /** A `title?: string` argument that is present and not empty. */
  predicate HasTitle(title: Option<string>)
  {
    title.Some? && title.value != ""
  }

  /** `exportToPDF(data, filename, title)`: the heading is drawn, and the table moved down, only for a non-empty title. */
  function ExportToPdf(d: ExportData, filename: Option<string>, title: Option<string>): (r: PdfDocument)
    ensures r.filename == FilenameOrDefault(filename) + ".pdf"
    ensures r.heading.Some? <==> HasTitle(title)
    ensures r.startY == if HasTitle(title) then 30 else 20
    ensures r.head == d.headers && r.body == d.data
  {
    PdfDocument(FilenameOrDefault(filename) + ".pdf", if HasTitle(title) then title else None,
                d.headers, d.data, if HasTitle(title) then 30 else 20)
  }

  /** The CSV text has one line per row after the header line, as long as no text contains a line break. */
  lemma CsvLines(d: ExportData)
    requires forall j :: 0 <= j < |d.headers| ==> '\n' !in d.headers[j]
    requires forall i, j :: 0 <= i < |d.data| && 0 <= j < |d.data[i]| ==> '\n' !in d.data[i][j]
    ensures Split(CsvContent(d), '\n') == [HeaderLine(d.headers)] + RowLines(d.data)
    ensures |Split(CsvContent(d), '\n')| == 1 + |d.data|
  {
    var lines := [HeaderLine(d.headers)] + RowLines(d.data);
    JoinAvoids(",", d.headers, '\n');
    forall i | 0 <= i < |d.data| ensures '\n' !in RowLine(d.data[i]) {
      JoinAvoids(",", QuoteAll(d.data[i]), '\n');
    }
    SplitJoin(lines, '\n');
  }

  /** The header line splits back into the headers when no header contains a comma. */
  lemma HeaderLineFields(headers: seq<string>)
    requires |headers| >= 1
    requires forall j :: 0 <= j < |headers| ==> ',' !in headers[j]
    ensures Split(HeaderLine(headers), ',') == headers
  {
    SplitJoin(headers, ',');
  }

  // ----- Quoted fields as section 2 of RFC 4180 reads them -----

  /**
   * Reads the body of a quoted field up to its closing quote, turning each `""` into one
   * quote; returns the field text and what follows the closing quote.
   */
  function ReadQuotedBody(s: string): (r: Option<(string, string)>)
    ensures r.Some? ==> |r.value.1| < |s|
    decreases |s|
  {
    if s == [] then None
    else if s[0] == '"' then
      if |s| >= 2 && s[1] == '"' then
        match ReadQuotedBody(s[2..])
        case None => None
        case Some((f, rest)) => Some((['"'] + f, rest))
      else Some(("", s[1..]))
    else
      match ReadQuotedBody(s[1..])
      case None => None
      case Some((f, rest)) => Some(([s[0]] + f, rest))
  }

  /** Reads a line of quoted fields separated by commas, as section 2 of RFC 4180 defines them. */
  function ParseQuotedRecord(s: string): Option<seq<string>>
    decreases |s|
  {
    if s == [] || s[0] != '"' then None
    else
      match ReadQuotedBody(s[1..])
      case None => None
      case Some((f, rest)) =>
        if rest == [] then Some([f])
        else if rest[0] == ',' then
          match ParseQuotedRecord(rest[1..])
          case None => None
          case Some(more) => Some([f] + more)
        else None
  }

  /** Section 2 of RFC 4180: a quote inside a quoted field is written as two quotes. */
  function EscapeQuotes(cell: string): (r: string)
    ensures '"' !in cell ==> r == cell
  {
    if cell == [] then []
    else if cell[0] == '"' then "\"\"" + EscapeQuotes(cell[1..])
    else [cell[0]] + EscapeQuotes(cell[1..])
  }

  /** A field as section 2 of RFC 4180 quotes it. */
  function Rfc4180Cell(cell: string): string
  {
    "\"" + EscapeQuotes(cell) + "\""
  }

  /** An ordinary character is copied into the field. */
  lemma ReadBodyChar(c: char, y: string, f: string, rest: string)
    requires c != '"' && ReadQuotedBody(y) == Some((f, rest))
    ensures ReadQuotedBody([c] + y) == Some(([c] + f, rest))
  {
    assert ([c] + y)[1..] == y;
  }

  /** A doubled quote becomes one quote of the field. */
  lemma ReadBodyQuotePair(y: string, f: string, rest: string)
    requires ReadQuotedBody(y) == Some((f, rest))
    ensures ReadQuotedBody("\"\"" + y) == Some((['"'] + f, rest))
  {
    assert ("\"\"" + y)[2..] == y;
  }

  /** A quote not followed by another closes the field. */
  lemma ReadBodyClose(tail: string)
    requires tail == [] || tail[0] != '"'
    ensures ReadQuotedBody("\"" + tail) == Some(("", tail))
  {
    assert ("\"" + tail)[1..] == tail;
  }

  /** Reading goes past an escaped leading quote of the cell. */
  lemma EscapedQuoteStep(cell: string, tail: string)
    requires cell != [] && cell[0] == '"'
    requires ReadQuotedBody(EscapeQuotes(cell[1..]) + "\"" + tail) == Some((cell[1..], tail))
    ensures ReadQuotedBody(EscapeQuotes(cell) + "\"" + tail) == Some((cell, tail))
  {
    var y := EscapeQuotes(cell[1..]) + "\"" + tail;
    assert EscapeQuotes(cell) + "\"" + tail == "\"\"" + y;
    ReadBodyQuotePair(y, cell[1..], tail);
    assert ['"'] + cell[1..] == cell;
  }

  /** Reading goes past an ordinary leading character of the cell. */
  lemma EscapedCharStep(cell: string, tail: string)
    requires cell != [] && cell[0] != '"'
    requires ReadQuotedBody(EscapeQuotes(cell[1..]) + "\"" + tail) == Some((cell[1..], tail))
    ensures ReadQuotedBody(EscapeQuotes(cell) + "\"" + tail) == Some((cell, tail))
  {
    var y := EscapeQuotes(cell[1..]) + "\"" + tail;
    assert EscapeQuotes(cell) + "\"" + tail == [cell[0]] + y;
    ReadBodyChar(cell[0], y, cell[1..], tail);
    assert [cell[0]] + cell[1..] == cell;
  }

  lemma {:induction false} ReadEscaped(cell: string, tail: string)
    requires tail == [] || tail[0] != '"'
    ensures ReadQuotedBody(EscapeQuotes(cell) + "\"" + tail) == Some((cell, tail))
  {
    if cell == [] {
      assert EscapeQuotes(cell) + "\"" + tail == "\"" + tail;
      ReadBodyClose(tail);
    } else {
      ReadEscaped(cell[1..], tail);
      if cell[0] == '"' {
        EscapedQuoteStep(cell, tail);
      } else {
        EscapedCharStep(cell, tail);
      }
    }
  }

  /** A quoted field alone is a record of one field. */
  lemma ParseLastField(cell: string)
    ensures ParseQuotedRecord(Rfc4180Cell(cell)) == Some([cell])
  {
    var s := Rfc4180Cell(cell);
    assert s[1..] == EscapeQuotes(cell) + "\"" + "";
    ReadEscaped(cell, "");
  }

  /** A quoted field and a comma put the field in front of the record that follows. */
  lemma ParseNextField(cell: string, rest: string, more: seq<string>)
    requires ParseQuotedRecord(rest) == Some(more)
    ensures ParseQuotedRecord(Rfc4180Cell(cell) + "," + rest) == Some([cell] + more)
  {
    var s := Rfc4180Cell(cell) + "," + rest;
    var after := "," + rest;
    assert s[1..] == EscapeQuotes(cell) + "\"" + after;
    ReadEscaped(cell, after);
    assert after[1..] == rest;
  }

  lemma {:induction false} ParseRfc4180Line(row: seq<string>)
    requires |row| >= 1
    ensures ParseQuotedRecord(Join(",", seq(|row|, j requires 0 <= j < |row| => Rfc4180Cell(row[j])))) == Some(row)
  {
    var fields := seq(|row|, j requires 0 <= j < |row| => Rfc4180Cell(row[j]));
    if |row| == 1 {
      assert Join(",", fields) == Rfc4180Cell(row[0]);
      ParseLastField(row[0]);
      assert [row[0]] == row;
    } else {
      var restFields := seq(|row| - 1, j requires 0 <= j < |row| - 1 => Rfc4180Cell(row[1..][j]));
      assert fields[1..] == restFields;
      ParseRfc4180Line(row[1..]);
      assert Join(",", fields) == Rfc4180Cell(row[0]) + "," + Join(",", restFields);
      ParseNextField(row[0], Join(",", restFields), row[1..]);
      assert [row[0]] + row[1..] == row;
    }
  }

  /** The line the code writes reads back as the row when no cell contains a quote. */
  lemma QuotedRowRoundTrip(row: seq<string>)
    requires |row| >= 1
    requires forall j :: 0 <= j < |row| ==> '"' !in row[j]
    ensures ParseQuotedRecord(RowLine(row)) == Some(row)
  {
    ParseRfc4180Line(row);
    assert QuoteAll(row) == seq(|row|, j requires 0 <= j < |row| => Rfc4180Cell(row[j]));
  }

  /** A cell holding a quote: the line the code writes does not read back as that cell. */
  lemma QuotedRowIsAmbiguous()
    ensures RowLine(["a\"b"]) == "\"a\"b\""
    ensures ParseQuotedRecord(RowLine(["a\"b"])) != Some(["a\"b"])
  {
    var q := QuoteAll(["a\"b"]);
    assert q[0] == QuoteCell("a\"b") == "\"a\"b\"";
    assert RowLine(["a\"b"]) == q[0];
    var s := "\"a\"b\"";
    assert s[1..] == "a\"b\"";
    assert "a\"b\""[1..] == "\"b\"";
    assert "\"b\""[1..] == "b\"";
    assert ReadQuotedBody("\"b\"") == Some(("", "b\""));
    assert ReadQuotedBody(s[1..]) == Some((['a'] + "", "b\""));
    assert "b\""[0] != ',';
  }

  /** With quotes doubled, every row reads back exactly. */
  lemma Rfc4180RowRoundTrip(row: seq<string>)
    requires |row| >= 1
    ensures ParseQuotedRecord(Join(",", seq(|row|, j requires 0 <= j < |row| => Rfc4180Cell(row[j])))) == Some(row)
  {
    ParseRfc4180Line(row);
  }

  // ----- The print document -----

  /** `<tag>text</tag>` */
  function Element(tag: string, text: string): string
  {
    "<" + tag + ">" + text + "</" + tag + ">"
  }

  /** `items.map(x => `<tag>${x}</tag>`).join('')`: the text is inserted unescaped. */
  function Elements(tag: string, items: seq<string>): string
  {
    if items == [] then "" else Element(tag, items[0]) + Elements(tag, items[1..])
  }

  /** `<tr>` with one `<td>` per cell. */
  function TableRow(row: seq<string>): string
  {
    "<tr>" + Elements("td", row) + "</tr>"
  }

  function TableRows(rows: seq<seq<string>>): string
  {
    if rows == [] then "" else TableRow(rows[0]) + TableRows(rows[1..])
  }

  /** `${title || 'Print Data'}` */
  function DocumentTitle(title: Option<string>): (r: string)
    ensures HasTitle(title) ==> r == title.value
    ensures !HasTitle(title) ==> r == "Print Data"
  {
    if HasTitle(title) then title.value else "Print Data"
  }

  /** `${title ? `<h1>${title}</h1>` : ''}` */
  function Heading(title: Option<string>): (r: string)
    ensures HasTitle(title) ==> r == Element("h1", title.value)
    ensures !HasTitle(title) ==> r == ""
  {
    if HasTitle(title) then Element("h1", title.value) else ""
  }

  const PrintStyle: string :=
    "<style>body { font-family: Arial, sans-serif; margin: 20px; }"
    + " h1 { color: #333; margin-bottom: 20px; }"
    + " table { width: 100%; border-collapse: collapse; margin-top: 20px; }"
    + " th, td { border: 1px solid #ddd; padding: 8px; text-align: left; }"
    + " th { background-color: #f8f9fa; font-weight: bold; }"
    + " tr:nth-child(even) { background-color: #f8f9fa; }"
    + " @media print { body { margin: 0; } .no-print { display: none; } }</style>"

  const PrintScript: string :=
    "<script>window.onload = function() { window.print(); window.onafterprint = function() { window.close(); }; };</script>"

  const TableOpen: string := "<table><thead><tr>"
  const HeadClose: string := "</tr></thead><tbody>"
  const TableClose: string := "</tbody></table>"

  /** The body's table: the header row, then one row per record. */
  function PrintTable(d: ExportData): string
  {
    TableOpen + Elements("th", d.headers) + HeadClose + TableRows(d.data) + TableClose
  }

  /** The document `printData` writes into the new window. */
  function PrintDocument(d: ExportData, title: Option<string>): string
  {
    "<!DOCTYPE html><html><head><title>" + DocumentTitle(title) + "</title>" + PrintStyle + "</head><body>"
    + Heading(title) + PrintTable(d) + PrintScript + "</body></html>"
  }

  /** `printData(data, title)`: nothing is written when no window could be opened. */
  function PrintData(d: ExportData, title: Option<string>, windowOpened: bool): (r: Option<string>)
    ensures !windowOpened ==> r == None
    ensures windowOpened ==> r == Some(PrintDocument(d, title))
  {
    if windowOpened then Some(PrintDocument(d, title)) else None
  }

  // ----- Reading the table markup back -----

  /** The longest prefix without a `<`. */
  function TextRun(s: string): (r: string)
    ensures |r| <= |s| && r == s[..|r|]
    ensures '<' !in r
    ensures |r| < |s| ==> s[|r|] == '<'
  {
    if s == [] || s[0] == '<' then "" else [s[0]] + TextRun(s[1..])
  }

  /** Reads one `<tag>text</tag>` element: its text and what follows it. */
  function ReadElement(tag: string, s: string): (r: Option<(string, string)>)
    ensures r.Some? ==> |r.value.1| < |s|
  {
    var open := "<" + tag + ">";
    var close := "</" + tag + ">";
    if StartsWith(s, open) then
      var text := TextRun(s[|open|..]);
      var after := s[|open| + |text|..];
      if StartsWith(after, close) then Some((text, after[|close|..])) else None
    else None
  }

  /** Reads as many `<tag>text</tag>` elements as follow, returning their texts and the rest. */
  function ReadElements(tag: string, s: string): (r: (seq<string>, string))
    ensures |r.1| <= |s|
    decreases |s|
  {
    match ReadElement(tag, s)
    case None => ([], s)
    case Some((text, after)) =>
      var more := ReadElements(tag, after);
      ([text] + more.0, more.1)
  }

  /** Reads as many `<tr>...</tr>` rows of `<td>` cells as follow. */
  function ReadRows(s: string): (r: (seq<seq<string>>, string))
    ensures |r.1| <= |s|
    decreases |s|
  {
    if StartsWith(s, "<tr>") then
      var cells := ReadElements("td", s[4..]);
      if StartsWith(cells.1, "</tr>") then
        var more := ReadRows(cells.1[5..]);
        ([cells.0] + more.0, more.1)
      else ([], s)
    else ([], s)
  }

  lemma {:induction false} TextRunStops(text: string, tail: string)
    requires '<' !in text
    requires tail == [] || tail[0] == '<'
    ensures TextRun(text + tail) == text
  {
    if text == [] {
      assert text + tail == tail;
    } else {
      assert (text + tail)[1..] == text[1..] + tail;
      TextRunStops(text[1..], tail);
    }
  }

  predicate NoMarkup(items: seq<string>)
  {
    forall j :: 0 <= j < |items| ==> '<' !in items[j]
  }

  /** One element reads back as its text, and reading goes on after it. */
  lemma ReadOneElement(tag: string, text: string, rest: string)
    requires tag != "" && '<' !in tag && '/' !in tag
    requires '<' !in text
    ensures ReadElements(tag, Element(tag, text) + rest) ==
      ([text] + ReadElements(tag, rest).0, ReadElements(tag, rest).1)
  {
    ReadElementText(tag, text, rest);
  }

  /** The element `<tag>text</tag>` yields its text, and reading resumes right after it. */
  lemma ReadElementText(tag: string, text: string, rest: string)
    requires '<' !in tag && '/' !in tag
    requires '<' !in text
    ensures ReadElement(tag, Element(tag, text) + rest) == Some((text, rest))
  {
    var open := "<" + tag + ">";
    var close := "</" + tag + ">";
    var body := text + (close + rest);
    var s := Element(tag, text) + rest;
    assert StartsWith(s, open) && s[|open|..] == body by {
      assert s == open + body;
      PrefixThenRest(open, body);
    }
    assert TextRun(s[|open|..]) == text by {
      TextRunStops(text, close + rest);
    }
    assert s[|open| + |text|..] == close + rest by {
      assert s[|open| + |text|..] == body[|text|..];
      PrefixThenRest(text, close + rest);
    }
    ReadElementOf(tag, s, text, rest);
  }

  /** The steps of reading one element, taken as given. */
  lemma ReadElementOf(tag: string, s: string, text: string, rest: string)
    requires StartsWith(s, "<" + tag + ">")
    requires TextRun(s[|"<" + tag + ">"|..]) == text
    requires s[|"<" + tag + ">"| + |text|..] == "</" + tag + ">" + rest
    ensures ReadElement(tag, s) == Some((text, rest))
  {
    PrefixThenRest("</" + tag + ">", rest);
  }

  /** A string starts with its first part, and slicing the first part off leaves the second. */
  lemma PrefixThenRest(a: string, b: string)
    ensures StartsWith(a + b, a) && (a + b)[|a|..] == b
  {
    assert (a + b)[..|a|] == a;
  }

  /** The elements read back as the texts written, and the reader stops where they end. */
  lemma {:induction false} ReadElementsBack(tag: string, items: seq<string>, tail: string)
    requires tag != "" && '<' !in tag && '/' !in tag
    requires NoMarkup(items)
    requires !StartsWith(tail, "<" + tag + ">")
    ensures ReadElements(tag, Elements(tag, items) + tail) == (items, tail)
  {
    if items == [] {
      assert Elements(tag, items) + tail == tail;
    } else {
      var rest := Elements(tag, items[1..]) + tail;
      assert Elements(tag, items) + tail == Element(tag, items[0]) + rest;
      ReadOneElement(tag, items[0], rest);
      ReadElementsBack(tag, items[1..], tail);
      assert [items[0]] + items[1..] == items;
    }
  }

  /** The header cells of the print table read back as the headers, one `<th>` each, in order. */
  lemma HeaderCellsRoundTrip(headers: seq<string>)
    requires NoMarkup(headers)
    ensures ReadElements("th", Elements("th", headers)) == (headers, "")
  {
    ReadElementsBack("th", headers, "");
    assert Elements("th", headers) + "" == Elements("th", headers);
  }

  /** One row reads back as its cells, and reading goes on after it. */
  lemma ReadOneRow(row: seq<string>, rest: string)
    requires NoMarkup(row)
    ensures ReadRows(TableRow(row) + rest) == ([row] + ReadRows(rest).0, ReadRows(rest).1)
  {
    var s := TableRow(row) + rest;
    var after := "</tr>" + rest;
    assert s == "<tr>" + (Elements("td", row) + after);
    assert StartsWith(s, "<tr>");
    assert s[4..] == Elements("td", row) + after;
    assert after[1] == '/' != "<td>"[1];
    ReadElementsBack("td", row, after);
    assert StartsWith(after, "</tr>");
    assert after[5..] == rest;
  }

  /** The body rows read back as the rows, one `<tr>` per row and one `<td>` per cell, in order. */
  lemma {:induction false} BodyRowsRoundTrip(rows: seq<seq<string>>, tail: string)
    requires forall i :: 0 <= i < |rows| ==> NoMarkup(rows[i])
    requires !StartsWith(tail, "<tr>")
    ensures ReadRows(TableRows(rows) + tail) == (rows, tail)
  {
    if rows == [] {
      assert TableRows(rows) + tail == tail;
    } else {
      var rest := TableRows(rows[1..]) + tail;
      assert TableRows(rows) + tail == TableRow(rows[0]) + rest;
      ReadOneRow(rows[0], rest);
      BodyRowsRoundTrip(rows[1..], tail);
      assert [rows[0]] + rows[1..] == rows;
    }
  }

  /**
   * The table of the print document: after its opening markup, the header row reads back
   * as the headers, and after the header row's closing markup the body reads back as the
   * rows, when no text contains markup.
   */
  lemma PrintTableReadsBack(d: ExportData)
    requires NoMarkup(d.headers)
    requires forall i :: 0 <= i < |d.data| ==> NoMarkup(d.data[i])
    ensures ReadElements("th", Elements("th", d.headers) + (HeadClose + (TableRows(d.data) + TableClose)))
         == (d.headers, HeadClose + (TableRows(d.data) + TableClose))
    ensures ReadRows(TableRows(d.data) + TableClose) == (d.data, TableClose)
  {
    var afterHead := HeadClose + (TableRows(d.data) + TableClose);
    ClosingTagIsNoOpening(afterHead);
    ReadElementsBack("th", d.headers, afterHead);
    ClosingTagIsNoOpening(TableClose);
    BodyRowsRoundTrip(d.data, TableClose);
  }

  /** Markup whose second character is the '/' of a closing tag does not begin with `<th>` or `<tr>`. */
  lemma ClosingTagIsNoOpening(s: string)
    requires |s| >= 2 && s[1] == '/'
    ensures !StartsWith(s, "<th>") && !StartsWith(s, "<tr>")
  {
    assert "<th>"[1] != '/' && "<tr>"[1] != '/';
  }
}
