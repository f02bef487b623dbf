/**
 * Exhibitor import and export (components/exhibitor-bulk-actions.tsx). The importer trims
 * the pasted text, splits it into lines and the first line into header names, refuses the
 * text when a required column is missing, and otherwise builds one record per further
 * line by position. The exporter writes 13 fixed columns with every cell in double quotes.
 * The importer removes no quotes, so it does not read the exporter's output back.
 */
module ExhibitorCsv {
  import opened Common
  import opened Text

  /**
   * An imported record: the object the component builds, with header name to trimmed cell in
   * `cells`, and the two keys the defaults overwrite afterwards (`is_active`, which becomes
   * a boolean, and `booth_number`) held apart.
   */
  datatype ImportedRecord = ImportedRecord(cells: map<string, string>, isActive: bool, boothNumber: string)

  const RequiredHeaders: seq<string> := ["company_name", "contact_email", "contact_phone"]

  /** The lines of the pasted text, after trimming it as a whole. */
  function ImportLines(csv: string): (lines: seq<string>)
    ensures |lines| >= 1
  {
    Split(Trim(csv), '\n')
  }

  /** `line.split(",").map(v => v.trim())`. */
  function CellsOf(line: string): (cells: seq<string>)
    ensures |cells| == |Split(line, ',')|
    ensures forall k :: 0 <= k < |cells| ==> cells[k] == Trim(Split(line, ',')[k])
  {
    var parts := Split(line, ',');
    seq(|parts|, k requires 0 <= k < |parts| => Trim(parts[k]))
  }

  /** The required names the header row lacks, in the order they are required. */
  function MissingHeaders(headers: seq<string>): (missing: seq<string>)
    ensures forall h :: h in missing <==> h in RequiredHeaders && h !in headers
  {
    Filter(RequiredHeaders, h => h !in headers)
  }

  /** `values[index] || ""`: the cell at a header's position, or "" past the end of the line. */
  function CellAt(values: seq<string>, k: nat): string
  {
    if k < |values| then values[k] else ""
  }

  /** The object after `headers.forEach`: each header set, in order, to the cell at its position. */
  function AssignHeaders(headers: seq<string>, values: seq<string>): map<string, string>
  {
    if headers == [] then map[]
    else
      var n := |headers| - 1;
      AssignHeaders(headers[..n], values)[headers[n] := CellAt(values, n)]
  }

  /** The object's keys are exactly the header names. */
  lemma {:induction false} AssignHeadersKeys(headers: seq<string>, values: seq<string>)
    ensures forall h :: h in AssignHeaders(headers, values) <==> h in headers
  {
    if headers != [] {
      var n := |headers| - 1;
      AssignHeadersKeys(headers[..n], values);
      assert headers == headers[..n] + [headers[n]];
    }
  }

  /** `"B" + String(i).padStart(3, "0")`. */
  function DefaultBooth(i: nat): string
  {
    "B" + PadStart(NatToString(i), 3, '0')
  }

  /** `exhibitor.is_active === "true" || exhibitor.is_active === "1" || true`. */
  function ActiveFlag(cells: map<string, string>): bool
  {
    ("is_active" in cells && cells["is_active"] == "true") ||
    ("is_active" in cells && cells["is_active"] == "1") || true
  }

  /** `exhibitor.booth_number || default`: an empty or absent booth number gets the line's default. */
  function BoothFor(cells: map<string, string>, i: nat): string
  {
    if "booth_number" in cells && cells["booth_number"] != "" then cells["booth_number"] else DefaultBooth(i)
  }

  /** The record built from line `i`. */
  function RecordFor(headers: seq<string>, line: string, i: nat): ImportedRecord
  {
    var cells := AssignHeaders(headers, CellsOf(line));
    ImportedRecord(cells, ActiveFlag(cells), BoothFor(cells, i))
  }

  /** The records the loop pushes: one per line after the header line, in order. */
  function ImportedRecords(lines: seq<string>, headers: seq<string>): (rs: seq<ImportedRecord>)
    requires |lines| >= 1
    ensures |rs| == |lines| - 1
  {
    seq(|lines| - 1, j requires 0 <= j < |lines| - 1 => RecordFor(headers, lines[j + 1], j + 1))
  }

  /** The `forEach` over the headers and the two defaults, as the component runs them for line `i`. */
  method BuildRecord(headers: seq<string>, line: string, i: nat) returns (rec: ImportedRecord)
    ensures rec == RecordFor(headers, line, i)
  {
    var values := CellsOf(line);
    var cells: map<string, string> := map[];
    for k := 0 to |headers|
      invariant cells == AssignHeaders(headers[..k], values)
    {
      assert headers[..k + 1][..k] == headers[..k];
      cells := cells[headers[k] := CellAt(values, k)];
    }
    assert headers[..|headers|] == headers;
    var active := ActiveFlag(cells);
    var booth := if "booth_number" in cells && cells["booth_number"] != "" then cells["booth_number"]
                 else DefaultBooth(i);
    rec := ImportedRecord(cells, active, booth);
  }

  /** The `for (let i = 1; i < lines.length; i++)` loop. */
  method BuildRecords(lines: seq<string>, headers: seq<string>) returns (records: seq<ImportedRecord>)
    requires |lines| >= 1
    ensures records == ImportedRecords(lines, headers)
  {
    records := [];
    for i := 1 to |lines|
      invariant |records| == i - 1
      invariant forall j :: 0 <= j < i - 1 ==> records[j] == RecordFor(headers, lines[j + 1], j + 1)
    {
      var rec := BuildRecord(headers, lines[i], i);
      records := records + [rec];
    }
  }

  /** How an import ended. */
  datatype ImportResult = EmptyInput | MissingColumns(missing: seq<string>) | Imported(count: nat) | InsertFailed

  /** The header names of the pasted text. */
  function HeadersOf(csv: string): seq<string>
  {
    CellsOf(ImportLines(csv)[0])
  }

  /** The outcome of importing `csv`, with `fails` the store's answer to the insert. */
  function ImportOutcome(csv: string, fails: bool): (r: ImportResult)
    ensures r == EmptyInput <==> Trim(csv) == ""
    ensures r.MissingColumns? <==> Trim(csv) != "" && MissingHeaders(HeadersOf(csv)) != []
    ensures r.MissingColumns? ==> r.missing == MissingHeaders(HeadersOf(csv))
    ensures r == InsertFailed <==> Trim(csv) != "" && MissingHeaders(HeadersOf(csv)) == [] && fails
    ensures r.Imported? <==> Trim(csv) != "" && MissingHeaders(HeadersOf(csv)) == [] && !fails
    ensures r.Imported? ==> r.count == |ImportLines(csv)| - 1
  {
    if Trim(csv) == "" then EmptyInput
    else if MissingHeaders(HeadersOf(csv)) != [] then MissingColumns(MissingHeaders(HeadersOf(csv)))
    else if fails then InsertFailed
    else Imported(|ImportLines(csv)| - 1)
  }

  /** Every imported record is active, whatever its `is_active` cell said. */
  lemma ImportForcesActive(headers: seq<string>, line: string, i: nat)
    ensures RecordFor(headers, line, i).isActive
  {
  }

  /** A record holds a cell for exactly the header names. */
  lemma RecordKeys(headers: seq<string>, line: string, i: nat)
    ensures forall h :: h in RecordFor(headers, line, i).cells <==> h in headers
  {
    AssignHeadersKeys(headers, CellsOf(line));
  }

  /** A header's value is the trimmed cell at its last position in the header row ("" past the line's end). */
  lemma {:induction false} AssignHeadersValue(headers: seq<string>, values: seq<string>, k: nat)
    requires k < |headers|
    requires forall j :: k < j < |headers| ==> headers[j] != headers[k]
    ensures headers[k] in AssignHeaders(headers, values)
    ensures AssignHeaders(headers, values)[headers[k]] == CellAt(values, k)
  {
    var n := |headers| - 1;
    if k < n {
      assert headers[..n][k] == headers[k];
      AssignHeadersValue(headers[..n], values, k);
    }
  }

  /** An empty or absent booth number becomes `B` and the line index padded to three digits. */
  lemma DefaultBoothShape(headers: seq<string>, line: string, i: nat)
    requires "booth_number" in AssignHeaders(headers, CellsOf(line)) ==>
      AssignHeaders(headers, CellsOf(line))["booth_number"] == ""
    ensures RecordFor(headers, line, i).boothNumber == DefaultBooth(i)
    ensures i < 1000 ==> |DefaultBooth(i)| == 4 && DefaultBooth(i)[0] == 'B'
  {
    if i < 1000 {
      NatToStringLength(i);
    }
  }

  /** Numbers below 1000 render in at most three digits. */
  lemma NatToStringLength(i: nat)
    requires i < 1000
    ensures |NatToString(i)| <= 3
  {
    if i >= 10 {
      NatToStringLength(i / 10);
    }
  }

  /** The importer's state. */
  class ExhibitorBulkActions {
    var isProcessing: bool
    var csvData: string

    constructor ()
      ensures !isProcessing && csvData == ""
    {
      isProcessing, csvData := false, "";
    }

    /** `handleCSVImport`; `fails` is the store's answer to the single insert. */
    method HandleCSVImport(store: InsertLog<ImportedRecord>, fails: bool) returns (result: ImportResult)
      modifies this, store
      ensures result == ImportOutcome(old(csvData), fails)
      ensures result.Imported? ==>
        store.batches == old(store.batches) + [ImportedRecords(ImportLines(old(csvData)), HeadersOf(old(csvData)))] &&
        csvData == ""
      ensures !result.Imported? ==> store.batches == old(store.batches) && csvData == old(csvData)
      ensures result != EmptyInput ==> !isProcessing
      ensures result == EmptyInput ==> isProcessing == old(isProcessing)
    {
      var csv := csvData;
      if Trim(csv) == "" {
        return EmptyInput;
      }
      isProcessing := true;
      var lines := ImportLines(csv);
      var headers := CellsOf(lines[0]);
      assert headers == HeadersOf(csv);
      var missing := MissingHeaders(headers);
      if missing != [] {
        isProcessing := false;
        assert ImportOutcome(csv, fails) == MissingColumns(missing);
        return MissingColumns(missing);
      }
      var exhibitors := BuildRecords(lines, headers);
      assert exhibitors == ImportedRecords(ImportLines(csv), HeadersOf(csv));
      assert |exhibitors| == |ImportLines(csv)| - 1;
      var ok := store.Insert(exhibitors, fails);
      if ok {
        result := Imported(|exhibitors|);
        assert result == ImportOutcome(csv, fails);
        csvData := "";
      } else {
        result := InsertFailed;
        assert result == ImportOutcome(csv, fails);
      }
      isProcessing := false;
    }
  }

  // ---------------------------------------------------------------- export

  /** A column value as the store returns it. */
  datatype JsValue = JsNull | JsStr(str: string) | JsNum(num: int) | JsBool(flag: bool)

  /** JavaScript truthiness: null, "", 0 and false are falsy. */
  predicate Truthy(v: JsValue)
  {
    match v
    case JsNull => false
    case JsStr(s) => s != ""
    case JsNum(n) => n != 0
    case JsBool(b) => b
  }

  /** A truthy value as a template string prints it. */
  function Render(v: JsValue): string
  {
    match v
    case JsNull => "null"
    case JsStr(s) => s
    case JsNum(n) => IntToString(n)
    case JsBool(b) => if b then "true" else "false"
  }

  const ExportHeaders: seq<string> := [
    "company_name", "company_description", "contact_email", "contact_phone", "website_url",
    "booth_number", "benefit_title", "benefit_description", "benefit_percentage",
    "advisor_name", "advisor_email", "advisor_phone", "is_active"]

  /** `"${exhibitor[header] || ""}"`: falsy and absent values become the empty cell. */
  function ExportCell(row: map<string, JsValue>, h: string): (c: string)
    ensures |c| >= 2 && c[0] == '"' && c[|c| - 1] == '"'
    ensures c[1..|c| - 1] == if h in row && Truthy(row[h]) then Render(row[h]) else ""
  {
    "\"" + (if h in row && Truthy(row[h]) then Render(row[h]) else "") + "\""
  }

  /** One exported line: the 13 cells in header order. */
  function ExportCells(row: map<string, JsValue>): (cells: seq<string>)
    ensures |cells| == |ExportHeaders|
    ensures forall j :: 0 <= j < |cells| ==> cells[j] == ExportCell(row, ExportHeaders[j])
  {
    seq(|ExportHeaders|, j requires 0 <= j < |ExportHeaders| => ExportCell(row, ExportHeaders[j]))
  }

  /** One line per exhibitor, in the order the store returned them. */
  function ExportBody(rows: seq<map<string, JsValue>>): (lines: seq<string>)
    ensures |lines| == |rows|
    ensures forall k {:trigger ExportCells(rows[k])} :: 0 <= k < |rows| ==> lines[k] == Join(ExportCells(rows[k]), ',')
  {
    seq(|rows|, k requires 0 <= k < |rows| => Join(ExportCells(rows[k]), ','))
  }

  /** The header line, then the exhibitors' lines. */
  function ExportLines(rows: seq<map<string, JsValue>>): (lines: seq<string>)
    ensures |lines| == |rows| + 1
    ensures lines[0] == Join(ExportHeaders, ',')
    ensures forall k {:trigger ExportCells(rows[k])} :: 0 <= k < |rows| ==> lines[k + 1] == Join(ExportCells(rows[k]), ',')
  {
    var body := ExportBody(rows);
    assert forall k :: 0 <= k < |rows| ==> ([Join(ExportHeaders, ',')] + body)[k + 1] == body[k];
    [Join(ExportHeaders, ',')] + body
  }

  /** `handleCSVExport`'s text. */
  function ExportCsv(rows: seq<map<string, JsValue>>): (csv: string)
    ensures Join(ExportHeaders, ',') <= csv
    ensures rows != [] ==> |csv| > |Join(ExportHeaders, ',')| && csv[|Join(ExportHeaders, ',')|] == '\n'
  {
    JoinBegins(ExportLines(rows), '\n');
    Join(ExportLines(rows), '\n')
  }

  /** 0, false, "" and null are all exported as an empty quoted cell. */
  lemma FalsyExportsEmpty(row: map<string, JsValue>, h: string)
    requires h !in row || !Truthy(row[h])
    ensures ExportCell(row, h) == "\"\""
  {
  }

  /** A valid CSV row cannot be told apart from one whose value is missing, when that value is falsy. */
  lemma ZeroPercentageLooksAbsent(row: map<string, JsValue>)
    ensures ExportCells(row["benefit_percentage" := JsNum(0)]) ==
      ExportCells(map h | h in row && h != "benefit_percentage" :: row[h])
  {
    var a := ExportCells(row["benefit_percentage" := JsNum(0)]);
    var b := ExportCells(map h | h in row && h != "benefit_percentage" :: row[h]);
    forall j | 0 <= j < |ExportHeaders| ensures a[j] == b[j] {
    }
  }

  /** The names on the first line of the template shown beside the importer. */
  const TemplateHeaders: seq<string> := [
    "company_name", "contact_email", "contact_phone", "website_url", "booth_number",
    "benefit_title", "benefit_description", "benefit_percentage", "advisor_name",
    "advisor_email", "advisor_phone", "is_active"]

  const TemplateRow1: string :=
    "\"Farmacia Central\",\"contacto@farmaciacentral.com\",\"555-0001\",\"https://farmaciacentral.com\"," +
    "\"B001\",\"Descuento especial\",\"10% en todos los productos\",10,\"Dr. Juan Pérez\"," +
    "\"juan@farmaciacentral.com\",\"555-0002\",true"

  const TemplateRow2: string :=
    "\"Laboratorios ABC\",\"info@labsabc.com\",\"555-0003\",\"https://labsabc.com\",\"B002\"," +
    "\"Consulta gratuita\",\"Evaluación médica sin costo\",0,\"Dra. María García\",\"maria@labsabc.com\"," +
    "\"555-0004\",true"

  /** `csvTemplate`: the header line and two example lines. */
  function CsvTemplate(): string
  {
    Join(TemplateHeaders, ',') + "\n" + TemplateRow1 + "\n" + TemplateRow2
  }

  /** The first part of a split is the text before the first separator. */
  lemma SplitFirstPart(w: string, e: string, c: char)
    requires c !in w
    ensures Split(w + [c] + e, c)[0] == w
  {
    var s := w + [c] + e;
    var p := Split(s, c)[0];
    assert forall i :: 0 <= i < |w| ==> s[i] == w[i] != c;
    assert s[|w|] == c;
  }

  /** Header or cell texts without commas and without surrounding white space come back from their line. */
  lemma CellsOfJoin(parts: seq<string>)
    requires |parts| >= 1
    requires forall k :: 0 <= k < |parts| ==> ',' !in parts[k] && Trim(parts[k]) == parts[k]
    ensures CellsOf(Join(parts, ',')) == parts
  {
    SplitJoin(parts, ',');
  }

  /** Names made of lower-case letters and `_` are free of separators and of white space. */
  predicate PlainNames(names: seq<string>)
  {
    forall k :: 0 <= k < |names| ==>
      names[k] != [] && forall j :: 0 <= j < |names[k]| ==> IsAsciiLower(names[k][j]) || names[k][j] == '_'
  }

  /** The header line built from plain names splits back into those names. */
  lemma PlainHeaderLine(names: seq<string>)
    requires |names| >= 1 && PlainNames(names)
    ensures '\n' !in Join(names, ',')
    ensures CellsOf(Join(names, ',')) == names
    ensures Join(names, ',') != [] && Join(names, ',')[0] == names[0][0]
  {
    forall k | 0 <= k < |names| ensures ',' !in names[k] && '\n' !in names[k] && Trim(names[k]) == names[k] {
      TrimKeepsTrimmed(names[k]);
    }
    JoinFree(names, '\n', ',');
    CellsOfJoin(names);
    JoinFirst(names, ',');
  }

  /** Text whose first line holds plain names has those names as its header row. */
  lemma HeaderRowOf(names: seq<string>, row1: string, row2: string)
    requires |names| >= 1 && PlainNames(names)
    requires row2 != [] && !IsSpace(row2[|row2| - 1])
    ensures HeadersOf(Join(names, ',') + "\n" + row1 + "\n" + row2) == names
  {
    var header := Join(names, ',');
    var rest := row1 + "\n" + row2;
    var t := header + "\n" + rest;
    assert t == Join(names, ',') + "\n" + row1 + "\n" + row2;
    PlainHeaderLine(names);
    assert t[0] == header[0] == names[0][0];
    assert t[|t| - 1] == row2[|row2| - 1];
    TrimKeepsTrimmed(t);
    SplitFirstPart(header, rest, '\n');
  }

  lemma TemplateNamesArePlain()
    ensures PlainNames(TemplateHeaders)
  {
  }

  lemma TemplateEndsInLetter()
    ensures TemplateRow2[|TemplateRow2| - 1] == 'e'
  {
  }

  /** The template's header row holds the three required names. */
  lemma TemplateHasRequiredNames()
    ensures MissingHeaders(TemplateHeaders) == []
  {
  }

  /** The template passes the header check: an import of it is refused for no missing column. */
  lemma TemplatePassesHeaderCheck()
    ensures HeadersOf(CsvTemplate()) == TemplateHeaders
    ensures MissingHeaders(HeadersOf(CsvTemplate())) == []
    ensures ImportOutcome(CsvTemplate(), false).Imported?
  {
    TemplateNamesArePlain();
    TemplateEndsInLetter();
    TemplateHasRequiredNames();
    HeaderRowOf(TemplateHeaders, TemplateRow1, TemplateRow2);
  }

  /** The rendered values hold no comma and no line break. */
  predicate PlainValues(row: map<string, JsValue>)
  {
    forall h :: h in row ==> ',' !in Render(row[h]) && '\n' !in Render(row[h])
  }

  /** An exported line of plain values splits back into its quoted cells. */
  lemma ExportLineSplits(row: map<string, JsValue>)
    requires PlainValues(row)
    ensures '\n' !in Join(ExportCells(row), ',')
    ensures CellsOf(Join(ExportCells(row), ',')) == ExportCells(row)
    ensures Join(ExportCells(row), ',') != [] && Join(ExportCells(row), ',')[|Join(ExportCells(row), ',')| - 1] == '"'
  {
    var cells := ExportCells(row);
    forall j | 0 <= j < |cells| ensures ',' !in cells[j] && Trim(cells[j]) == cells[j] {
      ExportCellPlain(row, ExportHeaders[j]);
    }
    CellsOfJoin(cells);
    ExportLinePlain(row);
  }

  /** An exported line of plain values holds no line break and ends in a quote. */
  lemma ExportLinePlain(row: map<string, JsValue>)
    requires PlainValues(row)
    ensures '\n' !in Join(ExportCells(row), ',')
    ensures Join(ExportCells(row), ',') != [] && Join(ExportCells(row), ',')[|Join(ExportCells(row), ',')| - 1] == '"'
  {
    var cells := ExportCells(row);
    forall j | 0 <= j < |cells| ensures '\n' !in cells[j] {
      ExportCellPlain(row, ExportHeaders[j]);
    }
    JoinFree(cells, '\n', ',');
    ExportCellPlain(row, ExportHeaders[|cells| - 1]);
    JoinLast(cells, ',');
  }

  /** A quoted plain value holds no comma or line break and has no white space to trim. */
  lemma ExportCellPlain(row: map<string, JsValue>, h: string)
    requires PlainValues(row)
    ensures ',' !in ExportCell(row, h) && '\n' !in ExportCell(row, h)
    ensures Trim(ExportCell(row, h)) == ExportCell(row, h)
    ensures ExportCell(row, h) != [] && ExportCell(row, h)[|ExportCell(row, h)| - 1] == '"'
  {
    var v := if h in row && Truthy(row[h]) then Render(row[h]) else "";
    assert ExportCell(row, h) == "\"" + v + "\"";
    TrimKeepsTrimmed(ExportCell(row, h));
  }

  /** Text made of a line of plain names and of further lines comes apart into those lines again. */
  lemma {:induction false} LinesOfText(names: seq<string>, body: seq<string>)
    requires |names| >= 1 && PlainNames(names)
    requires |body| >= 1 && forall k :: 0 <= k < |body| ==> '\n' !in body[k]
    requires body[|body| - 1] != [] && !IsSpace(body[|body| - 1][|body[|body| - 1]| - 1])
    ensures ImportLines(Join([Join(names, ',')] + body, '\n')) == [Join(names, ',')] + body
    ensures HeadersOf(Join([Join(names, ',')] + body, '\n')) == names
    ensures Trim(Join([Join(names, ',')] + body, '\n')) != ""
  {
    var lines := [Join(names, ',')] + body;
    var t := Join(lines, '\n');
    PlainHeaderLine(names);
    forall k | 0 <= k < |lines| ensures '\n' !in lines[k] {
      if k > 0 {
        assert lines[k] == body[k - 1];
      }
    }
    JoinFirst(lines, '\n');
    assert lines[|lines| - 1] == body[|body| - 1];
    JoinLast(lines, '\n');
    TrimKeepsTrimmed(t);
    SplitJoin(lines, '\n');
  }

  lemma ExportNamesArePlain()
    ensures PlainNames(ExportHeaders)
  {
  }

  /** The company column is the first export column and is not repeated. */
  lemma CompanyIsFirstColumn()
    ensures ExportHeaders[0] == "company_name"
    ensures forall j :: 0 < j < |ExportHeaders| ==> ExportHeaders[j] != ExportHeaders[0]
  {
  }

  /** The exhibitors' lines of an export of plain values: free of line breaks, the last ending in a quote. */
  lemma ExportBodyIsPlain(rows: seq<map<string, JsValue>>)
    requires |rows| >= 1
    requires forall k :: 0 <= k < |rows| ==> PlainValues(rows[k])
    ensures forall k :: 0 <= k < |rows| ==> '\n' !in ExportBody(rows)[k]
    ensures ExportBody(rows)[|rows| - 1] != []
    ensures ExportBody(rows)[|rows| - 1][|ExportBody(rows)[|rows| - 1]| - 1] == '"'
  {
    var body := ExportBody(rows);
    forall k | 0 <= k < |rows| ensures '\n' !in body[k] {
      assert body[k] == Join(ExportCells(rows[k]), ',');
      ExportLinePlain(rows[k]);
    }
    var row := rows[|rows| - 1];
    assert body[|rows| - 1] == Join(ExportCells(row), ',');
    ExportLinePlain(row);
  }

  /** Exported text of plain values splits back into its lines and its 13 header names. */
  lemma ExportSplitsIntoLines(rows: seq<map<string, JsValue>>)
    requires |rows| >= 1
    requires forall k :: 0 <= k < |rows| ==> PlainValues(rows[k])
    ensures ImportLines(ExportCsv(rows)) == ExportLines(rows)
    ensures HeadersOf(ExportCsv(rows)) == ExportHeaders
    ensures Trim(ExportCsv(rows)) != ""
  {
    ExportBodyIsPlain(rows);
    ExportNamesArePlain();
    LinesOfText(ExportHeaders, ExportBody(rows));
  }

  /** The record of line `k + 1` is built from that line and the index `k + 1`. */
  lemma RecordAt(lines: seq<string>, headers: seq<string>, k: nat)
    requires k + 1 < |lines|
    ensures ImportedRecords(lines, headers)[k] == RecordFor(headers, lines[k + 1], k + 1)
  {
  }

  /** When the company column comes first and only once, a record's company cell is its line's first cell. */
  lemma CompanyCellOfLine(headers: seq<string>, cells: seq<string>, i: nat)
    requires |headers| >= 1 && headers[0] == "company_name"
    requires forall j :: 0 < j < |headers| ==> headers[j] != headers[0]
    requires |cells| >= 1 && CellsOf(Join(cells, ',')) == cells
    ensures "company_name" in RecordFor(headers, Join(cells, ','), i).cells
    ensures RecordFor(headers, Join(cells, ','), i).cells["company_name"] == cells[0]
  {
    AssignHeadersValue(headers, cells, 0);
  }

  /**
   * Importing exported text does not give the exported values back: the lines and the
   * header names come back, but the company cell keeps its quotes, and `is_active` is true
   * even where the export said false.
   */
  lemma ImportOfExportKeepsQuotes(rows: seq<map<string, JsValue>>, k: nat)
    requires k < |rows|
    requires forall j :: 0 <= j < |rows| ==> PlainValues(rows[j])
    ensures ImportLines(ExportCsv(rows)) == ExportLines(rows)
    ensures HeadersOf(ExportCsv(rows)) == ExportHeaders
    ensures var rec := ImportedRecords(ImportLines(ExportCsv(rows)), HeadersOf(ExportCsv(rows)))[k];
      "company_name" in rec.cells && rec.cells["company_name"] == ExportCell(rows[k], "company_name") &&
      rec.isActive
  {
    var csv := ExportCsv(rows);
    var hs := HeadersOf(csv);
    var cells := ExportCells(rows[k]);
    ExportSplitsIntoLines(rows);
    CompanyIsFirstColumn();
    ExportLineSplits(rows[k]);
    assert ImportLines(csv)[k + 1] == Join(cells, ',');
    RecordAt(ImportLines(csv), hs, k);
    CompanyCellOfLine(hs, cells, k + 1);
    var rec := ImportedRecords(ImportLines(csv), hs)[k];
    assert rec == RecordFor(hs, Join(cells, ','), k + 1);
    assert cells[0] == ExportCell(rows[k], ExportHeaders[0]);
    ImportForcesActive(hs, Join(cells, ','), k + 1);
  }

  /** An export of at least one exhibitor with plain values is accepted whole by the importer. */
  lemma ImportOfExportCounts(rows: seq<map<string, JsValue>>)
    requires |rows| >= 1
    requires forall j :: 0 <= j < |rows| ==> PlainValues(rows[j])
    ensures ImportOutcome(ExportCsv(rows), false) == Imported(|rows|)
  {
    ExportSplitsIntoLines(rows);
    ExportHasRequiredNames();
    AcceptedImport(ExportCsv(rows), |rows|);
  }

  /** Text that is not blank and holds the required names is imported whole when the insert succeeds. */
  lemma AcceptedImport(csv: string, n: nat)
    requires Trim(csv) != "" && MissingHeaders(HeadersOf(csv)) == [] && |ImportLines(csv)| == n + 1
    ensures ImportOutcome(csv, false) == Imported(n)
  {
  }

  lemma ExportHasRequiredNames()
    ensures MissingHeaders(ExportHeaders) == []
  {
  }
}
