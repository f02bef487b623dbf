/**
 * The administrator's list of access codes (components/qr-code-list.tsx): a search box and
 * two selectors filter the held list, a row can be deleted, and the filtered rows can be
 * exported as unquoted comma-separated text.
 */
module QrList {
  import opened Common
  import opened Text
  import opened QrRecords

  /** The type selector: "all", or one user type. */
  datatype TypeFilter = AllTypes | OnlyType(t: UserType)

  /** The status selector: "all", "used" or "unused". */
  datatype StatusFilter = AnyStatus | Used | Unused

  /** The search box matches e-mail, name, code or (when present) company, ignoring case. */
  predicate MatchesSearch(q: QrCode, term: string)
  {
    IncludesIgnoreCase(q.userEmail, term) || IncludesIgnoreCase(q.userName, term) ||
    IncludesIgnoreCase(q.code, term) ||
    (q.companyName.Some? && IncludesIgnoreCase(q.companyName.value, term))
  }

  predicate MatchesType(q: QrCode, f: TypeFilter)
  {
    f.AllTypes? || q.userType == f.t
  }

  predicate MatchesStatus(q: QrCode, f: StatusFilter)
  {
    f.AnyStatus? || (f.Used? && q.isUsed) || (f.Unused? && !q.isUsed)
  }

  predicate Shown(q: QrCode, term: string, tf: TypeFilter, sf: StatusFilter)
  {
    MatchesSearch(q, term) && MatchesType(q, tf) && MatchesStatus(q, sf)
  }

  /** `filteredQRCodes`: the held rows passing all three tests, in their order. */
  function FilteredCodes(codes: seq<QrCode>, term: string, tf: TypeFilter, sf: StatusFilter): (r: seq<QrCode>)
    ensures forall q :: q in r <==> q in codes && Shown(q, term, tf, sf)
    ensures |r| <= |codes|
  {
    Filter(codes, q => Shown(q, term, tf, sf))
  }

  /** An empty search with both selectors on "all" shows every row. */
  lemma NoFilterShowsAll(codes: seq<QrCode>)
    ensures FilteredCodes(codes, "", AllTypes, AnyStatus) == codes
  {
    assert ToLower("") == "";
    forall q | q in codes ensures Shown(q, "", AllTypes, AnyStatus) {
      IncludesEmpty(ToLower(q.userEmail));
    }
    FilterAll(codes, q => Shown(q, "", AllTypes, AnyStatus));
  }

  /** The status selector splits the rows: every row is shown under exactly one of used and unused. */
  lemma UsedAndUnusedPartition(q: QrCode, term: string, tf: TypeFilter)
    ensures Shown(q, term, tf, AnyStatus) <==> Shown(q, term, tf, Used) || Shown(q, term, tf, Unused)
    ensures !(Shown(q, term, tf, Used) && Shown(q, term, tf, Unused))
  {
  }

  /** The "used" and "unused" lists together are exactly as long as the "all" list. */
  lemma {:induction false} UsedPlusUnusedCount(codes: seq<QrCode>, term: string, tf: TypeFilter)
    ensures |FilteredCodes(codes, term, tf, Used)| + |FilteredCodes(codes, term, tf, Unused)| ==
      |FilteredCodes(codes, term, tf, AnyStatus)|
  {
    if codes != [] {
      UsedPlusUnusedCount(codes[..|codes| - 1], term, tf);
    }
  }

  /** One export line's cells; falsy values (absent or empty) become "". */
  function ExportCells(q: QrCode, fmt: string -> string): (cells: seq<string>)
    ensures |cells| == 8
    ensures cells[0] == q.code && cells[1] == UserTypeName(q.userType)
    ensures cells[2] == q.userEmail && cells[3] == q.userName
    ensures cells[4] == q.companyName.GetOr("")
    ensures cells[5] == (if q.isUsed then "Sí" else "No")
    ensures cells[6] == (if q.usedAt.Some? && q.usedAt.value != "" then fmt(q.usedAt.value) else "")
    ensures cells[7] == fmt(q.createdAt)
  {
    [q.code, UserTypeName(q.userType), q.userEmail, q.userName, q.companyName.GetOr(""),
     if q.isUsed then "Sí" else "No",
     if q.usedAt.Some? && q.usedAt.value != "" then fmt(q.usedAt.value) else "",
     fmt(q.createdAt)]
  }

  const ExportHeader: seq<string> :=
    ["Código", "Tipo", "Email", "Nombre", "Empresa", "Usado", "Fecha Uso", "Fecha Creación"]

  /** The lines of the export: a header, then one line per row, cells joined by commas without quoting. */
  function ExportLines(shown: seq<QrCode>, fmt: string -> string): (lines: seq<string>)
    ensures |lines| == |shown| + 1
    ensures lines[0] == Join(ExportHeader, ',')
    ensures forall k :: 0 <= k < |shown| ==> lines[k + 1] == Join(ExportCells(shown[k], fmt), ',')
  {
    [Join(ExportHeader, ',')] + seq(|shown|, k requires 0 <= k < |shown| => Join(ExportCells(shown[k], fmt), ','))
  }

  /** `exportQRCodes`' text. */
  function ExportCsv(shown: seq<QrCode>, fmt: string -> string): (csv: string)
    ensures Join(ExportHeader, ',') <= csv
    ensures shown != [] ==> |csv| > |Join(ExportHeader, ',')| && csv[|Join(ExportHeader, ',')|] == '\n'
  {
    JoinBegins(ExportLines(shown, fmt), '\n');
    Join(ExportLines(shown, fmt), '\n')
  }

  /** No cell of the row contains `c`. */
  predicate CellsFree(q: QrCode, fmt: string -> string, c: char)
  {
    forall i :: 0 <= i < 8 ==> c !in ExportCells(q, fmt)[i]
  }

  /**
   * When no cell contains a line break, the export splits back into exactly its lines; when
   * in addition no cell contains a comma, each data line splits back into its 8 cells.
   */
  lemma ExportSplitsBack(shown: seq<QrCode>, fmt: string -> string)
    requires forall k :: 0 <= k < |shown| ==> CellsFree(shown[k], fmt, '\n')
    ensures Split(ExportCsv(shown, fmt), '\n') == ExportLines(shown, fmt)
    ensures forall k :: 0 <= k < |shown| && CellsFree(shown[k], fmt, ',') ==>
      Split(ExportLines(shown, fmt)[k + 1], ',') == ExportCells(shown[k], fmt)
  {
    ExportLinesFree(shown, fmt);
    SplitJoin(ExportLines(shown, fmt), '\n');
    forall k | 0 <= k < |shown| && CellsFree(shown[k], fmt, ',')
      ensures Split(ExportLines(shown, fmt)[k + 1], ',') == ExportCells(shown[k], fmt)
    {
      DataLineSplits(shown, fmt, k);
    }
  }

  lemma ExportLinesFree(shown: seq<QrCode>, fmt: string -> string)
    requires forall k :: 0 <= k < |shown| ==> CellsFree(shown[k], fmt, '\n')
    ensures forall k :: 0 <= k < |ExportLines(shown, fmt)| ==> '\n' !in ExportLines(shown, fmt)[k]
  {
    var lines := ExportLines(shown, fmt);
    forall k | 0 <= k < |lines| ensures '\n' !in lines[k] {
      if k == 0 {
        HeaderLineFree();
      } else {
        JoinFree(ExportCells(shown[k - 1], fmt), '\n', ',');
      }
    }
  }

  lemma HeaderLineFree()
    ensures '\n' !in Join(ExportHeader, ',')
  {
    forall k | 0 <= k < |ExportHeader| ensures '\n' !in ExportHeader[k] {
    }
    JoinFree(ExportHeader, '\n', ',');
  }

  lemma DataLineSplits(shown: seq<QrCode>, fmt: string -> string, k: nat)
    requires k < |shown| && CellsFree(shown[k], fmt, ',')
    ensures Split(ExportLines(shown, fmt)[k + 1], ',') == ExportCells(shown[k], fmt)
  {
    SplitJoin(ExportCells(shown[k], fmt), ',');
  }

  /**
   * A comma inside a company name is not escaped: when the other cells hold none, the line
   * splits into 8 fields plus one per comma of the company name.
   */
  lemma CommaShiftsColumns(q: QrCode, fmt: string -> string)
    requires forall i :: 0 <= i < 8 && i != 4 ==> ',' !in ExportCells(q, fmt)[i]
    ensures |Split(Join(ExportCells(q, fmt), ','), ',')| == 8 + CountChar(q.companyName.GetOr(""), ',')
  {
    var cells := ExportCells(q, fmt);
    SplitCount(Join(cells, ','), ',');
    JoinCount(cells, ',');
    CountAllSingle(cells, 4, ',');
  }

  lemma {:induction false} CountAllSingle(parts: seq<string>, i: nat, c: char)
    requires i < |parts|
    requires forall k :: 0 <= k < |parts| && k != i ==> c !in parts[k]
    ensures CountAll(parts, c) == CountChar(parts[i], c)
  {
    if i == 0 {
      CountAllNone(parts[1..], c);
    } else {
      CountAllSingle(parts[1..], i - 1, c);
    }
  }

  lemma {:induction false} CountAllNone(parts: seq<string>, c: char)
    requires forall k :: 0 <= k < |parts| ==> c !in parts[k]
    ensures CountAll(parts, c) == 0
  {
    if parts != [] {
      CountAllNone(parts[1..], c);
    }
  }

  /** Separators in a join: one between each pair of parts, plus those inside the parts. */
  function CountAll(parts: seq<string>, c: char): nat
  {
    if parts == [] then 0 else CountChar(parts[0], c) + CountAll(parts[1..], c)
  }

  lemma {:induction false} CountAppend(a: string, b: string, c: char)
    ensures CountChar(a + b, c) == CountChar(a, c) + CountChar(b, c)
  {
    if a == [] {
      assert a + b == b;
    } else {
      assert (a + b)[1..] == a[1..] + b;
      CountAppend(a[1..], b, c);
    }
  }

  lemma {:induction false} JoinCount(parts: seq<string>, c: char)
    requires |parts| >= 1
    ensures CountChar(Join(parts, c), c) == |parts| - 1 + CountAll(parts, c)
  {
    if |parts| > 1 {
      JoinCount(parts[1..], c);
      CountAppend(parts[0] + [c], Join(parts[1..], c), c);
      CountAppend(parts[0], [c], c);
      assert CountChar([c], c) == 1 by { assert [c][1..] == []; }
    } else {
      assert CountAll(parts[1..], c) == 0;
    }
  }

  /** The list component's state. */
  class QrCodeList {
    var qrCodes: seq<QrCode>
    var searchTerm: string
    var filterType: TypeFilter
    var filterStatus: StatusFilter

    constructor (initial: seq<QrCode>)
      ensures qrCodes == initial && searchTerm == "" && filterType == AllTypes && filterStatus == AnyStatus
    {
      qrCodes, searchTerm, filterType, filterStatus := initial, "", AllTypes, AnyStatus;
    }

    function Filtered(): seq<QrCode>
      reads this
    {
      FilteredCodes(qrCodes, searchTerm, filterType, filterStatus)
    }

    /** `deleteQRCode(id)`: the held list drops that id only once the store's delete succeeded. */
    method DeleteQRCode(db: QrTable, id: string, fails: bool) returns (ok: bool)
      modifies this, db
      ensures ok == !fails
      ensures db.rows == if ok then DeleteById(old(db.rows), id) else old(db.rows)
      ensures qrCodes == if ok then DeleteById(old(qrCodes), id) else old(qrCodes)
      ensures searchTerm == old(searchTerm) && filterType == old(filterType) && filterStatus == old(filterStatus)
    {
      ok := db.DeleteRow(id, fails);
      if ok {
        qrCodes := DeleteById(qrCodes, id);
      }
    }

    /** `exportQRCodes`: the text of the file offered for download. */
    method ExportQRCodes(fmt: string -> string) returns (csv: string)
      ensures csv == ExportCsv(Filtered(), fmt)
    {
      csv := ExportCsv(Filtered(), fmt);
    }
  }

  /** Deleting keeps every other row, in order; deleting an id no row has changes nothing. */
  lemma DeleteKeepsOthers(codes: seq<QrCode>, id: string)
    ensures forall q :: q in DeleteById(codes, id) <==> q in codes && q.id != id
    ensures (forall k :: 0 <= k < |codes| ==> codes[k].id != id) ==> DeleteById(codes, id) == codes
  {
    if forall k :: 0 <= k < |codes| ==> codes[k].id != id {
      FilterAll(codes, (q: QrCode) => q.id != id);
    }
  }
}
