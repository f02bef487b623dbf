/**
 * The leads table an exhibitor or an administrator works in: the search box and the
 * status and type selectors narrowing the list, the status buttons of the detail dialog,
 * the status badge and the CSV export of what is on screen.
 */
module LeadsTable {
  import opened Common
  import opened Text
  import opened LeadRecords

  // ---------------------------------------------------------------- filters

  /** The search box: visitor name (when there is one), email or company (when there is one). */
  predicate SearchMatch(l: Lead, term: string)
  {
    (l.visitorName.Some? && IncludesIgnoreCase(l.visitorName.value, term)) ||
    IncludesIgnoreCase(l.visitorEmail, term) ||
    (l.exhibitor.Some? && IncludesIgnoreCase(l.exhibitor.value.companyName, term))
  }

  /** A lead survives every active filter: a non-empty term, a status other than "all", a type other than "all". */
  predicate Selected(l: Lead, term: string, status: string, leadType: string)
  {
    (term == "" || SearchMatch(l, term)) &&
    (status == "all" || l.status == status) &&
    (leadType == "all" || l.leadType == leadType)
  }

  /** The filters as the predicates handed to `filter`. */
  function BySearch(term: string): Lead -> bool
  {
    l => term == "" || SearchMatch(l, term)
  }

  function ByStatus(status: string): Lead -> bool
  {
    (l: Lead) => status == "all" || l.status == status
  }

  function ByType(leadType: string): Lead -> bool
  {
    (l: Lead) => leadType == "all" || l.leadType == leadType
  }

  function SelectedBy(term: string, status: string, leadType: string): Lead -> bool
  {
    l => Selected(l, term, status, leadType)
  }

  /** The leads on screen for the three controls: the selected leads in their original order. */
  function Shown(leads: seq<Lead>, term: string, status: string, leadType: string): (r: seq<Lead>)
    ensures forall l :: l in r <==> l in leads && Selected(l, term, status, leadType)
    ensures |r| <= |leads|
  {
    Filter(leads, SelectedBy(term, status, leadType))
  }

  /** With all three controls at rest every lead is on screen, in order. */
  lemma NoFilterShowsAll(leads: seq<Lead>)
    ensures Shown(leads, "", "all", "all") == leads
  {
    FilterAll(leads, SelectedBy("", "all", "all"));
  }

  /** Narrowing by status keeps only leads of that status, and all of them that pass the other controls. */
  lemma StatusFilterExact(leads: seq<Lead>, term: string, status: string, leadType: string)
    requires status != "all"
    ensures forall l :: l in Shown(leads, term, status, leadType) ==> l.status == status
    ensures forall l :: l in leads && Selected(l, term, "all", leadType) && l.status == status ==>
      l in Shown(leads, term, status, leadType)
  {
  }

  /** A status filter narrows the list shown without one, keeping its order. */
  lemma StatusFilterNarrows(leads: seq<Lead>, term: string, status: string, leadType: string)
    ensures Shown(leads, term, status, leadType) == Filter(Shown(leads, term, "all", leadType), ByStatus(status))
  {
    FilterFilter(leads, SelectedBy(term, "all", leadType), ByStatus(status));
    FilterSame(leads, Both(SelectedBy(term, "all", leadType), ByStatus(status)), SelectedBy(term, status, leadType));
  }

  /** The table's controls and the list it shows. */
  class LeadsView {
    const leads: seq<Lead>
    var searchTerm: string
    var statusFilter: string
    var typeFilter: string
    var filteredLeads: seq<Lead>
    var isUpdating: bool
    var updateSuccess: bool

    constructor (leads: seq<Lead>)
      ensures this.leads == leads && filteredLeads == leads
      ensures searchTerm == "" && statusFilter == "all" && typeFilter == "all"
      ensures !isUpdating && !updateSuccess
    {
      this.leads := leads;
      filteredLeads := leads;
      searchTerm := "";
      statusFilter := "all";
      typeFilter := "all";
      isUpdating := false;
      updateSuccess := false;
    }

    /** Reassigns the working list through the active filters, one after the other. */
    method ApplyFilters()
      modifies this
      ensures filteredLeads == Shown(leads, searchTerm, statusFilter, typeFilter)
      ensures searchTerm == old(searchTerm) && statusFilter == old(statusFilter) && typeFilter == old(typeFilter)
      ensures isUpdating == old(isUpdating) && updateSuccess == old(updateSuccess)
    {
      var term, status, kind := searchTerm, statusFilter, typeFilter;
      var filtered := leads;
      if term != "" {
        filtered := Filter(filtered, (l: Lead) => SearchMatch(l, term));
        FilterSame(leads, (l: Lead) => SearchMatch(l, term), BySearch(term));
      } else {
        FilterAll(leads, BySearch(term));
      }
      assert filtered == Filter(leads, BySearch(term));

      var passed := filtered;
      if status != "all" {
        filtered := Filter(filtered, (l: Lead) => l.status == status);
        FilterSame(passed, (l: Lead) => l.status == status, ByStatus(status));
      } else {
        FilterAll(passed, ByStatus(status));
      }
      FilterFilter(leads, BySearch(term), ByStatus(status));
      var first := Both(BySearch(term), ByStatus(status));
      assert filtered == Filter(leads, first);

      passed := filtered;
      if kind != "all" {
        filtered := Filter(filtered, (l: Lead) => l.leadType == kind);
        FilterSame(passed, (l: Lead) => l.leadType == kind, ByType(kind));
      } else {
        FilterAll(passed, ByType(kind));
      }
      FilterFilter(leads, first, ByType(kind));
      FilterSame(leads, Both(first, ByType(kind)), SelectedBy(term, status, kind));

      filteredLeads := filtered;
    }

    /**
     * The status write: `fails` is the store's answer. The success flag is cleared first
     * and raised only by a write that went through; the busy flag is down afterwards.
     */
    method UpdateLeadStatus(table: LeadTable, leadId: string, newStatus: string, notes: Option<string>, now: string, fails: bool)
      modifies this, table
      ensures table.rows == if fails then old(table.rows) else UpdateStatus(old(table.rows), leadId, newStatus, notes, now)
      ensures updateSuccess == !fails && !isUpdating
      ensures filteredLeads == old(filteredLeads) && searchTerm == old(searchTerm)
      ensures statusFilter == old(statusFilter) && typeFilter == old(typeFilter)
    {
      isUpdating := true;
      updateSuccess := false;
      var ok := table.WriteStatus(leadId, newStatus, notes, now, fails);
      if ok {
        updateSuccess := true;
      }
      isUpdating := false;
    }
  }

  // ---------------------------------------------------------------- detail dialog

  /** The two status buttons of the detail dialog. */
  datatype DialogAction = MarkContacted | MarkCompleted

  function ActionStatus(a: DialogAction): (s: string)
    ensures s == "contacted" || s == "completed"
  {
    match a
    case MarkContacted => "contacted"
    case MarkCompleted => "completed"
  }

  /** A dialog button writes its status whatever the lead's current one, and erases the lead's notes. */
  function DialogUpdate(rows: seq<Lead>, id: string, a: DialogAction, now: string): (r: seq<Lead>)
  {
    UpdateStatus(rows, id, ActionStatus(a), None, now)
  }

  lemma DialogUpdateEffect(rows: seq<Lead>, id: string, a: DialogAction, now: string)
    ensures |DialogUpdate(rows, id, a, now)| == |rows|
    ensures forall i :: 0 <= i < |rows| && rows[i].id == id ==>
      var l := DialogUpdate(rows, id, a, now)[i];
      l.status in {"contacted", "completed"} && l.notes.None? && l.updatedAt == now &&
      l.visitorEmail == rows[i].visitorEmail && l.createdAt == rows[i].createdAt
    ensures forall i :: 0 <= i < |rows| && rows[i].id != id ==> DialogUpdate(rows, id, a, now)[i] == rows[i]
  {
    StatusWriteClearsNotes(rows, id, ActionStatus(a), now);
  }

  /** "Sin nombre" stands in for a missing or empty visitor name. */
  function DisplayName(l: Lead): (r: string)
    ensures l.visitorName.Some? && l.visitorName.value != "" ==> r == l.visitorName.value
    ensures l.visitorName.None? || l.visitorName.value == "" ==> r == "Sin nombre"
  {
    OrElse(l.visitorName, "Sin nombre")
  }

  /** The table has a company column for administrators only. */
  function ColumnCount(userType: string): (n: nat)
    ensures n == 6 <==> userType == "admin"
    ensures n == 5 <==> userType != "admin"
  {
    if userType == "admin" then 6 else 5
  }

  // ---------------------------------------------------------------- labels

  /** The export's status column: everything that is neither pending nor contacted reads "Completado". */
  function StatusLabel(status: string): (r: string)
    ensures r in {"Pendiente", "Contactado", "Completado"}
    ensures r == "Pendiente" <==> status == "pending"
    ensures r == "Contactado" <==> status == "contacted"
    ensures r == "Completado" <==> status != "pending" && status != "contacted"
  {
    if status == "pending" then "Pendiente" else if status == "contacted" then "Contactado" else "Completado"
  }

  function TypeLabel(leadType: string): (r: string)
    ensures r == "Beneficio" <==> leadType == "benefit"
    ensures r == "Reunión" <==> leadType != "benefit"
  {
    if leadType == "benefit" then "Beneficio" else "Reunión"
  }

  /**
   * The badge and the export agree on the three known statuses. They disagree on every other
   * stored status except "Completado", which the badge shows as stored and the export also yields.
   */
  lemma BadgeAndExportLabels(status: string)
    ensures status in {"pending", "contacted", "completed"} ==> StatusBadge(status) == StatusLabel(status)
    ensures status !in {"pending", "contacted", "completed", "Completado"} ==> StatusBadge(status) != StatusLabel(status)
  {
  }

  // ---------------------------------------------------------------- export

  const ExportHeader: seq<string> := ["Fecha", "Tipo", "Estado", "Nombre", "Email", "Teléfono", "Empresa", "Stand", "Notas"]

  /** One exported lead; `localeDate` renders `created_at` as the Spanish locale does. */
  function ExportRow(l: Lead, localeDate: string -> string): (cells: seq<string>)
    ensures |cells| == |ExportHeader|
    ensures cells[0] == localeDate(l.createdAt) && cells[1] == TypeLabel(l.leadType)
    ensures cells[2] == StatusLabel(l.status) && cells[4] == l.visitorEmail
    ensures cells[3] == (if l.visitorName.Some? then l.visitorName.value else "")
    ensures cells[5] == (if l.visitorPhone.Some? then l.visitorPhone.value else "")
    ensures cells[6] == (if l.exhibitor.Some? then l.exhibitor.value.companyName else "")
    ensures cells[7] == (if l.exhibitor.Some? && l.exhibitor.value.boothNumber.Some? then l.exhibitor.value.boothNumber.value else "")
    ensures cells[8] == (if l.notes.Some? then l.notes.value else "")
  {
    var company := if l.exhibitor.Some? then l.exhibitor.value.companyName else "";
    var booth := if l.exhibitor.Some? then l.exhibitor.value.boothNumber.GetOr("") else "";
    [localeDate(l.createdAt), TypeLabel(l.leadType), StatusLabel(l.status),
     l.visitorName.GetOr(""), l.visitorEmail, l.visitorPhone.GetOr(""), company, booth, l.notes.GetOr("")]
  }

  function ExportBody(shown: seq<Lead>, localeDate: string -> string): (body: seq<string>)
    ensures |body| == |shown|
    ensures forall k :: 0 <= k < |shown| ==> body[k] == Join(ExportRow(shown[k], localeDate), ',')
  {
    seq(|shown|, k requires 0 <= k < |shown| => Join(ExportRow(shown[k], localeDate), ','))
  }

  function ExportLines(shown: seq<Lead>, localeDate: string -> string): seq<string>
  {
    [HeaderLine()] + ExportBody(shown, localeDate)
  }

  function HeaderLine(): string
  {
    Join(ExportHeader, ',')
  }

  /** The downloaded file: the header line and one line per lead on screen, unquoted. */
  function ExportCsv(shown: seq<Lead>, localeDate: string -> string): (csv: string)
    ensures HeaderLine() <= csv
    ensures shown != [] ==> |csv| > |HeaderLine()| && csv[|HeaderLine()|] == '\n'
  {
    JoinBegins(ExportLines(shown, localeDate), '\n');
    Join(ExportLines(shown, localeDate), '\n')
  }

  /** No cell of the row holds `c`. */
  predicate RowFree(cells: seq<string>, c: char)
  {
    forall k :: 0 <= k < |cells| ==> c !in cells[k]
  }

  /** A lead whose fields hold no comma comes back as its nine cells. */
  lemma ExportRowSplits(l: Lead, localeDate: string -> string)
    requires RowFree(ExportRow(l, localeDate), ',')
    ensures Split(Join(ExportRow(l, localeDate), ','), ',') == ExportRow(l, localeDate)
  {
    SplitJoin(ExportRow(l, localeDate), ',');
  }

  /** A comma in a lead's notes shifts its row: the export does not quote, so the line splits into ten cells. */
  lemma CommaInNotesAddsCell(l: Lead, localeDate: string -> string, before: string, after: string)
    requires l.notes == Some(before + "," + after)
    requires RowFree(ExportRow(l, localeDate)[..8], ',')
    requires ',' !in before && ',' !in after
    ensures |Split(Join(ExportRow(l, localeDate), ','), ',')| == |ExportHeader| + 1
  {
    var cells := ExportRow(l, localeDate);
    var split := cells[..8] + [before, after];
    RowFree8(cells, split, before, after);
    SplitJoin(split, ',');
    JoinSplitsNote(cells, before, after);
  }

  lemma RowFree8(cells: seq<string>, split: seq<string>, before: string, after: string)
    requires |cells| == 9 && split == cells[..8] + [before, after]
    requires RowFree(cells[..8], ',') && ',' !in before && ',' !in after
    ensures |split| >= 1 && RowFree(split, ',')
  {
    forall k | 0 <= k < |split| ensures ',' !in split[k] {
      if k < 8 { assert split[k] == cells[..8][k]; }
    }
  }

  /** Joining the nine cells equals joining ten when the last one holds one comma. */
  lemma {:induction false} JoinSplitsNote(cells: seq<string>, before: string, after: string)
    requires |cells| == 9 && cells[8] == before + "," + after
    ensures Join(cells, ',') == Join(cells[..8] + [before, after], ',')
  {
    JoinLastPiece(cells, before, after);
  }

  /** A join whose last piece is `b + [c] + a` equals the join with that piece cut at the `c`. */
  lemma {:induction false} JoinLastPiece(parts: seq<string>, b: string, a: string)
    requires |parts| >= 1 && parts[|parts| - 1] == b + "," + a
    ensures Join(parts, ',') == Join(parts[..|parts| - 1] + [b, a], ',')
    decreases |parts|
  {
    var init := parts[..|parts| - 1];
    if |parts| == 1 {
      assert init + [b, a] == [b, a];
      assert Join([b, a], ',') == b + [','] + Join([a], ',');
    } else {
      var rest := parts[1..];
      JoinLastPiece(rest, b, a);
      assert rest[..|rest| - 1] + [b, a] == (init + [b, a])[1..];
      assert (init + [b, a])[0] == parts[0];
    }
  }

  /** The export holds one line per lead on screen, when no field of any of them holds a line break. */
  lemma ExportLineCount(shown: seq<Lead>, localeDate: string -> string)
    requires forall k :: 0 <= k < |shown| ==> RowFree(ExportRow(shown[k], localeDate), '\n')
    ensures |Split(ExportCsv(shown, localeDate), '\n')| == |shown| + 1
  {
    var body := ExportBody(shown, localeDate);
    forall k | 0 <= k < |body| ensures '\n' !in body[k] {
      JoinFree(ExportRow(shown[k], localeDate), '\n', ',');
    }
    HeaderHasNoBreak();
    LinesSplit(HeaderLine(), body);
  }

  /** Lines free of line breaks come back from their join. */
  lemma LinesSplit(header: string, body: seq<string>)
    requires '\n' !in header
    requires forall k :: 0 <= k < |body| ==> '\n' !in body[k]
    ensures Split(Join([header] + body, '\n'), '\n') == [header] + body
  {
    var lines := [header] + body;
    forall k | 0 <= k < |lines| ensures '\n' !in lines[k] {
      if k > 0 { assert lines[k] == body[k - 1]; }
    }
    SplitJoin(lines, '\n');
  }

  lemma HeaderHasNoBreak()
    ensures '\n' !in HeaderLine()
  {
    JoinFree(ExportHeader, '\n', ',');
  }
}
