/**
 * The administrator's exhibitor table: the search over company, e-mail and booth, the
 * active switch, and the cells and footer the table draws.
 */
module ExhibitorManagement {
  import opened Common
  import opened Text

  /** The columns of an exhibitor row the table searches, draws and writes. */
  datatype ManagedExhibitor = ManagedExhibitor(id: string, companyName: string, contactEmail: string,
                                               boothNumber: Option<string>, isActive: bool,
                                               leads: Option<seq<string>>)

  /** The search: company name, contact e-mail, or booth number when there is one. */
  predicate SearchMatch(e: ManagedExhibitor, term: string)
  {
    IncludesIgnoreCase(e.companyName, term) ||
    IncludesIgnoreCase(e.contactEmail, term) ||
    (e.boothNumber.Some? && IncludesIgnoreCase(e.boothNumber.value, term))
  }

  function MatchesTerm(term: string): ManagedExhibitor -> bool
  {
    (e: ManagedExhibitor) => SearchMatch(e, term)
  }

  /** What `applySearch` shows: everything for an empty term, otherwise the matches in order. */
  function Searched(exhibitors: seq<ManagedExhibitor>, term: string): (r: seq<ManagedExhibitor>)
    ensures |r| <= |exhibitors|
    ensures term == "" ==> r == exhibitors
    ensures term != "" ==> forall e :: e in r <==> e in exhibitors && SearchMatch(e, term)
  {
    if term == "" then exhibitors else Filter(exhibitors, MatchesTerm(term))
  }

  /** Lengthening a non-empty term never brings back an exhibitor the shorter term hid. */
  lemma TypingMoreNarrows(exhibitors: seq<ManagedExhibitor>, term: string, more: string)
    requires term != ""
    ensures forall e :: e in Searched(exhibitors, term + more) ==> e in Searched(exhibitors, term)
  {
    forall e | e in Searched(exhibitors, term + more) ensures e in Searched(exhibitors, term) {
      IncludesIgnoreCaseNarrows(e.companyName, term, more);
      IncludesIgnoreCaseNarrows(e.contactEmail, term, more);
      if e.boothNumber.Some? {
        IncludesIgnoreCaseNarrows(e.boothNumber.value, term, more);
      }
    }
  }

  /** The switch's write: `is_active` on the rows with that id, and on no other. */
  function SetActive(rows: seq<ManagedExhibitor>, id: string, active: bool): (r: seq<ManagedExhibitor>)
    ensures |r| == |rows|
    ensures forall k :: 0 <= k < |rows| ==>
      r[k] == if rows[k].id == id then rows[k].(isActive := active) else rows[k]
  {
    seq(|rows|, k requires 0 <= k < |rows| => if rows[k].id == id then rows[k].(isActive := active) else rows[k])
  }

  /** The last write wins, and writing the status a row already has changes nothing. */
  lemma SetActiveSettles(rows: seq<ManagedExhibitor>, id: string, a: bool, b: bool)
    ensures SetActive(SetActive(rows, id, a), id, b) == SetActive(rows, id, b)
    ensures (forall k :: 0 <= k < |rows| && rows[k].id == id ==> rows[k].isActive == b) ==>
      SetActive(rows, id, b) == rows
  {
    assert SetActive(SetActive(rows, id, a), id, b) == SetActive(rows, id, b);
  }

  /** The leads cell: the number of leads, zero when the row came without them. */
  function LeadBadge(e: ManagedExhibitor): (n: nat)
    ensures n == 0 <==> e.leads.None? || e.leads.value == []
    ensures e.leads.Some? ==> n == |e.leads.value|
  {
    if e.leads.Some? then |e.leads.value| else 0
  }

  function StatusBadge(isActive: bool): (r: string)
    ensures r == "Activo" <==> isActive
    ensures r == "Inactivo" <==> !isActive
  {
    if isActive then "Activo" else "Inactivo"
  }

  /** The booth cell: the booth number, or "Sin asignar" when it is missing or empty. */
  function BoothCell(e: ManagedExhibitor): (r: string)
    ensures e.boothNumber.Some? && e.boothNumber.value != "" ==> r == e.boothNumber.value
    ensures e.boothNumber.None? || e.boothNumber.value == "" ==> r == "Sin asignar"
  {
    OrElse(e.boothNumber, "Sin asignar")
  }

  /** The store's `exhibitors` table, as far as the switch touches it. */
  class ExhibitorTable {
    var rows: seq<ManagedExhibitor>

    constructor (initial: seq<ManagedExhibitor>)
      ensures rows == initial
    {
      rows := initial;
    }

    /** `update({ is_active }).eq("id", id)`; `fails` is the store's answer. */
    method WriteActive(id: string, active: bool, fails: bool) returns (ok: bool)
      modifies this
      ensures ok == !fails
      ensures rows == if ok then SetActive(old(rows), id, active) else old(rows)
    {
      ok := !fails;
      if ok {
        rows := SetActive(rows, id, active);
      }
    }
  }

  /** The component's state over the exhibitors it was given. */
  class ManagementView {
    const exhibitors: seq<ManagedExhibitor>
    var searchTerm: string
    var filteredExhibitors: seq<ManagedExhibitor>
    var isUpdating: bool
    var updateSuccess: bool

    constructor (exhibitors: seq<ManagedExhibitor>)
      ensures this.exhibitors == exhibitors && searchTerm == "" && filteredExhibitors == exhibitors
      ensures !isUpdating && !updateSuccess
    {
      this.exhibitors := exhibitors;
      searchTerm := "";
      filteredExhibitors := exhibitors;
      isUpdating, updateSuccess := false, false;
    }

    /** `applySearch`: the list for the current term; the footer's count never exceeds the total. */
    method ApplySearch()
      modifies this
      ensures filteredExhibitors == Searched(exhibitors, searchTerm)
      ensures |filteredExhibitors| <= |exhibitors|
      ensures searchTerm == old(searchTerm) && isUpdating == old(isUpdating) && updateSuccess == old(updateSuccess)
    {
      if searchTerm == "" {
        filteredExhibitors := exhibitors;
        return;
      }
      var term := searchTerm;
      filteredExhibitors := Filter(exhibitors, (e: ManagedExhibitor) => SearchMatch(e, term));
      FilterSame(exhibitors, (e: ManagedExhibitor) => SearchMatch(e, term), MatchesTerm(term));
    }

    /** `toggleExhibitorStatus`: writes the switch and records success; a failure is only logged. */
    method ToggleExhibitorStatus(table: ExhibitorTable, id: string, newStatus: bool, fails: bool)
      modifies this, table
      ensures table.rows == if fails then old(table.rows) else SetActive(old(table.rows), id, newStatus)
      ensures !isUpdating && updateSuccess == (old(updateSuccess) || !fails)
      ensures searchTerm == old(searchTerm) && filteredExhibitors == old(filteredExhibitors)
    {
      isUpdating := true;
      var ok := table.WriteActive(id, newStatus, fails);
      if ok {
        updateSuccess := true;
      }
      isUpdating := false;
    }
  }
}
