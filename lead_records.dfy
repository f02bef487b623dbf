/**
 * The `leads` table: one row per benefit or meeting request, the single-row status write
 * the leads table makes, and the newest-first order in which lists of leads are read.
 * Timestamps are the store's strings; `timeOf` gives the instant one denotes.
 */
module LeadRecords {
  import opened Common
  import opened Sorting

  /** The exhibitor columns a lead is read with. */
  datatype ExhibitorInfo = ExhibitorInfo(companyName: string, boothNumber: Option<string>)

  datatype Lead = Lead(
    id: string,
    exhibitorId: string,
    visitorEmail: string,
    visitorPhone: Option<string>,
    visitorName: Option<string>,
    leadType: string,
    status: string,
    notes: Option<string>,
    createdAt: string,
    updatedAt: string,
    exhibitor: Option<ExhibitorInfo>)

  /** `notes || null`: an empty note is stored as no note. */
  function StoredNotes(notes: Option<string>): (r: Option<string>)
    ensures r.None? <==> notes.None? || notes.value == ""
    ensures r.Some? ==> r == notes
  {
    if notes.Some? && notes.value != "" then notes else None
  }

  /** `update leads set status, notes, updated_at where id = id`. */
  function UpdateStatus(rows: seq<Lead>, id: string, status: string, notes: Option<string>, now: string): (r: seq<Lead>)
    ensures |r| == |rows|
    ensures forall i :: 0 <= i < |rows| && rows[i].id != id ==> r[i] == rows[i]
    ensures forall i :: 0 <= i < |rows| && rows[i].id == id ==>
      r[i] == rows[i].(status := status, notes := StoredNotes(notes), updatedAt := now)
  {
    seq(|rows|, i requires 0 <= i < |rows| =>
      if rows[i].id == id then rows[i].(status := status, notes := StoredNotes(notes), updatedAt := now)
      else rows[i])
  }

  /** A status write without notes erases whatever notes the lead had. */
  lemma StatusWriteClearsNotes(rows: seq<Lead>, id: string, status: string, now: string)
    ensures forall i :: 0 <= i < |rows| && rows[i].id == id ==>
      UpdateStatus(rows, id, status, None, now)[i].notes.None? &&
      UpdateStatus(rows, id, status, None, now)[i].status == status
  {
  }

  /** The badge: the three known statuses in Spanish, any other status as it is stored. */
  function StatusBadge(status: string): (r: string)
    ensures status in {"pending", "contacted", "completed"} ==> r in {"Pendiente", "Contactado", "Completado"}
    ensures status !in {"pending", "contacted", "completed"} ==> r == status
  {
    if status == "pending" then "Pendiente"
    else if status == "contacted" then "Contactado"
    else if status == "completed" then "Completado"
    else status
  }

  /** The store's `leads` table. */
  class LeadTable {
    var rows: seq<Lead>

    constructor (initial: seq<Lead>)
      ensures rows == initial
    {
      rows := initial;
    }

    method WriteStatus(id: string, status: string, notes: Option<string>, now: string, fails: bool) returns (ok: bool)
      modifies this
      ensures ok == !fails
      ensures rows == if ok then UpdateStatus(old(rows), id, status, notes, now) else old(rows)
    {
      ok := !fails;
      if ok {
        rows := UpdateStatus(rows, id, status, notes, now);
      }
    }
  }

  // ---------------------------------------------------------------- newest first

  /** The sort key of every list of leads: the instant of `created_at`. */
  function LeadTime(timeOf: string -> int): Lead -> int
  {
    (l: Lead) => timeOf(l.createdAt)
  }

  predicate NewestFirstOrdered(s: seq<Lead>, timeOf: string -> int)
  {
    SortedDesc(s, LeadTime(timeOf))
  }

  /** `order("created_at", { ascending: false })` and `sort` by time, newest first, stable. */
  function NewestFirst(s: seq<Lead>, timeOf: string -> int): (r: seq<Lead>)
    ensures |r| == |s|
  {
    SortDesc(s, LeadTime(timeOf))
  }
}
