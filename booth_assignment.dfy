/**
 * Booth assignment (components/booth-assignment-manager.tsx): which booths and exhibitors
 * the form offers, the insert that creates an assignment, and the one-step status ladder
 * the list's buttons walk an assignment through.
 */
module BoothAssignment {
  import opened Common

  /** A row of `booth_positions`, reduced to the fields the rules read. */
  datatype BoothPosition = BoothPosition(
    id: string,
    venueAreaId: string,
    boothNumber: string,
    boothType: string,
    isAvailable: bool)

  /** A row of `booth_assignments`. Optional text columns are kept as strings ("" when unset). */
  datatype Assignment = Assignment(
    id: string,
    boothPositionId: string,
    exhibitorId: string,
    companyName: string,
    startDate: string,
    endDate: string,
    status: string)

  /** An exhibitor as the form lists it. */
  datatype AssignableExhibitor = AssignableExhibitor(id: string, companyName: string, contactEmail: string)

  /** `assignmentForm`. */
  datatype AssignmentForm = AssignmentForm(
    boothPositionId: string,
    exhibitorId: string,
    assignmentDate: string,
    startDate: string,
    endDate: string,
    setupTime: string,
    breakdownTime: string,
    specialRequirements: string)

  /** The row `createAssignment` inserts: the form plus a status. */
  datatype AssignmentDraft = AssignmentDraft(form: AssignmentForm, status: string)

  /** The form as it starts and as a successful assignment leaves it: empty, dated today. */
  function EmptyForm(today: string): AssignmentForm
  {
    AssignmentForm("", "", today, "", "", "", "", "")
  }

  /** Some assignment row references this booth, whatever its status or dates. */
  predicate BoothReferenced(assignments: seq<Assignment>, boothId: string)
  {
    exists k :: 0 <= k < |assignments| && assignments[k].boothPositionId == boothId
  }

  predicate ExhibitorReferenced(assignments: seq<Assignment>, exhibitorId: string)
  {
    exists k :: 0 <= k < |assignments| && assignments[k].exhibitorId == exhibitorId
  }

  /** `assignedBoothIds.includes(id)`, as a scan of the booth ids of the assignment rows. */
  function BoothIdListed(assignments: seq<Assignment>, boothId: string): (b: bool)
    ensures b <==> BoothReferenced(assignments, boothId)
  {
    if assignments == [] then false
    else assignments[0].boothPositionId == boothId || BoothIdListed(assignments[1..], boothId)
  }

  function ExhibitorIdListed(assignments: seq<Assignment>, exhibitorId: string): (b: bool)
    ensures b <==> ExhibitorReferenced(assignments, exhibitorId)
  {
    if assignments == [] then false
    else assignments[0].exhibitorId == exhibitorId || ExhibitorIdListed(assignments[1..], exhibitorId)
  }

  /** `getAvailableBooths`: flagged available and referenced by no assignment row, in order. */
  function AvailableBooths(booths: seq<BoothPosition>, assignments: seq<Assignment>): (r: seq<BoothPosition>)
    ensures |r| <= |booths|
    ensures forall b :: b in r ==> b in booths && b.isAvailable && !BoothIdListed(assignments, b.id)
  {
    Filter(booths, (b: BoothPosition) => !BoothIdListed(assignments, b.id) && b.isAvailable)
  }

  /** `getUnassignedExhibitors`: referenced by no assignment row, in order. */
  function UnassignedExhibitors(exhibitors: seq<AssignableExhibitor>, assignments: seq<Assignment>)
    : (r: seq<AssignableExhibitor>)
    ensures |r| <= |exhibitors|
    ensures forall e :: e in r ==> e in exhibitors && !ExhibitorIdListed(assignments, e.id)
  {
    Filter(exhibitors, (e: AssignableExhibitor) => !ExhibitorIdListed(assignments, e.id))
  }

  /** A booth is offered exactly when it is flagged available and no row references it. */
  lemma AvailableBoothIff(booths: seq<BoothPosition>, assignments: seq<Assignment>, b: BoothPosition)
    ensures b in AvailableBooths(booths, assignments) <==>
      b in booths && b.isAvailable && forall k :: 0 <= k < |assignments| ==> assignments[k].boothPositionId != b.id
  {
  }

  /** An exhibitor is offered exactly when no row references it. */
  lemma UnassignedExhibitorIff(exhibitors: seq<AssignableExhibitor>, assignments: seq<Assignment>,
                               e: AssignableExhibitor)
    ensures e in UnassignedExhibitors(exhibitors, assignments) <==>
      e in exhibitors && forall k :: 0 <= k < |assignments| ==> assignments[k].exhibitorId != e.id
  {
  }

  /** Once a row references a booth and an exhibitor, neither is offered again. */
  lemma AssignedIsNoLongerOffered(booths: seq<BoothPosition>, exhibitors: seq<AssignableExhibitor>,
                                  assignments: seq<Assignment>, a: Assignment)
    ensures forall b :: b in AvailableBooths(booths, assignments + [a]) ==> b.id != a.boothPositionId
    ensures forall e :: e in UnassignedExhibitors(exhibitors, assignments + [a]) ==> e.id != a.exhibitorId
  {
    var all := assignments + [a];
    assert all[|assignments|] == a;
  }

  /**
   * The "Asignar Stand" button is enabled exactly when no assignment is in progress and some
   * booth and some exhibitor can be assigned.
   */
  function AssignButtonEnabled(isAssigning: bool, booths: seq<BoothPosition>,
                               exhibitors: seq<AssignableExhibitor>, assignments: seq<Assignment>): (e: bool)
    ensures e <==> (!isAssigning &&
                    (exists b :: b in booths && b.isAvailable && !BoothReferenced(assignments, b.id)) &&
                    (exists x :: x in exhibitors && !ExhibitorReferenced(assignments, x.id)))
  {
    var avail := AvailableBooths(booths, assignments);
    var free := UnassignedExhibitors(exhibitors, assignments);
    assert |avail| != 0 ==> avail[0] in avail;
    assert |free| != 0 ==> free[0] in free;
    !isAssigning && |avail| != 0 && |free| != 0
  }

  /** The status ladder an assignment is walked through. */
  const Ladder: seq<string> := ["assigned", "confirmed", "setup", "active", "breakdown", "completed"]

  /** The one transition the list offers for a status, if any. */
  function NextStatus(status: string): (r: Option<string>)
    ensures r.Some? <==> status in Ladder[..5]
    ensures r.Some? ==> r.value in Ladder[1..]
    ensures status == "completed" ==> r.None?
  {
    assert Ladder[..5] == ["assigned", "confirmed", "setup", "active", "breakdown"];
    if status == "assigned" then Some("confirmed")
    else if status == "confirmed" then Some("setup")
    else if status == "setup" then Some("active")
    else if status == "active" then Some("breakdown")
    else if status == "breakdown" then Some("completed")
    else None
  }

  /** Every ladder status but the last offers exactly its successor; the last and any other offer none. */
  lemma NextStatusFollowsLadder(status: string)
    ensures forall i :: 0 <= i < 5 ==> NextStatus(Ladder[i]) == Some(Ladder[i + 1])
    ensures NextStatus(status).Some? <==> status in Ladder[..5]
    ensures NextStatus("completed") == None
  {
  }

  /** The position of a status on the ladder: each offered step moves one rung up. */
  function Rank(status: string): (r: int)
    ensures -1 <= r < |Ladder|
    ensures r >= 0 ==> Ladder[r] == status
    ensures r == -1 <==> status !in Ladder
  {
    if status == "assigned" then 0
    else if status == "confirmed" then 1
    else if status == "setup" then 2
    else if status == "active" then 3
    else if status == "breakdown" then 4
    else if status == "completed" then 5
    else -1
  }

  lemma NextStatusRaisesRank(status: string)
    requires NextStatus(status).Some?
    ensures Rank(NextStatus(status).value) == Rank(status) + 1
  {
  }

  /** The labels of the manager's badges: anything past breakdown reads "Completado". */
  function AssignmentStatusLabel(status: string): (shown: string)
    ensures status == "assigned" <==> shown == "Asignado"
    ensures status == "confirmed" <==> shown == "Confirmado"
    ensures status == "setup" <==> shown == "Montaje"
    ensures status == "active" <==> shown == "Activo"
    ensures status == "breakdown" <==> shown == "Desmontaje"
    ensures status !in Ladder[..5] <==> shown == "Completado"
  {
    assert Ladder[..5] == ["assigned", "confirmed", "setup", "active", "breakdown"];
    if status == "assigned" then "Asignado"
    else if status == "confirmed" then "Confirmado"
    else if status == "setup" then "Montaje"
    else if status == "active" then "Activo"
    else if status == "breakdown" then "Desmontaje"
    else "Completado"
  }

  /** `update booth_assignments set assignment_status = s where id = id`. */
  function SetStatus(rows: seq<Assignment>, id: string, s: string): (r: seq<Assignment>)
    ensures |r| == |rows|
    ensures forall k :: 0 <= k < |rows| ==>
      r[k] == if rows[k].id == id then rows[k].(status := s) else rows[k]
  {
    seq(|rows|, k requires 0 <= k < |rows| => if rows[k].id == id then rows[k].(status := s) else rows[k])
  }

  predicate AllOnLadder(rows: seq<Assignment>)
  {
    forall k :: 0 <= k < |rows| ==> rows[k].status in Ladder
  }

  /**
   * Walking rows only through offered steps keeps every status on the ladder, and a row
   * whose stored status is the one the button was offered for moves exactly one rung up.
   */
  lemma OfferedStepKeepsLadder(rows: seq<Assignment>, id: string, current: string)
    requires AllOnLadder(rows)
    requires NextStatus(current).Some?
    ensures AllOnLadder(SetStatus(rows, id, NextStatus(current).value))
    ensures forall k :: 0 <= k < |rows| && rows[k].id == id && rows[k].status == current ==>
      Rank(SetStatus(rows, id, NextStatus(current).value)[k].status) == Rank(rows[k].status) + 1
  {
    NextStatusRaisesRank(current);
  }

  /** The store's `booth_assignments` table. */
  class AssignmentTable {
    var rows: seq<Assignment>

    constructor (initial: seq<Assignment>)
      ensures rows == initial
    {
      rows := initial;
    }

    /** `updateAssignmentStatus(id, s)`: the status of the rows with that id, and nothing else. */
    method UpdateStatus(id: string, s: string, fails: bool) returns (ok: bool)
      modifies this
      ensures ok == !fails
      ensures rows == if ok then SetStatus(old(rows), id, s) else old(rows)
    {
      ok := !fails;
      if ok {
        rows := SetStatus(rows, id, s);
      }
    }
  }

  /** The form half of the manager. */
  class AssignmentManager {
    var isAssigning: bool
    var form: AssignmentForm

    constructor (today: string)
      ensures !isAssigning && form == EmptyForm(today)
    {
      isAssigning, form := false, EmptyForm(today);
    }

    /**
     * `createAssignment`; `today` is the date the reset form carries. Missing booth,
     * exhibitor, start or end is refused; start after end is not.
     */
    method CreateAssignment(store: InsertLog<AssignmentDraft>, today: string, fails: bool)
      returns (inserted: bool)
      modifies this, store
      ensures var f := old(form);
        f.boothPositionId == "" || f.exhibitorId == "" || f.startDate == "" || f.endDate == "" ==>
          !inserted && store.batches == old(store.batches) && form == old(form) && isAssigning == old(isAssigning)
      ensures var f := old(form);
        f.boothPositionId != "" && f.exhibitorId != "" && f.startDate != "" && f.endDate != "" ==>
          inserted == !fails && !isAssigning &&
          store.batches == old(store.batches) + (if fails then [] else [[AssignmentDraft(f, Ladder[0])]]) &&
          form == (if fails then f else EmptyForm(today))
    {
      if form.boothPositionId == "" || form.exhibitorId == "" || form.startDate == "" || form.endDate == "" {
        return false;
      }
      isAssigning := true;
      inserted := store.Insert([AssignmentDraft(form, "assigned")], fails);
      if inserted {
        form := EmptyForm(today);
      }
      isAssigning := false;
    }

    /** A status button: present only when the ladder offers a step, and then it writes that step. */
    method AdvanceStatus(table: AssignmentTable, a: Assignment, fails: bool) returns (ok: bool)
      modifies table
      ensures NextStatus(a.status).None? ==> !ok && table.rows == old(table.rows)
      ensures NextStatus(a.status).Some? ==>
        ok == !fails &&
        table.rows == if ok then SetStatus(old(table.rows), a.id, NextStatus(a.status).value) else old(table.rows)
    {
      var next := NextStatus(a.status);
      if next.None? {
        return false;
      }
      ok := table.UpdateStatus(a.id, next.value, fails);
    }
  }
}
