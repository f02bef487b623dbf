/**
 * The venue view (components/venue-layout-manager.tsx): each booth's status is that of the
 * first assignment row referencing it, the area selector narrows booths and facilities,
 * and each area card counts its booths and the occupied ones.
 */
module VenueLayout {
  import opened Common
  import opened BoothAssignment

  /** A row of `venue_facilities`, reduced to its area. */
  datatype Facility = Facility(id: string, facilityName: string, venueAreaId: string)

  /** Row `k` is the first row that references the booth. */
  predicate FirstReferenceAt(assignments: seq<Assignment>, boothId: string, k: int)
  {
    0 <= k < |assignments| && assignments[k].boothPositionId == boothId &&
    forall j :: 0 <= j < k ==> assignments[j].boothPositionId != boothId
  }

  /** `boothAssignments.find(a => a.booth_position_id === boothId)`. */
  function FirstAssignment(assignments: seq<Assignment>, boothId: string): (r: Option<Assignment>)
    ensures r.None? <==> !BoothReferenced(assignments, boothId)
    ensures r.Some? ==> exists k :: FirstReferenceAt(assignments, boothId, k) && assignments[k] == r.value
  {
    if assignments == [] then None
    else if assignments[0].boothPositionId == boothId then
      assert FirstReferenceAt(assignments, boothId, 0);
      Some(assignments[0])
    else
      var r := FirstAssignment(assignments[1..], boothId);
      if r.Some? then
        var k :| FirstReferenceAt(assignments[1..], boothId, k) && assignments[1..][k] == r.value;
        assert FirstReferenceAt(assignments, boothId, k + 1);
        r
      else r
  }

  /** `getBoothStatus`: the first referencing row's status, or "available". */
  function BoothStatus(assignments: seq<Assignment>, boothId: string): (s: string)
    ensures !BoothReferenced(assignments, boothId) ==> s == "available"
    ensures BoothReferenced(assignments, boothId) ==>
      exists k :: FirstReferenceAt(assignments, boothId, k) && s == assignments[k].status
  {
    match FirstAssignment(assignments, boothId)
    case None => "available"
    case Some(a) => a.status
  }

  /**
   * `getBoothAssignment` followed by `assignment.exhibitors.company_name`: the company of the
   * first referencing row, or no company line at all.
   */
  function BoothCompany(assignments: seq<Assignment>, boothId: string): (c: Option<string>)
    ensures c.None? <==> !BoothReferenced(assignments, boothId)
    ensures c.Some? ==> exists k :: FirstReferenceAt(assignments, boothId, k) && c.value == assignments[k].companyName
  {
    match FirstAssignment(assignments, boothId)
    case None => None
    case Some(a) => Some(a.companyName)
  }

  /** At most one row is the first to reference a booth. */
  lemma FirstReferenceUnique(assignments: seq<Assignment>, boothId: string, k1: int, k2: int)
    requires FirstReferenceAt(assignments, boothId, k1) && FirstReferenceAt(assignments, boothId, k2)
    ensures k1 == k2
  {
  }

  /**
   * A booth's card shows the status and the company of one and the same row, the first one
   * referencing it; a booth without a company line shows "available".
   */
  lemma StatusAndCompanyAgree(assignments: seq<Assignment>, boothId: string, k: int)
    requires FirstReferenceAt(assignments, boothId, k)
    ensures BoothStatus(assignments, boothId) == assignments[k].status
    ensures BoothCompany(assignments, boothId) == Some(assignments[k].companyName)
  {
    var s := BoothStatus(assignments, boothId);
    var ks :| FirstReferenceAt(assignments, boothId, ks) && s == assignments[ks].status;
    FirstReferenceUnique(assignments, boothId, k, ks);
    var c := BoothCompany(assignments, boothId);
    var kc :| FirstReferenceAt(assignments, boothId, kc) && c.value == assignments[kc].companyName;
    FirstReferenceUnique(assignments, boothId, k, kc);
  }

  /** A booth with no company line shows "available". */
  lemma NoCompanyMeansAvailable(assignments: seq<Assignment>, boothId: string)
    requires BoothCompany(assignments, boothId).None?
    ensures BoothStatus(assignments, boothId) == "available"
  {
  }

  /**
   * Of two rows for one booth, the earlier decides: a later row (for instance a newer
   * list order) does not change the status shown.
   */
  lemma EarlierRowDecides(assignments: seq<Assignment>, a: Assignment)
    requires BoothReferenced(assignments, a.boothPositionId)
    ensures BoothStatus(assignments + [a], a.boothPositionId) == BoothStatus(assignments, a.boothPositionId)
  {
    FirstOfAppend(assignments, [a], a.boothPositionId);
  }

  lemma {:induction false} FirstOfAppend(xs: seq<Assignment>, ys: seq<Assignment>, boothId: string)
    requires BoothReferenced(xs, boothId)
    ensures FirstAssignment(xs + ys, boothId) == FirstAssignment(xs, boothId)
  {
    if xs[0].boothPositionId != boothId {
      assert (xs + ys)[1..] == xs[1..] + ys;
      var k :| 0 <= k < |xs| && xs[k].boothPositionId == boothId;
      assert xs[1..][k - 1] == xs[k];
      FirstOfAppend(xs[1..], ys, boothId);
    }
  }

  /** The area selector: "all" keeps everything, an area id keeps exactly its items, in order. */
  function ByArea<T(!new)>(items: seq<T>, areaOf: T -> string, selected: string): (r: seq<T>)
    ensures selected == "all" ==> r == items
    ensures selected != "all" ==> forall x :: x in r <==> x in items && areaOf(x) == selected
  {
    if selected == "all" then items else Filter(items, x => areaOf(x) == selected)
  }

  function FilteredBooths(booths: seq<BoothPosition>, selected: string): seq<BoothPosition>
  {
    ByArea(booths, (b: BoothPosition) => b.venueAreaId, selected)
  }

  function FilteredFacilities(facilities: seq<Facility>, selected: string): seq<Facility>
  {
    ByArea(facilities, (f: Facility) => f.venueAreaId, selected)
  }

  /** An area card's booths. */
  function AreaBooths(booths: seq<BoothPosition>, areaId: string): seq<BoothPosition>
  {
    Filter(booths, (b: BoothPosition) => b.venueAreaId == areaId)
  }

  predicate Occupied(assignments: seq<Assignment>, b: BoothPosition)
  {
    BoothStatus(assignments, b.id) != "available"
  }

  /** An area card's "Ocupados": its booths whose status is not "available". */
  function OccupiedCount(booths: seq<BoothPosition>, assignments: seq<Assignment>, areaId: string): (n: nat)
    ensures n <= |AreaBooths(booths, areaId)|
    ensures n == CountWhere(AreaBooths(booths, areaId), (b: BoothPosition) => Occupied(assignments, b))
  {
    |Filter(AreaBooths(booths, areaId), (b: BoothPosition) => Occupied(assignments, b))|
  }

  /**
   * When no row carries the status "available", a booth counts as occupied exactly when
   * some row references it.
   */
  lemma OccupiedIffReferenced(assignments: seq<Assignment>, b: BoothPosition)
    requires forall k :: 0 <= k < |assignments| ==> assignments[k].status != "available"
    ensures Occupied(assignments, b) <==> BoothReferenced(assignments, b.id)
  {
    var r := FirstAssignment(assignments, b.id);
    if r.Some? {
      var k :| 0 <= k < |assignments| && assignments[k] == r.value;
    }
  }

  /** The status badge of the venue view: "breakdown" and any unknown status read "Completado". */
  function VenueStatusLabel(status: string): (shown: string)
    ensures status == "available" <==> shown == "Disponible"
    ensures status == "assigned" <==> shown == "Asignado"
    ensures status == "confirmed" <==> shown == "Confirmado"
    ensures status == "setup" <==> shown == "Montaje"
    ensures status == "active" <==> shown == "Activo"
    ensures status !in {"available", "assigned", "confirmed", "setup", "active"} <==> shown == "Completado"
  {
    if status == "available" then "Disponible"
    else if status == "assigned" then "Asignado"
    else if status == "confirmed" then "Confirmado"
    else if status == "setup" then "Montaje"
    else if status == "active" then "Activo"
    else "Completado"
  }

  /**
   * The venue view and the assignment manager label a status differently exactly for
   * "breakdown" (which only the manager calls "Desmontaje") and "available" (which only the
   * venue view knows); on the rest of the ladder and for every unknown status they agree.
   */
  lemma LabelsDisagreeOnBreakdown(status: string)
    ensures VenueStatusLabel(status) != AssignmentStatusLabel(status) <==>
      status == "breakdown" || status == "available"
  {
  }

  const AvailableColor: string := "bg-green-100 text-green-800 border-green-200"
  const AssignedColor: string := "bg-blue-100 text-blue-800 border-blue-200"
  const ConfirmedColor: string := "bg-purple-100 text-purple-800 border-purple-200"
  const SetupColor: string := "bg-yellow-100 text-yellow-800 border-yellow-200"
  const ActiveColor: string := "bg-orange-100 text-orange-800 border-orange-200"
  const CompletedColor: string := "bg-gray-100 text-gray-800 border-gray-200"

  /** `getStatusColor`: "breakdown", like any unknown status, gets the colour of "available". */
  function StatusColor(status: string): (c: string)
    ensures c == AssignedColor <==> status == "assigned"
    ensures c == ConfirmedColor <==> status == "confirmed"
    ensures c == SetupColor <==> status == "setup"
    ensures c == ActiveColor <==> status == "active"
    ensures c == CompletedColor <==> status == "completed"
    ensures c == AvailableColor <==> status !in {"assigned", "confirmed", "setup", "active", "completed"}
    ensures status == "available" || status == "breakdown" || status !in Ladder ==> c == AvailableColor
  {
    if status == "assigned" then AssignedColor
    else if status == "confirmed" then ConfirmedColor
    else if status == "setup" then SetupColor
    else if status == "active" then ActiveColor
    else if status == "completed" then CompletedColor
    else AvailableColor
  }
}
