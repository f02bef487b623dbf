/**
 * The administrator's venue page (app/admin/venue/page.tsx): an admin-only gate and the
 * summary counts shown above the layout.
 */
module VenuePage {
  import opened Common

  /** The page's summary figures. */
  datatype VenueStats = VenueStats(
    totalAreas: nat,
    totalBooths: nat,
    assignedBooths: nat,
    availableBooths: int,
    totalFacilities: nat)

  /** `rows?.length || 0`: a failed query counts as no rows. */
  function LengthOrZero<T>(rows: Option<seq<T>>): (n: nat)
    ensures rows.None? ==> n == 0
    ensures rows.Some? ==> n == |rows.value|
  {
    if rows.None? then 0 else |rows.value|
  }

  /**
   * `stats`: the assignment figure counts rows rather than distinct booths, and the
   * available figure is a plain difference that nothing clamps.
   */
  function Stats(areas: Option<seq<string>>, booths: Option<seq<string>>, assignments: Option<seq<string>>,
                 facilities: Option<seq<string>>): (s: VenueStats)
    ensures s.totalBooths == LengthOrZero(booths) && s.assignedBooths == LengthOrZero(assignments)
    ensures s.availableBooths == s.totalBooths - s.assignedBooths
    ensures s.totalAreas == LengthOrZero(areas) && s.totalFacilities == LengthOrZero(facilities)
  {
    var tb := LengthOrZero(booths);
    var ab := LengthOrZero(assignments);
    VenueStats(LengthOrZero(areas), tb, ab, tb - ab, LengthOrZero(facilities))
  }

  /** More assignment rows than booths (say two rows for one booth) give a negative figure. */
  lemma AvailableCanBeNegative()
    ensures Stats(None, Some(["b1"]), Some(["b1", "b1"]), None).availableBooths == -1
  {
  }

  /** The figure is negative exactly when there are more assignment rows than booth rows. */
  lemma AvailableNegativeIff(areas: Option<seq<string>>, booths: Option<seq<string>>,
                             assignments: Option<seq<string>>, facilities: Option<seq<string>>)
    ensures Stats(areas, booths, assignments, facilities).availableBooths < 0 <==>
      LengthOrZero(assignments) > LengthOrZero(booths)
  {
  }

  /**
   * The gate: no signed-in user goes to the login page; a user without a profile or whose
   * profile is not an admin goes to the home page; an admin sees the figures.
   */
  function VenuePageGate(user: Option<string>, profileOf: string -> Option<Profile>, stats: VenueStats)
    : (g: PageGate<VenueStats>)
    ensures user.None? <==> g.RedirectLogin?
    ensures g.Render? <==> user.Some? && profileOf(user.value).Some? && profileOf(user.value).value.userType == "admin"
    ensures g.Render? ==> g.view == stats
  {
    if user.None? then RedirectLogin
    else
      var profile := profileOf(user.value);
      if profile.None? || profile.value.userType != "admin" then RedirectHome
      else Render(stats)
  }
}
