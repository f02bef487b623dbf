/**
 * The leads page: who may open it, and which leads it reads for them. An exhibitor reads
 * the leads addressed to its own exhibitor row, an administrator every lead, newest first.
 */
module LeadsPage {
  import opened Common
  import opened LeadRecords
  import opened Sorting

  datatype LeadsPageView = LeadsPageView(leads: seq<Lead>, userType: string, title: string)

  /** The query's narrowing: an exhibitor id that is present and not empty restricts to that exhibitor. */
  function Visible(all: seq<Lead>, userType: string, exhibitorId: Option<string>): (r: seq<Lead>)
    ensures userType == "exhibitor" && exhibitorId.Some? && exhibitorId.value != "" ==>
      forall l :: l in r <==> l in all && l.exhibitorId == exhibitorId.value
    ensures !(userType == "exhibitor" && exhibitorId.Some? && exhibitorId.value != "") ==> r == all
  {
    if userType == "exhibitor" && exhibitorId.Some? && exhibitorId.value != "" then
      Filter(all, (l: Lead) => l.exhibitorId == exhibitorId.value)
    else all
  }

  /**
   * The page for signed-in `user`: `profileOf` and `exhibitorOf` are the `profiles` and
   * `exhibitors` lookups by user id, `all` the `leads` table and `queryFails` whether the
   * leads query answered with an error, in which case the table is shown empty.
   */
  function LeadsPageGate(user: Option<string>, profileOf: string -> Option<Profile>,
                         exhibitorOf: string -> Option<string>, all: seq<Lead>, queryFails: bool,
                         timeOf: string -> int): (g: PageGate<LeadsPageView>)
    ensures user.None? <==> g.RedirectLogin?
    ensures g.Render? <==> (user.Some? && profileOf(user.value).Some? &&
      (profileOf(user.value).value.userType == "admin" ||
       (profileOf(user.value).value.userType == "exhibitor" && exhibitorOf(user.value).Some?)))
    ensures g.Render? ==> g.view.userType == profileOf(user.value).value.userType
    ensures g.Render? ==> NewestFirstOrdered(g.view.leads, timeOf)
    ensures g.Render? && queryFails ==> g.view.leads == []
  {
    if user.None? then RedirectLogin
    else
      var profile := profileOf(user.value);
      if profile.None? || (profile.value.userType != "exhibitor" && profile.value.userType != "admin") then RedirectHome
      else
        var exhibitorId := if profile.value.userType == "exhibitor" then exhibitorOf(user.value) else None;
        if profile.value.userType == "exhibitor" && exhibitorId.None? then RedirectHome
        else
          var visible := Visible(all, profile.value.userType, exhibitorId);
          var rows := if queryFails then [] else NewestFirst(visible, timeOf);
          Render(LeadsPageView(rows, profile.value.userType,
                               if profile.value.userType == "admin" then "Gestión de Leads" else "Mis Leads"))
  }

  /** An exhibitor with a non-empty exhibitor id sees exactly the leads addressed to it. */
  lemma ExhibitorSeesOwnLeads(user: string, profileOf: string -> Option<Profile>, exhibitorOf: string -> Option<string>,
                              all: seq<Lead>, timeOf: string -> int)
    requires profileOf(user).Some? && profileOf(user).value.userType == "exhibitor"
    requires exhibitorOf(user).Some? && exhibitorOf(user).value != ""
    ensures LeadsPageGate(Some(user), profileOf, exhibitorOf, all, false, timeOf).Render?
    ensures forall l :: l in LeadsPageGate(Some(user), profileOf, exhibitorOf, all, false, timeOf).view.leads <==>
      l in all && l.exhibitorId == exhibitorOf(user).value
  {
    SortDescSameElements(Visible(all, "exhibitor", exhibitorOf(user)), LeadTime(timeOf));
  }

  /** An administrator sees every lead, each as often as it is stored. */
  lemma AdminSeesAll(user: string, profileOf: string -> Option<Profile>, exhibitorOf: string -> Option<string>,
                     all: seq<Lead>, timeOf: string -> int)
    requires profileOf(user).Some? && profileOf(user).value.userType == "admin"
    ensures LeadsPageGate(Some(user), profileOf, exhibitorOf, all, false, timeOf).Render?
    ensures multiset(LeadsPageGate(Some(user), profileOf, exhibitorOf, all, false, timeOf).view.leads) == multiset(all)
    ensures LeadsPageGate(Some(user), profileOf, exhibitorOf, all, false, timeOf).view.title == "Gestión de Leads"
  {
    SortDescPermutes(all, LeadTime(timeOf));
  }

  /** A visitor, or an exhibitor without an exhibitor row, is sent home. */
  lemma OthersGoHome(user: string, profileOf: string -> Option<Profile>, exhibitorOf: string -> Option<string>,
                     all: seq<Lead>, queryFails: bool, timeOf: string -> int)
    requires profileOf(user).None? || profileOf(user).value.userType !in {"exhibitor", "admin"} ||
      (profileOf(user).value.userType == "exhibitor" && exhibitorOf(user).None?)
    ensures LeadsPageGate(Some(user), profileOf, exhibitorOf, all, queryFails, timeOf).RedirectHome?
  {
  }
}
