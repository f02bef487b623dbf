/**
 * The dashboard's recent activity card: the leads it was handed, sorted newest first in
 * place, and the first ten of them.
 */
module RecentActivity {
  import opened Common
  import opened LeadRecords
  import opened Sorting

  const ActivitySize: nat := 10

  /** `leads.sort((a, b) => time(b) - time(a))`: a stable insertion sort of the array itself. */
  method SortNewestFirst(a: array<Lead>, timeOf: string -> int)
    modifies a
    ensures a[..] == NewestFirst(old(a[..]), timeOf)
  {
    ghost var orig := a[..];
    var i := 0;
    while i < a.Length
      invariant 0 <= i <= a.Length
      invariant a[..i] == NewestFirst(orig[..i], timeOf)
      invariant a[i..] == orig[i..]
    {
      InsertNext(a, i, timeOf);
      assert a[..i + 1] == NewestFirst(orig[..i + 1], timeOf) by {
        SortDescStep(orig, i, LeadTime(timeOf));
      }
      i := i + 1;
    }
    assert a[..] == a[..a.Length] && orig == orig[..a.Length];
  }

  /** Moves `a[i]` left past the strictly older leads before it: one step of the sort. */
  method InsertNext(a: array<Lead>, i: nat, timeOf: string -> int)
    requires i < a.Length
    modifies a
    ensures a[..i + 1] == InsertDesc(old(a[i]), old(a[..i]), LeadTime(timeOf))
    ensures a[i + 1..] == old(a[i + 1..])
  {
    var x := a[i];
    ghost var sorted := a[..i];
    var j := i;
    while j > 0 && timeOf(a[j - 1].createdAt) < timeOf(x.createdAt)
      invariant 0 <= j <= i
      invariant forall k :: 0 <= k < j ==> a[k] == sorted[k]
      invariant forall k :: j < k <= i ==> a[k] == sorted[k - 1]
      invariant forall k :: j <= k < i ==> timeOf(sorted[k].createdAt) < timeOf(x.createdAt)
      invariant forall k :: i < k < a.Length ==> a[k] == old(a[k])
    {
      a[j] := a[j - 1];
      j := j - 1;
    }
    a[j] := x;
    InsertDescAt(x, sorted, j, LeadTime(timeOf));
    Reassembled(a[..i + 1], sorted, x, j);
  }

  /** A sequence that agrees with `s[..j] + [x] + s[j..]` position by position is that sequence. */
  lemma Reassembled(r: seq<Lead>, s: seq<Lead>, x: Lead, j: nat)
    requires j <= |s| && |r| == |s| + 1
    requires forall k :: 0 <= k < j ==> r[k] == s[k]
    requires r[j] == x
    requires forall k :: j < k < |r| ==> r[k] == s[k - 1]
    ensures r == s[..j] + [x] + s[j..]
  {
  }

  /** The card's leads: the ten newest, newest first. */
  function Recent(leads: seq<Lead>, timeOf: string -> int): (r: seq<Lead>)
    ensures |r| <= ActivitySize
    ensures SortedDesc(r, LeadTime(timeOf))
  {
    TopDesc(leads, LeadTime(timeOf), ActivitySize)
  }

  /** Sorts the array it is handed, then keeps its first ten leads. */
  method RecentLeads(a: array<Lead>, timeOf: string -> int) returns (recent: seq<Lead>)
    modifies a
    ensures a[..] == NewestFirst(old(a[..]), timeOf)
    ensures recent == Recent(old(a[..]), timeOf)
  {
    SortNewestFirst(a, timeOf);
    recent := a[..Min(ActivitySize, a.Length)];
  }

  /**
   * At most ten leads, all of them handed in, newest first, and none of the leads left out
   * newer than the last one shown; with ten or fewer leads nothing is left out.
   */
  lemma RecentIsNewest(leads: seq<Lead>, timeOf: string -> int)
    ensures |Recent(leads, timeOf)| == Min(ActivitySize, |leads|)
    ensures NewestFirstOrdered(Recent(leads, timeOf), timeOf)
    ensures forall l :: l in Recent(leads, timeOf) ==> l in leads
    ensures var r := Recent(leads, timeOf);
      forall l :: l in leads && l !in r && r != [] ==> timeOf(l.createdAt) <= timeOf(r[|r| - 1].createdAt)
    ensures |leads| <= ActivitySize ==> multiset(Recent(leads, timeOf)) == multiset(leads)
  {
    TopDescIsLargest(leads, LeadTime(timeOf), ActivitySize);
  }

  /** A lead's line: the visitor name, or "Usuario anónimo" when there is none. */
  function ActivityName(l: Lead): (r: string)
    ensures l.visitorName.Some? && l.visitorName.value != "" ==> r == l.visitorName.value
    ensures l.visitorName.None? || l.visitorName.value == "" ==> r == "Usuario anónimo"
  {
    OrElse(l.visitorName, "Usuario anónimo")
  }

  function ActivityVerb(l: Lead): (r: string)
    ensures r == "Solicitó beneficio" <==> l.leadType == "benefit"
    ensures r == "Solicitó reunión" <==> l.leadType != "benefit"
  {
    if l.leadType == "benefit" then "Solicitó beneficio" else "Solicitó reunión"
  }
}
