/**
 * The administrator's reports: exhibitors ranked by their leads, the lead, status and code
 * breakdowns, the tally of sessions by type and the activity of the last seven days.
 */
module Reports {
  import opened Common
  import opened Sorting
  import opened LeadRecords
  import opened QrRecords

  datatype ReportExhibitor = ReportExhibitor(id: string, companyName: string, isActive: bool, createdAt: string)

  // ---------------------------------------------------------------- leads per exhibitor

  const NameLimit: nat := 15
  const TopExhibitors: nat := 10

  /** Chart labels: names longer than fifteen characters are cut to fifteen and marked "...". */
  function ShortName(name: string): (r: string)
    ensures |name| <= NameLimit ==> r == name
    ensures |name| > NameLimit ==> |r| == NameLimit + 3 && r[..NameLimit] == name[..NameLimit] && r[NameLimit..] == "..."
  {
    if |name| > NameLimit then name[..NameLimit] + "..." else name
  }

  /** The leads addressed to an exhibitor. */
  function OfExhibitor(id: string): Lead -> bool
  {
    (l: Lead) => l.exhibitorId == id
  }

  datatype ExhibitorBar = ExhibitorBar(name: string, leads: nat, company: string)

  function BarOf(e: ReportExhibitor, leads: seq<Lead>): ExhibitorBar
  {
    ExhibitorBar(ShortName(e.companyName), CountWhere(leads, OfExhibitor(e.id)), e.companyName)
  }

  /** `exhibitors.map(...)`: one bar per exhibitor, in the exhibitors' order. */
  function Bars(exhibitors: seq<ReportExhibitor>, leads: seq<Lead>): (bars: seq<ExhibitorBar>)
    ensures |bars| == |exhibitors| && forall i :: 0 <= i < |exhibitors| ==> bars[i] == BarOf(exhibitors[i], leads)
  {
    seq(|exhibitors|, i requires 0 <= i < |exhibitors| => BarOf(exhibitors[i], leads))
  }

  function BarLeads(): ExhibitorBar -> int
  {
    (b: ExhibitorBar) => b.leads
  }

  /** `.sort((a, b) => b.leads - a.leads).slice(0, 10)`. */
  function LeadsPerExhibitor(exhibitors: seq<ReportExhibitor>, leads: seq<Lead>): (r: seq<ExhibitorBar>)
    ensures |r| <= TopExhibitors
    ensures SortedDesc(r, BarLeads())
  {
    TopDesc(Bars(exhibitors, leads), BarLeads(), TopExhibitors)
  }

  /**
   * At most ten bars, most leads first; each bar is an exhibitor's, with that exhibitor's
   * number of leads; and no exhibitor left out has more leads than the last one shown.
   */
  lemma LeadsPerExhibitorRanks(exhibitors: seq<ReportExhibitor>, leads: seq<Lead>)
    ensures |LeadsPerExhibitor(exhibitors, leads)| == Min(TopExhibitors, |exhibitors|)
    ensures var r := LeadsPerExhibitor(exhibitors, leads);
      forall i, j :: 0 <= i < j < |r| ==> r[i].leads >= r[j].leads
    ensures forall b :: b in LeadsPerExhibitor(exhibitors, leads) ==>
      exists e :: e in exhibitors && b == BarOf(e, leads) && b.leads <= |leads|
    ensures var r := LeadsPerExhibitor(exhibitors, leads);
      forall e :: e in exhibitors && BarOf(e, leads) !in r && r != [] ==> BarOf(e, leads).leads <= r[|r| - 1].leads
  {
    var bars := Bars(exhibitors, leads);
    var r := LeadsPerExhibitor(exhibitors, leads);
    TopDescIsLargest(bars, BarLeads(), TopExhibitors);
    forall b | b in r ensures exists e :: e in exhibitors && b == BarOf(e, leads) && b.leads <= |leads| {
      assert b in bars;
      var i :| 0 <= i < |bars| && bars[i] == b;
      assert exhibitors[i] in exhibitors;
    }
    forall e | e in exhibitors && BarOf(e, leads) !in r && r != [] ensures BarOf(e, leads).leads <= r[|r| - 1].leads {
      var i :| 0 <= i < |exhibitors| && exhibitors[i] == e;
      assert bars[i] == BarOf(e, leads);
      assert BarOf(e, leads) in bars;
    }
  }

  // ---------------------------------------------------------------- breakdowns

  datatype ChartSlice = ChartSlice(name: string, value: nat, color: string)

  function SliceTotal(s: seq<ChartSlice>): nat
  {
    if s == [] then 0 else s[0].value + SliceTotal(s[1..])
  }

  lemma SliceTotalOfTwo(a: ChartSlice, b: ChartSlice)
    ensures SliceTotal([a, b]) == a.value + b.value
  {
    assert [a, b][1..] == [b];
    assert [b][1..] == [];
    assert SliceTotal([b]) == b.value + SliceTotal([]);
  }

  lemma SliceTotalOfThree(a: ChartSlice, b: ChartSlice, c: ChartSlice)
    ensures SliceTotal([a, b, c]) == a.value + b.value + c.value
  {
    assert [a, b, c][1..] == [b, c];
    SliceTotalOfTwo(b, c);
  }

  function OfLeadType(t: string): Lead -> bool
  {
    (l: Lead) => l.leadType == t
  }

  function OfStatus(st: string): Lead -> bool
  {
    (l: Lead) => l.status == st
  }

  function OfUserType(t: UserType): QrCode -> bool
  {
    (q: QrCode) => q.userType == t
  }

  function LeadsByType(leads: seq<Lead>): seq<ChartSlice>
  {
    [ChartSlice("Beneficios", CountWhere(leads, OfLeadType("benefit")), "#3B82F6"),
     ChartSlice("Reuniones", CountWhere(leads, OfLeadType("meeting")), "#10B981")]
  }

  function LeadsByStatus(leads: seq<Lead>): seq<ChartSlice>
  {
    [ChartSlice("Pendientes", CountWhere(leads, OfStatus("pending")), "#F59E0B"),
     ChartSlice("Contactados", CountWhere(leads, OfStatus("contacted")), "#3B82F6"),
     ChartSlice("Completados", CountWhere(leads, OfStatus("completed")), "#10B981")]
  }

  function QrUsageByType(codes: seq<QrCode>): seq<ChartSlice>
  {
    [ChartSlice("Visitantes", CountWhere(codes, OfUserType(Visitor)), "#8B5CF6"),
     ChartSlice("Expositores", CountWhere(codes, OfUserType(Exhibitor)), "#F59E0B")]
  }

  /**
   * No lead is counted twice: the type and status slices add up to at most the number of
   * leads (leads of other types or statuses are in no slice), and the code slices, whose
   * two user types are the only ones a code can have, add up to exactly the number of codes.
   */
  lemma BreakdownTotals(leads: seq<Lead>, codes: seq<QrCode>)
    ensures SliceTotal(LeadsByType(leads)) <= |leads|
    ensures SliceTotal(LeadsByStatus(leads)) <= |leads|
    ensures SliceTotal(QrUsageByType(codes)) == |codes|
  {
    CountSplit(leads, OfLeadType("benefit"), OfLeadType("meeting"));
    CountSplit(leads, OfStatus("pending"), OfStatus("contacted"));
    CountSplit(leads, Either(OfStatus("pending"), OfStatus("contacted")), OfStatus("completed"));
    CountComplement(codes, OfUserType(Visitor), OfUserType(Exhibitor));
    var byType, byStatus, byUser := LeadsByType(leads), LeadsByStatus(leads), QrUsageByType(codes);
    SliceTotalOfTwo(byType[0], byType[1]);
    SliceTotalOfThree(byStatus[0], byStatus[1], byStatus[2]);
    SliceTotalOfTwo(byUser[0], byUser[1]);
  }

  // ---------------------------------------------------------------- sessions by type

  datatype Session = Session(id: string, title: string, sessionType: string, startTime: string, isActive: bool)

  /** One session type's slice: its name, how many sessions have it, and its colour. */
  datatype TypeTally = TypeTally(name: string, value: nat, color: string)

  /** The known session types have their own colours; every other type is drawn in the default blue. */
  function SessionTypeColor(t: string): (c: string)
    ensures t !in {"workshop", "meeting", "break"} ==> c == "#3B82F6"
    ensures t == "workshop" ==> c == "#10B981"
    ensures t == "meeting" ==> c == "#8B5CF6"
    ensures t == "break" ==> c == "#6B7280"
  {
    if t == "presentation" then "#3B82F6"
    else if t == "workshop" then "#10B981"
    else if t == "meeting" then "#8B5CF6"
    else if t == "break" then "#6B7280"
    else "#3B82F6"
  }

  function Types(sessions: seq<Session>): (ts: seq<string>)
    ensures |ts| == |sessions| && forall i :: 0 <= i < |sessions| ==> ts[i] == sessions[i].sessionType
  {
    seq(|sessions|, i requires 0 <= i < |sessions| => sessions[i].sessionType)
  }

  /** How many times `x` occurs in `s`. */
  function Occurrences(s: seq<string>, x: string): (n: nat)
    ensures n <= |s|
  {
    if s == [] then 0 else Occurrences(s[..|s| - 1], x) + (if s[|s| - 1] == x then 1 else 0)
  }

  function Names(acc: seq<TypeTally>): (ns: seq<string>)
    ensures |ns| == |acc| && forall i :: 0 <= i < |acc| ==> ns[i] == acc[i].name
  {
    seq(|acc|, i requires 0 <= i < |acc| => acc[i].name)
  }

  function Total(acc: seq<TypeTally>): nat
  {
    if acc == [] then 0 else Total(acc[..|acc| - 1]) + acc[|acc| - 1].value
  }

  /** `acc.find(item => item.name === t)`, as a position. */
  function FindTally(acc: seq<TypeTally>, t: string): (r: Option<nat>)
    ensures r.None? <==> t !in Names(acc)
    ensures r.Some? ==> r.value < |acc| && acc[r.value].name == t
  {
    if acc == [] then None
    else if acc[0].name == t then Some(0)
    else
      var r := FindTally(acc[1..], t);
      assert Names(acc[1..]) == Names(acc)[1..];
      if r.None? then None else Some(r.value + 1)
  }

  /** Adding one to a tally adds one to the total. */
  lemma {:induction false} TotalBump(acc: seq<TypeTally>, k: nat)
    requires k < |acc|
    ensures Total(acc[k := acc[k].(value := acc[k].value + 1)]) == Total(acc) + 1
  {
    var bumped := acc[k := acc[k].(value := acc[k].value + 1)];
    if k < |acc| - 1 {
      TotalBump(acc[..|acc| - 1], k);
      assert bumped[..|acc| - 1] == acc[..|acc| - 1][k := acc[k].(value := acc[k].value + 1)];
    } else {
      assert bumped[..|acc| - 1] == acc[..|acc| - 1];
    }
  }

  /** The tally the reduce builds, stated without the reduce. */
  predicate TallyOf(acc: seq<TypeTally>, types: seq<string>)
  {
    Names(acc) == FirstAppearances(types) &&
    (forall k :: 0 <= k < |acc| ==> acc[k].value == Occurrences(types, acc[k].name)) &&
    (forall k :: 0 <= k < |acc| ==> acc[k].color == SessionTypeColor(acc[k].name)) &&
    Total(acc) == |types|
  }

  lemma OccurrencesStep(p: seq<string>, t: string, x: string)
    ensures Occurrences(p + [t], x) == Occurrences(p, x) + (if t == x then 1 else 0)
  {
    assert (p + [t])[..|p|] == p;
  }

  lemma {:induction false} OccurrencesAbsent(p: seq<string>, x: string)
    requires x !in p
    ensures Occurrences(p, x) == 0
  {
    if p != [] {
      assert forall y :: y in p[..|p| - 1] ==> y in p;
      OccurrencesAbsent(p[..|p| - 1], x);
    }
  }

  /** A session of a type already tallied adds one to that tally. */
  lemma TallyBump(acc: seq<TypeTally>, p: seq<string>, k: nat)
    requires TallyOf(acc, p) && k < |acc|
    ensures TallyOf(acc[k := acc[k].(value := acc[k].value + 1)], p + [acc[k].name])
  {
    var t := acc[k].name;
    var bumped := acc[k := acc[k].(value := acc[k].value + 1)];
    FirstAppearancesSameElements(p);
    assert Names(acc)[k] == t;
    assert t in p;
    assert (p + [t])[..|p|] == p;
    assert Names(bumped) == Names(acc);
    forall j | 0 <= j < |bumped| ensures bumped[j].value == Occurrences(p + [t], bumped[j].name) {
      OccurrencesStep(p, t, bumped[j].name);
      if j != k {
        assert Names(acc)[j] != Names(acc)[k];
      }
    }
    TotalBump(acc, k);
  }

  /** The first session of a type appends a tally of one. */
  lemma TallyAppend(acc: seq<TypeTally>, p: seq<string>, t: string)
    requires TallyOf(acc, p) && t !in Names(acc)
    ensures TallyOf(acc + [TypeTally(t, 1, SessionTypeColor(t))], p + [t])
  {
    var grown := acc + [TypeTally(t, 1, SessionTypeColor(t))];
    FirstAppearancesSameElements(p);
    assert t !in p;
    assert (p + [t])[..|p|] == p;
    assert Names(grown) == Names(acc) + [t];
    forall j | 0 <= j < |grown| ensures grown[j].value == Occurrences(p + [t], grown[j].name) {
      OccurrencesStep(p, t, grown[j].name);
      if j < |acc| {
        assert grown[j] == acc[j] && Names(acc)[j] == acc[j].name;
      } else {
        OccurrencesAbsent(p, t);
      }
    }
    assert grown[..|grown| - 1] == acc;
  }

  /**
   * `sessions.reduce`: the first session of a type appends its tally, the later ones add one
   * to it in place. The tallies come in order of each type's first session, each counts its
   * type's sessions and has its type's colour, and together they count every session.
   */
  method SessionsByType(sessions: seq<Session>) returns (acc: seq<TypeTally>)
    ensures TallyOf(acc, Types(sessions))
  {
    var types := Types(sessions);
    acc := [];
    var i := 0;
    while i < |sessions|
      invariant 0 <= i <= |sessions|
      invariant TallyOf(acc, types[..i])
    {
      var t := sessions[i].sessionType;
      assert types[..i + 1] == types[..i] + [t];
      var existing := FindTally(acc, t);
      if existing.Some? {
        var k := existing.value;
        TallyBump(acc, types[..i], k);
        acc := acc[k := acc[k].(value := acc[k].value + 1)];
      } else {
        TallyAppend(acc, types[..i], t);
        acc := acc + [TypeTally(t, 1, SessionTypeColor(t))];
      }
      i := i + 1;
    }
    assert types[..|sessions|] == types;
  }

  /** Each session type appears in exactly one tally, and every tally counts at least one session. */
  lemma TallyCoversTypes(acc: seq<TypeTally>, sessions: seq<Session>)
    requires TallyOf(acc, Types(sessions))
    ensures forall s :: s in sessions ==> s.sessionType in Names(acc)
    ensures forall j, k :: 0 <= j < k < |acc| ==> acc[j].name != acc[k].name
    ensures forall k :: 0 <= k < |acc| ==> acc[k].value >= 1
  {
    var types := Types(sessions);
    FirstAppearancesSameElements(types);
    forall s | s in sessions ensures s.sessionType in Names(acc) {
      var i :| 0 <= i < |sessions| && sessions[i] == s;
      assert types[i] == s.sessionType;
    }
    forall j, k | 0 <= j < k < |acc| ensures acc[j].name != acc[k].name {
      assert Names(acc)[j] == acc[j].name && Names(acc)[k] == acc[k].name;
    }
    forall k | 0 <= k < |acc| ensures acc[k].value >= 1 {
      assert Names(acc)[k] == acc[k].name;
      OccurrencesPresent(types, acc[k].name);
    }
  }

  lemma {:induction false} OccurrencesPresent(p: seq<string>, x: string)
    requires x in p
    ensures Occurrences(p, x) >= 1
  {
    if p[|p| - 1] != x {
      var i :| 0 <= i < |p| && p[i] == x;
      assert p[..|p| - 1][i] == x;
      OccurrencesPresent(p[..|p| - 1], x);
    }
  }

  // ---------------------------------------------------------------- daily activity

  /** One day of the chart: its caption and how many leads and redemptions fell on it. */
  datatype DayEntry = DayEntry(caption: string, leads: nat, qrUsed: nat)

  function CreatedOn(day: string): Lead -> bool
  {
    (l: Lead) => day <= l.createdAt
  }

  /** `qr.used_at && qr.used_at.startsWith(day)`: codes never used, or with an empty time, fall on no day. */
  function UsedOn(day: string): QrCode -> bool
  {
    (q: QrCode) => q.usedAt.Some? && q.usedAt.value != "" && day <= q.usedAt.value
  }

  /**
   * `last7Days.map(...)`: each day (an ISO date, `YYYY-MM-DD`) with the leads created and the
   * codes used on it; `labelOf` gives the localised weekday label.
   */
  function DailyActivity(days: seq<string>, leads: seq<Lead>, codes: seq<QrCode>, labelOf: string -> string): (r: seq<DayEntry>)
    ensures |r| == |days|
    ensures forall i :: 0 <= i < |days| ==>
      r[i].caption == labelOf(days[i]) && r[i].leads == CountWhere(leads, CreatedOn(days[i])) &&
      r[i].qrUsed == CountWhere(codes, UsedOn(days[i]))
  {
    seq(|days|, i requires 0 <= i < |days| =>
      DayEntry(labelOf(days[i]), CountWhere(leads, CreatedOn(days[i])), CountWhere(codes, UsedOn(days[i]))))
  }

  /**
   * Two different dates of the same length never claim the same lead or code, so the leads
   * counted on two days add up to at most the number of leads.
   */
  lemma DaysAreDisjoint(d1: string, d2: string, leads: seq<Lead>, codes: seq<QrCode>)
    requires |d1| == |d2| && d1 != d2
    ensures CountWhere(leads, CreatedOn(d1)) + CountWhere(leads, CreatedOn(d2)) <= |leads|
    ensures CountWhere(codes, UsedOn(d1)) + CountWhere(codes, UsedOn(d2)) <= |codes|
  {
    forall l: Lead | CreatedOn(d1)(l) ensures !CreatedOn(d2)(l) {
      assert l.createdAt[..|d1|] == d1;
    }
    forall q: QrCode | UsedOn(d1)(q) ensures !UsedOn(d2)(q) {
      assert q.usedAt.value[..|d1|] == d1;
    }
    CountSplit(leads, CreatedOn(d1), CreatedOn(d2));
    CountSplit(codes, UsedOn(d1), UsedOn(d2));
  }
}
