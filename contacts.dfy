/**
 * The contacts report (components/contacts-report.tsx): leads, profiles and session
 * attendees merged into one list of contacts, reduced to one contact per email, filtered
 * by a search term and a type, exported as comma-joined lines, and shown 50 at a time.
 */
module Contacts {
  import opened Common
  import opened Text

  datatype ContactKind = LeadContact | ProfileContact | AttendeeContact

  /** The `type` string each contact carries. */
  function KindName(k: ContactKind): string
  {
    match k
    case LeadContact => "lead"
    case ProfileContact => "profile"
    case AttendeeContact => "attendee"
  }

  datatype Contact = Contact(
    id: string,
    kind: ContactKind,
    email: string,
    name: string,
    phone: string,
    source: string,
    status: string,
    date: string)

  /** A `leads` row with its exhibitor's company name. */
  datatype LeadIn = LeadIn(
    id: string, visitorEmail: string, visitorPhone: Option<string>, visitorName: Option<string>,
    status: string, createdAt: string, companyName: string)

  datatype ProfileIn = ProfileIn(
    id: string, email: string, fullName: Option<string>, phone: Option<string>,
    userType: string, createdAt: string)

  /** A `session_attendees` row with its session's title. */
  datatype AttendeeIn = AttendeeIn(
    id: string, email: string, name: string, registrationDate: string, confirmed: bool,
    sessionTitle: string)

  const NoName: string := "Sin nombre"

  function FromLead(l: LeadIn): Contact
  {
    Contact(l.id, LeadContact, l.visitorEmail, OrElse(l.visitorName, NoName), OrElse(l.visitorPhone, ""),
            "Lead de " + l.companyName, l.status, l.createdAt)
  }

  function FromProfile(p: ProfileIn): Contact
  {
    Contact(p.id, ProfileContact, p.email, OrElse(p.fullName, NoName), OrElse(p.phone, ""),
            "Perfil " + p.userType, "active", p.createdAt)
  }

  function FromAttendee(a: AttendeeIn): Contact
  {
    Contact(a.id, AttendeeContact, a.email, a.name, "", "Asistente a " + a.sessionTitle,
            if a.confirmed then "confirmed" else "registered", a.registrationDate)
  }

  /** `allContacts`: the leads, then the profiles, then the attendees, each in its own order. */
  function AllContacts(leads: seq<LeadIn>, profiles: seq<ProfileIn>, attendees: seq<AttendeeIn>): (all: seq<Contact>)
    ensures |all| == |leads| + |profiles| + |attendees|
    ensures forall i :: 0 <= i < |leads| ==> all[i] == FromLead(leads[i])
    ensures forall i :: 0 <= i < |profiles| ==> all[|leads| + i] == FromProfile(profiles[i])
    ensures forall i :: 0 <= i < |attendees| ==> all[|leads| + |profiles| + i] == FromAttendee(attendees[i])
  {
    seq(|leads|, i requires 0 <= i < |leads| => FromLead(leads[i])) +
    seq(|profiles|, i requires 0 <= i < |profiles| => FromProfile(profiles[i])) +
    seq(|attendees|, i requires 0 <= i < |attendees| => FromAttendee(attendees[i]))
  }

  /** Lead and profile contacts always have a name; only an attendee's name is taken as it is. */
  lemma MergedNamesDefault(leads: seq<LeadIn>, profiles: seq<ProfileIn>, attendees: seq<AttendeeIn>)
    ensures forall i :: 0 <= i < |leads| + |profiles| ==> AllContacts(leads, profiles, attendees)[i].name != ""
    ensures forall i :: 0 <= i < |leads| + |profiles| + |attendees| ==>
      var c := AllContacts(leads, profiles, attendees)[i];
      (c.kind == ProfileContact ==> c.status == "active") &&
      (c.kind == AttendeeContact ==> c.status in {"confirmed", "registered"} && c.phone == "")
  {
    var all := AllContacts(leads, profiles, attendees);
    forall i | 0 <= i < |leads| + |profiles| + |attendees|
      ensures i < |leads| + |profiles| ==> all[i].name != ""
      ensures all[i].kind == ProfileContact ==> all[i].status == "active"
      ensures all[i].kind == AttendeeContact ==> all[i].status in {"confirmed", "registered"} && all[i].phone == ""
    {
      if i < |leads| {
        assert all[i] == FromLead(leads[i]);
      } else if i < |leads| + |profiles| {
        assert all[i] == FromProfile(profiles[i - |leads|]);
      } else {
        assert all[i] == FromAttendee(attendees[i - |leads| - |profiles|]);
      }
    }
  }

  // ---------------------------------------------------------------- deduplication

  /** `new Date(a) > new Date(b)`: `timeOf` parses a date, None for an invalid one (NaN compares false). */
  predicate Later(a: string, b: string, timeOf: string -> Option<int>)
  {
    timeOf(a).Some? && timeOf(b).Some? && timeOf(a).value > timeOf(b).value
  }

  /** A later contact replaces the kept one when it is newer, or named while the kept one is not. */
  predicate Replaces(c: Contact, kept: Contact, timeOf: string -> Option<int>)
  {
    Later(c.date, kept.date, timeOf) || (c.name != NoName && kept.name == NoName)
  }

  /** `acc.findIndex(c => c.email === email)`. */
  function FindEmail(acc: seq<Contact>, email: string): (r: Option<nat>)
    ensures r.Some? ==> (r.value < |acc| && acc[r.value].email == email &&
                         forall j :: 0 <= j < r.value ==> acc[j].email != email)
    ensures r.None? <==> forall j :: 0 <= j < |acc| ==> acc[j].email != email
  {
    if acc == [] then None
    else if acc[0].email == email then Some(0)
    else
      match FindEmail(acc[1..], email)
      case None => None
      case Some(k) => Some(k + 1)
  }

  /** One step of the `reduce`: push a new email, or overwrite the kept contact in place. */
  function Step(acc: seq<Contact>, c: Contact, timeOf: string -> Option<int>): seq<Contact>
  {
    match FindEmail(acc, c.email)
    case None => acc + [c]
    case Some(k) => if Replaces(c, acc[k], timeOf) then acc[k := c] else acc
  }

  /** `uniqueContacts`: the `reduce` over the merged list. */
  function Unique(all: seq<Contact>, timeOf: string -> Option<int>): (r: seq<Contact>)
    ensures |r| <= |all|
    ensures all != [] ==> r != []
  {
    if all == [] then [] else Step(Unique(all[..|all| - 1], timeOf), all[|all| - 1], timeOf)
  }

  /** The `reduce` as the page runs it, with the accumulator pushed to and overwritten in place. */
  method UniqueContacts(all: seq<Contact>, timeOf: string -> Option<int>) returns (acc: seq<Contact>)
    ensures acc == Unique(all, timeOf)
  {
    acc := [];
    var i := 0;
    while i < |all|
      invariant 0 <= i <= |all|
      invariant acc == Unique(all[..i], timeOf)
    {
      var contact := all[i];
      assert all[..i + 1][..i] == all[..i];
      var existing := FindEmail(acc, contact.email);
      if existing.None? {
        acc := acc + [contact];
      } else if Replaces(contact, acc[existing.value], timeOf) {
        acc := acc[existing.value := contact];
      }
      i := i + 1;
    }
    assert all[..|all|] == all;
  }

  function Emails(s: seq<Contact>): (es: seq<string>)
    ensures |es| == |s| && forall i :: 0 <= i < |s| ==> es[i] == s[i].email
  {
    seq(|s|, i requires 0 <= i < |s| => s[i].email)
  }

  /** A step keeps every position's email and adds the contact's email at the end when it is new. */
  lemma StepEmails(acc: seq<Contact>, c: Contact, timeOf: string -> Option<int>)
    ensures Emails(Step(acc, c, timeOf)) == if c.email in Emails(acc) then Emails(acc) else Emails(acc) + [c.email]
  {
    var r := FindEmail(acc, c.email);
    if r.Some? {
      assert Emails(acc)[r.value] == c.email;
    }
  }

  /** The kept emails are the merged emails in order of first appearance. */
  lemma {:induction false} UniqueKeepsFirstAppearanceOrder(all: seq<Contact>, timeOf: string -> Option<int>)
    ensures Emails(Unique(all, timeOf)) == FirstAppearances(Emails(all))
  {
    if all != [] {
      var init := all[..|all| - 1];
      var c := all[|all| - 1];
      UniqueKeepsFirstAppearanceOrder(init, timeOf);
      StepEmails(Unique(init, timeOf), c, timeOf);
      FirstAppearancesSameElements(Emails(init));
      assert Emails(all)[..|all| - 1] == Emails(init);
    }
  }

  /** The kept contacts have pairwise distinct emails, and every merged email is kept. */
  lemma UniqueEmails(all: seq<Contact>, timeOf: string -> Option<int>)
    ensures Distinct(Emails(Unique(all, timeOf)))
    ensures forall e :: e in Emails(Unique(all, timeOf)) <==> e in Emails(all)
  {
    UniqueKeepsFirstAppearanceOrder(all, timeOf);
    FirstAppearancesSameElements(Emails(all));
  }

  /** Every kept contact is one of the merged contacts: nothing is invented or combined. */
  lemma {:induction false} UniqueFromMerged(all: seq<Contact>, timeOf: string -> Option<int>)
    ensures forall c :: c in Unique(all, timeOf) ==> c in all
  {
    if all != [] {
      var init := all[..|all| - 1];
      UniqueFromMerged(init, timeOf);
      var acc := Unique(init, timeOf);
      var last := all[|all| - 1];
      forall c | c in Step(acc, last, timeOf) ensures c in all {
        if c != last {
          var r := FindEmail(acc, last.email);
          if r.Some? && Replaces(last, acc[r.value], timeOf) {
            var k :| 0 <= k < |acc[r.value := last]| && acc[r.value := last][k] == c;
            assert acc[k] == c;
          }
          assert c in acc;
          assert c in init;
        }
      }
    }
  }

  /** The contact kept for an email is replaced by a later one exactly under the replace rule. */
  lemma StepReplaceRule(acc: seq<Contact>, c: Contact, timeOf: string -> Option<int>, k: nat)
    requires k < |acc| && acc[k].email == c.email && Distinct(Emails(acc))
    ensures Step(acc, c, timeOf)[k] == if Replaces(c, acc[k], timeOf) then c else acc[k]
    ensures |Step(acc, c, timeOf)| == |acc|
  {
    assert FindEmail(acc, c.email) == Some(k);
  }

  /** `stats.uniqueEmails`, the size of the set of kept emails, always equals `stats.totalContacts`. */
  lemma UniqueEmailsEqualsTotal(all: seq<Contact>, timeOf: string -> Option<int>)
    ensures |set e | e in Emails(Unique(all, timeOf))| == |Unique(all, timeOf)|
  {
    UniqueEmails(all, timeOf);
    DistinctCard(Emails(Unique(all, timeOf)));
  }

  // ---------------------------------------------------------------- filter and export

  datatype TypeFilter = AllTypes | Leads | Profiles | Attendees

  predicate MatchesSearch(c: Contact, term: string)
  {
    IncludesIgnoreCase(c.email, term) || IncludesIgnoreCase(c.name, term) || IncludesIgnoreCase(c.source, term)
  }

  predicate MatchesType(c: Contact, f: TypeFilter)
  {
    match f
    case AllTypes => true
    case Leads => c.kind == LeadContact
    case Profiles => c.kind == ProfileContact
    case Attendees => c.kind == AttendeeContact
  }

  /** `filteredContacts`. */
  function Filtered(unique: seq<Contact>, term: string, f: TypeFilter): (r: seq<Contact>)
    ensures forall c :: c in r <==> c in unique && MatchesSearch(c, term) && MatchesType(c, f)
  {
    Filter(unique, (c: Contact) => MatchesSearch(c, term) && MatchesType(c, f))
  }

  /** With an empty term and type "all" every kept contact is shown. */
  lemma EmptySearchKeepsAll(unique: seq<Contact>)
    ensures Filtered(unique, "", AllTypes) == unique
  {
    forall c | c in unique ensures MatchesSearch(c, "") && MatchesType(c, AllTypes) {
      IncludesEmpty(ToLower(c.email));
    }
    FilterAll(unique, (c: Contact) => MatchesSearch(c, "") && MatchesType(c, AllTypes));
  }

  /** The export argument, one of "all", "leads", "profiles", "attendees". */
  function ExportSelection(filtered: seq<Contact>, exportType: string): seq<Contact>
  {
    if exportType == "all" then filtered else Filter(filtered, (c: Contact) => KindName(c.kind) == exportType)
  }

  const ContactsHeader: seq<string> := ["Email", "Nombre", "Teléfono", "Fuente", "Estado", "Fecha"]

  /** One exported line; `localeDate` stands for `toLocaleDateString("es-ES")`. */
  function ContactCells(c: Contact, localeDate: string -> string): seq<string>
  {
    [c.email, c.name, c.phone, c.source, c.status, localeDate(c.date)]
  }

  function ContactsCsv(filtered: seq<Contact>, exportType: string, localeDate: string -> string): (csv: string)
    ensures Join(ContactsHeader, ',') <= csv
    ensures ExportSelection(filtered, exportType) != [] ==>
      |csv| > |Join(ContactsHeader, ',')| && csv[|Join(ContactsHeader, ',')|] == '\n'
  {
    var chosen := ExportSelection(filtered, exportType);
    JoinBegins([Join(ContactsHeader, ',')] +
         seq(|chosen|, i requires 0 <= i < |chosen| => Join(ContactCells(chosen[i], localeDate), ',')), '\n');
    Join([Join(ContactsHeader, ',')] +
         seq(|chosen|, i requires 0 <= i < |chosen| => Join(ContactCells(chosen[i], localeDate), ',')), '\n')
  }

  /** No contact's type is a plural word, so the per-type exports are the header line alone. */
  lemma PluralExportIsHeaderOnly(filtered: seq<Contact>, exportType: string, localeDate: string -> string)
    requires exportType in {"leads", "profiles", "attendees"}
    ensures ExportSelection(filtered, exportType) == []
    ensures ContactsCsv(filtered, exportType, localeDate) == Join(ContactsHeader, ',')
  {
    FilterNone(filtered, (c: Contact) => KindName(c.kind) == exportType);
    var chosen := ExportSelection(filtered, exportType);
    var lines := [Join(ContactsHeader, ',')] +
      seq(|chosen|, i requires 0 <= i < |chosen| => Join(ContactCells(chosen[i], localeDate), ','));
    assert lines == [Join(ContactsHeader, ',')];
  }

  /** The "all" export has one line per filtered contact after the header. */
  lemma AllExportLineCount(filtered: seq<Contact>, localeDate: string -> string)
    requires forall c :: c in filtered ==> '\n' !in Join(ContactCells(c, localeDate), ',')
    ensures |Split(ContactsCsv(filtered, "all", localeDate), '\n')| == |filtered| + 1
  {
    var lines := [Join(ContactsHeader, ',')] +
      seq(|filtered|, i requires 0 <= i < |filtered| => Join(ContactCells(filtered[i], localeDate), ','));
    forall k | 0 <= k < |lines| ensures '\n' !in lines[k] {
      if k == 0 {
        JoinFree(ContactsHeader, '\n', ',');
      } else {
        assert filtered[k - 1] in filtered;
      }
    }
    SplitJoin(lines, '\n');
  }

  /** The table shows the first 50 filtered contacts; the note below it appears when some are cut. */
  function TableRows(filtered: seq<Contact>): (shown: seq<Contact>)
    ensures |shown| <= 50 && shown <= filtered
    ensures shown == filtered <==> |filtered| <= 50
  {
    filtered[..Min(50, |filtered|)]
  }
}
