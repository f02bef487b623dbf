/**
 * Issuing access codes (components/qr-code-generator.tsx): one code from the form, one
 * visitor code per non-blank line of the bulk box, or one code per exhibitor. Each
 * handler makes a single insert call with the whole batch. The time stamps and random
 * suffixes the component draws from `Date.now()` and `Math.random()` are parameters.
 */
module QrGenerator {
  import opened Common
  import opened Text
  import opened QrRecords

  /** A record as the generator inserts it; the store adds `id`, `used_at` and `created_at`. */
  datatype QrDraft = QrDraft(
    code: string,
    userType: UserType,
    userEmail: string,
    userName: string,
    companyName: Option<string>,
    isUsed: bool)

  /** The exhibitor fields the generator reads. */
  datatype GenExhibitor = GenExhibitor(id: string, companyName: string, contactEmail: string)

  /** `QR_<stamp>_<suffix>`, the code of a single or bulk record. */
  function GeneratedCode(stamp: nat, suffix: string): string
  {
    "QR_" + NatToString(stamp) + "_" + suffix
  }

  /** The record `generateSingleQR` inserts. */
  function SingleDraft(t: UserType, email: string, name: string, company: string, code: string): (d: QrDraft)
    ensures d.userType == t && d.userEmail == email && d.userName == name && d.code == code
    ensures d.companyName.Some? <==> t == Exhibitor
    ensures d.companyName.Some? ==> d.companyName.value == company
    ensures !d.isUsed
  {
    QrDraft(code, t, email, name, if t == Exhibitor then Some(company) else None, false)
  }

  /** `line.trim()` is truthy: the line holds a character that is not white space. */
  predicate NotBlank(line: string) { !AllSpace(line) }

  lemma NotBlankIffTrimNonEmpty(line: string)
    ensures NotBlank(line) <==> Trim(line) != ""
  {
    TrimEmptyIff(line);
  }

  /** The lines of the bulk box that hold something besides white space, in order. */
  function KeptLines(text: string): (lines: seq<string>)
    ensures forall l :: l in lines <==> l in Split(text, '\n') && NotBlank(l)
    ensures |lines| == CountWhere(Split(text, '\n'), NotBlank)
  {
    Filter(Split(text, '\n'), NotBlank)
  }

  /** `Usuario ` followed by the part of the untrimmed line before its first `@`. */
  function BulkName(line: string): string
  {
    "Usuario " + BeforeFirst(line, '@')
  }

  /** The records `generateBulkQR` inserts; `codeAt(k)` is the code drawn for line `k`. */
  function BulkDrafts(text: string, codeAt: nat -> string): (ds: seq<QrDraft>)
    ensures |ds| == |KeptLines(text)|
    ensures forall k :: 0 <= k < |ds| ==>
      ds[k] == QrDraft(codeAt(k), Visitor, Trim(KeptLines(text)[k]), BulkName(KeptLines(text)[k]), None, false)
  {
    var lines := KeptLines(text);
    seq(|lines|, k requires 0 <= k < |lines| =>
      QrDraft(codeAt(k), Visitor, Trim(lines[k]), BulkName(lines[k]), None, false))
  }

  /** Every bulk record carries a non-empty e-mail with no white space at either end. */
  lemma BulkEmailsAreTrimmed(text: string, codeAt: nat -> string)
    ensures forall k :: 0 <= k < |BulkDrafts(text, codeAt)| ==>
      var e := BulkDrafts(text, codeAt)[k].userEmail;
      e != [] && !IsSpace(e[0]) && !IsSpace(e[|e| - 1])
  {
    var lines := KeptLines(text);
    forall k | 0 <= k < |lines|
      ensures var e := Trim(lines[k]); e != [] && !IsSpace(e[0]) && !IsSpace(e[|e| - 1])
    {
      assert lines[k] in lines;
      TrimIsSlice(lines[k]);
    }
  }

  /**
   * Bulk issuing gives back exactly the e-mails typed one per line, when each is already
   * trimmed, non-empty and free of line breaks.
   */
  lemma {:induction false} BulkOfJoinedEmails(emails: seq<string>, codeAt: nat -> string)
    requires forall k :: 0 <= k < |emails| ==> emails[k] != "" && Trim(emails[k]) == emails[k] && '\n' !in emails[k]
    ensures |BulkDrafts(Join(emails, '\n'), codeAt)| == |emails|
    ensures forall k :: 0 <= k < |emails| ==> BulkDrafts(Join(emails, '\n'), codeAt)[k].userEmail == emails[k]
  {
    var text := Join(emails, '\n');
    if emails == [] {
      assert Split(text, '\n') == [""];
      assert !NotBlank("");
      assert Filter([""], NotBlank) == Filter([], NotBlank) + [];
      assert KeptLines(text) == [];
    } else {
      SplitJoin(emails, '\n');
      forall x | x in emails ensures NotBlank(x) {
        var k :| 0 <= k < |emails| && emails[k] == x;
        TrimEmptyIff(x);
      }
      FilterAll(emails, NotBlank);
      assert KeptLines(text) == emails;
    }
  }

  /** A box holding one non-blank line gives one record. */
  lemma SingleLineBulk(line: string, codeAt: nat -> string)
    requires '\n' !in line && NotBlank(line)
    ensures BulkDrafts(line, codeAt) == [QrDraft(codeAt(0), Visitor, Trim(line), BulkName(line), None, false)]
  {
    SplitNoSeparator(line, '\n');
    assert Filter([line], NotBlank) == Filter([], NotBlank) + [line];
  }

  /**
   * The e-mail is taken from the trimmed line but the name from the untrimmed one: white
   * space typed before an address ends up inside the generated name.
   */
  lemma BulkNameKeepsLeadingSpace(w: string, e: string, codeAt: nat -> string)
    requires AllSpace(w) && '\n' !in w + e && NotBlank(e)
    ensures |BulkDrafts(w + e, codeAt)| == 1
    ensures BulkDrafts(w + e, codeAt)[0].userEmail == Trim(e)
    ensures BulkDrafts(w + e, codeAt)[0].userName == "Usuario " + w + BeforeFirst(e, '@')
  {
    assert (w + e)[|w|..] == e;
    assert NotBlank(w + e);
    SingleLineBulk(w + e, codeAt);
    TrimStartSkipsSpace(w, e);
    assert '@' !in w by {
      assert forall i :: 0 <= i < |w| ==> IsSpace(w[i]);
    }
    BeforeFirstSkipsPrefix(w, e, '@');
  }

  /** `exhibitor.id.substr(0, 8)`. */
  function IdPrefix(id: string): (p: string)
    ensures p <= id && |p| == Min(8, |id|)
  {
    id[..Min(8, |id|)]
  }

  /** `QR_EXH_<stamp>_<first 8 characters of the id>`. */
  function ExhibitorCode(stamp: nat, id: string): string
  {
    "QR_EXH_" + NatToString(stamp) + "_" + IdPrefix(id)
  }

  /** The records `generateExhibitorQRs` inserts; `stampAt(k)` is the clock read for exhibitor `k`. */
  function ExhibitorDrafts(exhibitors: seq<GenExhibitor>, stampAt: nat -> nat): (ds: seq<QrDraft>)
    ensures |ds| == |exhibitors|
    ensures forall k :: 0 <= k < |ds| ==>
      ds[k] == QrDraft(ExhibitorCode(stampAt(k), exhibitors[k].id), Exhibitor,
                       exhibitors[k].contactEmail, exhibitors[k].companyName,
                       Some(exhibitors[k].companyName), false)
  {
    seq(|exhibitors|, k requires 0 <= k < |exhibitors| =>
      QrDraft(ExhibitorCode(stampAt(k), exhibitors[k].id), Exhibitor,
              exhibitors[k].contactEmail, exhibitors[k].companyName,
              Some(exhibitors[k].companyName), false))
  }

  /** Splitting at the first `_` is unambiguous when the first parts hold no `_`. */
  lemma SplitAtUnderscore(a: string, b: string, c: string, d: string)
    requires '_' !in a && '_' !in c
    requires a + "_" + b == c + "_" + d
    ensures a == c && b == d
  {
    var x := a + "_" + b;
    assert forall i :: 0 <= i < |a| ==> x[i] == a[i] && a[i] in a;
    assert forall i :: 0 <= i < |c| ==> x[i] == c[i] && c[i] in c;
    assert x[|a|] == '_' && x[|c|] == '_';
    assert a == x[..|a|] && c == x[..|c|];
    assert b == x[|a| + 1..] && d == x[|c| + 1..];
  }

  lemma DigitsHaveNoUnderscore(n: nat)
    ensures '_' !in NatToString(n)
  {
  }

  /**
   * Two exhibitor codes are equal exactly when their clock reads are equal and the ids
   * agree on their first 8 characters: within one millisecond, codes collide exactly when
   * id prefixes do.
   */
  lemma ExhibitorCodesCollideIff(s1: nat, id1: string, s2: nat, id2: string)
    ensures ExhibitorCode(s1, id1) == ExhibitorCode(s2, id2) <==> s1 == s2 && IdPrefix(id1) == IdPrefix(id2)
  {
    if ExhibitorCode(s1, id1) == ExhibitorCode(s2, id2) {
      var d1, d2 := NatToString(s1), NatToString(s2);
      var t1, t2 := d1 + "_" + IdPrefix(id1), d2 + "_" + IdPrefix(id2);
      assert ExhibitorCode(s1, id1) == "QR_EXH_" + t1;
      assert ExhibitorCode(s2, id2) == "QR_EXH_" + t2;
      assert t1 == ExhibitorCode(s1, id1)[7..];
      assert t2 == ExhibitorCode(s2, id2)[7..];
      DigitsHaveNoUnderscore(s1);
      DigitsHaveNoUnderscore(s2);
      SplitAtUnderscore(d1, IdPrefix(id1), d2, IdPrefix(id2));
      NatToStringInjective(s1, s2);
    }
  }

  /** Within a batch drawn in one millisecond, two codes coincide exactly when the id prefixes do. */
  lemma BatchCodesCollideIff(exhibitors: seq<GenExhibitor>, stamp: nat, i: nat, j: nat)
    requires i < |exhibitors| && j < |exhibitors|
    ensures ExhibitorDrafts(exhibitors, _ => stamp)[i].code == ExhibitorDrafts(exhibitors, _ => stamp)[j].code
      <==> IdPrefix(exhibitors[i].id) == IdPrefix(exhibitors[j].id)
  {
    ExhibitorCodesCollideIff(stamp, exhibitors[i].id, stamp, exhibitors[j].id);
  }

  /** What a bulk run inserts: nothing when no line is kept, else one record per kept line. */
  function BulkBatch(text: string, codeAt: nat -> string): (b: Option<seq<QrDraft>>)
    ensures b.None? <==> KeptLines(text) == []
    ensures b.Some? ==> b.value == BulkDrafts(text, codeAt)
  {
    if KeptLines(text) == [] then None else Some(BulkDrafts(text, codeAt))
  }

  /** How a `generate*` handler ended. */
  datatype GenOutcome = MissingInput | Generated | InsertFailed

  class QrGenerator {
    var isGenerating: bool
    var userType: UserType
    var userEmail: string
    var userName: string
    var companyName: string
    var selectedExhibitor: string
    var bulkEmails: string

    constructor ()
      ensures !isGenerating && userType == Visitor
      ensures userEmail == "" && userName == "" && companyName == "" && selectedExhibitor == "" && bulkEmails == ""
    {
      isGenerating, userType := false, Visitor;
      userEmail, userName, companyName, selectedExhibitor, bulkEmails := "", "", "", "", "";
    }

    /** `generateSingleQR`; `stamp` and `suffix` stand for the clock read and the random part. */
    method GenerateSingle(store: InsertLog<QrDraft>, stamp: nat, suffix: string, fails: bool)
      returns (outcome: GenOutcome)
      modifies this, store
      ensures userType == old(userType)
      ensures old(userEmail) == "" || old(userName) == "" ==>
        outcome == MissingInput && store.batches == old(store.batches) &&
        userEmail == old(userEmail) && userName == old(userName) && companyName == old(companyName) &&
        selectedExhibitor == old(selectedExhibitor) && bulkEmails == old(bulkEmails) &&
        isGenerating == old(isGenerating)
      ensures old(userEmail) != "" && old(userName) != "" ==>
        outcome == (if fails then InsertFailed else Generated) && !isGenerating &&
        store.batches == old(store.batches) +
          (if fails then [] else [[SingleDraft(old(userType), old(userEmail), old(userName), old(companyName),
                                               GeneratedCode(stamp, suffix))]])
      ensures outcome == Generated ==>
        userEmail == "" && userName == "" && companyName == "" && selectedExhibitor == "" && bulkEmails == ""
      ensures outcome == InsertFailed ==>
        userEmail == old(userEmail) && userName == old(userName) && companyName == old(companyName) &&
        selectedExhibitor == old(selectedExhibitor) && bulkEmails == old(bulkEmails)
    {
      if userEmail == "" || userName == "" {
        return MissingInput;
      }
      isGenerating := true;
      var draft := SingleDraft(userType, userEmail, userName, companyName, GeneratedCode(stamp, suffix));
      var ok := store.Insert([draft], fails);
      if ok {
        outcome := Generated;
        userEmail, userName, companyName, selectedExhibitor, bulkEmails := "", "", "", "", "";
      } else {
        outcome := InsertFailed;
      }
      isGenerating := false;
    }

    /** `generateBulkQR`; `codeAt(k)` stands for the code drawn for kept line `k`. */
    method GenerateBulk(store: InsertLog<QrDraft>, codeAt: nat -> string, fails: bool)
      returns (outcome: GenOutcome)
      modifies this, store
      ensures userType == old(userType) && userEmail == old(userEmail) && userName == old(userName)
      ensures companyName == old(companyName) && selectedExhibitor == old(selectedExhibitor)
      ensures BulkBatch(old(bulkEmails), codeAt).None? ==>
        outcome == MissingInput && store.batches == old(store.batches) && bulkEmails == old(bulkEmails) &&
        isGenerating == old(isGenerating)
      ensures BulkBatch(old(bulkEmails), codeAt).Some? ==>
        outcome == (if fails then InsertFailed else Generated) && !isGenerating &&
        store.batches == old(store.batches) + (if fails then [] else [BulkBatch(old(bulkEmails), codeAt).value])
      // success clears only the bulk box
      ensures outcome == Generated ==> bulkEmails == ""
      ensures outcome == InsertFailed ==> bulkEmails == old(bulkEmails)
    {
      var batch := BulkBatch(bulkEmails, codeAt);
      if batch.None? {
        return MissingInput;
      }
      isGenerating := true;
      var ok := store.Insert(batch.value, fails);
      if ok {
        outcome := Generated;
        bulkEmails := "";
      } else {
        outcome := InsertFailed;
      }
      isGenerating := false;
    }

    /** `generateExhibitorQRs`: one batch for every exhibitor passed in, even when there are none. */
    method GenerateExhibitorQRs(store: InsertLog<QrDraft>, exhibitors: seq<GenExhibitor>,
                                stampAt: nat -> nat, fails: bool)
      returns (outcome: GenOutcome)
      modifies this, store
      ensures userType == old(userType) && userEmail == old(userEmail) && userName == old(userName)
      ensures companyName == old(companyName) && selectedExhibitor == old(selectedExhibitor)
      ensures bulkEmails == old(bulkEmails) && !isGenerating
      ensures outcome == (if fails then InsertFailed else Generated)
      ensures store.batches == old(store.batches) + (if fails then [] else [ExhibitorDrafts(exhibitors, stampAt)])
    {
      isGenerating := true;
      var ok := store.Insert(ExhibitorDrafts(exhibitors, stampAt), fails);
      outcome := if ok then Generated else InsertFailed;
      isGenerating := false;
    }
  }
}
