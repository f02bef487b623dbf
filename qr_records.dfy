/**
 * The `qr_codes` table: one row per access code, and the three ways the application
 * touches it (look a row up by its code, mark one row used, delete one row).
 */
module QrRecords {
  import opened Common

  datatype UserType = Visitor | Exhibitor

  function UserTypeName(t: UserType): string
  {
    match t
    case Visitor => "visitor"
    case Exhibitor => "exhibitor"
  }

  /** A row of `qr_codes`. Timestamps are the store's ISO strings, kept opaque. */
  datatype QrCode = QrCode(
    id: string,
    code: string,
    userType: UserType,
    userEmail: string,
    userName: string,
    companyName: Option<string>,
    isUsed: bool,
    usedAt: Option<string>,
    createdAt: string)

  /** The design's row invariant: `used_at` is set exactly when the code is used. */
  predicate UsedAtMatchesFlag(q: QrCode)
  {
    q.isUsed <==> q.usedAt.Some?
  }

  predicate DistinctIds(rows: seq<QrCode>)
  {
    forall i, j :: 0 <= i < j < |rows| ==> rows[i].id != rows[j].id
  }

  /** Positions of the rows whose code is `c`, in table order. */
  function RowsWithCode(rows: seq<QrCode>, c: string): (ks: seq<nat>)
    ensures forall k :: k in ks <==> 0 <= k < |rows| && rows[k].code == c
  {
    if rows == [] then []
    else
      var ks := RowsWithCode(rows[..|rows| - 1], c);
      if rows[|rows| - 1].code == c then ks + [|rows| - 1] else ks
  }

  /**
   * `select * from qr_codes where code = c` followed by `.single()`: the row when exactly
   * one row carries that code, and an error (None) when none or several do.
   */
  function LookupByCode(rows: seq<QrCode>, c: string): (r: Option<QrCode>)
    ensures r.Some? <==> |RowsWithCode(rows, c)| == 1
    ensures r.Some? ==> r.value.code == c && r.value in rows
  {
    var ks := RowsWithCode(rows, c);
    if |ks| == 1 then
      assert ks[0] in ks;
      Some(rows[ks[0]])
    else None
  }

  /** `update qr_codes set is_used = true, used_at = at where id = id`. */
  function MarkUsed(rows: seq<QrCode>, id: string, at: string): (r: seq<QrCode>)
    ensures |r| == |rows|
    ensures forall i :: 0 <= i < |rows| && rows[i].id != id ==> r[i] == rows[i]
    ensures forall i :: 0 <= i < |rows| && rows[i].id == id ==>
      r[i] == rows[i].(isUsed := true, usedAt := Some(at))
  {
    seq(|rows|, i requires 0 <= i < |rows| =>
      if rows[i].id == id then rows[i].(isUsed := true, usedAt := Some(at)) else rows[i])
  }

  /** `delete from qr_codes where id = id`. */
  function DeleteById(rows: seq<QrCode>, id: string): (r: seq<QrCode>)
    ensures forall q :: q in r <==> q in rows && q.id != id
  {
    Filter(rows, (q: QrCode) => q.id != id)
  }

  /** Marking a row used never clears any used flag, and keeps every code where it was. */
  lemma MarkUsedIsMonotone(rows: seq<QrCode>, id: string, at: string)
    ensures forall i :: 0 <= i < |rows| ==>
      MarkUsed(rows, id, at)[i].code == rows[i].code &&
      MarkUsed(rows, id, at)[i].id == rows[i].id &&
      (rows[i].isUsed ==> MarkUsed(rows, id, at)[i].isUsed)
  {
  }

  /** Marking a row used keeps the row invariant of every row that had it. */
  lemma MarkUsedKeepsRowInvariant(rows: seq<QrCode>, id: string, at: string)
    requires forall i :: 0 <= i < |rows| ==> UsedAtMatchesFlag(rows[i])
    ensures forall i :: 0 <= i < |rows| ==> UsedAtMatchesFlag(MarkUsed(rows, id, at)[i])
  {
  }

  /** The positions with a given code depend only on the codes. */
  lemma {:induction false} RowsWithCodeOnlyCodes(a: seq<QrCode>, b: seq<QrCode>, c: string)
    requires |a| == |b|
    requires forall i :: 0 <= i < |a| ==> a[i].code == b[i].code
    ensures RowsWithCode(a, c) == RowsWithCode(b, c)
  {
    if a != [] {
      RowsWithCodeOnlyCodes(a[..|a| - 1], b[..|b| - 1], c);
    }
  }

  /**
   * After the row a lookup found is marked used, the same lookup finds it again, now
   * used and stamped with the write time: a second scan of that code is refused.
   */
  lemma RedeemedCodeIsFoundUsed(rows: seq<QrCode>, c: string, at: string)
    requires LookupByCode(rows, c).Some?
    ensures LookupByCode(MarkUsed(rows, LookupByCode(rows, c).value.id, at), c) ==
      Some(LookupByCode(rows, c).value.(isUsed := true, usedAt := Some(at)))
  {
    var q := LookupByCode(rows, c).value;
    var after := MarkUsed(rows, q.id, at);
    RowsWithCodeOnlyCodes(rows, after, c);
    var ks := RowsWithCode(rows, c);
    assert ks[0] in ks;
    assert after[ks[0]] == q.(isUsed := true, usedAt := Some(at));
  }

  /** A lookup that fails keeps failing while no row is added or changes its code. */
  lemma LookupDependsOnlyOnCodes(a: seq<QrCode>, b: seq<QrCode>, c: string)
    requires |a| == |b|
    requires forall i :: 0 <= i < |a| ==> a[i].code == b[i].code
    ensures LookupByCode(a, c).Some? <==> LookupByCode(b, c).Some?
  {
    RowsWithCodeOnlyCodes(a, b, c);
  }

  /** The store's `qr_codes` table. */
  class QrTable {
    var rows: seq<QrCode>

    constructor (initial: seq<QrCode>)
      ensures rows == initial
    {
      rows := initial;
    }

    /** The single-row redeeming write; `fails` is the store's answer. */
    method MarkUsedById(id: string, at: string, fails: bool) returns (ok: bool)
      modifies this
      ensures ok == !fails
      ensures rows == if ok then MarkUsed(old(rows), id, at) else old(rows)
    {
      ok := !fails;
      if ok {
        rows := MarkUsed(rows, id, at);
      }
    }

    method DeleteRow(id: string, fails: bool) returns (ok: bool)
      modifies this
      ensures ok == !fails
      ensures rows == if ok then DeleteById(old(rows), id) else old(rows)
    {
      ok := !fails;
      if ok {
        rows := DeleteById(rows, id);
      }
    }
  }
}
