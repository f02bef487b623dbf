/**
 * The administrator's scanner (components/qr-code-scanner-admin.tsx). Unlike the entrance
 * scanner it looks the code up as given, shows the row as read before any write, and
 * reports its outcome through a toast rather than an error field. Codes reach it through
 * the manual-entry box, whose text is trimmed and then cleared.
 */
module QrScannerAdmin {
  import opened Common
  import opened Text
  import opened QrRecords

  /** The toast a call of `processQRCode` ends with. */
  datatype Toast = InvalidCode | ProcessedOk | UpdateFailed | AlreadyUsedWarning

  /** The toast for a code, given the rows read and the store's answers. */
  function AdminOutcome(rows: seq<QrCode>, code: string, fetchFails: bool, updateFails: bool): (t: Toast)
    ensures t == InvalidCode <==> fetchFails || LookupByCode(rows, code).None?
    ensures t == AlreadyUsedWarning <==>
      (!fetchFails && LookupByCode(rows, code).Some? && LookupByCode(rows, code).value.isUsed)
    ensures t == ProcessedOk <==>
      (!fetchFails && !updateFails && LookupByCode(rows, code).Some? && !LookupByCode(rows, code).value.isUsed)
  {
    if fetchFails then InvalidCode
    else match LookupByCode(rows, code)
      case None => InvalidCode
      case Some(q) => if q.isUsed then AlreadyUsedWarning else if updateFails then UpdateFailed else ProcessedOk
  }

  /**
   * The admin scanner looks the code up exactly as given: a code with surrounding white
   * space is not found even when its trimmed form is, since no row's code is padded.
   */
  lemma UntrimmedCodeIsNotFound(rows: seq<QrCode>, code: string)
    requires forall i :: 0 <= i < |rows| ==> rows[i].code == Trim(rows[i].code)
    requires code != Trim(code)
    ensures AdminOutcome(rows, code, false, false) == InvalidCode
  {
  }

  class AdminScanner {
    var scannedQR: Option<QrCode>
    var error: string
    /** The text of the manual-entry box. */
    var manualInput: string

    constructor ()
      ensures scannedQR == None && error == "" && manualInput == ""
    {
      scannedQR, error, manualInput := None, "", "";
    }

    /**
     * `processQRCode(qrCode)`: the lookup uses `qrCode` as given; `now` is the `used_at`
     * written when an unused code is redeemed.
     */
    method ProcessQRCode(db: QrTable, qrCode: string, fetchFails: bool, updateFails: bool, now: string)
      returns (toast: Toast)
      modifies this, db
      ensures toast == AdminOutcome(old(db.rows), qrCode, fetchFails, updateFails)
      ensures error == old(error) && manualInput == old(manualInput)
      ensures toast == InvalidCode ==> scannedQR == old(scannedQR) && db.rows == old(db.rows)
      // the row is shown as read, so a first redemption still displays it unused
      ensures toast != InvalidCode ==> scannedQR == LookupByCode(old(db.rows), qrCode)
      ensures toast == ProcessedOk ==> db.rows == MarkUsed(old(db.rows), scannedQR.value.id, now)
      ensures toast != ProcessedOk ==> db.rows == old(db.rows)
    {
      var found := if fetchFails then None else LookupByCode(db.rows, qrCode);
      if found.None? {
        return InvalidCode;
      }
      scannedQR := found;
      if !found.value.isUsed {
        var ok := db.MarkUsedById(found.value.id, now, updateFails);
        toast := if ok then ProcessedOk else UpdateFailed;
      } else {
        toast := AlreadyUsedWarning;
      }
    }

    /** Typing in the manual-entry box. */
    method EditManualInput(text: string)
      modifies this
      ensures manualInput == text && scannedQR == old(scannedQR) && error == old(error)
    {
      manualInput := text;
    }

    /**
     * Enter or "Procesar" on the manual-entry box: blank text is ignored; otherwise the
     * trimmed text is processed and the box is cleared.
     */
    method SubmitManual(db: QrTable, fetchFails: bool, updateFails: bool, now: string)
      returns (toast: Option<Toast>)
      modifies this, db
      ensures Trim(old(manualInput)) == "" ==>
        toast == None && unchanged(this) && db.rows == old(db.rows)
      ensures Trim(old(manualInput)) != "" ==>
        toast == Some(AdminOutcome(old(db.rows), Trim(old(manualInput)), fetchFails, updateFails)) &&
        manualInput == ""
    {
      var code := Trim(manualInput);
      if code == "" {
        return None;
      }
      var t := ProcessQRCode(db, code, fetchFails, updateFails, now);
      toast := Some(t);
      manualInput := "";
    }

    /** `resetScanner`: clears the shown code and the error. */
    method ResetScanner()
      modifies this
      ensures scannedQR == None && error == "" && manualInput == old(manualInput)
    {
      scannedQR, error := None, "";
    }
  }
}
