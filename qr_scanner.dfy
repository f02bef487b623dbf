/**
 * The entrance scanner (components/qr-scanner.tsx): a code is looked up by its trimmed
 * text, refused when it is unknown or already used, and otherwise redeemed by one write
 * on its row. Camera handling is reduced to the `isScanning` flag that a successful
 * redemption turns off.
 */
module QrScanner {
  import opened Common
  import opened Text
  import opened QrRecords

  const NotFoundMessage: string := "Código QR no válido o no encontrado"
  const ProcessingErrorMessage: string := "Error al procesar el código QR"

  /** The already-used message; `localeTime` stands for `toLocaleString("es-ES")` of `used_at`. */
  function AlreadyUsedMessage(usedAt: Option<string>, localeTime: Option<string> -> string): string
  {
    "Este código QR ya fue utilizado el " + localeTime(usedAt)
  }

  /** What one call of `processQRCode` ended with. */
  datatype ScanOutcome = Busy | NotFound | AlreadyUsed | WriteFailed | Redeemed

  /** The row the lookup returns: none when the read fails or `.single()` finds no unique row. */
  function Found(rows: seq<QrCode>, code: string, fetchFails: bool): Option<QrCode>
  {
    if fetchFails then None else LookupByCode(rows, Trim(code))
  }

  /** The branch a call takes, given the rows it reads and the store's answers. */
  function Classify(rows: seq<QrCode>, code: string, fetchFails: bool, updateFails: bool): (o: ScanOutcome)
    ensures o == NotFound <==> Found(rows, code, fetchFails).None?
    ensures o == AlreadyUsed <==> (Found(rows, code, fetchFails).Some? && Found(rows, code, fetchFails).value.isUsed)
    ensures o == Redeemed <==>
      (!updateFails && Found(rows, code, fetchFails).Some? && !Found(rows, code, fetchFails).value.isUsed)
    ensures o != Busy
  {
    match Found(rows, code, fetchFails)
    case None => NotFound
    case Some(q) => if q.isUsed then AlreadyUsed else if updateFails then WriteFailed else Redeemed
  }

  /**
   * A code that was just redeemed is refused as already used on the next scan, whatever
   * white space surrounds it the second time.
   */
  lemma SecondScanIsRefused(rows: seq<QrCode>, code: string, again: string, at: string)
    requires Classify(rows, code, false, false) == Redeemed
    requires Trim(again) == Trim(code)
    ensures Classify(MarkUsed(rows, Found(rows, code, false).value.id, at), again, false, false) == AlreadyUsed
  {
    RedeemedCodeIsFoundUsed(rows, Trim(code), at);
  }

  class Scanner {
    var isScanning: bool
    var isProcessing: bool
    var error: Option<string>
    var scanResult: Option<QrCode>

    constructor ()
      ensures !isScanning && !isProcessing && error == None && scanResult == None
    {
      isScanning, isProcessing, error, scanResult := false, false, None, None;
    }

    /**
     * `processQRCode(qrCode)`. The clock is read twice: `writeTime` is the `used_at`
     * written to the store, `shownTime` the one put in the displayed result.
     */
    method ProcessQRCode(db: QrTable, qrCode: string, fetchFails: bool, updateFails: bool,
                         writeTime: string, shownTime: string,
                         localeTime: Option<string> -> string) returns (outcome: ScanOutcome)
      modifies this, db
      // a call made while another is processing reads and writes nothing
      ensures old(isProcessing) ==> outcome == Busy && unchanged(this) && unchanged(db)
      ensures !old(isProcessing) ==> outcome == Classify(old(db.rows), qrCode, fetchFails, updateFails)
      ensures !old(isProcessing) ==> !isProcessing
      ensures outcome == NotFound ==>
        error == Some(NotFoundMessage) && scanResult == old(scanResult) && db.rows == old(db.rows) &&
        isScanning == old(isScanning)
      ensures outcome == AlreadyUsed ==>
        var q := Found(old(db.rows), qrCode, fetchFails).value;
        error == Some(AlreadyUsedMessage(q.usedAt, localeTime)) && scanResult == Some(q) &&
        db.rows == old(db.rows) && isScanning == old(isScanning)
      ensures outcome == WriteFailed ==>
        error == Some(ProcessingErrorMessage) && scanResult == old(scanResult) &&
        db.rows == old(db.rows) && isScanning == old(isScanning)
      ensures outcome == Redeemed ==>
        var q := Found(old(db.rows), qrCode, fetchFails).value;
        db.rows == MarkUsed(old(db.rows), q.id, writeTime) &&
        scanResult == Some(q.(isUsed := true, usedAt := Some(shownTime))) &&
        error == None && !isScanning
    {
      if isProcessing {
        return Busy;
      }
      isProcessing := true;
      error := None;
      var found := Found(db.rows, qrCode, fetchFails);
      if found.None? {
        outcome := NotFound;
        error := Some(NotFoundMessage);
      } else if found.value.isUsed {
        outcome := AlreadyUsed;
        error := Some(AlreadyUsedMessage(found.value.usedAt, localeTime));
        scanResult := found;
      } else {
        var ok := db.MarkUsedById(found.value.id, writeTime, updateFails);
        if !ok {
          outcome := WriteFailed;
          error := Some(ProcessingErrorMessage);
        } else {
          outcome := Redeemed;
          scanResult := Some(found.value.(isUsed := true, usedAt := Some(shownTime)));
          isScanning := false;
        }
      }
      isProcessing := false;
    }

    /** `resetScanner`: clears the result, the error and the processing flag. */
    method ResetScanner()
      modifies this
      ensures scanResult == None && error == None && !isProcessing && isScanning == old(isScanning)
    {
      scanResult, error, isProcessing := None, None, false;
    }
  }
}
