/**
 * The programme manager: the session and presentation forms, the inserts they make, and
 * the confirmation of a presentation.
 */
module Sessions {
  import opened Common

  /** The session form; it is inserted as it stands. */
  datatype SessionForm = SessionForm(title: string, description: string, sessionType: string,
                                     startTime: string, endTime: string, location: string,
                                     maxCapacity: int)

  /** The presentation form; it is inserted as it stands. */
  datatype PresentationForm = PresentationForm(exhibitorId: string, sessionId: string,
                                               presentationTitle: string, presentationDescription: string,
                                               presenterName: string, presenterTitle: string)

  /** The columns of an `exhibitor_presentations` row the manager reads and writes. */
  datatype Presentation = Presentation(id: string, exhibitorId: string, sessionId: string,
                                       presentationTitle: string, isConfirmed: bool)

  /** A fresh session form: a presentation with no capacity limit. */
  function EmptySessionForm(): (f: SessionForm)
    ensures f.sessionType == "presentation" && f.maxCapacity == 0
    ensures f.title == "" && f.startTime == "" && f.endTime == ""
  {
    SessionForm("", "", "presentation", "", "", "", 0)
  }

  function EmptyPresentationForm(): (f: PresentationForm)
    ensures f.exhibitorId == "" && f.sessionId == "" && f.presentationTitle == ""
  {
    PresentationForm("", "", "", "", "", "")
  }

  /** A title, a start and an end are required; nothing relates the start to the end. */
  predicate SessionComplete(f: SessionForm)
  {
    f.title != "" && f.startTime != "" && f.endTime != ""
  }

  predicate PresentationComplete(f: PresentationForm)
  {
    f.exhibitorId != "" && f.sessionId != "" && f.presentationTitle != ""
  }

  /** A form just reset after a successful insert is refused, so a second click inserts nothing. */
  lemma ResetFormsAreRefused()
    ensures !SessionComplete(EmptySessionForm())
    ensures !PresentationComplete(EmptyPresentationForm())
  {
  }

  /** Confirming writes `is_confirmed` on the rows with that id, and on no other. */
  function Confirm(rows: seq<Presentation>, id: string): (r: seq<Presentation>)
    ensures |r| == |rows|
    ensures forall k :: 0 <= k < |rows| ==>
      r[k] == if rows[k].id == id then rows[k].(isConfirmed := true) else rows[k]
  {
    seq(|rows|, k requires 0 <= k < |rows| => if rows[k].id == id then rows[k].(isConfirmed := true) else rows[k])
  }

  /** The "Confirmar" button is shown for unconfirmed presentations only. */
  predicate OffersConfirm(p: Presentation)
  {
    !p.isConfirmed
  }

  /**
   * Confirming twice is confirming once; afterwards no row with that id offers the button;
   * and no presentation that was confirmed stops being confirmed.
   */
  lemma ConfirmSettles(rows: seq<Presentation>, id: string)
    ensures Confirm(Confirm(rows, id), id) == Confirm(rows, id)
    ensures forall p :: p in Confirm(rows, id) && p.id == id ==> !OffersConfirm(p)
    ensures forall k :: 0 <= k < |rows| && rows[k].isConfirmed ==> Confirm(rows, id)[k].isConfirmed
    ensures CountWhere(rows, IsConfirmed()) <= CountWhere(Confirm(rows, id), IsConfirmed())
  {
    var once := Confirm(rows, id);
    assert Confirm(once, id) == once;
    ConfirmCounts(rows, id);
  }

  function IsConfirmed(): Presentation -> bool
  {
    (p: Presentation) => p.isConfirmed
  }

  lemma {:induction false} ConfirmCounts(rows: seq<Presentation>, id: string)
    ensures CountWhere(rows, IsConfirmed()) <= CountWhere(Confirm(rows, id), IsConfirmed())
  {
    if rows != [] {
      var init := rows[..|rows| - 1];
      ConfirmCounts(init, id);
      assert Confirm(rows, id)[..|rows| - 1] == Confirm(init, id);
    }
  }

  /** The capacity is shown only when it is positive: zero stands for no limit. */
  function CapacityShown(maxCapacity: int): (r: Option<int>)
    ensures r.Some? <==> maxCapacity > 0
    ensures r.Some? ==> r.value == maxCapacity
  {
    if maxCapacity > 0 then Some(maxCapacity) else None
  }

  /** The store's `exhibitor_presentations` table, as far as the confirmation touches it. */
  class PresentationTable {
    var rows: seq<Presentation>

    constructor (initial: seq<Presentation>)
      ensures rows == initial
    {
      rows := initial;
    }

    /** `update({ is_confirmed: true }).eq("id", id)`; `fails` is the store's answer. */
    method Confirmation(id: string, fails: bool) returns (ok: bool)
      modifies this
      ensures ok == !fails
      ensures rows == if ok then Confirm(old(rows), id) else old(rows)
    {
      ok := !fails;
      if ok {
        rows := Confirm(rows, id);
      }
    }
  }

  /** The manager's form state. */
  class SessionManager {
    var isCreating: bool
    var sessionForm: SessionForm
    var presentationForm: PresentationForm

    constructor ()
      ensures !isCreating && sessionForm == EmptySessionForm() && presentationForm == EmptyPresentationForm()
    {
      isCreating := false;
      sessionForm := EmptySessionForm();
      presentationForm := EmptyPresentationForm();
    }

    /**
     * `createSession`: an incomplete form is refused and nothing changes; otherwise the form
     * is inserted, and it is reset only when the insert succeeds.
     */
    method CreateSession(store: InsertLog<SessionForm>, fails: bool) returns (inserted: bool)
      modifies this, store
      ensures presentationForm == old(presentationForm)
      ensures !SessionComplete(old(sessionForm)) ==>
        !inserted && store.batches == old(store.batches) && sessionForm == old(sessionForm) &&
        isCreating == old(isCreating)
      ensures SessionComplete(old(sessionForm)) ==>
        inserted == !fails && !isCreating &&
        store.batches == old(store.batches) + (if fails then [] else [[old(sessionForm)]]) &&
        sessionForm == (if fails then old(sessionForm) else EmptySessionForm())
    {
      if sessionForm.title == "" || sessionForm.startTime == "" || sessionForm.endTime == "" {
        return false;
      }
      isCreating := true;
      inserted := store.Insert([sessionForm], fails);
      if inserted {
        sessionForm := EmptySessionForm();
      }
      isCreating := false;
    }

    /** `createPresentation`, with the same shape as `createSession`. */
    method CreatePresentation(store: InsertLog<PresentationForm>, fails: bool) returns (inserted: bool)
      modifies this, store
      ensures sessionForm == old(sessionForm)
      ensures !PresentationComplete(old(presentationForm)) ==>
        !inserted && store.batches == old(store.batches) && presentationForm == old(presentationForm) &&
        isCreating == old(isCreating)
      ensures PresentationComplete(old(presentationForm)) ==>
        inserted == !fails && !isCreating &&
        store.batches == old(store.batches) + (if fails then [] else [[old(presentationForm)]]) &&
        presentationForm == (if fails then old(presentationForm) else EmptyPresentationForm())
    {
      if presentationForm.exhibitorId == "" || presentationForm.sessionId == "" || presentationForm.presentationTitle == "" {
        return false;
      }
      isCreating := true;
      inserted := store.Insert([presentationForm], fails);
      if inserted {
        presentationForm := EmptyPresentationForm();
      }
      isCreating := false;
    }
  }

  /**
   * Two clicks on "Crear Sesión" insert at most one session: a successful first insert
   * resets the form, and the reset form is refused.
   */
  method DoubleSubmit(m: SessionManager, store: InsertLog<SessionForm>)
    returns (first: bool, second: bool)
    modifies m, store
    ensures !(first && second)
    ensures |store.batches| <= |old(store.batches)| + 1
  {
    first := m.CreateSession(store, false);
    second := m.CreateSession(store, false);
  }
}
