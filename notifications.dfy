/**
 * The notification centre: the list of notifications the header bell shows and its unread
 * counter. Two store events feed it, a new lead and a code being redeemed; the bell marks
 * one notification or all of them read. Event delivery is sequential here: each handler
 * runs to completion before the next event.
 */
module Notifications {
  import opened Common
  import opened LeadRecords
  import opened QrRecords

  datatype Kind = LeadKind | MeetingKind | SystemKind

  datatype Notification = Notification(id: string, kind: Kind, title: string, message: string,
                                       timestamp: string, read: bool)

  /** The exhibitor columns the lead handler reads. */
  datatype ExhibitorContact = ExhibitorContact(companyName: string, advisorName: Option<string>,
                                               advisorEmail: Option<string>)

  function LeadTitle(leadType: string): string
  {
    "Nuevo " + (if leadType == "benefit" then "Beneficio" else "Reunión") + " Solicitado"
  }

  function LeadMessage(l: Lead, companyName: string): string
  {
    OrElse(l.visitorName, "Un visitante") + " ha solicitado " +
    (if l.leadType == "benefit" then "un beneficio" else "una reunión") + " de " + companyName
  }

  /** The notification a new lead produces, addressed to its exhibitor's company. */
  function LeadNotification(l: Lead, e: ExhibitorContact, now: string): (n: Notification)
    ensures n.id == "lead-" + l.id && n.kind == LeadKind && !n.read && n.timestamp == now
  {
    Notification("lead-" + l.id, LeadKind, LeadTitle(l.leadType), LeadMessage(l, e.companyName), now, false)
  }

  /** The title names a benefit exactly for benefit leads and a meeting for every other type. */
  lemma LeadTitleNamesType(leadType: string)
    ensures LeadTitle(leadType) == "Nuevo Beneficio Solicitado" <==> leadType == "benefit"
    ensures LeadTitle(leadType) == "Nuevo Reunión Solicitado" <==> leadType != "benefit"
  {
    var b, m := "Nuevo Beneficio Solicitado", "Nuevo Reunión Solicitado";
    assert b[6] != m[6];
  }

  /** The advisor is e-mailed for meeting requests of exhibitors with an advisor address. */
  predicate EmailRequested(l: Lead, e: ExhibitorContact)
  {
    l.leadType == "meeting" && e.advisorEmail.Some? && e.advisorEmail.value != ""
  }

  function QrNotification(q: QrCode, now: string): (n: Notification)
    ensures n.id == "qr-" + q.id && n.kind == SystemKind && !n.read && n.timestamp == now
    ensures n.title == "Nuevo Acceso al Evento"
  {
    var name := if q.userName != "" then q.userName else "Usuario";
    Notification("qr-" + q.id, SystemKind, "Nuevo Acceso al Evento",
                 name + " (" + UserTypeName(q.userType) + ") ha ingresado al evento", now, false)
  }

  /** A code update is announced only when it turns a code from unused to used. */
  predicate IsRedemption(before: QrCode, after: QrCode)
  {
    after.isUsed && !before.isUsed
  }

  // ---------------------------------------------------------------- the list

  /** How many notifications are unread. */
  function Unread(s: seq<Notification>): (n: nat)
    ensures n <= |s|
  {
    if s == [] then 0 else (if s[0].read then 0 else 1) + Unread(s[1..])
  }

  /** `map(n => n.id === id ? {...n, read: true} : n)`. */
  function MarkRead(s: seq<Notification>, id: string): (r: seq<Notification>)
    ensures |r| == |s|
    ensures forall i :: 0 <= i < |s| ==> r[i] == if s[i].id == id then s[i].(read := true) else s[i]
  {
    if s == [] then [] else [if s[0].id == id then s[0].(read := true) else s[0]] + MarkRead(s[1..], id)
  }

  /** `map(n => ({...n, read: true}))`. */
  function MarkAllRead(s: seq<Notification>): (r: seq<Notification>)
    ensures |r| == |s|
    ensures forall i :: 0 <= i < |s| ==> r[i] == s[i].(read := true)
  {
    if s == [] then [] else [s[0].(read := true)] + MarkAllRead(s[1..])
  }

  predicate DistinctNotificationIds(s: seq<Notification>)
  {
    forall i, j :: 0 <= i < j < |s| ==> s[i].id != s[j].id
  }

  /** The counter the provider keeps agrees with the list. */
  predicate CountMatches(s: seq<Notification>, unreadCount: int)
  {
    unreadCount == Unread(s)
  }

  /** Marking an unread notification of a list with distinct ids read leaves one fewer unread. */
  lemma {:induction false} MarkReadOneLess(s: seq<Notification>, id: string, k: nat)
    requires DistinctNotificationIds(s) && k < |s| && s[k].id == id && !s[k].read
    ensures Unread(MarkRead(s, id)) == Unread(s) - 1
  {
    if k == 0 {
      MarkReadAbsent(s[1..], id);
      assert MarkRead(s, id)[1..] == MarkRead(s[1..], id);
    } else {
      MarkReadOneLess(s[1..], id, k - 1);
      assert MarkRead(s, id)[1..] == MarkRead(s[1..], id);
    }
  }

  /** Marking a read notification, or an id the list does not hold, leaves the unread number alone. */
  lemma {:induction false} MarkReadAbsent(s: seq<Notification>, id: string)
    requires forall i :: 0 <= i < |s| && s[i].id == id ==> s[i].read
    ensures Unread(MarkRead(s, id)) == Unread(s)
  {
    if s != [] {
      MarkReadAbsent(s[1..], id);
      assert MarkRead(s, id)[1..] == MarkRead(s[1..], id);
    }
  }

  lemma {:induction false} MarkAllReadNoneUnread(s: seq<Notification>)
    ensures Unread(MarkAllRead(s)) == 0
  {
    if s != [] {
      MarkAllReadNoneUnread(s[1..]);
      assert MarkAllRead(s)[1..] == MarkAllRead(s[1..]);
    }
  }

  /**
   * The counter drifts below the list when `markAsRead` is called for a read notification:
   * the counter falls by one while the list keeps its unread notifications.
   */
  lemma MarkingReadAgainDrifts(n: Notification, m: Notification)
    requires n.read && !m.read && n.id != m.id
    ensures CountMatches([n, m], 1)
    ensures Unread(MarkRead([n, m], n.id)) == 1
    ensures !CountMatches(MarkRead([n, m], n.id), Max(0, 1 - 1))
  {
    assert MarkRead([n, m], n.id) == [n, m];
  }

  /** The provider's state. */
  class NotificationCenter {
    const configured: bool
    var notifications: seq<Notification>
    var unreadCount: int

    /** `configured` says whether the store's URL and key are set; without them nothing subscribes. */
    constructor (configured: bool)
      ensures this.configured == configured && notifications == [] && unreadCount == 0
    {
      this.configured := configured;
      notifications := [];
      unreadCount := 0;
    }

    /**
     * A lead was inserted; `exhibitorOf` looks up its exhibitor. Returns whether the advisor
     * e-mail is requested; whether that request succeeds changes nothing here.
     */
    method OnLeadInserted(l: Lead, exhibitorOf: string -> Option<ExhibitorContact>, now: string)
      returns (emailRequested: bool)
      modifies this
      ensures var e := exhibitorOf(l.exhibitorId);
        if configured && e.Some? then
          notifications == [LeadNotification(l, e.value, now)] + old(notifications) &&
          unreadCount == old(unreadCount) + 1 && (emailRequested <==> EmailRequested(l, e.value))
        else
          notifications == old(notifications) && unreadCount == old(unreadCount) && !emailRequested
      ensures CountMatches(old(notifications), old(unreadCount)) ==> CountMatches(notifications, unreadCount)
    {
      emailRequested := false;
      if configured {
        var e := exhibitorOf(l.exhibitorId);
        if e.Some? {
          notifications := [LeadNotification(l, e.value, now)] + notifications;
          unreadCount := unreadCount + 1;
          emailRequested := EmailRequested(l, e.value);
        }
      }
    }

    /** A code row changed from `before` to `after`. */
    method OnQrUpdated(before: QrCode, after: QrCode, now: string)
      modifies this
      ensures if configured && IsRedemption(before, after) then
          notifications == [QrNotification(after, now)] + old(notifications) && unreadCount == old(unreadCount) + 1
        else
          notifications == old(notifications) && unreadCount == old(unreadCount)
      ensures CountMatches(old(notifications), old(unreadCount)) ==> CountMatches(notifications, unreadCount)
    {
      if configured && after.isUsed && !before.isUsed {
        notifications := [QrNotification(after, now)] + notifications;
        unreadCount := unreadCount + 1;
      }
    }

    /** Marks the notifications with that id read and counts one fewer unread, never below zero. */
    method MarkAsRead(id: string)
      modifies this
      ensures notifications == MarkRead(old(notifications), id)
      ensures unreadCount == Max(0, old(unreadCount) - 1)
      ensures CountMatches(old(notifications), old(unreadCount)) && DistinctNotificationIds(old(notifications)) &&
        (exists k :: 0 <= k < |old(notifications)| && old(notifications)[k].id == id && !old(notifications)[k].read)
        ==> CountMatches(notifications, unreadCount)
    {
      if CountMatches(notifications, unreadCount) && DistinctNotificationIds(notifications) &&
         exists k :: 0 <= k < |notifications| && notifications[k].id == id && !notifications[k].read {
        var k :| 0 <= k < |notifications| && notifications[k].id == id && !notifications[k].read;
        MarkReadOneLess(notifications, id, k);
      }
      notifications := MarkRead(notifications, id);
      unreadCount := Max(0, unreadCount - 1);
    }

    method MarkAllAsRead()
      modifies this
      ensures notifications == MarkAllRead(old(notifications)) && unreadCount == 0
      ensures CountMatches(notifications, unreadCount)
    {
      MarkAllReadNoneUnread(notifications);
      notifications := MarkAllRead(notifications);
      unreadCount := 0;
    }
  }

  /** Without a configured store no event reaches the centre, so its list stays empty. */
  method UnconfiguredStaysEmpty(l: Lead, q: QrCode, exhibitorOf: string -> Option<ExhibitorContact>, now: string)
    returns (count: int, shown: seq<Notification>)
    ensures count == 0 && shown == []
  {
    var c := new NotificationCenter(false);
    var _ := c.OnLeadInserted(l, exhibitorOf, now);
    c.OnQrUpdated(q, q.(isUsed := true), now);
    count, shown := c.unreadCount, c.notifications;
  }
}
