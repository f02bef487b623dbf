/**
 * The header bell: its unread badge, the window of notifications it lists, and what a
 * click on an entry or on "Marcar todas" asks of the notification centre.
 */
module NotificationBell {
  import opened Common
  import opened Text
  import opened Notifications

  const WindowSize: nat := 20

  /** The badge text, or none when nothing is unread; counts above 99 read "99+". */
  function BadgeText(unreadCount: int): (r: Option<string>)
    ensures r.None? <==> unreadCount <= 0
    ensures r == Some("99+") <==> unreadCount > 99
    ensures 0 < unreadCount <= 99 ==>
      (r.Some? && (forall i :: 0 <= i < |r.value| ==> IsDigit(r.value[i])) && DigitsValue(r.value) == unreadCount)
  {
    if unreadCount <= 0 then None
    else if unreadCount > 99 then Some("99+")
    else
      NatToStringRoundTrip(unreadCount);
      CountTextIsNotCap(unreadCount);
      Some(NatToString(unreadCount))
  }

  /** A number's digits never read "99+". */
  lemma CountTextIsNotCap(n: nat)
    ensures NatToString(n) != "99+"
  {
    assert !IsDigit("99+"[2]);
  }

  /** The entries listed: the first twenty, newest first as the centre holds them. */
  function Listed(s: seq<Notification>): (r: seq<Notification>)
    ensures |r| == Min(|s|, WindowSize) && r <= s
  {
    if |s| <= WindowSize then s else s[..WindowSize]
  }

  /** The "Ver todas" footer. */
  predicate ShowsFooter(s: seq<Notification>)
  {
    |s| > WindowSize
  }

  /** The footer appears exactly when some notification is not listed. */
  lemma FooterIffHidden(s: seq<Notification>)
    ensures ShowsFooter(s) <==> Listed(s) != s
    ensures !ShowsFooter(s) ==> forall n :: n in s ==> n in Listed(s)
  {
    if ShowsFooter(s) {
      assert |Listed(s)| < |s|;
    }
  }

  /** "Marcar todas" is offered only while something is unread. */
  predicate OffersMarkAll(unreadCount: int)
  {
    unreadCount > 0
  }

  /** A click on an entry, or on its check button, marks it read only if it is unread. */
  function ClickTarget(n: Notification): (r: Option<string>)
    ensures r.Some? <==> !n.read
    ensures r.Some? ==> r.value == n.id
  {
    if !n.read then Some(n.id) else None
  }

  /** The centre's list and counter after a click on `n`. */
  function AfterClick(s: seq<Notification>, unreadCount: int, n: Notification): (seq<Notification>, int)
  {
    var t := ClickTarget(n);
    if t.Some? then (MarkRead(s, t.value), Max(0, unreadCount - 1)) else (s, unreadCount)
  }

  /**
   * Clicking keeps the counter in step with the list when ids are distinct: the bell only
   * marks entries that are unread, so the counter never falls for an entry already read.
   */
  lemma ClickKeepsCount(s: seq<Notification>, unreadCount: int, k: nat)
    requires CountMatches(s, unreadCount) && DistinctNotificationIds(s) && k < |s|
    ensures CountMatches(AfterClick(s, unreadCount, s[k]).0, AfterClick(s, unreadCount, s[k]).1)
  {
    if !s[k].read {
      MarkReadOneLess(s, s[k].id, k);
    }
  }

  /** After "Marcar todas" the button and the badge are gone. */
  lemma MarkAllClearsBadge(s: seq<Notification>)
    ensures BadgeText(0).None? && !OffersMarkAll(0)
    ensures CountMatches(MarkAllRead(s), 0)
  {
    MarkAllReadNoneUnread(s);
  }
}
