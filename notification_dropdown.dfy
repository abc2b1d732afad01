/** The bell in the header: the unread badge, the relative time shown next
    to each notification, and what a click on a notification does. */
module NotificationDropdown {
  import opened Wrappers
  import opened Js
  import opened Types

  // ---------------------------------------------------------------------
  // Unread count and badge

  function IsUnread(n: Notification): bool { !n.read }

  /** `unreadCount`: the unread notifications, 0 while loading. */
  function UnreadCount(ns: Option<seq<Notification>>): (r: nat)
    ensures ns.None? ==> r == 0
    ensures ns.Some? ==> r <= |ns.value|
    ensures ns.Some? ==> (r == 0 <==> forall i :: 0 <= i < |ns.value| ==> ns.value[i].read)
  {
    if ns.None? then 0
    else
      var unread := Filter(ns.value, IsUnread);
      assert unread == [] <==> forall i :: 0 <= i < |ns.value| ==> ns.value[i].read by {
        if unread != [] {
          assert unread[0] in unread;
        } else {
          assert forall i :: 0 <= i < |ns.value| ==> ns.value[i] !in unread;
        }
      }
      |unread|
  }

  /** Marking one unread notification as read lowers the count by exactly one. */
  lemma {:induction false} MarkOneLowersCount(ns: seq<Notification>, k: nat)
    requires k < |ns| && !ns[k].read
    ensures UnreadCount(Some(ns[k := ns[k].(read := true)])) == UnreadCount(Some(ns)) - 1
  {
    var ms := ns[k := ns[k].(read := true)];
    assert ns == [ns[0]] + ns[1..] && ms == [ms[0]] + ms[1..];
    if k == 0 {
      assert ms[1..] == ns[1..];
    } else {
      assert ms[1..] == ns[1..][k - 1 := ns[k].(read := true)];
      MarkOneLowersCount(ns[1..], k - 1);
    }
  }

  /** Once every notification is read, the count is 0. */
  lemma AllReadNoCount(ns: seq<Notification>)
    requires forall i :: 0 <= i < |ns| ==> ns[i].read
    ensures UnreadCount(Some(ns)) == 0
  {
  }

  /** The badge text: hidden at 0, the count up to 9, "9+" above. */
  function BadgeLabel(unreadCount: nat): (r: Option<string>)
    ensures r.None? <==> unreadCount == 0
    ensures r == Some("9+") <==> unreadCount > 9
    ensures 0 < unreadCount <= 9 ==> r == Some([DigitChar(unreadCount)])
  {
    if unreadCount == 0 then None
    else if unreadCount > 9 then Some("9+")
    else
      Some(NatToString(unreadCount))
  }

  /** The "mark all read" button is there exactly when the badge is. */
  predicate ShowMarkAll(unreadCount: nat) {
    unreadCount > 0
  }

  lemma MarkAllWithBadge(unreadCount: nat)
    ensures ShowMarkAll(unreadCount) <==> BadgeLabel(unreadCount).Some?
  {
  }

  // ---------------------------------------------------------------------
  // Time ago

  const MinuteMs := 60000
  const HourMs := 3600000
  const DayMs := 86400000

  /** A rendered count never reads "Just now": it starts with a digit. */
  lemma NotJustNow(n: nat, suffix: string)
    ensures NatToString(n) + suffix != "Just now"
  {
    assert (NatToString(n) + suffix)[0] == NatToString(n)[0];
  }

  /** `getTimeAgo` for the difference `diff` in milliseconds between now and
      the notification's time. `Math.floor` of a quotient by a positive
      divisor is Dafny's `/`. */
  function TimeAgo(diff: int): (r: string)
    ensures r == "Just now" <==> diff < MinuteMs
    ensures MinuteMs <= diff < HourMs ==>
      exists m: nat :: 1 <= m < 60 && m * MinuteMs <= diff < (m + 1) * MinuteMs
                       && r == NatToString(m) + "m ago"
    ensures HourMs <= diff < DayMs ==>
      exists h: nat :: 1 <= h < 24 && h * HourMs <= diff < (h + 1) * HourMs
                       && r == NatToString(h) + "h ago"
    ensures DayMs <= diff ==>
      exists d: nat :: 1 <= d && d * DayMs <= diff < (d + 1) * DayMs
                       && r == NatToString(d) + "d ago"
  {
    var minutes := diff / MinuteMs;
    var hours := diff / HourMs;
    var days := diff / DayMs;
    if minutes < 1 then "Just now"
    else if minutes < 60 then
      assert minutes * MinuteMs <= diff < (minutes + 1) * MinuteMs;
      NotJustNow(minutes, "m ago");
      NatToString(minutes) + "m ago"
    else if hours < 24 then
      assert hours * HourMs <= diff < (hours + 1) * HourMs;
      NotJustNow(hours, "h ago");
      NatToString(hours) + "h ago"
    else
      assert days * DayMs <= diff < (days + 1) * DayMs;
      NotJustNow(days, "d ago");
      NatToString(days) + "d ago"
  }

  // ---------------------------------------------------------------------
  // Click

  datatype Click = Click(markAsRead: Option<string>, isOpen: bool)

  /** `handleNotificationClick`: an unread notification is sent to
      `markNotificationAsRead`; the dropdown closes either way. */
  function HandleNotificationClick(n: Notification): (r: Click)
    ensures !r.isOpen
    ensures r.markAsRead.Some? <==> !n.read
    ensures r.markAsRead.Some? ==> r.markAsRead.value == n.id
  {
    Click(if n.read then None else Some(n.id), false)
  }
}
