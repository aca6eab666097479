/** The header's notification list (stored as JSON under `ONE_notifications`
    in the persistent store): unread badge, rendered list, read marking,
    sending, and the elapsed-time label. */
module Notifications {
  import opened Common
  import opened Storage
  import opened Decimal

  const NotificationsKey: string := "ONE_notifications"

  /** At most this many notifications are rendered. */
  const RenderLimit: nat := 20

  /** `createdAt` is the creation time in milliseconds (the stored ISO text
      compared as the Date it denotes). */
  datatype Notification = Notification(
    id: string,
    toUserId: string,
    toRole: string,
    message: string,
    reportId: string,
    kind: string,
    createdAt: int,
    read: bool)

  /** A notification is for the user when it names the user's id or role. */
  predicate Addressed(n: Notification, userId: string, role: string)
  {
    n.toUserId == userId || n.toRole == role
  }

  // ---------------------------------------------------------------------
  // Unread badge.

  /** The length of the `!n.read` and addressed filter of `_updateNotifBadge`. */
  function UnreadCount(ns: seq<Notification>, userId: string, role: string): (r: nat)
    ensures r <= |ns|
    ensures r == 0 <==> forall i | 0 <= i < |ns| :: ns[i].read || !Addressed(ns[i], userId, role)
    ensures r == |ns| <==> forall i | 0 <= i < |ns| :: !ns[i].read && Addressed(ns[i], userId, role)
  {
    if ns == [] then 0
    else (if !ns[0].read && Addressed(ns[0], userId, role) then 1 else 0) + UnreadCount(ns[1..], userId, role)
  }

  datatype BadgeView = BadgeView(text: string, visible: bool)

  /** `unread > 99 ? '99+' : unread`. */
  function BadgeLabel(count: nat): string
  {
    if count > 99 then "99+" else NatToString(count)
  }

  /** `_updateNotifBadge()`: nothing without a session user. */
  function Badge(user: Option<User>, ns: seq<Notification>): (r: Option<BadgeView>)
    ensures r.Some? <==> user.Some?
  {
    match user
    case None => None
    case Some(u) =>
      var unread := UnreadCount(ns, u.userId, u.role);
      Some(BadgeView(BadgeLabel(unread), unread > 0))
  }

  /** The badge is shown exactly when the user has an unread notification; it
      reads "99+" exactly when there are more than 99, and otherwise reads back
      as the exact count. */
  lemma BadgeMeaning(u: User, ns: seq<Notification>)
    ensures var count := UnreadCount(ns, u.userId, u.role);
            var b := Badge(Some(u), ns);
            && b.Some?
            && (b.value.visible <==> count > 0)
            && (b.value.text == "99+" <==> count > 99)
            && (count <= 99 ==> ParseNat(b.value.text) == Some(count))
  {
    var count := UnreadCount(ns, u.userId, u.role);
    if count <= 99 {
      ParseNatToString(count);
      assert ParseNat("99+") == None;
    }
  }

  /** A principal record without `userId` reads as id "", so it is
      addressed by every notification sent without a recipient id, whatever
      role that notification targets. */
  lemma MissingUserIdSeesOtherRoles()
    ensures var n := Notification("N1", "", "contractor", "m", "", "info", 0, false);
            UnreadCount([n], "", "staff") == 1
  {
    var n := Notification("N1", "", "contractor", "m", "", "info", 0, false);
    assert [n][1..] == [];
  }

  // ---------------------------------------------------------------------
  // Read marking.

  /** `_markAllRead()` on the list: every notification addressed to the user
      becomes read; nothing else changes. */
  function MarkAllReadList(ns: seq<Notification>, userId: string, role: string): (r: seq<Notification>)
    ensures |r| == |ns|
    ensures forall i | 0 <= i < |ns| :: Addressed(ns[i], userId, role) ==> r[i] == ns[i].(read := true)
    ensures forall i | 0 <= i < |ns| :: !Addressed(ns[i], userId, role) ==> r[i] == ns[i]
  {
    if ns == [] then []
    else
      [if Addressed(ns[0], userId, role) then ns[0].(read := true) else ns[0]]
      + MarkAllReadList(ns[1..], userId, role)
  }

  /** After marking all read the user's unread count is zero. */
  lemma {:induction false} MarkAllReadClearsUnread(ns: seq<Notification>, userId: string, role: string)
    ensures UnreadCount(MarkAllReadList(ns, userId, role), userId, role) == 0
  {
    if ns != [] {
      MarkAllReadClearsUnread(ns[1..], userId, role);
      assert MarkAllReadList(ns, userId, role)[1..] == MarkAllReadList(ns[1..], userId, role);
    }
  }

  /** `_handleNotifClick(notifId)` on the list: every notification with that id
      becomes read; nothing else changes. */
  function MarkReadById(ns: seq<Notification>, notifId: string): (r: seq<Notification>)
    ensures |r| == |ns|
    ensures forall i | 0 <= i < |ns| :: ns[i].id == notifId ==> r[i] == ns[i].(read := true)
    ensures forall i | 0 <= i < |ns| :: ns[i].id != notifId ==> r[i] == ns[i]
  {
    if ns == [] then []
    else [if ns[0].id == notifId then ns[0].(read := true) else ns[0]] + MarkReadById(ns[1..], notifId)
  }

  /** Clicking never raises anyone's unread count, and lowers it by the
      number of unread notifications for that user carrying the clicked id. */
  lemma {:induction false} MarkReadByIdCount(ns: seq<Notification>, notifId: string, userId: string, role: string)
    ensures UnreadCount(MarkReadById(ns, notifId), userId, role)
            == UnreadCount(ns, userId, role) - UnreadCount(WithId(ns, notifId), userId, role)
  {
    if ns != [] {
      MarkReadByIdCount(ns[1..], notifId, userId, role);
      assert MarkReadById(ns, notifId)[1..] == MarkReadById(ns[1..], notifId);
      if ns[0].id == notifId {
        var w := [ns[0]] + WithId(ns[1..], notifId);
        assert WithId(ns, notifId) == w;
        assert w[1..] == WithId(ns[1..], notifId);
      } else {
        assert WithId(ns, notifId) == WithId(ns[1..], notifId);
      }
    }
  }

  /** The notifications carrying `notifId`. */
  function WithId(ns: seq<Notification>, notifId: string): seq<Notification>
  {
    if ns == [] then []
    else (if ns[0].id == notifId then [ns[0]] else []) + WithId(ns[1..], notifId)
  }

  // ---------------------------------------------------------------------
  // Sending.

  /** The `options` of `sendNotification`; a missing option is "". */
  datatype SendOptions = SendOptions(toUserId: string, toRole: string, message: string, reportId: string, kind: string)

  /** The record `sendNotification` builds; `id` and `createdAt` come from the
      clock and the random source. */
  function NewNotification(options: SendOptions, id: string, createdAt: int): (n: Notification)
    ensures !n.read && n.id == id && n.createdAt == createdAt
    ensures n.toUserId == options.toUserId && n.toRole == options.toRole
    ensures n.message == options.message && n.reportId == options.reportId
    ensures options.kind != "" ==> n.kind == options.kind
    ensures options.kind == "" ==> n.kind == "info"
  {
    Notification(id, options.toUserId, options.toRole, options.message, options.reportId,
                 OrElse(options.kind, "info"), createdAt, false)
  }

  /** Appending a sent notification raises the unread count by one exactly
      for the users it is addressed to. */
  lemma {:induction false} SendAddsOneUnread(ns: seq<Notification>, n: Notification, userId: string, role: string)
    requires !n.read
    ensures UnreadCount(ns + [n], userId, role)
            == UnreadCount(ns, userId, role) + (if Addressed(n, userId, role) then 1 else 0)
  {
    if ns == [] {
      assert [n][1..] == [];
    } else {
      assert (ns + [n])[1..] == ns[1..] + [n];
      SendAddsOneUnread(ns[1..], n, userId, role);
    }
  }

  // ---------------------------------------------------------------------
  // Rendered list: addressed notifications, newest first, at most 20.

  function AddressedTo(ns: seq<Notification>, userId: string, role: string): (r: seq<Notification>)
    ensures |r| <= |ns|
    ensures forall n | n in r :: n in ns && Addressed(n, userId, role)
    ensures forall n | n in ns && Addressed(n, userId, role) :: n in r
    ensures multiset(r) <= multiset(ns)
    ensures forall n {:trigger multiset(r)[n]} | Addressed(n, userId, role) :: multiset(r)[n] == multiset(ns)[n]
  {
    if ns == [] then []
    else
      assert ns == [ns[0]] + ns[1..];
      if Addressed(ns[0], userId, role) then [ns[0]] + AddressedTo(ns[1..], userId, role)
      else AddressedTo(ns[1..], userId, role)
  }

  /** Filtering keeps list order: the addressed part of two lists joined is
      the addressed part of each, joined. */
  lemma {:induction false} AddressedToInOrder(s: seq<Notification>, t: seq<Notification>, userId: string, role: string)
    ensures AddressedTo(s + t, userId, role) == AddressedTo(s, userId, role) + AddressedTo(t, userId, role)
    ensures |s| == 1 ==> AddressedTo(s, userId, role) == if Addressed(s[0], userId, role) then s else []
  {
    if s == [] {
      assert s + t == t;
    } else {
      AddressedToInOrder(s[1..], t, userId, role);
      AddressedToConsConcat(s, t, userId, role);
      AddressedToUnfold(s, userId, role);
      ConcatAssociates(if Addressed(s[0], userId, role) then [s[0]] else [],
                       AddressedTo(s[1..], userId, role), AddressedTo(t, userId, role));
      if |s| == 1 {
        AddressedToSingle(s, userId, role);
      }
    }
  }

  lemma ConcatAssociates(a: seq<Notification>, b: seq<Notification>, c: seq<Notification>)
    ensures a + (b + c) == (a + b) + c
  {
  }

  /** A single notification is kept exactly when it is addressed. */
  lemma AddressedToSingle(s: seq<Notification>, userId: string, role: string)
    requires |s| == 1
    ensures AddressedTo(s, userId, role) == if Addressed(s[0], userId, role) then s else []
  {
    AddressedToUnfold(s, userId, role);
    assert s[1..] == [];
    assert s == [s[0]];
  }

  lemma AddressedToConsConcat(s: seq<Notification>, t: seq<Notification>, userId: string, role: string)
    requires s != []
    ensures AddressedTo(s + t, userId, role)
            == (if Addressed(s[0], userId, role) then [s[0]] else []) + AddressedTo(s[1..] + t, userId, role)
  {
    assert (s + t)[1..] == s[1..] + t;
    assert (s + t)[0] == s[0];
    AddressedToUnfold(s + t, userId, role);
  }

  /** One step of the filter, stated without the filter's other ensures. */
  lemma AddressedToUnfold(ns: seq<Notification>, userId: string, role: string)
    requires ns != []
    ensures AddressedTo(ns, userId, role)
            == (if Addressed(ns[0], userId, role) then [ns[0]] else []) + AddressedTo(ns[1..], userId, role)
  {
  }

  predicate NewestFirst(s: seq<Notification>)
  {
    forall i, j | 0 <= i < j < |s| :: s[i].createdAt >= s[j].createdAt
  }

  /** The notifications with creation time `t`, in list order. */
  function WithTime(ns: seq<Notification>, t: int): seq<Notification>
  {
    if ns == [] then []
    else (if ns[0].createdAt == t then [ns[0]] else []) + WithTime(ns[1..], t)
  }

  lemma WithTimeCons(x: Notification, s: seq<Notification>, t: int)
    ensures WithTime([x] + s, t) == (if x.createdAt == t then [x] else []) + WithTime(s, t)
  {
    assert ([x] + s)[1..] == s;
  }

  /** Inserts `n` before the first element that is not newer than it. */
  function InsertByDate(n: Notification, s: seq<Notification>): (r: seq<Notification>)
    requires NewestFirst(s)
    ensures NewestFirst(r)
    ensures multiset(r) == multiset(s) + multiset{n}
    ensures forall x | x in r :: x in s || x == n
  {
    if s == [] then [n]
    else if s[0].createdAt <= n.createdAt then
      NewestFirstCons(n, s);
      [n] + s
    else
      var tail := InsertByDate(n, s[1..]);
      assert s == [s[0]] + s[1..];
      assert forall x | x in tail :: x.createdAt <= s[0].createdAt;
      NewestFirstCons(s[0], tail);
      [s[0]] + tail
  }

  /** A newest-first list stays so with an element in front that is not
      older than its head. */
  lemma NewestFirstCons(x: Notification, s: seq<Notification>)
    requires NewestFirst(s)
    requires s != [] ==> s[0].createdAt <= x.createdAt
    ensures NewestFirst([x] + s)
  {
    forall i, j | 0 <= i < j < |[x] + s|
      ensures ([x] + s)[i].createdAt >= ([x] + s)[j].createdAt
    {
      if i == 0 {
        assert ([x] + s)[j] == s[j - 1];
        if j > 1 {
          assert s[0].createdAt >= s[j - 1].createdAt;
        }
      } else {
        assert ([x] + s)[i] == s[i - 1] && ([x] + s)[j] == s[j - 1];
      }
    }
  }

  /** The inserted element goes in front of the elements with its time, and
      the others with a given time keep their order. */
  lemma {:induction false} InsertByDateStable(n: Notification, s: seq<Notification>, t: int)
    requires NewestFirst(s)
    ensures WithTime(InsertByDate(n, s), t) == (if n.createdAt == t then [n] else []) + WithTime(s, t)
  {
    if s == [] || s[0].createdAt <= n.createdAt {
      WithTimeCons(n, s, t);
    } else {
      var tail := InsertByDate(n, s[1..]);
      assert InsertByDate(n, s) == [s[0]] + tail;
      InsertByDateStable(n, s[1..], t);
      WithTimeCons(s[0], tail, t);
      assert s == [s[0]] + s[1..];
      WithTimeCons(s[0], s[1..], t);
      if n.createdAt == t {
        assert s[0].createdAt != t;
        assert WithTime(tail, t) == [n] + WithTime(s[1..], t);
        assert WithTime([s[0]] + tail, t) == WithTime(tail, t);
        assert WithTime(s, t) == WithTime(s[1..], t);
      } else {
        assert WithTime(tail, t) == WithTime(s[1..], t);
      }
    }
  }

  /** The descending `createdAt` sort of `_renderNotifList`. */
  function SortNewestFirst(ns: seq<Notification>): (r: seq<Notification>)
    ensures NewestFirst(r)
    ensures multiset(r) == multiset(ns)
    ensures |r| == |ns|
    ensures forall x | x in r :: x in ns
  {
    if ns == [] then []
    else
      assert ns == [ns[0]] + ns[1..];
      var rest := SortNewestFirst(ns[1..]);
      assert |multiset(rest)| == |ns[1..]|;
      InsertByDate(ns[0], rest)
  }

  /** Like `Array.prototype.sort`, the sort is stable: notifications with
      the same time keep their stored order. */
  lemma {:induction false} SortNewestFirstStable(ns: seq<Notification>, t: int)
    ensures WithTime(SortNewestFirst(ns), t) == WithTime(ns, t)
  {
    if ns != [] {
      SortNewestFirstStable(ns[1..], t);
      InsertByDateStable(ns[0], SortNewestFirst(ns[1..]), t);
      assert ns == [ns[0]] + ns[1..];
      WithTimeCons(ns[0], ns[1..], t);
    }
  }

  /** `_renderNotifList()`: nothing without a session user. */
  function RenderedList(user: Option<User>, ns: seq<Notification>): (r: Option<seq<Notification>>)
    ensures user.None? <==> r.None?
    ensures r.Some? ==> |r.value| <= RenderLimit && NewestFirst(r.value)
    ensures r.Some? ==> forall n | n in r.value :: n in ns && Addressed(n, user.value.userId, user.value.role)
    ensures r.Some? ==> multiset(r.value) <= multiset(AddressedTo(ns, user.value.userId, user.value.role))
    ensures r.Some? ==> multiset(r.value) <= multiset(ns)
    ensures r.Some? ==> |r.value| == if |AddressedTo(ns, user.value.userId, user.value.role)| < RenderLimit
                                     then |AddressedTo(ns, user.value.userId, user.value.role)| else RenderLimit
  {
    match user
    case None => None
    case Some(u) =>
      var addressed := AddressedTo(ns, u.userId, u.role);
      var sorted := SortNewestFirst(addressed);
      assert sorted == sorted[..if |sorted| <= RenderLimit then |sorted| else RenderLimit]
                       + sorted[if |sorted| <= RenderLimit then |sorted| else RenderLimit..];
      Some(if |sorted| <= RenderLimit then sorted else sorted[..RenderLimit])
  }

  /** The list shows the newest addressed notifications: any addressed
      notification left out is no newer than every one shown. */
  lemma RenderedAreNewest(u: User, ns: seq<Notification>, hidden: Notification, shown: Notification)
    requires hidden in AddressedTo(ns, u.userId, u.role)
    requires hidden !in RenderedList(Some(u), ns).value
    requires shown in RenderedList(Some(u), ns).value
    ensures shown.createdAt >= hidden.createdAt
  {
    var sorted := SortNewestFirst(AddressedTo(ns, u.userId, u.role));
    assert hidden in multiset(sorted);
    var j :| 0 <= j < |sorted| && sorted[j] == hidden;
    var i :| 0 <= i < RenderLimit && i < |sorted| && sorted[i] == shown;
    assert j >= RenderLimit;
  }

  // ---------------------------------------------------------------------
  // Elapsed-time label.

  datatype Elapsed = JustNow | MinutesAgo(minutes: nat) | HoursAgo(hours: nat) | DaysAgo(days: nat) | OverAWeek

  /** The bucket of `_formatTimeAgo` for an elapsed time of `seconds`. */
  function ElapsedBucket(seconds: int): (b: Elapsed)
    ensures b == JustNow <==> seconds < 60
    ensures b.MinutesAgo? <==> 60 <= seconds < 3600
    ensures b.HoursAgo? <==> 3600 <= seconds < 86400
    ensures b.DaysAgo? <==> 86400 <= seconds < 604800
    ensures b == OverAWeek <==> seconds >= 604800
    ensures b.MinutesAgo? ==> 1 <= b.minutes < 60 && b.minutes * 60 <= seconds < b.minutes * 60 + 60
    ensures b.HoursAgo? ==> 1 <= b.hours < 24 && b.hours * 3600 <= seconds < b.hours * 3600 + 3600
    ensures b.DaysAgo? ==> 1 <= b.days < 7 && b.days * 86400 <= seconds < b.days * 86400 + 86400
  {
    if seconds < 60 then JustNow
    else if seconds < 3600 then MinutesAgo(seconds / 60)
    else if seconds < 86400 then HoursAgo(seconds / 3600)
    else if seconds < 604800 then DaysAgo(seconds / 86400)
    else OverAWeek
  }

  /** `_formatTimeAgo(date)` for `elapsedMs` milliseconds since `date`;
      `localeDate` is the date's `toLocaleDateString('ja-JP')`. Dafny's `/` by
      a positive divisor rounds down, as `Math.floor` does. */
  function FormatTimeAgo(elapsedMs: int, localeDate: string): (r: string)
    ensures var seconds := elapsedMs / 1000;
            && (seconds < 60 ==> r == "たった今")
            && (60 <= seconds < 3600 ==> r == NatToString(seconds / 60) + "分前")
            && (3600 <= seconds < 86400 ==> r == NatToString(seconds / 3600) + "時間前")
            && (86400 <= seconds < 604800 ==> r == NatToString(seconds / 86400) + "日前")
            && (seconds >= 604800 ==> r == localeDate)
  {
    match ElapsedBucket(elapsedMs / 1000)
    case JustNow => "たった今"
    case MinutesAgo(m) => NatToString(m) + "分前"
    case HoursAgo(h) => NatToString(h) + "時間前"
    case DaysAgo(d) => NatToString(d) + "日前"
    case OverAWeek => localeDate
  }

  /** A label never shows an older bucket for a more recent time: a longer
      elapsed time never yields a smaller count within a unit, nor a smaller unit. */
  lemma ElapsedBucketMonotone(s1: int, s2: int)
    requires s1 <= s2
    ensures Rank(ElapsedBucket(s1)) <= Rank(ElapsedBucket(s2))
    ensures ElapsedBucket(s1).MinutesAgo? && ElapsedBucket(s2).MinutesAgo? ==>
      ElapsedBucket(s1).minutes <= ElapsedBucket(s2).minutes
    ensures ElapsedBucket(s1).HoursAgo? && ElapsedBucket(s2).HoursAgo? ==>
      ElapsedBucket(s1).hours <= ElapsedBucket(s2).hours
    ensures ElapsedBucket(s1).DaysAgo? && ElapsedBucket(s2).DaysAgo? ==>
      ElapsedBucket(s1).days <= ElapsedBucket(s2).days
  {
  }

  function Rank(b: Elapsed): nat
  {
    match b
    case JustNow => 0
    case MinutesAgo(_) => 1
    case HoursAgo(_) => 2
    case DaysAgo(_) => 3
    case OverAWeek => 4
  }

  /** The minute label reads back as its number of minutes. */
  lemma MinutesLabelReadsBack(elapsedMs: int, localeDate: string)
    requires 60 <= elapsedMs / 1000 < 3600
    ensures var text := FormatTimeAgo(elapsedMs, localeDate);
            && |text| > 2 && text[|text| - 2..] == "分前"
            && ParseNat(text[..|text| - 2]) == Some(elapsedMs / 1000 / 60)
  {
    var m := elapsedMs / 1000 / 60;
    ParseNatToString(m);
    assert FormatTimeAgo(elapsedMs, localeDate) == NatToString(m) + "分前";
    assert (NatToString(m) + "分前")[..|NatToString(m)|] == NatToString(m);
  }

  // ---------------------------------------------------------------------
  // The operations on the stores.

  function StoredNotifications(persistent: map<string, string>, parse: string -> Option<seq<Notification>>): seq<Notification>
  {
    ReadList(persistent, NotificationsKey, parse)
  }

  /** The `forEach` of `_markAllRead`, setting `read` in place. */
  method MarkAddressedRead(ns: seq<Notification>, userId: string, role: string) returns (notifs: seq<Notification>)
    ensures notifs == MarkAllReadList(ns, userId, role)
  {
    ghost var marked := MarkAllReadList(ns, userId, role);
    notifs := ns;
    var i := 0;
    while i < |notifs|
      invariant 0 <= i <= |notifs| == |ns|
      invariant forall j | 0 <= j < i :: notifs[j] == marked[j]
      invariant forall j | i <= j < |ns| :: notifs[j] == ns[j]
    {
      if Addressed(notifs[i], userId, role) {
        notifs := notifs[i := notifs[i].(read := true)];
      }
      i := i + 1;
    }
  }

  /** The `forEach` of `_handleNotifClick`, setting `read` in place. */
  method MarkIdRead(ns: seq<Notification>, notifId: string) returns (notifs: seq<Notification>)
    ensures notifs == MarkReadById(ns, notifId)
  {
    notifs := ns;
    var i := 0;
    while i < |notifs|
      invariant 0 <= i <= |notifs| == |ns|
      invariant forall j | 0 <= j < i :: notifs[j] == MarkReadById(ns, notifId)[j]
      invariant forall j | i <= j < |ns| :: notifs[j] == ns[j]
    {
      if notifs[i].id == notifId {
        notifs := notifs[i := notifs[i].(read := true)];
      }
      i := i + 1;
    }
  }

  /** `_markAllRead()`. */
  method MarkAllRead(st: WebStorage, parseUser: string -> Option<User>,
                     parse: string -> Option<seq<Notification>>, show: seq<Notification> -> string)
    modifies st
    ensures st.session == old(st.session)
    ensures SessionUser(old(st.session), parseUser).None? ==> st.persistent == old(st.persistent)
    ensures SessionUser(old(st.session), parseUser).Some? ==>
      var u := SessionUser(old(st.session), parseUser).value;
      st.persistent == old(st.persistent)[NotificationsKey :=
        show(MarkAllReadList(StoredNotifications(old(st.persistent), parse), u.userId, u.role))]
  {
    var user := SessionUser(st.session, parseUser);
    if user.Some? {
      var notifs := StoredNotifications(st.persistent, parse);
      notifs := MarkAddressedRead(notifs, user.value.userId, user.value.role);
      st.persistent := st.persistent[NotificationsKey := show(notifs)];
    }
  }

  /** `_handleNotifClick(notifId, reportId)`; the navigation that follows is
      external. There is no session-user check. */
  method HandleNotifClick(st: WebStorage, notifId: string,
                          parse: string -> Option<seq<Notification>>, show: seq<Notification> -> string)
    modifies st
    ensures st.session == old(st.session)
    ensures st.persistent == old(st.persistent)[NotificationsKey :=
      show(MarkReadById(StoredNotifications(old(st.persistent), parse), notifId))]
  {
    var notifs := StoredNotifications(st.persistent, parse);
    notifs := MarkIdRead(notifs, notifId);
    st.persistent := st.persistent[NotificationsKey := show(notifs)];
  }

  /** `sendNotification(options)`: appends exactly one unread record. */
  method SendNotification(st: WebStorage, options: SendOptions, id: string, createdAt: int,
                          parse: string -> Option<seq<Notification>>, show: seq<Notification> -> string)
    returns (n: Notification)
    modifies st
    ensures n == NewNotification(options, id, createdAt)
    ensures st.session == old(st.session)
    ensures st.persistent == old(st.persistent)[NotificationsKey :=
      show(StoredNotifications(old(st.persistent), parse) + [n])]
  {
    var notifs := StoredNotifications(st.persistent, parse);
    n := NewNotification(options, id, createdAt);
    notifs := notifs + [n];
    st.persistent := st.persistent[NotificationsKey := show(notifs)];
  }
}
