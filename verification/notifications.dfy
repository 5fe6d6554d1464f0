/** `useNotifications`: the user's notifications and an unread counter that
    the fetch sets by counting and the two mark actions then adjust. The
    single mark lowers the counter by one (floored at zero) on every
    success, also for a notification that was already read, so the counter
    can fall below the number of unread notifications. `MarkAsReadAsWritten`
    is that handler; `MarkAsRead` recounts instead. */
module Notifications {
  import opened Wrappers
  import opened Keyed

  datatype Kind = AppointmentNote | MessageNote | Reminder | Update

  datatype Notification = Notification(
    id: string,
    userId: string,
    title: string,
    message: string,
    kind: Kind,
    isRead: bool,
    createdAt: string)

  datatype HookState = HookState(notifications: seq<Notification>, unreadCount: int, loading: bool, error: Option<string>)

  datatype Effect = Effect(state: HookState, completion: Completion)

  predicate Unread(n: Notification) {
    !n.isRead
  }

  function UnreadWithId(id: string): Notification -> bool {
    (n: Notification) => n.id == id && !n.isRead
  }

  /** `notifications.filter(n => !n.is_read).length`. */
  function UnreadCount(ns: seq<Notification>): nat {
    Count(ns, Unread)
  }

  /** The counter agrees with the list. */
  predicate Accurate(s: HookState) {
    s.unreadCount == UnreadCount(s.notifications)
  }

  /** The fetch effect (also what each poll runs). Without a user the list
      and counter are cleared; a failed fetch records the error and keeps
      both. */
  function Fetch(s: HookState, user: Option<string>, reply: Result<seq<Notification>>): (r: HookState)
    ensures !r.loading
    ensures user.None? ==> r.notifications == [] && r.unreadCount == 0 && Accurate(r)
    ensures user.Some? && reply.Ok? ==> r.notifications == reply.value && Accurate(r) && r.error.None?
    ensures user.Some? && reply.Err? ==>
      r.notifications == s.notifications && r.unreadCount == s.unreadCount && r.error == Some(reply.message)
  {
    if user.None? then s.(notifications := [], unreadCount := 0, loading := false)
    else match reply
      case Ok(rows) => s.(notifications := rows, unreadCount := UnreadCount(rows), error := None, loading := false)
      case Err(e) => s.(error := Some(e), loading := false)
  }

  /** The local patch of a single mark: the entries with the id become read. */
  function MarkRead(ns: seq<Notification>, id: string): (r: seq<Notification>)
    ensures |r| == |ns|
    ensures forall i :: 0 <= i < |ns| ==> r[i] == if ns[i].id == id then ns[i].(isRead := true) else ns[i]
  {
    MapWhere(ns, (n: Notification) => n.id == id, (n: Notification) => n.(isRead := true))
  }

  /** Marking by id leaves unread exactly the unread entries with another id. */
  lemma {:induction false} UnreadAfterMark(ns: seq<Notification>, id: string)
    ensures UnreadCount(MarkRead(ns, id)) + Count(ns, UnreadWithId(id)) == UnreadCount(ns)
    decreases |ns|
  {
    if |ns| > 0 {
      var m := MarkRead(ns, id);
      UnreadAfterMark(ns[1..], id);
      assert m[1..] == MarkRead(ns[1..], id);
    }
  }

  /** `markAsRead` as written: after a successful store update the counter
      drops by one whatever the entry's state was. No user: a bare return.
      A store failure is rethrown with nothing changed. */
  function MarkAsReadAsWritten(s: HookState, user: Option<string>, id: string, fault: Option<string>): (r: Effect)
    ensures user.None? || fault.Some? ==> r.state == s
    ensures user.None? ==> r.completion == Resolved
    ensures user.Some? && fault.Some? ==> r.completion == Rejected(fault.value)
    ensures user.Some? && fault.None? ==>
      && r.completion == Resolved
      && r.state.notifications == MarkRead(s.notifications, id)
      && r.state.unreadCount == if s.unreadCount > 0 then s.unreadCount - 1 else 0
  {
    if user.None? then Effect(s, Resolved)
    else if fault.Some? then Effect(s, Rejected(fault.value))
    else Effect(s.(notifications := MarkRead(s.notifications, id), unreadCount := if s.unreadCount - 1 > 0 then s.unreadCount - 1 else 0), Resolved)
  }

  /** The state a successful mark as written leaves. */
  function MarkedAsWritten(s: HookState, user: string, id: string): HookState {
    MarkAsReadAsWritten(s, Some(user), id, None).state
  }

  /** Marking one unread notification keeps an accurate counter accurate... */
  lemma AsWrittenAccurateForOneUnread(s: HookState, user: string, id: string)
    requires Accurate(s) && Count(s.notifications, UnreadWithId(id)) == 1
    ensures Accurate(MarkedAsWritten(s, user, id))
  {
    UnreadAfterMark(s.notifications, id);
  }

  /** ...but marking a notification that is already read loses one unread
      notification from the counter. */
  lemma AsWrittenDriftsOnRereading(read: Notification, unread: Notification, user: string)
    requires read.isRead && !unread.isRead && read.id != unread.id
    ensures var s := HookState([read, unread], 1, false, None);
      && Accurate(s)
      && var r := MarkedAsWritten(s, user, read.id);
      && r.unreadCount == 0
      && UnreadCount(r.notifications) == 1
  {
    var s := HookState([read, unread], 1, false, None);
    assert s.notifications[1..] == [unread] && [unread][1..] == [];
    assert Count([unread], Unread) == 1;
    assert UnreadCount(s.notifications) == 1;
    var m := MarkRead(s.notifications, read.id);
    assert m == [read, unread];
  }

  /** `markAsRead` with the counter recounted from the patched list: it
      falls by the number of unread entries carrying the id. */
  function MarkAsRead(s: HookState, user: Option<string>, id: string, fault: Option<string>): (r: Effect)
    ensures user.None? || fault.Some? ==> r.state == s
    ensures user.None? ==> r.completion == Resolved
    ensures user.Some? && fault.Some? ==> r.completion == Rejected(fault.value)
    ensures user.Some? && fault.None? ==>
      && r.completion == Resolved
      && r.state.notifications == MarkRead(s.notifications, id)
      && Accurate(r.state)
  {
    if user.None? then Effect(s, Resolved)
    else if fault.Some? then Effect(s, Rejected(fault.value))
    else
      var marked := MarkRead(s.notifications, id);
      Effect(s.(notifications := marked, unreadCount := UnreadCount(marked)), Resolved)
  }

  /** The corrected mark keeps the counter accurate and lowers it by exactly
      the unread entries with the id: by one for an unread notification, by
      none for a read one. */
  lemma MarkAsReadKeepsAccurate(s: HookState, user: string, id: string)
    requires Accurate(s)
    ensures var r := MarkAsRead(s, Some(user), id, None).state;
      && Accurate(r)
      && r.unreadCount == s.unreadCount - Count(s.notifications, UnreadWithId(id))
  {
    UnreadAfterMark(s.notifications, id);
  }

  /** `markAllAsRead`: every entry read and the counter at zero. */
  function MarkAllAsRead(s: HookState, user: Option<string>, fault: Option<string>): (r: Effect)
    ensures user.None? || fault.Some? ==> r.state == s
    ensures user.None? ==> r.completion == Resolved
    ensures user.Some? && fault.Some? ==> r.completion == Rejected(fault.value)
    ensures user.Some? && fault.None? ==>
      && r.completion == Resolved
      && |r.state.notifications| == |s.notifications|
      && (forall i :: 0 <= i < |s.notifications| ==> r.state.notifications[i] == s.notifications[i].(isRead := true))
      && r.state.unreadCount == 0
  {
    if user.None? then Effect(s, Resolved)
    else if fault.Some? then Effect(s, Rejected(fault.value))
    else
      var all := MapWhere(s.notifications, (n: Notification) => true, (n: Notification) => n.(isRead := true));
      Effect(s.(notifications := all, unreadCount := 0), Resolved)
  }

  /** After marking all, the counter is accurate whatever it was before. */
  lemma MarkAllMakesAccurate(s: HookState, user: string)
    ensures Accurate(MarkAllAsRead(s, Some(user), None).state)
  {
    var r := MarkAllAsRead(s, Some(user), None).state;
    CountZeroIff(r.notifications, Unread);
  }
}
