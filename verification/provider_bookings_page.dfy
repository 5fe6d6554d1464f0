/** The provider's bookings page: one status tab that also drives the hook's
    status filter, a card per booking with both handlers wired, and Cancel
    and Complete presses that request `cancelled` and `completed` and turn a
    failure into an alert instead of an error. */
module ProviderBookingsPage {
  import opened Wrappers
  import opened Database
  import opened BookingDisplay
  import opened BookingCard
  import Hook = ProviderBookingsHook

  datatype Page = Page(activeTab: Status, hook: Hook.HookState, alert: Option<string>)

  const CancelFailed := "Failed to cancel booking. Please try again."
  const CompleteFailed := "Failed to complete booking. Please try again."

  /** The page as it mounts: the upcoming tab, and the hook asked for it. */
  function Start(): (r: Page)
    ensures r.activeTab == Upcoming && r.hook.status == Some(r.activeTab)
    ensures r.hook.bookings == [] && r.hook.loading && r.alert.None?
  {
    Page(Upcoming, Hook.HookState([], true, None, Some(Upcoming)), None)
  }

  /** `handleTabChange`: the tab and the hook's filter move together. */
  function HandleTabChange(p: Page, tab: Status): (r: Page)
    ensures r.activeTab == tab && r.hook.status == Some(tab)
    ensures r.hook.bookings == p.hook.bookings && r.alert == p.alert
  {
    p.(activeTab := tab, hook := Hook.SetStatus(p.hook, Some(tab)))
  }

  /** The card for a stored booking; `patientName` is the joined profile's
      full name. */
  function CardFor(a: Appointment, patientName: string): (r: CardBooking)
    ensures r.id == a.id && r.status == a.status && r.patientName == patientName
    ensures r.bookingNumber == BookingNumber(a.id) && r.time == ShortTime(a.time)
  {
    CardBooking(a.id, BookingNumber(a.id), patientName, a.date, ShortTime(a.time), a.status)
  }

  /** The status a button requests. */
  function Requested(b: Button): (r: Status)
    ensures r == Cancelled <==> b == CancelButton
    ensures r == Completed <==> b == CompleteButton
  {
    match b
    case CancelButton => Cancelled
    case CompleteButton => Completed
  }

  /** `handleCancelBooking` / `handleCompleteBooking`: the hook's update with
      the requested status; a rejection becomes the matching alert, and the
      handler itself always resolves. */
  function HandleAction(p: Page, db: Tables, user: Option<string>, b: Button, id: string, fault: Option<string>): (r: (Page, Tables))
    ensures var e := Hook.UpdateBookingStatus(p.hook, db, user, id, Requested(b), fault);
      r.0.hook == e.hook && r.1 == e.db && r.0.activeTab == p.activeTab
      && (e.reply.Err? ==> r.0.alert == Some(if b == CancelButton then CancelFailed else CompleteFailed))
      && (e.reply.Ok? ==> r.0.alert == p.alert)
  {
    var e := Hook.UpdateBookingStatus(p.hook, db, user, id, Requested(b), fault);
    var alert := if e.reply.Err? then Some(if b == CancelButton then CancelFailed else CompleteFailed) else p.alert;
    (p.(hook := e.hook, alert := alert), e.db)
  }

  /** Whatever the store replies for a status tab, the cards the page then
      renders carry buttons exactly on the upcoming tab. */
  lemma {:induction false} ButtonsOnlyOnUpcomingTab(p: Page, user: string, reply: Result<Option<seq<Appointment>>>, now: string, name: Appointment -> string)
    requires p.hook.status == Some(p.activeTab)
    requires reply.Ok? && reply.value.Some? ==>
      forall i :: 0 <= i < |reply.value.value| ==> reply.value.value[i].status == p.activeTab
    ensures var h := Hook.Fetch(p.hook, Some(user), reply, now);
      forall i :: 0 <= i < |h.bookings| ==>
        (|Buttons(CardFor(h.bookings[i], name(h.bookings[i])), true, true)| > 0 <==> p.activeTab == Upcoming)
  {
    var h := Hook.Fetch(p.hook, Some(user), reply, now);
    forall i | 0 <= i < |h.bookings|
      ensures h.bookings[i].status == p.activeTab
    {
      if !(reply.Ok? && reply.value.Some?) {
        assert h.bookings == Hook.MockBookings(user, p.hook.status, now);
        assert MatchesStatus(h.bookings[i], p.hook.status);
      }
    }
  }

  /** The store's listing for a tab is the kind of reply that lemma needs. */
  lemma StoreListingMatchesTab(db: Tables, user: string, tab: Status)
    ensures var r := GetAppointments(db, user, Some(tab), None);
      r.Ok? && forall i :: 0 <= i < |r.value| ==> r.value[i].status == tab
  {
    var r := GetAppointments(db, user, Some(tab), None);
    assert forall i :: 0 <= i < |r.value| ==> r.value[i] in db.appointments && MatchesStatus(r.value[i], Some(tab));
  }
}
