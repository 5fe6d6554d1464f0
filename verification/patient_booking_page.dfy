/** The patient's bookings page: a status tab that the hook's filter
    follows, cards wired with a cancel handler and a reschedule handler
    (which only logs), and the bottom navigation on the booking tab. The
    patient side has no way to complete an appointment. */
module PatientBookingPage {
  import opened Wrappers
  import opened Database
  import Hook = AppointmentsHook
  import Navigation

  datatype Page = Page(activeTab: Status, navTab: Navigation.NavTab, hook: Hook.HookState, alert: Option<string>)

  /** The two handlers the page passes to each card. */
  datatype PatientAction = CancelAction(id: string) | RescheduleAction(id: string)

  const CancelFailed := "Failed to cancel booking. Please try again."

  /** The page as it mounts, after the effect that syncs the hook's filter. */
  function Start(): (r: Page)
    ensures r.activeTab == Upcoming && r.hook.status == Some(r.activeTab)
    ensures r.navTab == Navigation.Booking && r.alert.None?
  {
    Page(Upcoming, Navigation.Booking, Hook.Start(Some(Upcoming)), None)
  }

  /** Selecting a status tab; the effect then sets the hook's filter to it. */
  function SelectTab(p: Page, tab: Status): (r: Page)
    ensures r.activeTab == tab && r.hook.status == Some(tab)
    ensures r.hook.appointments == p.hook.appointments && r.navTab == p.navTab
  {
    p.(activeTab := tab, hook := Hook.SetStatus(p.hook, Some(tab)))
  }

  /** A card handler: cancel goes through the hook and turns a failure into
      an alert; reschedule changes nothing. */
  function Dispatch(p: Page, db: Tables, user: Option<string>, a: PatientAction, fault: Option<string>): (r: (Page, Tables))
    ensures a.RescheduleAction? ==> r == (p, db)
    ensures a.CancelAction? ==>
      var e := Hook.Cancel(p.hook, db, user, a.id, fault);
      r.0.hook == e.hook && r.1 == e.db
      && (e.completion.Resolved? ==> r.0.alert == p.alert)
      && (e.completion.Rejected? ==> r.0.alert == Some(CancelFailed))
  {
    match a
    case RescheduleAction(_) => (p, db)
    case CancelAction(id) =>
      var e := Hook.Cancel(p.hook, db, user, id, fault);
      (p.(hook := e.hook, alert := if e.completion.Rejected? then Some(CancelFailed) else p.alert), e.db)
  }

  /** No sequence of patient actions completes an appointment: every row
      that is completed afterwards was completed before. */
  lemma {:induction false} PatientNeverCompletes(p: Page, db: Tables, user: Option<string>, actions: seq<PatientAction>, faults: seq<Option<string>>)
    requires |faults| == |actions|
    ensures var r := Run(p, db, user, actions, faults);
      |r.1.appointments| == |db.appointments|
      && forall j :: 0 <= j < |db.appointments| && r.1.appointments[j].status == Completed ==> db.appointments[j].status == Completed
    decreases |actions|
  {
    if |actions| > 0 {
      var s := Dispatch(p, db, user, actions[0], faults[0]);
      OneActionNeverCompletes(p, db, user, actions[0], faults[0]);
      PatientNeverCompletes(s.0, s.1, user, actions[1..], faults[1..]);
    }
  }

  lemma OneActionNeverCompletes(p: Page, db: Tables, user: Option<string>, a: PatientAction, fault: Option<string>)
    ensures var r := Dispatch(p, db, user, a, fault);
      |r.1.appointments| == |db.appointments|
      && forall j :: 0 <= j < |db.appointments| && r.1.appointments[j].status == Completed ==> db.appointments[j].status == Completed
  {
    if a.CancelAction? && user.Some? {
      var out := UpdateAppointmentStatus(db, a.id, Cancelled, fault);
      assert Dispatch(p, db, user, a, fault).1 == out.db;
    }
  }

  /** A run of card actions, each with the store's failure (if any). */
  function Run(p: Page, db: Tables, user: Option<string>, actions: seq<PatientAction>, faults: seq<Option<string>>): (r: (Page, Tables))
    requires |faults| == |actions|
    ensures |actions| == 0 ==> r == (p, db)
    decreases |actions|
  {
    if |actions| == 0 then (p, db)
    else
      var s := Dispatch(p, db, user, actions[0], faults[0]);
      Run(s.0, s.1, user, actions[1..], faults[1..])
  }
}
