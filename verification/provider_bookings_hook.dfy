/** `useProviderBookings`: the provider's bookings for the selected status,
    falling back to four built-in sample bookings when the store fails or
    replies without a list, and `updateBookingStatus`, which moves any
    booking to any status. */
module ProviderBookingsHook {
  import opened Wrappers
  import opened Keyed
  import opened Database

  datatype HookState = HookState(bookings: seq<Appointment>, loading: bool, error: Option<string>, status: Option<Status>)

  datatype Effect = Effect(hook: HookState, db: Tables, reply: Result<bool>)

  const NotAuthenticated := "User not authenticated"

  function Sample(id: string, patientId: string, providerId: string, date: string, time: string, duration: int,
                  status: Status, kind: string, notes: string, fee: int, now: string): Appointment
  {
    Appointment(id, patientId, providerId, date, time, duration, status, kind, Some(notes), "Elite clinic, Canada", fee, now, now)
  }

  /** `mockBookings`: the four samples for the provider, narrowed to the
      status when one is given; `now` is the creation time the samples get. */
  function MockBookings(providerId: string, status: Option<Status>, now: string): (r: seq<Appointment>)
    ensures status.None? ==> |r| == 4
    ensures status == Some(Upcoming) ==> |r| == 2
    ensures status == Some(Completed) || status == Some(Cancelled) ==> |r| == 1
    ensures forall i :: 0 <= i < |r| ==> r[i].providerId == providerId && MatchesStatus(r[i], status)
  {
    var b1 := Sample("1", "patient1", providerId, "2025-05-22", "10:00:00", 30, Upcoming, "Consultation", "Regular checkup", 150, now);
    var b2 := Sample("2", "patient2", providerId, "2025-05-22", "11:30:00", 30, Upcoming, "Follow-up", "Follow-up appointment", 120, now);
    var b3 := Sample("3", "patient3", providerId, "2025-04-15", "14:30:00", 45, Completed, "Cleaning", "Routine dental cleaning", 180, now);
    var b4 := Sample("4", "patient4", providerId, "2025-03-28", "09:15:00", 30, Cancelled, "Consultation", "Cancelled by patient", 150, now);
    if status.Some? then
      var keep := (a: Appointment) => a.status == status.value;
      FilterFour(b1, b2, b3, b4, keep);
      Filter([b1, b2, b3, b4], keep)
    else [b1, b2, b3, b4]
  }

  /** The fetch effect. `reply` is what `getAppointments` gave: a list, no
      list (`null`), or an error; the last two fall back to the samples. */
  function Fetch(s: HookState, user: Option<string>, reply: Result<Option<seq<Appointment>>>, now: string): (r: HookState)
    ensures !r.loading && r.status == s.status
    ensures user.None? ==> r.bookings == [] && r.error == s.error
    ensures user.Some? && reply.Ok? && reply.value.Some? ==> r.bookings == reply.value.value && r.error.None?
    ensures user.Some? && reply.Ok? && reply.value.None? ==> r.bookings == MockBookings(user.value, s.status, now) && r.error.None?
    ensures user.Some? && reply.Err? ==> r.bookings == MockBookings(user.value, s.status, now) && r.error == Some(reply.message)
  {
    if user.None? then s.(bookings := [], loading := false)
    else match reply
      case Ok(Some(rows)) => s.(bookings := rows, error := None, loading := false)
      case Ok(None) => s.(bookings := MockBookings(user.value, s.status, now), error := None, loading := false)
      case Err(e) => s.(bookings := MockBookings(user.value, s.status, now), error := Some(e), loading := false)
  }

  /** `updateBookingStatus`: throws without a user; otherwise writes the
      store, patches the matching bookings and resolves with true; a store
      failure is rethrown and the list is kept. */
  function UpdateBookingStatus(s: HookState, db: Tables, user: Option<string>, id: string, newStatus: Status, fault: Option<string>): (r: Effect)
    ensures user.None? ==> r == Effect(s, db, Err(NotAuthenticated))
    ensures r.reply.Ok? ==> r.reply.value
    ensures r.reply.Err? ==> r.hook.bookings == s.bookings && r.db == db
    ensures user.Some? ==> !r.hook.loading && r.hook.status == s.status && r.hook.error == s.error
    ensures user.Some? ==> (r.reply.Ok? <==> UpdateAppointmentStatus(db, id, newStatus, fault).reply.Ok?)
    ensures r.reply.Ok? ==>
      && r.db == UpdateAppointmentStatus(db, id, newStatus, fault).db
      && |r.hook.bookings| == |s.bookings|
      && forall i :: 0 <= i < |s.bookings| ==>
           r.hook.bookings[i] == if s.bookings[i].id == id then s.bookings[i].(status := newStatus) else s.bookings[i]
  {
    if user.None? then Effect(s, db, Err(NotAuthenticated))
    else
      var out := UpdateAppointmentStatus(db, id, newStatus, fault);
      match out.reply
      case Err(e) => Effect(s.(loading := false), db, Err(e))
      case Ok(_) =>
        var patched := MapWhere(s.bookings, (a: Appointment) => a.id == id, (a: Appointment) => a.(status := newStatus));
        Effect(s.(bookings := patched, loading := false), out.db, Ok(true))
  }

  function SetStatus(s: HookState, status: Option<Status>): (r: HookState)
    ensures r.status == status && r.bookings == s.bookings
  {
    s.(status := status)
  }

  /** Any status can be set from any status: the update succeeds whenever the
      store holds the booking, whatever its current status. */
  lemma {:induction false} AnyTransitionAllowed(s: HookState, db: Tables, user: string, k: nat, from: Status, to: Status)
    requires k < |db.appointments| && db.appointments[k].status == from
    ensures UpdateBookingStatus(s, db, Some(user), db.appointments[k].id, to, None).reply == Ok(true)
  {
    var id := db.appointments[k].id;
    assert UpdateAppointmentStatus(db, id, to, None).reply.Ok?;
  }

  /** The samples without a status are all four, in id order, and each
      status picks its own. */
  lemma MockBookingsContents(providerId: string, now: string)
    ensures var all := MockBookings(providerId, None, now);
      && all[0].id == "1" && all[1].id == "2" && all[2].id == "3" && all[3].id == "4"
      && all[0].status == Upcoming && all[1].status == Upcoming && all[2].status == Completed && all[3].status == Cancelled
      && all[0].fee == 150 && all[1].fee == 120 && all[2].fee == 180 && all[3].fee == 150
    ensures var up := MockBookings(providerId, Some(Upcoming), now);
      up[0].id == "1" && up[1].id == "2"
  {
  }
}
