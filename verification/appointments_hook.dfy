/** `useAppointments`: the signed-in user's appointments, optionally
    narrowed to one status, with cancel and complete actions that write the
    store first and then patch the local list. Nothing checks the current
    status or who the user is relative to the appointment. */
module AppointmentsHook {
  import opened Wrappers
  import opened Keyed
  import opened Database

  datatype HookState = HookState(appointments: seq<Appointment>, loading: bool, error: Option<string>, status: Option<Status>)

  /** The hook's state, the store's tables and how the handler ended. */
  datatype Effect = Effect(hook: HookState, db: Tables, completion: Completion)

  function Start(initialStatus: Option<Status>): (r: HookState)
    ensures r.appointments == [] && r.loading && r.error.None? && r.status == initialStatus
  {
    HookState([], true, None, initialStatus)
  }

  /** The fetch effect. Without a user the list is emptied; a failed fetch
      records the error and keeps the list. */
  function Fetch(s: HookState, db: Tables, user: Option<string>, fault: Option<string>): (r: HookState)
    ensures !r.loading && r.status == s.status
    ensures user.None? ==> r.appointments == [] && r.error == s.error
    ensures user.Some? && fault.Some? ==> r.appointments == s.appointments && r.error == fault
    ensures user.Some? && fault.None? ==>
      r.error.None? && r.appointments == GetAppointments(db, user.value, s.status, None).value
  {
    if user.None? then s.(appointments := [], loading := false)
    else match GetAppointments(db, user.value, s.status, fault)
      case Ok(rows) => s.(appointments := rows, error := None, loading := false)
      case Err(e) => s.(error := Some(e), loading := false)
  }

  function SetStatus(s: HookState, status: Option<Status>): (r: HookState)
    ensures r.status == status && r.appointments == s.appointments
  {
    s.(status := status)
  }

  /** The local patch: the entries with the id take the new status. */
  function WithStatus(list: seq<Appointment>, id: string, status: Status): (r: seq<Appointment>)
    ensures |r| == |list|
    ensures forall i :: 0 <= i < |list| ==>
      r[i] == if list[i].id == id then list[i].(status := status) else list[i]
  {
    MapWhere(list, (a: Appointment) => a.id == id, (a: Appointment) => a.(status := status))
  }

  /** The shared body of cancel and complete. */
  function Move(s: HookState, db: Tables, user: Option<string>, id: string, status: Status, fault: Option<string>): (r: Effect)
    ensures user.None? ==> r == Effect(s, db, Resolved)
    ensures r.completion.Rejected? ==> r.hook == s && r.db == db
    ensures user.Some? ==> (r.completion.Resolved? <==> UpdateAppointmentStatus(db, id, status, fault).reply.Ok?)
    ensures user.Some? && r.completion.Resolved? ==>
      r.db == UpdateAppointmentStatus(db, id, status, fault).db && r.hook == s.(appointments := WithStatus(s.appointments, id, status))
  {
    if user.None? then Effect(s, db, Resolved)
    else
      var out := UpdateAppointmentStatus(db, id, status, fault);
      match out.reply
      case Err(e) => Effect(s, db, Rejected(e))
      case Ok(_) => Effect(s.(appointments := WithStatus(s.appointments, id, status)), out.db, Resolved)
  }

  /** `cancelAppointment`. */
  function Cancel(s: HookState, db: Tables, user: Option<string>, id: string, fault: Option<string>): (r: Effect)
    ensures user.None? ==> r == Effect(s, db, Resolved)
    ensures r.completion.Rejected? ==> r.hook == s && r.db == db
    ensures r.completion.Resolved? && user.Some? ==>
      && |r.hook.appointments| == |s.appointments|
      && (forall i :: 0 <= i < |s.appointments| && s.appointments[i].id == id ==> r.hook.appointments[i].status == Cancelled)
      && (forall i :: 0 <= i < |s.appointments| && s.appointments[i].id != id ==> r.hook.appointments[i] == s.appointments[i])
      && (forall i :: 0 <= i < |s.appointments| ==> r.hook.appointments[i].(status := s.appointments[i].status) == s.appointments[i])
  {
    Move(s, db, user, id, Cancelled, fault)
  }

  /** `completeAppointment`. */
  function Complete(s: HookState, db: Tables, user: Option<string>, id: string, fault: Option<string>): (r: Effect)
    ensures user.None? ==> r == Effect(s, db, Resolved)
    ensures r.completion.Rejected? ==> r.hook == s && r.db == db
    ensures r.completion.Resolved? && user.Some? ==>
      && |r.hook.appointments| == |s.appointments|
      && (forall i :: 0 <= i < |s.appointments| && s.appointments[i].id == id ==> r.hook.appointments[i].status == Completed)
      && (forall i :: 0 <= i < |s.appointments| && s.appointments[i].id != id ==> r.hook.appointments[i] == s.appointments[i])
      && (forall i :: 0 <= i < |s.appointments| ==> r.hook.appointments[i].(status := s.appointments[i].status) == s.appointments[i])
  {
    Move(s, db, user, id, Completed, fault)
  }

  /** Without a signed-in user the fetch leaves an empty list and stops
      loading, and both actions resolve without touching anything. */
  lemma NoUserBehaviour(s: HookState, db: Tables, id: string, fault: Option<string>)
    ensures Fetch(s, db, None, fault).appointments == [] && !Fetch(s, db, None, fault).loading
    ensures Cancel(s, db, None, id, fault) == Effect(s, db, Resolved)
    ensures Complete(s, db, None, id, fault) == Effect(s, db, Resolved)
  {
  }

  /** A failure of the store rejects the action with the store's error and
      changes neither the list nor the store. */
  lemma FailureRethrown(s: HookState, db: Tables, user: string, id: string, e: string)
    ensures Cancel(s, db, Some(user), id, Some(e)) == Effect(s, db, Rejected(e))
    ensures Complete(s, db, Some(user), id, Some(e)) == Effect(s, db, Rejected(e))
  {
  }

  /** No current-status rule: a cancelled appointment the store holds can be
      completed from the hook, and the local entry ends up completed. */
  lemma {:induction false} CompleteAfterCancel(s: HookState, db: Tables, user: string, id: string, k: nat)
    requires k < |s.appointments| && s.appointments[k].id == id
    requires exists i :: 0 <= i < |db.appointments| && db.appointments[i].id == id
    ensures var c := Cancel(s, db, Some(user), id, None);
      && c.completion == Resolved
      && c.hook.appointments[k].status == Cancelled
      && var d := Complete(c.hook, c.db, Some(user), id, None);
      && d.completion == Resolved
      && d.hook.appointments[k].status == Completed
  {
    var i :| 0 <= i < |db.appointments| && db.appointments[i].id == id;
    var c := Cancel(s, db, Some(user), id, None);
    assert c.db == UpdateAppointmentStatus(db, id, Cancelled, None).db;
    assert c.db.appointments[i].id == id;
  }

  /** The local patch agrees with the store: after a successful action every
      local entry and every stored row with the id carry the same status. */
  lemma {:induction false} LocalAgreesWithStore(s: HookState, db: Tables, user: string, id: string, status: Status, fault: Option<string>)
    ensures var r := Move(s, db, Some(user), id, status, fault);
      r.completion.Resolved? ==>
        forall i, j :: 0 <= i < |r.hook.appointments| && 0 <= j < |r.db.appointments|
          && r.hook.appointments[i].id == id && r.db.appointments[j].id == id
          ==> r.hook.appointments[i].status == r.db.appointments[j].status
  {
    var r := Move(s, db, Some(user), id, status, fault);
    if r.completion.Resolved? {
      var out := UpdateAppointmentStatus(db, id, status, fault);
      assert r.db == out.db;
      assert forall j :: 0 <= j < |r.db.appointments| && r.db.appointments[j].id == id ==> r.db.appointments[j].status == status;
    }
  }
}
