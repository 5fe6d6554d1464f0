/** The shape shared by the patient's store-backed lists (medical records,
    emergency contacts): a fetch that clears the list without a user and on
    failure, an add that needs a user and appends the store's row, and a
    delete by id that filters the list. Each store call may fail; a failed
    add or delete is rethrown with the list unchanged. */
module PatientRows {
  import opened Wrappers
  import opened Keyed

  datatype HookState<R> = HookState(rows: seq<R>, loading: bool, error: Option<string>)

  /** The hook's state after a handler, and what the handler returned or threw. */
  datatype Effect<R, T> = Effect(state: HookState<R>, result: Result<T>)

  const NotAuthenticated := "User not authenticated"

  /** The fetch effect, run whenever the user changes. */
  function Fetch<R>(s: HookState<R>, user: Option<string>, reply: Result<seq<R>>): (r: HookState<R>)
    ensures !r.loading
    ensures user.None? ==> r.rows == [] && r.error == s.error
    ensures user.Some? && reply.Ok? ==> r.rows == reply.value && r.error.None?
    ensures user.Some? && reply.Err? ==> r.rows == [] && r.error == Some(reply.message)
  {
    if user.None? then s.(rows := [], loading := false)
    else match reply
      case Ok(rows) => s.(rows := rows, error := None, loading := false)
      case Err(e) => s.(rows := [], error := Some(e), loading := false)
  }

  /** An add: without a user it throws before touching anything; otherwise
      the row the store returns for `stamp` (built by `make` from the user id)
      is appended and returned. */
  function Append<R>(s: HookState<R>, user: Option<string>, make: (string, Stamp) -> R, reply: Result<Stamp>): (r: Effect<R, R>)
    ensures user.None? ==> r == Effect(s, Err(NotAuthenticated))
    ensures user.Some? && reply.Err? ==> r == Effect(s.(loading := false), Err(reply.message))
    ensures user.Some? && reply.Ok? ==>
      var row := make(user.value, reply.value);
      r == Effect(s.(rows := s.rows + [row], loading := false), Ok(row))
  {
    if user.None? then Effect(s, Err(NotAuthenticated))
    else match reply
      case Err(e) => Effect(s.(loading := false), Err(e))
      case Ok(stamp) =>
        var row := make(user.value, stamp);
        Effect(s.(rows := s.rows + [row], loading := false), Ok(row))
  }

  /** A delete by id. It asks for no user: the store call is made either way. */
  function Remove<R>(s: HookState<R>, idOf: R -> string, id: string, fault: Option<string>): (r: Effect<R, bool>)
    ensures !r.state.loading && r.state.error == s.error
    ensures fault.Some? ==> r.state.rows == s.rows && r.result == Err(fault.value)
    ensures fault.None? ==> r.result == Ok(true)
    ensures fault.None? ==> forall i :: 0 <= i < |r.state.rows| ==> r.state.rows[i] in s.rows && idOf(r.state.rows[i]) != id
    ensures fault.None? ==> forall i :: 0 <= i < |s.rows| && idOf(s.rows[i]) != id ==> s.rows[i] in r.state.rows
  {
    if fault.Some? then Effect(s.(loading := false), Err(fault.value))
    else Effect(s.(rows := Filter(s.rows, (x: R) => idOf(x) != id), loading := false), Ok(true))
  }

  /** Deleting the row just added, under an id nothing else carries, gives
      the list back as it was. */
  lemma {:induction false} AppendThenRemoveRestores<R>(s: HookState<R>, user: string, make: (string, Stamp) -> R, idOf: R -> string, stamp: Stamp)
    requires idOf(make(user, stamp)) == stamp.id
    requires forall i :: 0 <= i < |s.rows| ==> idOf(s.rows[i]) != stamp.id
    ensures var a := Append(s, Some(user), make, Ok(stamp));
      Remove(a.state, idOf, stamp.id, None).state.rows == s.rows
  {
    var keep := (x: R) => idOf(x) != stamp.id;
    var row := make(user, stamp);
    FilterAppend(s.rows, [row], keep);
    FilterAll(s.rows, keep);
    assert Filter([row], keep) == [];
  }

  /** Deleting keeps the order of what stays: it is the list with the rows
      carrying the id cut out, and the rows in front of the first of them
      are untouched. */
  lemma {:induction false} RemoveKeepsPrefix<R>(s: HookState<R>, idOf: R -> string, id: string, k: nat)
    requires k <= |s.rows|
    requires forall i :: 0 <= i < k ==> idOf(s.rows[i]) != id
    ensures s.rows[..k] <= Remove(s, idOf, id, None).state.rows
  {
    var keep := (x: R) => idOf(x) != id;
    assert s.rows == s.rows[..k] + s.rows[k..];
    FilterAppend(s.rows[..k], s.rows[k..], keep);
    FilterAll(s.rows[..k], keep);
  }
}
