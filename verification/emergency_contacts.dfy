/** `useEmergencyContacts`: the patient's emergency contacts. The store
    assigns the id and the creation time of an added contact. */
module EmergencyContacts {
  import opened Wrappers
  import Rows = PatientRows

  datatype EmergencyContact = EmergencyContact(
    id: string,
    patientId: string,
    name: string,
    relationship: string,
    phone: string,
    createdAt: string)

  datatype ContactInput = ContactInput(name: string, relationship: string, phone: string)

  type HookState = Rows.HookState<EmergencyContact>

  function ContactId(c: EmergencyContact): string { c.id }

  function Maker(input: ContactInput): (string, Stamp) -> EmergencyContact {
    (user: string, stamp: Stamp) =>
      EmergencyContact(stamp.id, user, input.name, input.relationship, input.phone, stamp.createdAt)
  }

  /** The fetch effect: no user or a failed read leaves the list empty. */
  function FetchEmergencyContacts(s: HookState, user: Option<string>, reply: Result<seq<EmergencyContact>>): (r: HookState)
    ensures !r.loading
    ensures user.None? || reply.Err? ==> r.rows == []
    ensures user.Some? && reply.Ok? ==> r.rows == reply.value && r.error.None?
    ensures user.Some? && reply.Err? ==> r.error == Some(reply.message)
  {
    Rows.Fetch(s, user, reply)
  }

  /** `addEmergencyContact`: throws without a user; on success one contact
      owned by the user is appended and returned. */
  function AddEmergencyContact(s: HookState, user: Option<string>, input: ContactInput, reply: Result<Stamp>): (r: Rows.Effect<EmergencyContact, EmergencyContact>)
    ensures user.None? ==> r.result == Err(Rows.NotAuthenticated) && r.state == s
    ensures user.Some? && reply.Err? ==> r.result == Err(reply.message) && r.state.rows == s.rows
    ensures user.Some? && reply.Ok? ==>
      && r.result.Ok?
      && var c := r.result.value;
      && c.id == reply.value.id && c.patientId == user.value && c.createdAt == reply.value.createdAt
      && c.name == input.name && c.relationship == input.relationship && c.phone == input.phone
      && r.state.rows == s.rows + [c]
  {
    Rows.Append(s, user, Maker(input), reply)
  }

  /** `deleteEmergencyContact`: the store call, then the local filter by id. */
  function DeleteEmergencyContact(s: HookState, id: string, fault: Option<string>): (r: Rows.Effect<EmergencyContact, bool>)
    ensures fault.Some? ==> r.state.rows == s.rows && r.result == Err(fault.value)
    ensures fault.None? ==> r.result == Ok(true)
    ensures fault.None? ==> forall i :: 0 <= i < |r.state.rows| ==> r.state.rows[i] in s.rows && r.state.rows[i].id != id
    ensures fault.None? ==> forall i :: 0 <= i < |s.rows| && s.rows[i].id != id ==> s.rows[i] in r.state.rows
  {
    Rows.Remove(s, ContactId, id, fault)
  }

  /** Deleting a contact just added under a fresh id restores the list. */
  lemma AddThenDeleteRestores(s: HookState, user: string, input: ContactInput, stamp: Stamp)
    requires forall i :: 0 <= i < |s.rows| ==> s.rows[i].id != stamp.id
    ensures var a := AddEmergencyContact(s, Some(user), input, Ok(stamp));
      DeleteEmergencyContact(a.state, stamp.id, None).state.rows == s.rows
  {
    Rows.AppendThenRemoveRestores(s, user, Maker(input), ContactId, stamp);
  }
}
