/** `useMedicalRecords`: the patient's uploaded records. The add stamps the
    record with the user and the client's upload time; the store assigns the
    id. */
module MedicalRecords {
  import opened Wrappers
  import Rows = PatientRows

  datatype MedicalRecord = MedicalRecord(
    id: string,
    patientId: string,
    recordType: string,
    documentName: string,
    documentUrl: Option<string>,
    uploadDate: string)

  datatype RecordInput = RecordInput(recordType: string, documentName: string, documentUrl: Option<string>)

  type HookState = Rows.HookState<MedicalRecord>

  function RecordId(r: MedicalRecord): string { r.id }

  /** The row the store returns for an add made at `now`. */
  function Maker(input: RecordInput, now: string): (string, Stamp) -> MedicalRecord {
    (user: string, stamp: Stamp) =>
      MedicalRecord(stamp.id, user, input.recordType, input.documentName, input.documentUrl, now)
  }

  /** The fetch effect: no user or a failed read leaves the list empty. */
  function FetchMedicalRecords(s: HookState, user: Option<string>, reply: Result<seq<MedicalRecord>>): (r: HookState)
    ensures !r.loading
    ensures user.None? || reply.Err? ==> r.rows == []
    ensures user.Some? && reply.Ok? ==> r.rows == reply.value && r.error.None?
    ensures user.Some? && reply.Err? ==> r.error == Some(reply.message)
  {
    Rows.Fetch(s, user, reply)
  }

  /** `addMedicalRecord`: throws without a user; on success one record is
      appended, owned by the user and dated `now`, and returned. */
  function AddMedicalRecord(s: HookState, user: Option<string>, input: RecordInput, now: string, reply: Result<Stamp>): (r: Rows.Effect<MedicalRecord, MedicalRecord>)
    ensures user.None? ==> r.result == Err(Rows.NotAuthenticated) && r.state == s
    ensures user.Some? && reply.Err? ==> r.result == Err(reply.message) && r.state.rows == s.rows
    ensures user.Some? && reply.Ok? ==>
      && r.result.Ok?
      && var rec := r.result.value;
      && rec.id == reply.value.id && rec.patientId == user.value && rec.uploadDate == now
      && rec.recordType == input.recordType && rec.documentName == input.documentName
      && rec.documentUrl == input.documentUrl
      && r.state.rows == s.rows + [rec]
  {
    Rows.Append(s, user, Maker(input, now), reply)
  }

  /** `deleteMedicalRecord`: the store call, then the local filter by id. */
  function DeleteMedicalRecord(s: HookState, id: string, fault: Option<string>): (r: Rows.Effect<MedicalRecord, bool>)
    ensures fault.Some? ==> r.state.rows == s.rows && r.result == Err(fault.value)
    ensures fault.None? ==> r.result == Ok(true)
    ensures fault.None? ==> forall i :: 0 <= i < |r.state.rows| ==> r.state.rows[i] in s.rows && r.state.rows[i].id != id
    ensures fault.None? ==> forall i :: 0 <= i < |s.rows| && s.rows[i].id != id ==> s.rows[i] in r.state.rows
  {
    Rows.Remove(s, RecordId, id, fault)
  }

  /** Deleting a record just added under a fresh id restores the list. */
  lemma AddThenDeleteRestores(s: HookState, user: string, input: RecordInput, now: string, stamp: Stamp)
    requires forall i :: 0 <= i < |s.rows| ==> s.rows[i].id != stamp.id
    ensures var a := AddMedicalRecord(s, Some(user), input, now, Ok(stamp));
      DeleteMedicalRecord(a.state, stamp.id, None).state.rows == s.rows
  {
    Rows.AppendThenRemoveRestores(s, user, Maker(input, now), RecordId, stamp);
  }
}
