/** `usePatientProfile`: the local, unsaved patient profile. It starts from
    fixed sample lists; adds append one entry whose id is the clock reading
    in milliseconds, written in decimal; a delete filters one list by id.
    Ids are unique only within a list and only while no two adds share a
    millisecond or meet a sample id. */
module PatientProfile {
  import opened Wrappers
  import opened Text
  import opened Keyed

  datatype Contact = Contact(id: string, name: string, relationship: string, phone: string)

  datatype MedicalItem = MedicalItem(
    id: string,
    name: string,
    severity: Option<string>,
    dosage: Option<string>,
    frequency: Option<string>,
    kind: Option<string>)

  datatype Document = Document(id: string, name: string, kind: string, uploadDate: string)

  datatype Profile = Profile(
    bloodType: string,
    contacts: seq<Contact>,
    allergies: seq<MedicalItem>,
    medications: seq<MedicalItem>,
    conditions: seq<MedicalItem>,
    documents: seq<Document>)

  /** The three lists `addMedicalItem` can target. */
  datatype ItemList = Allergies | Medications | Conditions

  /** The five lists `deleteItem` can target. */
  datatype AnyList = ContactList | ItemsOf(list: ItemList) | DocumentList

  const Initial := Profile(
    "A+",
    [Contact("1", "John Smith", "Spouse", "(555) 123-4567")],
    [MedicalItem("1", "Penicillin", Some("severe"), None, None, None),
     MedicalItem("2", "Shellfish", Some("moderate"), None, None, None)],
    [MedicalItem("1", "Lisinopril", None, Some("10mg daily"), Some("Once daily"), None),
     MedicalItem("2", "Metformin", None, Some("500mg twice daily"), Some("Twice daily"), None)],
    [MedicalItem("1", "Hypertension", None, None, None, Some("chronic")),
     MedicalItem("2", "Type 2 Diabetes", None, None, None, Some("chronic"))],
    [Document("1", "Medical History.pdf", "Medical History", "2024-01-15"),
     Document("2", "Lab Results.pdf", "Lab Results", "2024-01-10")])

  /** The sample profile: blood type A+, one contact, and two entries in each
      other list, numbered "1" and "2" within every list. */
  lemma InitialShape()
    ensures Initial.bloodType == "A+"
    ensures |Initial.contacts| == 1 && |Initial.allergies| == 2 && |Initial.medications| == 2
    ensures |Initial.conditions| == 2 && |Initial.documents| == 2
    ensures Initial.contacts[0].id == "1"
    ensures Items(Initial, Allergies)[0].id == "1" && Items(Initial, Allergies)[1].id == "2"
  {
  }

  /** `Date.now().toString()`. */
  function ClockId(now: nat): string {
    NatToString(now)
  }

  function Items(p: Profile, t: ItemList): seq<MedicalItem> {
    match t
    case Allergies => p.allergies
    case Medications => p.medications
    case Conditions => p.conditions
  }

  function WithItems(p: Profile, t: ItemList, items: seq<MedicalItem>): (r: Profile)
    ensures Items(r, t) == items
    ensures forall u :: u != t ==> Items(r, u) == Items(p, u)
    ensures r.bloodType == p.bloodType && r.contacts == p.contacts && r.documents == p.documents
  {
    match t
    case Allergies => p.(allergies := items)
    case Medications => p.(medications := items)
    case Conditions => p.(conditions := items)
  }

  /** `addEmergencyContact`: one contact appended, nothing else touched. */
  function AddEmergencyContact(p: Profile, now: nat, name: string, relationship: string, phone: string): (r: Profile)
    ensures r.contacts == p.contacts + [Contact(ClockId(now), name, relationship, phone)]
    ensures r == p.(contacts := r.contacts)
  {
    p.(contacts := p.contacts + [Contact(ClockId(now), name, relationship, phone)])
  }

  /** `addMedicalItem`: one item appended to the list `t` names, the other
      lists unchanged. */
  function AddMedicalItem(p: Profile, t: ItemList, now: nat, name: string, severity: Option<string>,
                          dosage: Option<string>, frequency: Option<string>, kind: Option<string>): (r: Profile)
    ensures Items(r, t) == Items(p, t) + [MedicalItem(ClockId(now), name, severity, dosage, frequency, kind)]
    ensures forall u :: u != t ==> Items(r, u) == Items(p, u)
    ensures r.bloodType == p.bloodType && r.contacts == p.contacts && r.documents == p.documents
  {
    WithItems(p, t, Items(p, t) + [MedicalItem(ClockId(now), name, severity, dosage, frequency, kind)])
  }

  /** `addDocument`: one document appended, nothing else touched. */
  function AddDocument(p: Profile, now: nat, name: string, kind: string, uploadDate: string): (r: Profile)
    ensures r.documents == p.documents + [Document(ClockId(now), name, kind, uploadDate)]
    ensures r == p.(documents := r.documents)
  {
    p.(documents := p.documents + [Document(ClockId(now), name, kind, uploadDate)])
  }

  /** `deleteItem`: the named list loses every entry carrying `id`; the
      other lists are unchanged. */
  function DeleteItem(p: Profile, t: AnyList, id: string): (r: Profile)
    ensures r.bloodType == p.bloodType
    ensures t != ContactList ==> r.contacts == p.contacts
    ensures t != DocumentList ==> r.documents == p.documents
    ensures forall u :: t != ItemsOf(u) ==> Items(r, u) == Items(p, u)
    ensures t == ContactList ==> forall i :: 0 <= i < |r.contacts| ==> r.contacts[i].id != id && r.contacts[i] in p.contacts
    ensures t == ContactList ==> forall i :: 0 <= i < |p.contacts| && p.contacts[i].id != id ==> p.contacts[i] in r.contacts
    ensures t == DocumentList ==> forall i :: 0 <= i < |r.documents| ==> r.documents[i].id != id && r.documents[i] in p.documents
    ensures t == DocumentList ==> forall i :: 0 <= i < |p.documents| && p.documents[i].id != id ==> p.documents[i] in r.documents
    ensures t.ItemsOf? ==> var l := Items(r, t.list);
      && (forall i :: 0 <= i < |l| ==> l[i].id != id && l[i] in Items(p, t.list))
      && (forall i :: 0 <= i < |Items(p, t.list)| && Items(p, t.list)[i].id != id ==> Items(p, t.list)[i] in l)
  {
    match t
    case ContactList => p.(contacts := Filter(p.contacts, (c: Contact) => c.id != id))
    case ItemsOf(u) => WithItems(p, u, Filter(Items(p, u), (m: MedicalItem) => m.id != id))
    case DocumentList => p.(documents := Filter(p.documents, (d: Document) => d.id != id))
  }

  /** Deleting a contact just added under an id no other contact has gives
      the profile back. */
  lemma AddContactThenDelete(p: Profile, now: nat, name: string, relationship: string, phone: string)
    requires forall i :: 0 <= i < |p.contacts| ==> p.contacts[i].id != ClockId(now)
    ensures DeleteItem(AddEmergencyContact(p, now, name, relationship, phone), ContactList, ClockId(now)) == p
  {
    var keep := (c: Contact) => c.id != ClockId(now);
    var c := Contact(ClockId(now), name, relationship, phone);
    FilterAppend(p.contacts, [c], keep);
    FilterAll(p.contacts, keep);
    assert Filter([c], keep) == [];
  }

  /** The same for a medical item in any of the three lists. */
  lemma AddItemThenDelete(p: Profile, t: ItemList, now: nat, name: string, severity: Option<string>,
                          dosage: Option<string>, frequency: Option<string>, kind: Option<string>)
    requires forall i :: 0 <= i < |Items(p, t)| ==> Items(p, t)[i].id != ClockId(now)
    ensures DeleteItem(AddMedicalItem(p, t, now, name, severity, dosage, frequency, kind), ItemsOf(t), ClockId(now)) == p
  {
    var keep := (m: MedicalItem) => m.id != ClockId(now);
    var m := MedicalItem(ClockId(now), name, severity, dosage, frequency, kind);
    FilterAppend(Items(p, t), [m], keep);
    FilterAll(Items(p, t), keep);
    assert Filter([m], keep) == [];
  }

  /** The same for a document. */
  lemma AddDocumentThenDelete(p: Profile, now: nat, name: string, kind: string, uploadDate: string)
    requires forall i :: 0 <= i < |p.documents| ==> p.documents[i].id != ClockId(now)
    ensures DeleteItem(AddDocument(p, now, name, kind, uploadDate), DocumentList, ClockId(now)) == p
  {
    var keep := (d: Document) => d.id != ClockId(now);
    var d := Document(ClockId(now), name, kind, uploadDate);
    FilterAppend(p.documents, [d], keep);
    FilterAll(p.documents, keep);
    assert Filter([d], keep) == [];
  }

  /** Ids are shared across lists, but a delete only looks at its own list:
      removing allergy "1" from the sample profile keeps contact "1" and
      medication "1". */
  lemma DeleteIsScopedToItsList()
    ensures var r := DeleteItem(Initial, ItemsOf(Allergies), "1");
      && r.allergies == [Initial.allergies[1]]
      && r.contacts == Initial.contacts
      && r.medications == Initial.medications
  {
    var keep := (m: MedicalItem) => m.id != "1";
    assert Initial.allergies[1..][1..] == [];
    assert Filter(Initial.allergies[1..], keep) == [Initial.allergies[1]];
  }

  /** An add made one millisecond after the epoch takes the sample contact's
      id "1", and deleting it then removes the sample contact too. */
  lemma ClockIdCanCollide(name: string, relationship: string, phone: string)
    ensures var p := AddEmergencyContact(Initial, 1, name, relationship, phone);
      && p.contacts[0].id == p.contacts[1].id
      && DeleteItem(p, ContactList, "1").contacts == []
  {
    var p := AddEmergencyContact(Initial, 1, name, relationship, phone);
    assert ClockId(1) == "1";
    var keep := (c: Contact) => c.id != "1";
    assert p.contacts[1..][1..] == [];
    assert Filter(p.contacts[1..], keep) == [];
  }
}
