/** The remote store as the client sees it through `dbService`: an
    in-memory set of tables whose operations filter, order, insert, update
    and delete rows. Every call may also be rejected by a failure the client
    cannot see (network, permissions); that failure is the `fault`
    parameter, and a rejected call changes nothing. */
module Database {
  import opened Wrappers
  import opened Keyed
  import opened Sorting

  /** `'upcoming' | 'completed' | 'cancelled'`. */
  datatype Status = Upcoming | Completed | Cancelled

  function StatusName(s: Status): string {
    match s
    case Upcoming => "upcoming"
    case Completed => "completed"
    case Cancelled => "cancelled"
  }

  /** A row of `appointments`. Dates are ISO `YYYY-MM-DD` text, so their
      text order is their calendar order. */
  datatype Appointment = Appointment(
    id: string,
    patientId: string,
    providerId: string,
    date: string,
    time: string,
    durationMinutes: int,
    status: Status,
    kind: string,
    notes: Option<string>,
    location: string,
    fee: int,
    createdAt: string,
    updatedAt: string)

  /** What `createAppointment` accepts: an appointment without the
      `id`, `created_at` and `updated_at` the store assigns. */
  datatype NewAppointment = NewAppointment(
    patientId: string,
    providerId: string,
    date: string,
    time: string,
    durationMinutes: int,
    status: Status,
    kind: string,
    notes: Option<string>,
    location: string,
    fee: int)

  datatype Favorite = Favorite(id: string, patientId: string, providerId: string, createdAt: string)

  datatype MessageKind = TextMessage | ImageMessage | FileMessage

  datatype Message = Message(
    id: string,
    senderId: string,
    receiverId: string,
    content: string,
    kind: MessageKind,
    isRead: bool,
    createdAt: string)

  /** What `sendMessage` accepts: a message without `id` and `created_at`. */
  datatype NewMessage = NewMessage(senderId: string, receiverId: string, content: string, kind: MessageKind, isRead: bool)

  /** `'voice' | 'video' | 'message' | 'in-person'`. */
  datatype PackageType = Voice | Video | Messaging | InPerson

  /** The text the store keeps for a package type. */
  function PackageTypeName(t: PackageType): string {
    match t
    case Voice => "voice"
    case Video => "video"
    case Messaging => "message"
    case InPerson => "in-person"
  }

  datatype ProviderPackage = ProviderPackage(
    id: string,
    providerId: string,
    packageType: PackageType,
    title: string,
    description: Option<string>,
    price: int,
    duration: string,
    createdAt: string,
    updatedAt: string)

  datatype Tables = Tables(
    appointments: seq<Appointment>,
    favorites: seq<Favorite>,
    messages: seq<Message>,
    packages: seq<ProviderPackage>)

  /** The new contents of the tables together with the call's reply. */
  datatype Outcome<T> = Outcome(db: Tables, reply: Result<T>)

  // ---------------------------------------------------------------- appointments

  predicate Involves(a: Appointment, userId: string) {
    a.patientId == userId || a.providerId == userId
  }

  predicate MatchesStatus(a: Appointment, status: Option<Status>) {
    status.None? || a.status == status.value
  }

  function AppointmentDate(a: Appointment): string { a.date }

  /** `getAppointments`: the rows where the user is the patient or the
      provider, narrowed to one status only when a status is given, in
      ascending appointment date. The store leaves the order of rows with
      the same date open; the model fixes the stable one. */
  function GetAppointments(db: Tables, userId: string, status: Option<Status>, fault: Option<string>): (r: Result<seq<Appointment>>)
    ensures fault.Some? <==> r.Err?
    ensures r.Ok? ==> SortedByText(r.value, AppointmentDate)
    ensures r.Ok? ==> forall a :: a in r.value <==> a in db.appointments && Involves(a, userId) && MatchesStatus(a, status)
    ensures r.Ok? ==> multiset(r.value) == multiset(Filter(db.appointments, a => Involves(a, userId) && MatchesStatus(a, status)))
  {
    if fault.Some? then Err(fault.value)
    else
      var rows := Filter(db.appointments, a => Involves(a, userId) && MatchesStatus(a, status));
      var sorted := SortByText(rows, AppointmentDate);
      assert forall a :: a in sorted <==> a in multiset(rows);
      Ok(sorted)
  }

  /** `createAppointment`: inserts one row carrying the given fields and the
      id and timestamps the store assigns, and replies with it. */
  function CreateAppointment(db: Tables, a: NewAppointment, stamp: Stamp, fault: Option<string>): (r: Outcome<Appointment>)
    ensures fault.Some? ==> r.reply.Err? && r.db == db
    ensures fault.None? ==> r.reply.Ok?
    ensures r.reply.Ok? ==>
      var row := r.reply.value;
      && r.db == db.(appointments := db.appointments + [row])
      && row.id == stamp.id && row.createdAt == stamp.createdAt && row.updatedAt == stamp.createdAt
      && row.patientId == a.patientId && row.providerId == a.providerId
      && row.date == a.date && row.time == a.time && row.status == a.status
      && row.durationMinutes == a.durationMinutes && row.kind == a.kind
      && row.notes == a.notes && row.location == a.location && row.fee == a.fee
  {
    if fault.Some? then Outcome(db, Err(fault.value))
    else
      var row := Appointment(stamp.id, a.patientId, a.providerId, a.date, a.time, a.durationMinutes,
                             a.status, a.kind, a.notes, a.location, a.fee, stamp.createdAt, stamp.createdAt);
      Outcome(db.(appointments := db.appointments + [row]), Ok(row))
  }

  /** A created appointment is listed afterwards for its patient and for
      its provider, under its own status; a failed create changes no
      listing. */
  lemma CreatedIsListed(db: Tables, a: NewAppointment, stamp: Stamp, user: string, status: Option<Status>, e: string)
    ensures var c := CreateAppointment(db, a, stamp, None);
      && c.reply.value in GetAppointments(c.db, a.patientId, Some(a.status), None).value
      && c.reply.value in GetAppointments(c.db, a.providerId, None, None).value
    ensures GetAppointments(CreateAppointment(db, a, stamp, Some(e)).db, user, status, None) == GetAppointments(db, user, status, None)
  {
    var c := CreateAppointment(db, a, stamp, None);
    var row := c.reply.value;
    assert c.db.appointments[|db.appointments|] == row;
    assert Involves(row, a.patientId) && MatchesStatus(row, Some(a.status));
    assert Involves(row, a.providerId) && MatchesStatus(row, None);
  }

  predicate HasId(a: Appointment, id: string) { a.id == id }

  /** The error `.single()` raises when the update matched no row. */
  const NoRowError := "JSON object requested, multiple (or no) rows returned"

  /** `updateAppointmentStatus`: sets `status` on the row with the id,
      whatever status it had; with no such row `.single()` rejects and
      nothing changes. */
  function UpdateAppointmentStatus(db: Tables, id: string, status: Status, fault: Option<string>): (r: Outcome<Appointment>)
    ensures r.reply.Err? ==> r.db == db
    ensures r.reply.Ok? <==> fault.None? && exists i :: 0 <= i < |db.appointments| && db.appointments[i].id == id
    ensures r.reply.Ok? ==> r.reply.value.id == id && r.reply.value.status == status
    ensures r.db.favorites == db.favorites && r.db.messages == db.messages && r.db.packages == db.packages
    ensures |r.db.appointments| == |db.appointments|
    ensures r.reply.Ok? ==> forall i :: 0 <= i < |db.appointments| ==>
      r.db.appointments[i] == if db.appointments[i].id == id then db.appointments[i].(status := status) else db.appointments[i]
  {
    if fault.Some? then Outcome(db, Err(fault.value))
    else match Find(db.appointments, a => HasId(a, id))
      case None => Outcome(db, Err(NoRowError))
      case Some(row) =>
        Outcome(db.(appointments := MapWhere(db.appointments, a => HasId(a, id), (a: Appointment) => a.(status := status))),
                Ok(row.(status := status)))
  }

  // ---------------------------------------------------------------- favourites

  predicate IsPair(f: Favorite, patientId: string, providerId: string) {
    f.patientId == patientId && f.providerId == providerId
  }

  /** The unique constraint on `(patient_id, provider_id)`. */
  predicate FavoritesUnique(fs: seq<Favorite>) {
    forall i, j :: 0 <= i < j < |fs| ==> !(fs[i].patientId == fs[j].patientId && fs[i].providerId == fs[j].providerId)
  }

  /** `addFavorite`: inserts the pair; an existing pair violates the unique
      constraint (code 23505), which is ignored, so the call resolves with
      no row and the table is unchanged. */
  function AddFavorite(db: Tables, patientId: string, providerId: string, stamp: Stamp, fault: Option<string>): (r: Outcome<Option<Favorite>>)
    ensures r.reply.Err? <==> fault.Some?
    ensures r.reply.Err? ==> r.db == db
    ensures r.db.appointments == db.appointments && r.db.messages == db.messages && r.db.packages == db.packages
    ensures r.reply.Ok? ==> exists f :: f in r.db.favorites && IsPair(f, patientId, providerId)
    ensures r.reply.Ok? && (exists f :: f in db.favorites && IsPair(f, patientId, providerId)) ==>
      r.db == db && r.reply.value.None?
    ensures r.reply.Ok? && r.reply.value.Some? ==>
      r.db.favorites == db.favorites + [r.reply.value.value] && r.reply.value.value.id == stamp.id
  {
    if fault.Some? then Outcome(db, Err(fault.value))
    else if Exists(db.favorites, f => IsPair(f, patientId, providerId)) then Outcome(db, Ok(None))
    else
      var row := Favorite(stamp.id, patientId, providerId, stamp.createdAt);
      assert IsPair(row, patientId, providerId) && row in db.favorites + [row];
      Outcome(db.(favorites := db.favorites + [row]), Ok(Some(row)))
  }

  /** `removeFavorite`: deletes every row of the pair. */
  function RemoveFavorite(db: Tables, patientId: string, providerId: string, fault: Option<string>): (r: Outcome<bool>)
    ensures r.reply.Err? <==> fault.Some?
    ensures r.reply.Err? ==> r.db == db
    ensures r.db.appointments == db.appointments && r.db.messages == db.messages && r.db.packages == db.packages
    ensures r.reply.Ok? ==> r.reply.value
    ensures r.reply.Ok? ==> forall f :: f in r.db.favorites <==> f in db.favorites && !IsPair(f, patientId, providerId)
  {
    if fault.Some? then Outcome(db, Err(fault.value))
    else Outcome(db.(favorites := Filter(db.favorites, f => !IsPair(f, patientId, providerId))), Ok(true))
  }

  /** `checkIsFavorite`: `maybeSingle` replies with the row or null, and
      rejects when more than one row matches. */
  function CheckIsFavorite(db: Tables, patientId: string, providerId: string, fault: Option<string>): (r: Result<bool>)
    ensures fault.Some? ==> r.Err?
    ensures r.Ok? ==> (r.value <==> exists f :: f in db.favorites && IsPair(f, patientId, providerId))
  {
    if fault.Some? then Err(fault.value)
    else
      var n := Count(db.favorites, f => IsPair(f, patientId, providerId));
      CountPositiveIff(db.favorites, patientId, providerId);
      if n == 0 then Ok(false)
      else if n == 1 then Ok(true)
      else Err(NoRowError)
  }

  /** Under the unique constraint `checkIsFavorite` never rejects on its own. */
  lemma CheckUnderUniqueReplies(db: Tables, patientId: string, providerId: string)
    requires FavoritesUnique(db.favorites)
    ensures CheckIsFavorite(db, patientId, providerId, None).Ok?
  {
    PairCountAtMostOne(db.favorites, patientId, providerId);
  }

  lemma {:induction false} CountPositiveIff(fs: seq<Favorite>, patientId: string, providerId: string)
    ensures Count(fs, f => IsPair(f, patientId, providerId)) > 0 <==> exists f :: f in fs && IsPair(f, patientId, providerId)
  {
    CountZeroIff(fs, f => IsPair(f, patientId, providerId));
  }

  /** Under the unique constraint a pair matches at most one row. */
  lemma {:induction false} PairCountAtMostOne(fs: seq<Favorite>, patientId: string, providerId: string)
    requires FavoritesUnique(fs)
    ensures Count(fs, f => IsPair(f, patientId, providerId)) <= 1
    decreases |fs|
  {
    if |fs| > 0 {
      var rest := fs[1..];
      assert FavoritesUnique(rest);
      PairCountAtMostOne(rest, patientId, providerId);
      if IsPair(fs[0], patientId, providerId) {
        CountZeroIff(rest, f => IsPair(f, patientId, providerId));
      }
    }
  }

  /** Adding and removing favourites keep the unique constraint. */
  lemma FavoriteOperationsKeepUnique(db: Tables, patientId: string, providerId: string, stamp: Stamp, fault: Option<string>)
    requires FavoritesUnique(db.favorites)
    ensures FavoritesUnique(AddFavorite(db, patientId, providerId, stamp, fault).db.favorites)
    ensures FavoritesUnique(RemoveFavorite(db, patientId, providerId, fault).db.favorites)
  {
    var fs := db.favorites;
    var added := AddFavorite(db, patientId, providerId, stamp, fault).db.favorites;
    if fault.None? && !Exists(fs, f => IsPair(f, patientId, providerId)) {
      assert added == fs + [Favorite(stamp.id, patientId, providerId, stamp.createdAt)];
      assert forall i :: 0 <= i < |fs| ==> !IsPair(fs[i], patientId, providerId);
    }
    var removed := RemoveFavorite(db, patientId, providerId, fault).db.favorites;
    if fault.None? {
      FilterKeepsUnique(fs, patientId, providerId);
    }
  }

  lemma {:induction false} FilterKeepsUnique(fs: seq<Favorite>, patientId: string, providerId: string)
    requires FavoritesUnique(fs)
    ensures FavoritesUnique(Filter(fs, f => !IsPair(f, patientId, providerId)))
    decreases |fs|
  {
    if |fs| > 0 {
      assert FavoritesUnique(fs[1..]);
      FilterKeepsUnique(fs[1..], patientId, providerId);
      var rest := Filter(fs[1..], f => !IsPair(f, patientId, providerId));
      forall k | 0 <= k < |rest|
        ensures !(fs[0].patientId == rest[k].patientId && fs[0].providerId == rest[k].providerId)
      {
        assert rest[k] in fs[1..];
      }
    }
  }

  /** After a successful `removeFavorite`, `checkIsFavorite` replies false. */
  lemma RemoveThenCheck(db: Tables, patientId: string, providerId: string)
    ensures CheckIsFavorite(RemoveFavorite(db, patientId, providerId, None).db, patientId, providerId, None) == Ok(false)
  {
    var after := RemoveFavorite(db, patientId, providerId, None).db;
    CountPositiveIff(after.favorites, patientId, providerId);
  }

  /** Adding a favourite that is already there changes nothing. */
  lemma AddExistingIsNoOp(db: Tables, patientId: string, providerId: string, stamp: Stamp)
    requires exists f :: f in db.favorites && IsPair(f, patientId, providerId)
    ensures AddFavorite(db, patientId, providerId, stamp, None) == Outcome(db, Ok(None))
  {
    var f :| f in db.favorites && IsPair(f, patientId, providerId);
    var i :| 0 <= i < |db.favorites| && db.favorites[i] == f;
    assert Exists(db.favorites, f => IsPair(f, patientId, providerId));
  }

  // ---------------------------------------------------------------- messages

  predicate Between(m: Message, userId: string, otherUserId: string) {
    (m.senderId == userId && m.receiverId == otherUserId) || (m.senderId == otherUserId && m.receiverId == userId)
  }

  function MessageTime(m: Message): string { m.createdAt }

  /** `getMessages`: the messages exchanged between the two users, in either
      direction, oldest first. */
  function GetMessages(db: Tables, userId: string, otherUserId: string, fault: Option<string>): (r: Result<seq<Message>>)
    ensures fault.Some? <==> r.Err?
    ensures r.Ok? ==> SortedByText(r.value, MessageTime)
    ensures r.Ok? ==> forall m :: m in r.value <==> m in db.messages && Between(m, userId, otherUserId)
    ensures r.Ok? ==> multiset(r.value) == multiset(Filter(db.messages, m => Between(m, userId, otherUserId)))
  {
    if fault.Some? then Err(fault.value)
    else
      var rows := Filter(db.messages, m => Between(m, userId, otherUserId));
      var sorted := SortByText(rows, MessageTime);
      assert forall m :: m in sorted <==> m in multiset(rows);
      Ok(sorted)
  }

  /** `sendMessage`: inserts the message with the id and time the store assigns. */
  function SendMessage(db: Tables, m: NewMessage, stamp: Stamp, fault: Option<string>): (r: Outcome<Message>)
    ensures fault.Some? <==> r.reply.Err?
    ensures r.reply.Err? ==> r.db == db
    ensures r.reply.Ok? ==>
      var row := r.reply.value;
      && r.db == db.(messages := db.messages + [row])
      && row == Message(stamp.id, m.senderId, m.receiverId, m.content, m.kind, m.isRead, stamp.createdAt)
  {
    if fault.Some? then Outcome(db, Err(fault.value))
    else
      var row := Message(stamp.id, m.senderId, m.receiverId, m.content, m.kind, m.isRead, stamp.createdAt);
      Outcome(db.(messages := db.messages + [row]), Ok(row))
  }

  predicate UnreadFrom(m: Message, userId: string, senderId: string) {
    m.receiverId == userId && m.senderId == senderId && !m.isRead
  }

  /** `markMessagesAsRead`: sets `is_read` on the unread messages `senderId`
      sent to `userId`, and on nothing else. */
  function MarkMessagesAsRead(db: Tables, userId: string, senderId: string, fault: Option<string>): (r: Outcome<bool>)
    ensures fault.Some? <==> r.reply.Err?
    ensures r.reply.Err? ==> r.db == db
    ensures r.db.appointments == db.appointments && r.db.favorites == db.favorites && r.db.packages == db.packages
    ensures |r.db.messages| == |db.messages|
    ensures r.reply.Ok? ==> forall i :: 0 <= i < |db.messages| ==>
      r.db.messages[i] == if UnreadFrom(db.messages[i], userId, senderId) then db.messages[i].(isRead := true) else db.messages[i]
    ensures r.reply.Ok? ==> forall m :: m in r.db.messages ==> !UnreadFrom(m, userId, senderId)
  {
    if fault.Some? then Outcome(db, Err(fault.value))
    else Outcome(db.(messages := MapWhere(db.messages, m => UnreadFrom(m, userId, senderId), (m: Message) => m.(isRead := true))), Ok(true))
  }

  // ---------------------------------------------------------------- packages

  function PackagePrice(p: ProviderPackage): int { p.price }

  /** `getProviderPackages`: the provider's packages, cheapest first. */
  function GetProviderPackages(db: Tables, providerId: string, fault: Option<string>): (r: Result<seq<ProviderPackage>>)
    ensures fault.Some? <==> r.Err?
    ensures r.Ok? ==> SortedByInt(r.value, PackagePrice)
    ensures r.Ok? ==> forall p :: p in r.value <==> p in db.packages && p.providerId == providerId
    ensures r.Ok? ==> multiset(r.value) == multiset(Filter(db.packages, (p: ProviderPackage) => p.providerId == providerId))
  {
    if fault.Some? then Err(fault.value)
    else
      var rows := Filter(db.packages, (p: ProviderPackage) => p.providerId == providerId);
      var sorted := SortByInt(rows, PackagePrice);
      assert forall p :: p in sorted <==> p in multiset(rows);
      Ok(sorted)
  }

  // ---------------------------------------------------------------- what the store does not check

  /** The store has no terminal states: a cancelled appointment can then
      be completed. */
  lemma CompleteAfterCancelSucceeds(db: Tables, id: string)
    requires exists i :: 0 <= i < |db.appointments| && db.appointments[i].id == id
    ensures UpdateAppointmentStatus(UpdateAppointmentStatus(db, id, Cancelled, None).db, id, Completed, None).reply.Ok?
  {
    var i :| 0 <= i < |db.appointments| && db.appointments[i].id == id;
    var c := UpdateAppointmentStatus(db, id, Cancelled, None);
    assert c.db.appointments[i].id == id;
  }

  /** The listing is ordered by date only and never compares times, so on
      one date a later appointment can be listed before an earlier one. The
      order the model gives such rows is the table's; the store leaves it
      open. */
  lemma TimeIsNotASortKey(early: Appointment, late: Appointment)
    requires early.date == late.date && early.patientId == "p" && late.patientId == "p"
    requires LexLe(early.time, late.time) && early.time != late.time
    ensures GetAppointments(Tables([late, early], [], [], []), "p", None, None) == Ok([late, early])
  {
    var db := Tables([late, early], [], [], []);
    var rows := Filter(db.appointments, a => Involves(a, "p") && MatchesStatus(a, None));
    assert rows == [late, early];
    var one := SortByText([early], AppointmentDate);
    assert one == [early];
    assert LexLe(late.date, early.date) by { LexLeTotal(late.date, early.date); }
  }
}
