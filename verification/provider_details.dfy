/** `useProviderDetails`: a provider with its user profile, the display
    record built from it with a default for every falsy field, and an update
    that splits the changed keys between the user-profile table and the
    provider table, writes each table only when its part is non-empty, and
    reads the provider back. Ratings are in tenths of a star (4.5 is 45). */
module ProviderDetails {
  import opened Wrappers

  /** The provider row with the joined user-profile fields the hook reads;
      any of them may be missing. */
  datatype ProviderRow = ProviderRow(
    id: string,
    fullName: Option<string>,
    avatarUrl: Option<string>,
    specialization: Option<string>,
    bio: Option<string>,
    rating: Option<int>,
    reviewCount: Option<int>,
    clinicAddress: Option<string>,
    yearsOfExperience: Option<int>,
    consultationFee: Option<int>)

  datatype DetailedProvider = DetailedProvider(
    id: string,
    name: string,
    specialization: string,
    description: string,
    image: string,
    rating: int,
    reviewCount: int,
    address: string,
    distance: string,
    estimatedTime: string,
    availability: string,
    hours: string,
    yearsOfExperience: int,
    consultationFee: int)

  const DefaultName := "Provider Name"
  const DefaultSpecialization := "Healthcare Provider"
  const DefaultDescription := "Experienced healthcare provider dedicated to patient care."
  const DefaultImage := "https://images.pexels.com/photos/5452293/pexels-photo-5452293.jpeg?auto=compress&cs=tinysrgb&w=400"
  const DefaultRating := 45
  const DefaultAddress := "123 Medical Center, Downtown"

  /** The display record: every field under `||` with its default. */
  function ToDetailed(d: ProviderRow): (r: DetailedProvider)
    ensures r.id == d.id
    ensures r.name == OrElse(d.fullName, DefaultName) && r.specialization == OrElse(d.specialization, DefaultSpecialization)
    ensures r.description == OrElse(d.bio, DefaultDescription) && r.image == OrElse(d.avatarUrl, DefaultImage)
    ensures r.rating == NumberOr(d.rating, DefaultRating) && r.reviewCount == NumberOr(d.reviewCount, 0)
    ensures r.address == OrElse(d.clinicAddress, DefaultAddress)
    ensures r.yearsOfExperience == NumberOr(d.yearsOfExperience, 0) && r.consultationFee == NumberOr(d.consultationFee, 0)
    ensures r.distance == "2.5km" && r.estimatedTime == "20 min" && r.availability == "Mon-Fri" && r.hours == "9am - 5pm"
  {
    DetailedProvider(d.id, OrElse(d.fullName, DefaultName), OrElse(d.specialization, DefaultSpecialization),
                     OrElse(d.bio, DefaultDescription), OrElse(d.avatarUrl, DefaultImage),
                     NumberOr(d.rating, DefaultRating), NumberOr(d.reviewCount, 0),
                     OrElse(d.clinicAddress, DefaultAddress), "2.5km", "20 min", "Mon-Fri", "9am - 5pm",
                     NumberOr(d.yearsOfExperience, 0), NumberOr(d.consultationFee, 0))
  }

  /** `||` cannot tell a zero from a missing value: a rating of 0 shows as
      4.5 stars, while a fee of 0 stays 0 only because its default is 0;
      an empty name shows the default name. */
  lemma FalsyFieldsTakeDefaults(d: ProviderRow)
    requires d.rating == Some(0) && d.consultationFee == Some(0) && d.fullName == Some("")
    ensures ToDetailed(d).rating == 45
    ensures ToDetailed(d).consultationFee == 0
    ensures ToDetailed(d).name == DefaultName
  {
  }

  /** A present, truthy value always shows as stored. */
  lemma TruthyFieldsShown(d: ProviderRow)
    requires d.rating.Some? && d.rating.value != 0 && d.fullName.Some? && d.fullName.value != ""
    ensures ToDetailed(d).rating == d.rating.value && ToDetailed(d).name == d.fullName.value
  {
  }

  datatype HookState = HookState(provider: Option<ProviderRow>, detailed: Option<DetailedProvider>, loading: bool, error: Option<string>)

  /** The fetch effect. A reply without data sets neither record. */
  function Fetch(s: HookState, target: string, reply: Result<Option<ProviderRow>>): (r: HookState)
    ensures !r.loading
    ensures target == "" ==> r.provider.None? && r.detailed.None? && r.error == s.error
    ensures target != "" && reply.Err? ==> r.provider.None? && r.detailed.None? && r.error == Some(reply.message)
    ensures target != "" && reply.Ok? ==> r.error.None?
    ensures target != "" && reply.Ok? && reply.value.Some? ==>
      r.provider == reply.value && r.detailed == Some(ToDetailed(reply.value.value))
    ensures target != "" && reply.Ok? && reply.value.None? ==> r.provider == s.provider && r.detailed == s.detailed
  {
    if target == "" then s.(provider := None, detailed := None, loading := false)
    else match reply
      case Err(e) => s.(provider := None, detailed := None, error := Some(e), loading := false)
      case Ok(None) => s.(error := None, loading := false)
      case Ok(Some(d)) => s.(provider := Some(d), detailed := Some(ToDetailed(d)), error := None, loading := false)
  }

  /** The changed fields by column name. */
  type Updates = map<string, string>

  const UserProfileKeys: set<string> := {"full_name", "email", "phone", "avatar_url"}

  /** The part of the updates that goes to the user-profile table. */
  function UserPart(u: Updates): (r: Updates)
    ensures forall k :: k in r <==> k in u && k in UserProfileKeys
    ensures forall k :: k in r ==> r[k] == u[k]
  {
    map k | k in u && k in UserProfileKeys :: u[k]
  }

  /** The part that goes to the provider table: every other key. */
  function ProviderPart(u: Updates): (r: Updates)
    ensures forall k :: k in r <==> k in u && k !in UserProfileKeys
    ensures forall k :: k in r ==> r[k] == u[k]
  {
    map k | k in u && k !in UserProfileKeys :: u[k]
  }

  /** Every key lands in exactly one part, with its value. */
  lemma PartitionExact(u: Updates)
    ensures UserPart(u).Keys !! ProviderPart(u).Keys
    ensures UserPart(u) + ProviderPart(u) == u
  {
    var both := UserPart(u) + ProviderPart(u);
    assert both.Keys == u.Keys;
    assert forall k :: k in u ==> both[k] == u[k];
  }

  datatype Write = UserProfileWrite(fields: Updates) | ProviderWrite(fields: Updates)

  /** What `updateProviderProfile` did: the state, the table writes made in
      order, and what it returned or threw. */
  datatype Update = Update(state: HookState, writes: seq<Write>, result: Result<Option<ProviderRow>>)

  /** `updateProviderProfile`: `null` without a target; otherwise the
      non-empty parts are written in turn (user profile first), the provider
      is read back and taken, and the display record is rebuilt when the
      read returned data. Any failure stops the sequence and is rethrown;
      the records then stay as they were. */
  function UpdateProviderProfile(s: HookState, target: string, u: Updates,
                                 userFault: Option<string>, providerFault: Option<string>,
                                 reread: Result<Option<ProviderRow>>): (r: Update)
    ensures target == "" ==> r == Update(s, [], Ok(None))
    ensures target != "" ==> !r.state.loading && r.state.error == s.error
    ensures target != "" ==> (UserProfileWrite(UserPart(u)) in r.writes <==> |UserPart(u)| > 0)
    ensures target != "" ==>
      (ProviderWrite(ProviderPart(u)) in r.writes <==> |ProviderPart(u)| > 0 && (|UserPart(u)| == 0 || userFault.None?))
    ensures target != "" ==>
      r.writes == (if |UserPart(u)| > 0 then [UserProfileWrite(UserPart(u))] else [])
                  + (if |ProviderPart(u)| > 0 && (|UserPart(u)| == 0 || userFault.None?) then [ProviderWrite(ProviderPart(u))] else [])
    ensures target != "" && |UserPart(u)| > 0 && userFault.Some? ==> r.result == Err(userFault.value)
    ensures target != "" && (|UserPart(u)| == 0 || userFault.None?) && |ProviderPart(u)| > 0 && providerFault.Some? ==>
      r.result == Err(providerFault.value)
    ensures target != "" && (|UserPart(u)| == 0 || userFault.None?) && (|ProviderPart(u)| == 0 || providerFault.None?) ==>
      r.result == reread
    ensures r.result.Err? ==> r.state.provider == s.provider && r.state.detailed == s.detailed
    ensures target != "" && r.result.Ok? ==>
      && reread.Ok? && r.result == reread
      && r.state.provider == reread.value
      && r.state.detailed == (if reread.value.Some? then Some(ToDetailed(reread.value.value)) else s.detailed)
  {
    if target == "" then Update(s, [], Ok(None))
    else
      var done := s.(loading := false);
      var userWrites := if |UserPart(u)| > 0 then [UserProfileWrite(UserPart(u))] else [];
      if |UserPart(u)| > 0 && userFault.Some? then Update(done, userWrites, Err(userFault.value))
      else
        var writes := userWrites + (if |ProviderPart(u)| > 0 then [ProviderWrite(ProviderPart(u))] else []);
        if |ProviderPart(u)| > 0 && providerFault.Some? then Update(done, writes, Err(providerFault.value))
        else match reread
          case Err(e) => Update(done, writes, Err(e))
          case Ok(data) =>
            var detailed := if data.Some? then Some(ToDetailed(data.value)) else s.detailed;
            Update(done.(provider := data, detailed := detailed), writes, Ok(data))
  }

  /** Changing only the name touches only the user-profile table; changing
      only the fee touches only the provider table. */
  lemma OneTablePerKind(s: HookState, target: string, name: string, fee: string, reread: Result<Option<ProviderRow>>)
    requires target != ""
    ensures UpdateProviderProfile(s, target, map["full_name" := name], None, None, reread).writes
      == [UserProfileWrite(map["full_name" := name])]
    ensures UpdateProviderProfile(s, target, map["consultation_fee" := fee], None, None, reread).writes
      == [ProviderWrite(map["consultation_fee" := fee])]
  {
    var n := map["full_name" := name];
    var f := map["consultation_fee" := fee];
    assert UserPart(n) == n;
    assert ProviderPart(n) == map[];
    assert UserPart(f) == map[];
    assert ProviderPart(f) == f;
  }

  /** An empty update writes nothing but still reads the provider back. */
  lemma EmptyUpdateOnlyRereads(s: HookState, target: string, data: ProviderRow)
    requires target != ""
    ensures var r := UpdateProviderProfile(s, target, map[], None, None, Ok(Some(data)));
      r.writes == [] && r.state.detailed == Some(ToDetailed(data))
  {
    assert UserPart(map[]) == map[];
    assert ProviderPart(map[]) == map[];
  }
}
