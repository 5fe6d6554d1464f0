/** `useProviderProfile`: the profile and packages of a target provider
    (the given id, else the signed-in user's), with mutations that do
    nothing without a user or a target and throw unless the user is the
    target. The replies of the remote calls are parameters: `Ok(x)` is the
    row the call resolved with, `Err(e)` its rejection. */
module ProviderProfile {
  import opened Wrappers
  import opened Keyed
  import opened Database

  /** A profile record as a field-name to value map, so that the object
      spread `{ ...prev, ...updated }` is map union. */
  type Profile = map<string, string>

  /** A review row, read and kept as the store returns it. */
  type ReviewRow = map<string, string>

  datatype HookState = HookState(profile: Option<Profile>, packages: seq<ProviderPackage>, reviews: seq<ReviewRow>,
                                 loading: bool, error: Option<string>)

  /** How a mutation's promise ends: `Ok(None)` resolves with nothing,
      `Ok(Some(v))` resolves with `v`, `Err(e)` rejects. */
  datatype Effect<T> = Effect(state: HookState, result: Result<Option<T>>)

  const NotOwnProfile := "You can only update your own profile"
  const NotOwnAddPackage := "You can only add packages to your own profile"
  const NotOwnUpdatePackage := "You can only update your own packages"
  const NotOwnDeletePackage := "You can only delete your own packages"

  /** `providerId || (user?.id || '')`. */
  function TargetId(providerId: Option<string>, userId: Option<string>): (r: string)
    ensures Truthy(providerId) ==> r == providerId.value
    ensures !Truthy(providerId) && userId.Some? ==> r == userId.value
    ensures !Truthy(providerId) && userId.None? ==> r == ""
  {
    OrElse(providerId, OrElse(userId, ""))
  }

  /** The guard every mutation starts with: `Some(e)` when the mutation
      stops with `Ok(None)` (e is None) or throws `e`. */
  function Guard(userId: Option<string>, target: string, notOwn: string): (r: Option<Option<string>>)
    ensures r == Some(None) <==> userId.None? || target == ""
    ensures r.None? <==> userId.Some? && target != "" && userId.value == target
    ensures r.Some? && r.value.Some? ==> r.value.value == notOwn
  {
    if userId.None? || target == "" then Some(None)
    else if userId.value != target then Some(Some(notOwn))
    else None
  }

  /** The profile effect: no target clears the profile; a reply without data
      clears it as well, and a failure records the error and clears it. */
  function FetchProfile(s: HookState, target: string, reply: Result<Option<Profile>>): (r: HookState)
    ensures !r.loading && r.packages == s.packages && r.reviews == s.reviews
    ensures target == "" ==> r.profile.None? && r.error == s.error
    ensures target != "" && reply.Ok? ==> r.profile == reply.value && r.error.None?
    ensures target != "" && reply.Err? ==> r.profile.None? && r.error == Some(reply.message)
  {
    if target == "" then s.(profile := None, loading := false)
    else match reply
      case Ok(data) => s.(profile := data, error := None, loading := false)
      case Err(e) => s.(profile := None, error := Some(e), loading := false)
  }

  /** The reviews effect: no target empties the list, a failure keeps it. */
  function FetchReviews(s: HookState, target: string, reply: Result<seq<ReviewRow>>): (r: HookState)
    ensures target == "" ==> r.reviews == []
    ensures target != "" && reply.Ok? ==> r.reviews == reply.value
    ensures target != "" && reply.Err? ==> r.reviews == s.reviews
    ensures r.profile == s.profile && r.packages == s.packages && r.loading == s.loading && r.error == s.error
  {
    if target == "" then s.(reviews := [])
    else match reply
      case Ok(rows) => s.(reviews := rows)
      case Err(_) => s
  }

  /** The packages effect: no target empties the list, a failure keeps it. */
  function FetchPackages(s: HookState, db: Tables, target: string, fault: Option<string>): (r: HookState)
    ensures target == "" ==> r.packages == []
    ensures target != "" && fault.Some? ==> r.packages == s.packages
    ensures target != "" && fault.None? ==> r.packages == GetProviderPackages(db, target, None).value
    ensures r.profile == s.profile && r.reviews == s.reviews && r.loading == s.loading && r.error == s.error
  {
    if target == "" then s.(packages := [])
    else match GetProviderPackages(db, target, fault)
      case Ok(rows) => s.(packages := rows)
      case Err(_) => s
  }

  /** The three effects write separate parts of the state, so whichever
      settles first, the hook ends in the same state. */
  lemma FetchesCommute(s: HookState, db: Tables, target: string, profile: Result<Option<Profile>>,
                       fault: Option<string>, reviews: Result<seq<ReviewRow>>)
    ensures FetchProfile(FetchPackages(FetchReviews(s, target, reviews), db, target, fault), target, profile)
         == FetchReviews(FetchPackages(FetchProfile(s, target, profile), db, target, fault), target, reviews)
    ensures FetchPackages(FetchProfile(s, target, profile), db, target, fault)
         == FetchProfile(FetchPackages(s, db, target, fault), target, profile)
  {
  }

  /** Without a target (no provider id and nobody signed in) the three
      effects leave no profile, no packages and no reviews. */
  lemma NoTargetNothingShown(s: HookState, db: Tables, profile: Result<Option<Profile>>,
                             fault: Option<string>, reviews: Result<seq<ReviewRow>>)
    ensures var r := FetchReviews(FetchPackages(FetchProfile(s, TargetId(None, None), profile), db, TargetId(None, None), fault), TargetId(None, None), reviews);
      r.profile.None? && r.packages == [] && r.reviews == [] && !r.loading
  {
  }

  /** `{ ...prev, ...updated }`: every field of `updated`, and the fields
      of `prev` it does not name. */
  function Merge(prev: Profile, updated: Profile): (r: Profile)
    ensures r.Keys == prev.Keys + updated.Keys
    ensures forall k :: k in updated ==> r[k] == updated[k]
    ensures forall k :: k in prev && k !in updated ==> r[k] == prev[k]
  {
    prev + updated
  }

  /** Merging the same reply twice is merging it once. */
  lemma MergeIdempotent(prev: Profile, updated: Profile)
    ensures Merge(Merge(prev, updated), updated) == Merge(prev, updated)
  {
  }

  /** The store service has no `addProviderProfile`: calling it throws a
      `TypeError` with this message. */
  const MissingCreate := "dbService.addProviderProfile is not a function"

  /** `updateProviderProfile` as written: with a profile loaded the update's
      reply is merged in; with none loaded the call meant to create one is
      to a member the store service does not have, so it throws before any
      request, the catch rethrows, and `reply` is never used. */
  function UpdateAsWritten(s: HookState, userId: Option<string>, target: string, reply: Result<Profile>): (r: Effect<Profile>)
    ensures Guard(userId, target, NotOwnProfile).Some? ==> r == UpdateProviderProfile(s, userId, target, reply)
    ensures Guard(userId, target, NotOwnProfile).None? && s.profile.None? ==> r == Effect(s, Err(MissingCreate))
    ensures Guard(userId, target, NotOwnProfile).None? && s.profile.Some? && reply.Err? ==> r == Effect(s, Err(reply.message))
    ensures Guard(userId, target, NotOwnProfile).None? && s.profile.Some? && reply.Ok? ==>
      r.result == Ok(Some(reply.value)) && r.state == s.(profile := Some(Merge(s.profile.value, reply.value)))
  {
    if Guard(userId, target, NotOwnProfile).None? && s.profile.None? then Effect(s, Err(MissingCreate))
    else UpdateProviderProfile(s, userId, target, reply)
  }

  /** As written, a provider with no profile row can never get one from
      this hook: the owner's update rejects and leaves no profile, whatever
      the store would have answered. */
  lemma AsWrittenNeverCreates(s: HookState, userId: string, created: Profile)
    requires s.profile.None? && userId != ""
    ensures var r := UpdateAsWritten(s, Some(userId), userId, Ok(created));
      r.result == Err(MissingCreate) && r.state.profile.None?
  {
  }

  /** `updateProviderProfile` as its comment intends: with no profile
      loaded one is created first. Which remote call runs depends on
      whether a profile is loaded; `reply` is what that call gave. */
  function UpdateProviderProfile(s: HookState, userId: Option<string>, target: string, reply: Result<Profile>): (r: Effect<Profile>)
    ensures Guard(userId, target, NotOwnProfile).Some? ==> r.state == s
    ensures Guard(userId, target, NotOwnProfile) == Some(None) ==> r.result == Ok(None)
    ensures Guard(userId, target, NotOwnProfile) == Some(Some(NotOwnProfile)) ==> r.result == Err(NotOwnProfile)
    ensures Guard(userId, target, NotOwnProfile).None? && reply.Err? ==> r == Effect(s, Err(reply.message))
    ensures Guard(userId, target, NotOwnProfile).None? && reply.Ok? ==>
      r.result == Ok(Some(reply.value)) && r.state.packages == s.packages
      && r.state.profile == Some(if s.profile.Some? then Merge(s.profile.value, reply.value) else reply.value)
  {
    match Guard(userId, target, NotOwnProfile)
    case Some(None) => Effect(s, Ok(None))
    case Some(Some(e)) => Effect(s, Err(e))
    case None =>
      match reply
      case Err(e) => Effect(s, Err(e))
      case Ok(p) =>
        var merged := if s.profile.Some? then Merge(s.profile.value, p) else p;
        Effect(s.(profile := Some(merged)), Ok(Some(p)))
  }

  /** With the creation in place the owner's first update gives them the
      created profile, and a later one merges into it. */
  lemma CorrectedCreatesThenMerges(s: HookState, userId: string, created: Profile, changed: Profile)
    requires s.profile.None? && userId != ""
    ensures var first := UpdateProviderProfile(s, Some(userId), userId, Ok(created));
      var second := UpdateProviderProfile(first.state, Some(userId), userId, Ok(changed));
      && first.state.profile == Some(created)
      && second.state.profile == Some(Merge(created, changed))
      && UpdateAsWritten(first.state, Some(userId), userId, Ok(changed)) == second
  {
  }

  /** `addPackage`: `reply` is the row the store returned for the insert of
      `{ provider_id: target, ...data }`; it is appended. */
  function AddPackage(s: HookState, userId: Option<string>, target: string, reply: Result<ProviderPackage>): (r: Effect<ProviderPackage>)
    ensures Guard(userId, target, NotOwnAddPackage).Some? || reply.Err? ==> r.state == s
    ensures Guard(userId, target, NotOwnAddPackage) == Some(Some(NotOwnAddPackage)) ==> r.result == Err(NotOwnAddPackage)
    ensures Guard(userId, target, NotOwnAddPackage).None? && reply.Ok? ==>
      r.state.packages == s.packages + [reply.value] && r.result == Ok(Some(reply.value))
  {
    match Guard(userId, target, NotOwnAddPackage)
    case Some(None) => Effect(s, Ok(None))
    case Some(Some(e)) => Effect(s, Err(e))
    case None =>
      match reply
      case Err(e) => Effect(s, Err(e))
      case Ok(p) => Effect(s.(packages := s.packages + [p]), Ok(Some(p)))
  }

  /** The insert `addPackage` asks for: the target as provider, the rest
      from the form. */
  function PackageToInsert(target: string, data: ProviderPackage): (r: ProviderPackage)
    ensures r.providerId == target
    ensures r.(providerId := data.providerId) == data
  {
    data.(providerId := target)
  }

  /** `updatePackage`: the returned row replaces every package with the id. */
  function UpdatePackage(s: HookState, userId: Option<string>, target: string, id: string, reply: Result<ProviderPackage>): (r: Effect<ProviderPackage>)
    ensures Guard(userId, target, NotOwnUpdatePackage).Some? || reply.Err? ==> r.state == s
    ensures Guard(userId, target, NotOwnUpdatePackage).None? && reply.Ok? ==>
      && r.result == Ok(Some(reply.value))
      && |r.state.packages| == |s.packages|
      && (forall i :: 0 <= i < |s.packages| && s.packages[i].id == id ==> r.state.packages[i] == reply.value)
      && (forall i :: 0 <= i < |s.packages| && s.packages[i].id != id ==> r.state.packages[i] == s.packages[i])
  {
    match Guard(userId, target, NotOwnUpdatePackage)
    case Some(None) => Effect(s, Ok(None))
    case Some(Some(e)) => Effect(s, Err(e))
    case None =>
      match reply
      case Err(e) => Effect(s, Err(e))
      case Ok(p) =>
        Effect(s.(packages := MapWhere(s.packages, (q: ProviderPackage) => q.id == id, (q: ProviderPackage) => p)), Ok(Some(p)))
  }

  /** `deletePackage`: every package with the id goes, the rest keep their
      order; the promise resolves with true. */
  function DeletePackage(s: HookState, userId: Option<string>, target: string, id: string, fault: Option<string>): (r: Effect<bool>)
    ensures Guard(userId, target, NotOwnDeletePackage).Some? || fault.Some? ==> r.state == s
    ensures Guard(userId, target, NotOwnDeletePackage).None? && fault.Some? ==> r.result == Err(fault.value)
    ensures Guard(userId, target, NotOwnDeletePackage).None? && fault.None? ==>
      && r.result == Ok(Some(true))
      && r.state.packages == Filter(s.packages, (q: ProviderPackage) => q.id != id)
      && (forall i :: 0 <= i < |r.state.packages| ==> r.state.packages[i].id != id)
  {
    match Guard(userId, target, NotOwnDeletePackage)
    case Some(None) => Effect(s, Ok(None))
    case Some(Some(e)) => Effect(s, Err(e))
    case None =>
      if fault.Some? then Effect(s, Err(fault.value))
      else Effect(s.(packages := Filter(s.packages, (q: ProviderPackage) => q.id != id)), Ok(Some(true)))
  }

  /** Viewing someone else's profile, every mutation throws and nothing
      changes; signed out, every mutation resolves with nothing. */
  lemma OnlyTheOwnerMutates(s: HookState, userId: string, target: string, id: string,
                            profileReply: Result<Profile>, pkgReply: Result<ProviderPackage>, fault: Option<string>)
    requires target != "" && userId != target
    ensures UpdateProviderProfile(s, Some(userId), target, profileReply) == Effect(s, Err(NotOwnProfile))
    ensures AddPackage(s, Some(userId), target, pkgReply) == Effect(s, Err(NotOwnAddPackage))
    ensures UpdatePackage(s, Some(userId), target, id, pkgReply) == Effect(s, Err(NotOwnUpdatePackage))
    ensures DeletePackage(s, Some(userId), target, id, fault) == Effect(s, Err(NotOwnDeletePackage))
    ensures DeletePackage(s, None, target, id, fault) == Effect(s, Ok(None))
  {
  }

  /** Deleting after adding a package with a fresh id restores the list. */
  lemma {:induction false} AddThenDeleteRestores(s: HookState, userId: string, p: ProviderPackage)
    requires userId != ""
    requires forall i :: 0 <= i < |s.packages| ==> s.packages[i].id != p.id
    ensures var a := AddPackage(s, Some(userId), userId, Ok(p)).state;
      DeletePackage(a, Some(userId), userId, p.id, None).state.packages == s.packages
  {
    var keep := (q: ProviderPackage) => q.id != p.id;
    FilterAppend(s.packages, [p], keep);
    FilterAll(s.packages, keep);
  }
}
