/** `useFavorites`: the signed-in patient's favourite providers as display
    records with defaults for every missing field, an add that refetches the
    whole list from the store, and a remove that filters the local list.
    Ratings are in tenths of a star (4.5 is 45). */
module FavoritesHook {
  import opened Wrappers
  import opened Keyed

  /** A favourite row with the joined provider fields the mapping reads;
      any of them may be missing. */
  datatype FavoriteRow = FavoriteRow(
    providerId: string,
    name: Option<string>,
    specialization: Option<string>,
    avatar: Option<string>,
    rating: Option<int>,
    reviewCount: Option<int>,
    address: Option<string>)

  datatype FavoriteProvider = FavoriteProvider(
    id: string,
    name: string,
    specialization: string,
    image: string,
    rating: int,
    reviewCount: int,
    address: string,
    distance: string,
    estimatedTime: string,
    availability: string,
    hours: string,
    isFavorite: bool)

  datatype HookState = HookState(providers: seq<FavoriteProvider>, loading: bool, error: Option<string>)

  /** How `addFavorite` / `removeFavorite` end: resolve with true or throw. */
  datatype Effect = Effect(state: HookState, result: Result<bool>)

  const NotAuthenticated := "User not authenticated"
  const DefaultName := "Provider Name"
  const DefaultSpecialization := "Healthcare Provider"
  const DefaultImage := "https://images.pexels.com/photos/5452293/pexels-photo-5452293.jpeg?auto=compress&cs=tinysrgb&w=400"
  const DefaultRating := 45
  const DefaultAddress := "123 Medical Center, Downtown"
  const Distance := "2.5km"

  /** The mapping of one row, each field under `||` with its default. */
  function ToProvider(row: FavoriteRow): (r: FavoriteProvider)
    ensures r.id == row.providerId && r.isFavorite
    ensures r.name == OrElse(row.name, DefaultName) && r.specialization == OrElse(row.specialization, DefaultSpecialization)
    ensures r.rating == NumberOr(row.rating, DefaultRating) && r.reviewCount == NumberOr(row.reviewCount, 0)
    ensures r.image == OrElse(row.avatar, DefaultImage)
    ensures r.address == OrElse(row.address, DefaultAddress) && r.distance == Distance
    ensures r.rating != 0
  {
    FavoriteProvider(row.providerId, OrElse(row.name, DefaultName), OrElse(row.specialization, DefaultSpecialization),
                     OrElse(row.avatar, DefaultImage), NumberOr(row.rating, DefaultRating), NumberOr(row.reviewCount, 0),
                     OrElse(row.address, DefaultAddress), Distance, "20 min", "Mon-Fri", "9am - 5pm", true)
  }

  function ToProviders(rows: seq<FavoriteRow>): (r: seq<FavoriteProvider>)
    ensures |r| == |rows|
    ensures forall i :: 0 <= i < |rows| ==> r[i] == ToProvider(rows[i])
  {
    seq(|rows|, i requires 0 <= i < |rows| => ToProvider(rows[i]))
  }

  /** Every mapped provider is a favourite, is named, and is at the same
      distance as every other. */
  lemma MappedProvidersUniform(rows: seq<FavoriteRow>)
    ensures forall i :: 0 <= i < |ToProviders(rows)| ==>
      ToProviders(rows)[i].isFavorite && ToProviders(rows)[i].name != "" && ToProviders(rows)[i].distance == Distance
  {
  }

  /** The fetch effect: no user, no list; a rejection empties the list. */
  function Fetch(s: HookState, user: Option<string>, reply: Result<seq<FavoriteRow>>): (r: HookState)
    ensures !r.loading
    ensures user.None? ==> r.providers == [] && r.error == s.error
    ensures user.Some? && reply.Ok? ==> r.providers == ToProviders(reply.value) && r.error.None?
    ensures user.Some? && reply.Err? ==> r.providers == [] && r.error == Some(reply.message)
  {
    if user.None? then s.(providers := [], loading := false)
    else match reply
      case Ok(rows) => s.(providers := ToProviders(rows), error := None, loading := false)
      case Err(e) => s.(providers := [], error := Some(e), loading := false)
  }

  /** `addFavorite`: `addFault` is the insert's failure, `refetch` the reply
      of the list query that follows; the list becomes the refetched one. */
  function AddFavorite(s: HookState, user: Option<string>, addFault: Option<string>, refetch: Result<seq<FavoriteRow>>): (r: Effect)
    ensures user.None? ==> r == Effect(s, Err(NotAuthenticated))
    ensures user.Some? ==> !r.state.loading && r.state.error == s.error
    ensures r.result.Err? ==> r.state.providers == s.providers
    ensures user.Some? && addFault.Some? ==> r.result == Err(addFault.value)
    ensures user.Some? && addFault.None? && refetch.Err? ==> r.result == Err(refetch.message)
    ensures user.Some? && addFault.None? && refetch.Ok? ==>
      r.result == Ok(true) && r.state.providers == ToProviders(refetch.value)
  {
    if user.None? then Effect(s, Err(NotAuthenticated))
    else if addFault.Some? then Effect(s.(loading := false), Err(addFault.value))
    else match refetch
      case Err(e) => Effect(s.(loading := false), Err(e))
      case Ok(rows) => Effect(s.(providers := ToProviders(rows), loading := false), Ok(true))
  }

  /** A successful add shows exactly what a fresh fetch with the same reply
      shows: the list is never patched locally, only re-read. */
  lemma AddShowsRefetch(s: HookState, user: string, rows: seq<FavoriteRow>)
    ensures AddFavorite(s, Some(user), None, Ok(rows)).state.providers == Fetch(s, Some(user), Ok(rows)).providers
    ensures |AddFavorite(s, Some(user), None, Ok(rows)).state.providers| == |rows|
  {
  }

  /** `removeFavorite`: the entries with the id go, the rest keep their order. */
  function RemoveFavorite(s: HookState, user: Option<string>, providerId: string, fault: Option<string>): (r: Effect)
    ensures user.None? ==> r == Effect(s, Err(NotAuthenticated))
    ensures r.result.Err? ==> r.state.providers == s.providers
    ensures user.Some? && fault.Some? ==> r.result == Err(fault.value)
    ensures user.Some? && fault.None? ==>
      r.result == Ok(true) && r.state.providers == Filter(s.providers, (p: FavoriteProvider) => p.id != providerId)
    ensures user.Some? && fault.None? ==>
      (forall i :: 0 <= i < |r.state.providers| ==> r.state.providers[i].id != providerId)
      && (forall i :: 0 <= i < |s.providers| && s.providers[i].id != providerId ==> s.providers[i] in r.state.providers)
  {
    if user.None? then Effect(s, Err(NotAuthenticated))
    else if fault.Some? then Effect(s.(loading := false), Err(fault.value))
    else Effect(s.(providers := Filter(s.providers, (p: FavoriteProvider) => p.id != providerId), loading := false), Ok(true))
  }

  /** Removing an id the list does not hold leaves the list as it is. */
  lemma RemoveAbsentKeepsList(s: HookState, user: string, providerId: string)
    requires forall i :: 0 <= i < |s.providers| ==> s.providers[i].id != providerId
    ensures RemoveFavorite(s, Some(user), providerId, None).state.providers == s.providers
  {
    FilterAll(s.providers, (p: FavoriteProvider) => p.id != providerId);
  }
}
