/** `useProviders`: the providers the store lists for a category and a
    search term, shown in the chosen order, and the signed-in patient's
    favourite provider ids, with a toggle that removes a present id and
    appends an absent one after the store agrees. Ratings are in tenths of
    a star. */
module ProvidersHook {
  import opened Wrappers
  import opened Text
  import opened Keyed
  import opened Sorting
  import opened Database

  datatype Provider = Provider(id: string, name: string, specialization: string, rating: Option<int>, consultationFee: Option<int>)

  datatype SortOption = Default | Rating | Distance | Price

  datatype HookState = HookState(
    providers: seq<Provider>,
    favorites: seq<string>,
    sortBy: SortOption,
    category: string,
    searchTerm: string,
    loading: bool,
    error: Option<string>)

  /** The hook's first render: nothing fetched yet, the default order, no
      search, and the category given by the caller when it is truthy. */
  function Start(initialCategory: Option<string>): (r: HookState)
    ensures r.providers == [] && r.favorites == [] && r.loading && r.error.None?
    ensures r.sortBy == Default && r.searchTerm == ""
    ensures Truthy(initialCategory) ==> r.category == initialCategory.value
    ensures !Truthy(initialCategory) ==> r.category == ""
  {
    HookState([], [], Default, OrElse(initialCategory, ""), "", true, None)
  }

  /** `setCategory`; the fetch effect then runs again for the new filter. */
  function SetCategory(s: HookState, category: string): (r: HookState)
    ensures r.category == category && r.searchTerm == s.searchTerm && r.sortBy == s.sortBy
  {
    s.(category := category)
  }

  /** A provider passes the filters of `getAllProviders`: with a category,
      its speciality is that category; with a search term, its name or its
      speciality includes the term, in any letter case. */
  predicate Listed(p: Provider, category: string, searchTerm: string) {
    && (category == "" || p.specialization == category)
    && (searchTerm == "" || Contains(Lower(p.name), Lower(searchTerm)) || Contains(Lower(p.specialization), Lower(searchTerm)))
  }

  /** `getAllProviders(category, searchTerm)` over the stored providers. */
  function ListProviders(all: seq<Provider>, category: string, searchTerm: string): (r: seq<Provider>)
    ensures forall i :: 0 <= i < |r| ==> r[i] in all && Listed(r[i], category, searchTerm)
    ensures forall i :: 0 <= i < |all| && Listed(all[i], category, searchTerm) ==> all[i] in r
  {
    Filter(all, (p: Provider) => Listed(p, category, searchTerm))
  }

  /** With neither filter every stored provider is listed, in order. */
  lemma NoFilterListsAll(all: seq<Provider>)
    ensures ListProviders(all, "", "") == all
  {
    FilterAll(all, (p: Provider) => Listed(p, "", ""));
  }

  /** A search term only narrows the list: whatever it lists, the category
      alone lists too; and under a category only its providers appear. */
  lemma SearchNarrows(all: seq<Provider>, category: string, searchTerm: string)
    ensures forall p :: p in ListProviders(all, category, searchTerm) ==> p in ListProviders(all, category, "")
    ensures category != "" ==> forall p :: p in ListProviders(all, category, searchTerm) ==> p.specialization == category
  {
    var narrow := ListProviders(all, category, searchTerm);
    forall p | p in narrow
      ensures p in ListProviders(all, category, "") && (category != "" ==> p.specialization == category)
    {
      var i :| 0 <= i < |narrow| && narrow[i] == p;
      assert Listed(p, category, "");
      var j :| 0 <= j < |all| && all[j] == p;
    }
  }

  /** The fetch: a list reply is taken as is; a reply without a list or a
      rejection leaves no providers. */
  function FetchProviders(s: HookState, reply: Result<Option<seq<Provider>>>): (r: HookState)
    ensures reply.Ok? && reply.value.Some? ==> r.providers == reply.value.value && r.error.None?
    ensures reply.Ok? && reply.value.None? ==> r.providers == [] && r.error.None?
    ensures reply.Err? ==> r.providers == [] && r.error == Some(reply.message)
    ensures !r.loading
    ensures r.favorites == s.favorites && r.sortBy == s.sortBy && r.category == s.category && r.searchTerm == s.searchTerm
  {
    match reply
    case Ok(Some(ps)) => s.(providers := ps, error := None, loading := false)
    case Ok(None) => s.(providers := [], error := None, loading := false)
    case Err(e) => s.(providers := [], error := Some(e), loading := false)
  }

  /** After the fetch answers from the store, the hook holds exactly the
      stored providers its own filters admit. */
  lemma FetchedProvidersMatchFilters(s: HookState, all: seq<Provider>)
    ensures var r := FetchProviders(s, Ok(Some(ListProviders(all, s.category, s.searchTerm))));
      forall p :: p in r.providers <==> p in all && Listed(p, s.category, s.searchTerm)
  {
    var listed := ListProviders(all, s.category, s.searchTerm);
    forall p | p in all && Listed(p, s.category, s.searchTerm)
      ensures p in listed
    {
      var j :| 0 <= j < |all| && all[j] == p;
    }
    forall p | p in listed
      ensures p in all && Listed(p, s.category, s.searchTerm)
    {
      var i :| 0 <= i < |listed| && listed[i] == p;
    }
  }

  /** `getFavoriteProviders(patientId)`: the favourite rows of the patient. */
  function StoredFavorites(db: Tables, patientId: string): (r: seq<Favorite>)
    ensures forall i :: 0 <= i < |r| ==> r[i] in db.favorites && r[i].patientId == patientId
    ensures forall i :: 0 <= i < |db.favorites| && db.favorites[i].patientId == patientId ==> db.favorites[i] in r
  {
    Filter(db.favorites, (f: Favorite) => f.patientId == patientId)
  }

  /** `data.map(fav => fav.provider_id)`. */
  function ProviderIds(fs: seq<Favorite>): (r: seq<string>)
    ensures |r| == |fs| && forall i :: 0 <= i < |fs| ==> r[i] == fs[i].providerId
  {
    seq(|fs|, i requires 0 <= i < |fs| => fs[i].providerId)
  }

  /** The favourites effect: signed out, or on a reply without a list or a
      rejection, no favourites; otherwise the provider ids of the rows, in
      order. Nothing else changes. */
  function FetchFavorites(s: HookState, user: Option<string>, reply: Result<Option<seq<Favorite>>>): (r: HookState)
    ensures user.None? || reply.Err? || (reply.Ok? && reply.value.None?) ==> r.favorites == []
    ensures user.Some? && reply.Ok? && reply.value.Some? ==>
      |r.favorites| == |reply.value.value| && forall i :: 0 <= i < |r.favorites| ==> r.favorites[i] == reply.value.value[i].providerId
    ensures r == s.(favorites := r.favorites)
  {
    if user.None? then s.(favorites := [])
    else match reply
      case Ok(Some(fs)) => s.(favorites := ProviderIds(fs))
      case _ => s.(favorites := [])
  }

  /** Fetched from the store, the favourites agree with it. */
  lemma FetchedFavoritesAgree(s: HookState, db: Tables, user: string)
    ensures Agrees(FetchFavorites(s, Some(user), Ok(Some(StoredFavorites(db, user)))).favorites, db, user)
  {
    var rows := StoredFavorites(db, user);
    var ids := FetchFavorites(s, Some(user), Ok(Some(rows))).favorites;
    forall pid
      ensures pid in ids <==> exists f :: f in db.favorites && IsPair(f, user, pid)
    {
      if pid in ids {
        var i :| 0 <= i < |ids| && ids[i] == pid;
        assert IsPair(rows[i], user, pid);
      }
      if exists f :: f in db.favorites && IsPair(f, user, pid) {
        var f :| f in db.favorites && IsPair(f, user, pid);
        var j :| 0 <= j < |db.favorites| && db.favorites[j] == f;
        var i :| 0 <= i < |rows| && rows[i] == f;
        assert ids[i] == pid;
      }
    }
  }

  /** `rating || 0` and `consultation_fee || 0`. */
  function RatingOf(p: Provider): int { p.rating.GetOr(0) }
  function FeeOf(p: Provider): int { p.consultationFee.GetOr(0) }
  function NegatedRating(p: Provider): int { -RatingOf(p) }

  /** `sortedProviders`: rating descending, fee ascending, otherwise the
      fetched order (distance has no comparator of its own here). */
  function SortedProviders(ps: seq<Provider>, sortBy: SortOption): (r: seq<Provider>)
    ensures multiset(r) == multiset(ps)
    ensures sortBy == Rating ==> forall i, j :: 0 <= i < j < |r| ==> RatingOf(r[i]) >= RatingOf(r[j])
    ensures sortBy == Price ==> forall i, j :: 0 <= i < j < |r| ==> FeeOf(r[i]) <= FeeOf(r[j])
    ensures sortBy == Default || sortBy == Distance ==> r == ps
  {
    match sortBy
    case Rating =>
      var r := SortByInt(ps, NegatedRating);
      assert forall i, j :: 0 <= i < j < |r| ==> NegatedRating(r[i]) <= NegatedRating(r[j]);
      r
    case Price => SortByInt(ps, FeeOf)
    case _ => ps
  }

  /** The local favourites agree with the store when they hold exactly the
      providers the store pairs with the patient. */
  ghost predicate Agrees(favorites: seq<string>, db: Tables, patientId: string) {
    forall pid :: pid in favorites <==> exists f :: f in db.favorites && IsPair(f, patientId, pid)
  }

  /** `toggleFavorite`: no user, nothing; a present id is removed from the
      store and then from the list, an absent one added and appended. A
      rejection is only logged: list and store stay as they were. */
  function ToggleFavorite(s: HookState, db: Tables, user: Option<string>, providerId: string, stamp: Stamp, fault: Option<string>): (r: (HookState, Tables))
    ensures user.None? || fault.Some? ==> r == (s, db)
    ensures r.0.providers == s.providers && r.0.sortBy == s.sortBy && r.0.error == s.error
    ensures user.Some? && fault.None? && providerId in s.favorites ==>
      r.0.favorites == Filter(s.favorites, (id: string) => id != providerId)
      && r.1 == RemoveFavorite(db, user.value, providerId, None).db
    ensures user.Some? && fault.None? && providerId !in s.favorites ==>
      r.0.favorites == s.favorites + [providerId]
      && r.1 == AddFavorite(db, user.value, providerId, stamp, None).db
    ensures user.Some? && fault.None? ==> (providerId in r.0.favorites <==> providerId !in s.favorites)
  {
    if user.None? then (s, db)
    else if providerId in s.favorites then
      var out := RemoveFavorite(db, user.value, providerId, fault);
      if out.reply.Err? then (s, db)
      else (s.(favorites := Filter(s.favorites, (id: string) => id != providerId)), out.db)
    else
      var out := AddFavorite(db, user.value, providerId, stamp, fault);
      if out.reply.Err? then (s, db)
      else (s.(favorites := s.favorites + [providerId]), out.db)
  }

  /** A toggle keeps the local favourites in agreement with the store. */
  lemma ToggleKeepsAgreement(s: HookState, db: Tables, user: string, providerId: string, stamp: Stamp, fault: Option<string>)
    requires Agrees(s.favorites, db, user)
    ensures var r := ToggleFavorite(s, db, Some(user), providerId, stamp, fault); Agrees(r.0.favorites, r.1, user)
  {
    var r := ToggleFavorite(s, db, Some(user), providerId, stamp, fault);
    if fault.None? {
      if providerId in s.favorites {
        var keep := (id: string) => id != providerId;
        forall pid
          ensures pid in r.0.favorites <==> exists f :: f in r.1.favorites && IsPair(f, user, pid)
        {
          if pid in r.0.favorites {
            var k :| 0 <= k < |r.0.favorites| && r.0.favorites[k] == pid;
            var f :| f in db.favorites && IsPair(f, user, pid);
            assert f in r.1.favorites;
          }
          if exists f :: f in r.1.favorites && IsPair(f, user, pid) {
            var f :| f in r.1.favorites && IsPair(f, user, pid);
            assert f in db.favorites && !IsPair(f, user, providerId);
            assert pid in s.favorites;
            var k :| 0 <= k < |s.favorites| && s.favorites[k] == pid;
            assert keep(s.favorites[k]);
          }
        }
      } else {
        var out := AddFavorite(db, user, providerId, stamp, None);
        forall pid
          ensures pid in r.0.favorites <==> exists f :: f in r.1.favorites && IsPair(f, user, pid)
        {
          if pid != providerId && exists f :: f in r.1.favorites && IsPair(f, user, pid) {
            var f :| f in r.1.favorites && IsPair(f, user, pid);
            if out.reply.value.Some? {
              assert f in db.favorites + [out.reply.value.value];
            }
          }
          if pid in s.favorites {
            var f :| f in db.favorites && IsPair(f, user, pid);
            if out.reply.value.Some? {
              assert f in db.favorites + [out.reply.value.value];
            }
          }
        }
      }
    }
  }

  /** Toggling twice, with both calls accepted, restores membership. */
  lemma ToggleTwiceRestoresMembership(s: HookState, db: Tables, user: string, providerId: string, st1: Stamp, st2: Stamp)
    ensures var a := ToggleFavorite(s, db, Some(user), providerId, st1, None);
      var b := ToggleFavorite(a.0, a.1, Some(user), providerId, st2, None);
      providerId in b.0.favorites <==> providerId in s.favorites
  {
  }
}
