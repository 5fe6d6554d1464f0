/** The favourites screen: a case-insensitive search over name and
    speciality, a sort button cycling default, rating and distance, a count
    header, and a heart button that only ever removes. */
module FavoritesPage {
  import opened Wrappers
  import opened Text
  import opened Keyed
  import opened Sorting
  import opened FavoritesHook

  datatype SortMode = ByDefault | ByRating | ByDistance

  datatype Page = Page(hook: HookState, query: string, sortBy: SortMode, alert: Option<string>)

  const RemoveFailed := "Failed to remove from favorites. Please try again."

  /** The search keeps a provider whose lower-cased name or speciality
      includes the lower-cased query. */
  predicate Matches(p: FavoriteProvider, query: string) {
    Contains(Lower(p.name), Lower(query)) || Contains(Lower(p.specialization), Lower(query))
  }

  function Search(ps: seq<FavoriteProvider>, query: string): (r: seq<FavoriteProvider>)
    ensures forall i :: 0 <= i < |r| ==> r[i] in ps && Matches(r[i], query)
    ensures forall i :: 0 <= i < |ps| && Matches(ps[i], query) ==> ps[i] in r
  {
    Filter(ps, (p: FavoriteProvider) => Matches(p, query))
  }

  /** An empty query keeps every provider, in order. */
  lemma EmptyQueryKeepsAll(ps: seq<FavoriteProvider>)
    ensures Search(ps, "") == ps
  {
    forall i | 0 <= i < |ps|
      ensures Matches(ps[i], "")
    {
      ContainsEmpty(Lower(ps[i].name));
    }
    FilterAll(ps, (p: FavoriteProvider) => Matches(p, ""));
  }

  /** The sort button: default, rating, distance, and back. */
  function NextSort(m: SortMode): (r: SortMode)
    ensures r != m
  {
    match m
    case ByDefault => ByRating
    case ByRating => ByDistance
    case ByDistance => ByDefault
  }

  lemma SortCycleReturns(m: SortMode)
    ensures NextSort(NextSort(NextSort(m))) == m
    ensures NextSort(m) != m && NextSort(NextSort(m)) != m
  {
  }

  function NegatedRating(p: FavoriteProvider): int { -p.rating }

  /** `sortedProviders`: rating descending, otherwise the search order.
      Distance compares the parsed distances, which the hook sets to the
      same text for every provider, so that order is the search order too. */
  function Sorted(ps: seq<FavoriteProvider>, m: SortMode): (r: seq<FavoriteProvider>)
    ensures multiset(r) == multiset(ps)
    ensures m == ByRating ==> forall i, j :: 0 <= i < j < |r| ==> r[i].rating >= r[j].rating
    ensures m != ByRating ==> r == ps
  {
    if m == ByRating then
      var r := SortByInt(ps, NegatedRating);
      assert forall i, j :: 0 <= i < j < |r| ==> NegatedRating(r[i]) <= NegatedRating(r[j]);
      r
    else ps
  }

  /** What the screen lists. */
  function Listed(p: Page): (r: seq<FavoriteProvider>)
    ensures multiset(r) == multiset(Search(p.hook.providers, p.query))
  {
    Sorted(Search(p.hook.providers, p.query), p.sortBy)
  }

  /** `{n} Provider{n !== 1 ? 's' : ''}`. */
  function CountLabel(n: nat): (r: string)
    ensures |r| > |NatToString(n)| && r[..|NatToString(n)|] == NatToString(n)
    ensures r[|r| - 1] == 's' <==> n != 1
  {
    NatToString(n) + " Provider" + (if n != 1 then "s" else "")
  }

  /** The heart button: always a removal, whose failure becomes an alert. */
  function HandleToggleFavorite(p: Page, user: Option<string>, providerId: string, fault: Option<string>): (r: Page)
    ensures var e := RemoveFavorite(p.hook, user, providerId, fault);
      r.hook == e.state && r.query == p.query && r.sortBy == p.sortBy
      && (e.result.Err? ==> r.alert == Some(RemoveFailed)) && (e.result.Ok? ==> r.alert == p.alert)
    ensures |r.hook.providers| <= |p.hook.providers|
  {
    var e := RemoveFavorite(p.hook, user, providerId, fault);
    p.(hook := e.state, alert := if e.result.Err? then Some(RemoveFailed) else p.alert)
  }
}
