/** The provider search page's switch to a provider's profile: the address
    rewrite on a card click and on going back, when the profile view shows,
    which provider it shows, and the display record it passes on. */
module ProviderService {
  import opened Wrappers
  import opened Text
  import Details = ProviderDetails
  import Hook = ProvidersHook

  const ProvidersSegment := "/providers/"
  const SelectedProfile := "/selectedprofile"

  /** The pattern `/\/providers\/[^/]+$/` matches the path from index `i`:
      the segment marker, then a non-empty last segment without `/`. */
  predicate MatchesTail(path: string, i: nat) {
    && i + |ProvidersSegment| < |path|
    && path[i..i + |ProvidersSegment|] == ProvidersSegment
    && '/' !in path[i + |ProvidersSegment|..]
  }

  /** The `category` route parameter as template interpolation prints it:
      a missing one prints as "undefined". */
  function CategoryText(category: Option<string>): string {
    if category.Some? then category.value else "undefined"
  }

  /** The effect on the route's `category`: a truthy one becomes the
      hook's category filter; otherwise the filter stays. */
  function CategoryEffect(h: Hook.HookState, category: Option<string>): (r: Hook.HookState)
    ensures Truthy(category) ==> r.category == category.value && r.searchTerm == h.searchTerm && r.sortBy == h.sortBy
    ensures !Truthy(category) ==> r == h
  {
    if Truthy(category) then Hook.SetCategory(h, category.value) else h
  }

  /** On mount the effect agrees with the hook's own start: the filter is
      the route's category when it has one, and empty otherwise. */
  lemma MountFiltersByRoute(category: Option<string>)
    ensures var h := CategoryEffect(Hook.Start(category), category);
      h == Hook.Start(category) && (h.category == "" <==> !Truthy(category))
  {
  }

  /** Where the pattern matches, if it does: the last segment is the text
      after the last `/`, and the marker must stand right before it. */
  function TailStart(path: string): (r: Option<nat>)
    ensures r.Some? ==> MatchesTail(path, r.value)
    ensures r.None? ==> forall i: nat :: !MatchesTail(path, i)
  {
    var last := AfterLast(path, '/');
    var cut := |path| - |last| - |ProvidersSegment|;
    RewriteFindsTail(path);
    if last != "" && cut >= 0 && path[cut..|path| - |last|] == ProvidersSegment then Some(cut) else None
  }

  /** The address after a card click: a trailing `/providers/<segment>`
      becomes `/providers/<category>/selectedprofile`; any other path stays. */
  function ClickPath(path: string, category: Option<string>): (r: string)
    ensures forall i: nat :: MatchesTail(path, i) ==>
      r == path[..i] + ProvidersSegment + CategoryText(category) + SelectedProfile
    ensures (forall i: nat :: !MatchesTail(path, i)) ==> r == path
  {
    match TailStart(path)
    case None => path
    case Some(i) =>
      TailIsUnique(path, i);
      path[..i] + ProvidersSegment + CategoryText(category) + SelectedProfile
  }

  /** A match of the pattern ends at the last `/`, so it can start at one
      index only. */
  lemma TailIsUnique(path: string, i: nat)
    requires MatchesTail(path, i)
    ensures forall j: nat :: MatchesTail(path, j) ==> j == i
    ensures |AfterLast(path, '/')| + |ProvidersSegment| + i == |path|
  {
    TailFollowsLastSlash(path, i);
    forall j: nat | MatchesTail(path, j) ensures j == i {
      TailFollowsLastSlash(path, j);
    }
  }

  /** The segment a match ends with is the text after the last `/`. */
  lemma TailFollowsLastSlash(path: string, i: nat)
    requires MatchesTail(path, i)
    ensures AfterLast(path, '/') == path[i + |ProvidersSegment|..]
  {
    var k := i + |ProvidersSegment|;
    assert path[k - 1] == ProvidersSegment[|ProvidersSegment| - 1] == '/';
    assert path == path[..k - 1] + ['/'] + path[k..];
    AfterLastOfJoin(path[..k - 1], '/', path[k..]);
  }

  /** Where the pattern matches, the rewrite finds it. */
  lemma RewriteFindsTail(path: string)
    ensures var last := AfterLast(path, '/');
      var cut := |path| - |last| - |ProvidersSegment|;
      (exists i: nat :: MatchesTail(path, i)) ==> last != "" && cut >= 0 && path[cut..|path| - |last|] == ProvidersSegment
  {
    if i: nat :| MatchesTail(path, i) {
      TailFollowsLastSlash(path, i);
    }
  }

  /** The address after going back: the first `/selectedprofile` is taken
      out, wherever it is. */
  function BackPath(path: string): (r: string)
    ensures !Contains(path, SelectedProfile) ==> r == path
    ensures Contains(path, SelectedProfile) ==> |r| + |SelectedProfile| == |path|
  {
    ReplaceFirst(path, SelectedProfile, "")
  }

  /** What the page needs of a listed provider. */
  datatype Listed = Listed(
    id: string,
    fullName: string,
    avatarUrl: Option<string>,
    specialization: string,
    bio: Option<string>,
    rating: int,
    reviewCount: int,
    clinicAddress: Option<string>,
    yearsOfExperience: int,
    consultationFee: int)

  datatype Page = Page(path: string, category: Option<string>, selected: Option<Listed>, providers: seq<Listed>)

  datatype View = ListView | Loading | ProfileOf(provider: Listed)

  /** The profile view is taken when the address says so or a provider is
      selected. */
  predicate ProfileRoute(p: Page) {
    Contains(p.path, SelectedProfile) || p.selected.Some?
  }

  /** `providerToShow`: the selected provider, else the first listed, else
      none, which shows the loading state. */
  function Render(p: Page): (r: View)
    ensures r.ListView? <==> !ProfileRoute(p)
    ensures r.Loading? <==> ProfileRoute(p) && p.selected.None? && |p.providers| == 0
    ensures r.ProfileOf? && p.selected.Some? ==> r.provider == p.selected.value
    ensures r.ProfileOf? && p.selected.None? ==> |p.providers| > 0 && r.provider == p.providers[0]
  {
    if !ProfileRoute(p) then ListView
    else if p.selected.Some? then ProfileOf(p.selected.value)
    else if |p.providers| > 0 then ProfileOf(p.providers[0])
    else Loading
  }

  /** `handleProviderCardClick`. */
  function ClickCard(p: Page, chosen: Listed): (r: Page)
    ensures r.selected == Some(chosen) && r.path == ClickPath(p.path, p.category)
    ensures r.providers == p.providers && r.category == p.category
  {
    p.(selected := Some(chosen), path := ClickPath(p.path, p.category))
  }

  /** `handleBackFromProfile`. */
  function BackFromProfile(p: Page): (r: Page)
    ensures r.selected.None? && r.path == BackPath(p.path)
    ensures r.providers == p.providers && r.category == p.category
  {
    p.(selected := None, path := BackPath(p.path))
  }

  /** A click shows the chosen provider, whatever the address was. */
  lemma ClickShowsChosen(p: Page, chosen: Listed)
    ensures Render(ClickCard(p, chosen)) == ProfileOf(chosen)
  {
  }

  /** Opened from `/providers/<category>` and closed again, the page is back
      at its address and on the list, provided the address held no
      `/selectedprofile` before. */
  lemma ClickThenBackRestores(p: Page, chosen: Listed, i: nat)
    requires MatchesTail(p.path, i) && p.category.Some?
    requires p.path[i + |ProvidersSegment|..] == p.category.value
    requires !Contains(p.path, SelectedProfile)
    ensures var q := BackFromProfile(ClickCard(p, chosen));
      q.path == p.path && Render(q) == ListView
  {
    var front := p.path[..i] + ProvidersSegment + CategoryText(p.category);
    assert front == p.path by {
      assert p.path == p.path[..i] + p.path[i..i + |ProvidersSegment|] + p.path[i + |ProvidersSegment|..];
    }
    assert SelectedProfile[0] !in SelectedProfile[1..];
    ReplaceFirstAtEnd(front, SelectedProfile);
  }

  /** With no category in the route the address names "undefined". */
  lemma MissingCategoryPrintsUndefined(segment: string)
    requires segment != "" && '/' !in segment
    ensures ClickPath(ProvidersSegment + segment, None) == ProvidersSegment + "undefined" + SelectedProfile
  {
    var path := ProvidersSegment + segment;
    SegmentMatchesAtStart(segment);
    assert path[..0] + ProvidersSegment == ProvidersSegment;
  }

  lemma SegmentMatchesAtStart(segment: string)
    requires segment != "" && '/' !in segment
    ensures MatchesTail(ProvidersSegment + segment, 0)
  {
    var path := ProvidersSegment + segment;
    assert path[..|ProvidersSegment|] == ProvidersSegment;
    assert path[|ProvidersSegment|..] == segment;
  }

  /** The record passed to the profile view: description, picture and
      address under `||` with their defaults, the other fields as listed. */
  function ShowProvider(l: Listed): (r: Details.DetailedProvider)
    ensures r.id == l.id && r.name == l.fullName && r.specialization == l.specialization
    ensures r.description == OrElse(l.bio, Details.DefaultDescription)
    ensures r.image == OrElse(l.avatarUrl, Details.DefaultImage)
    ensures r.address == OrElse(l.clinicAddress, Details.DefaultAddress)
    ensures r.rating == l.rating && r.reviewCount == l.reviewCount
    ensures r.yearsOfExperience == l.yearsOfExperience && r.consultationFee == l.consultationFee
  {
    Details.DetailedProvider(l.id, l.fullName, l.specialization, OrElse(l.bio, Details.DefaultDescription),
                             OrElse(l.avatarUrl, Details.DefaultImage), l.rating, l.reviewCount,
                             OrElse(l.clinicAddress, Details.DefaultAddress), "2.5km", "20 min", "Mon-Fri", "9am - 5pm",
                             l.yearsOfExperience, l.consultationFee)
  }

  /** The two pages disagree on an unrated provider: this one shows a
      rating of 0 where the provider-details hook shows 4.5 stars. */
  lemma UnratedShownDifferently(l: Listed, d: Details.ProviderRow)
    requires l.rating == 0 && d.rating == Some(0)
    ensures ShowProvider(l).rating == 0 && Details.ToDetailed(d).rating == Details.DefaultRating
  {
  }
}
