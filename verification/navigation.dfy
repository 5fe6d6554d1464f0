/** The patient bottom navigation, as the navigation hook and three patient
    screens each implement it: which tab a path highlights (first match
    wins among `/search`, `/booking`, `/message`, then `/profile`, with
    `/setting` counting as profile on some screens only) and where a tab
    press navigates to. */
module Navigation {
  import opened Wrappers
  import opened Text

  datatype NavTab = Home | Search | Booking | Messages | Profile | OtherTab(name: string)

  /** The implementations: `usePatientNavigation`, `BookingPage`,
      `MessagingPage` and `FavoritesPage`. */
  datatype Screen = NavigationHook | BookingScreen | MessagingScreen | FavoritesScreen

  /** The tab each implementation starts on. */
  function InitialTab(screen: Screen): NavTab {
    match screen
    case NavigationHook => Profile
    case BookingScreen => Booking
    case MessagingScreen => Messages
    case FavoritesScreen => Profile
  }

  /** Whether a path containing `/setting` highlights the profile tab. */
  predicate SettingIsProfile(screen: Screen) {
    screen == BookingScreen || screen == MessagingScreen
  }

  /** Where an authenticated profile press goes, if anywhere. */
  function ProfileRoute(screen: Screen): Option<string> {
    match screen
    case NavigationHook => None
    case BookingScreen => Some(ProfileSettingRoute)
    case MessagingScreen => Some(ProfileSettingRoute)
    case FavoritesScreen => Some(PatientProfileRoute)
  }

  const SearchSegment := "/search"
  const BookingSegment := "/booking"
  const MessageSegment := "/message"
  const ProfileSegment := "/profile"
  const SettingSegment := "/setting"

  const LoginRoute := "/login-selection"
  const PatientBase := "/patient"
  const CategoryRoute := PatientBase + "/category"
  const BrowseRoute := "/browse"
  const BookingsRoute := PatientBase + BookingSegment + "s"
  const MessagesRoute := PatientBase + MessageSegment + "s"
  const ProfileSettingRoute := PatientProfileRoute + SettingSegment
  const PatientProfileRoute := PatientBase + ProfileSegment

  /** The tab the path highlights. */
  function TabForPath(path: string, screen: Screen): (r: NavTab)
    ensures !r.OtherTab?
    ensures r == Search <==> Contains(path, SearchSegment)
    ensures r == Booking <==> !Contains(path, SearchSegment) && Contains(path, BookingSegment)
    ensures r == Messages <==> !Contains(path, SearchSegment) && !Contains(path, BookingSegment) && Contains(path, MessageSegment)
    ensures r == Profile <==>
      && !Contains(path, SearchSegment) && !Contains(path, BookingSegment) && !Contains(path, MessageSegment)
      && (Contains(path, ProfileSegment) || (SettingIsProfile(screen) && Contains(path, SettingSegment)))
    ensures r == Home <==>
      && !Contains(path, SearchSegment) && !Contains(path, BookingSegment) && !Contains(path, MessageSegment)
      && !Contains(path, ProfileSegment) && !(SettingIsProfile(screen) && Contains(path, SettingSegment))
  {
    if Contains(path, SearchSegment) then Search
    else if Contains(path, BookingSegment) then Booking
    else if Contains(path, MessageSegment) then Messages
    else if Contains(path, ProfileSegment) || (SettingIsProfile(screen) && Contains(path, SettingSegment)) then Profile
    else Home
  }

  /** Where a tab press navigates, if anywhere. */
  function RouteFor(tab: NavTab, authenticated: bool, screen: Screen): (r: Option<string>)
    ensures r.None? <==> tab.OtherTab? || (tab == Profile && authenticated && screen == NavigationHook)
    ensures !authenticated && (tab == Booking || tab == Messages || tab == Profile) ==> r == Some(LoginRoute)
    ensures authenticated && r.Some? ==> r.value != LoginRoute
    ensures tab == Search ==> r == Some((if authenticated then PatientBase else BrowseRoute) + SearchSegment)
  {
    var base := if authenticated then PatientBase else BrowseRoute;
    match tab
    case Home => Some(if authenticated then CategoryRoute else BrowseRoute)
    case Search => Some(base + SearchSegment)
    case Booking => Some(if authenticated then BookingsRoute else LoginRoute)
    case Messages => Some(if authenticated then MessagesRoute else LoginRoute)
    case Profile =>
      assert PatientProfileRoute[1] != LoginRoute[1] && ProfileSettingRoute[1] != LoginRoute[1];
      if authenticated then ProfileRoute(screen) else Some(LoginRoute)
    case OtherTab(_) => None
  }

  /** `handleTabChange`: the pressed tab becomes active before any routing.
      Signed in, the address it routes to keeps that tab highlighted; signed
      out, a gated tab routes to the login choice, whose address highlights
      home instead. */
  function HandleTabChange(active: NavTab, tab: NavTab, authenticated: bool, screen: Screen): (r: (NavTab, Option<string>))
    ensures r.0 == tab
    ensures r.1.None? <==> tab.OtherTab? || (tab == Profile && authenticated && screen == NavigationHook)
    ensures authenticated && r.1.Some? ==> TabForPath(r.1.value, screen) == r.0
    ensures !authenticated && (tab == Booking || tab == Messages || tab == Profile) ==>
      r.1 == Some(LoginRoute) && TabForPath(r.1.value, screen) == Home
  {
    if tab.OtherTab? then (tab, RouteFor(tab, authenticated, screen))
    else
      RouteHighlightsItsTab(tab, screen);
      SignedOutGatedTabs(Booking, screen);
      (tab, RouteFor(tab, authenticated, screen))
  }

  /** Every character of a pattern that occurs is a character of the text,
      so a pattern with a character the text lacks does not occur in it. */
  lemma PatternCharsOccur(s: string, sub: string, c: char)
    requires c in sub
    ensures Contains(s, sub) ==> c in s
  {
    if Contains(s, sub) {
      var i :| 0 <= i <= |s| - |sub| && OccursAt(s, sub, i);
      var k :| 0 <= k < |sub| && sub[k] == c;
      assert s[i..i + |sub|][k] == c;
      assert s[i + k] == c;
    }
  }

  /** Two adjacent characters `a`, `b` somewhere in `s`. */
  predicate HasPair(s: string, a: char, b: char) {
    exists i :: 0 <= i < |s| - 1 && s[i] == a && s[i + 1] == b
  }

  /** Likewise for two adjacent characters of the pattern. */
  lemma PatternPairsOccur(s: string, sub: string, k: nat)
    requires k + 1 < |sub|
    ensures Contains(s, sub) ==> HasPair(s, sub[k], sub[k + 1])
  {
    if Contains(s, sub) {
      var i :| 0 <= i <= |s| - |sub| && OccursAt(s, sub, i);
      assert s[i..i + |sub|][k] == sub[k] && s[i..i + |sub|][k + 1] == sub[k + 1];
      assert s[i + k] == sub[k] && s[i + k + 1] == sub[k + 1];
    }
  }

  /** A path with none of the letters h, k, m, f (so none of the first four
      segments) highlights home, unless `/setting` counts on this screen and
      the path has the "tt" it needs. */
  lemma HomeWithoutSegments(p: string, screen: Screen)
    requires 'h' !in p && 'k' !in p && 'm' !in p && 'f' !in p
    requires SettingIsProfile(screen) ==> !HasPair(p, 't', 't')
    ensures TabForPath(p, screen) == Home
  {
    PatternCharsOccur(p, SearchSegment, 'h');
    PatternCharsOccur(p, BookingSegment, 'k');
    PatternCharsOccur(p, MessageSegment, 'm');
    PatternCharsOccur(p, ProfileSegment, 'f');
    PatternPairsOccur(p, SettingSegment, 3);
  }

  /** Signed in, following a tab's route highlights that same tab again, on
      every screen and for every tab that navigates. */
  lemma RouteHighlightsItsTab(tab: NavTab, screen: Screen)
    requires !tab.OtherTab?
    ensures var r := RouteFor(tab, true, screen); r.Some? ==> TabForPath(r.value, screen) == tab
  {
    match tab
    case Home => HomeWithoutSegments(CategoryRoute, screen);
    case Search => SearchRouteHighlightsSearch(screen);
    case Booking => BookingsRouteHighlightsBooking(screen);
    case Messages => MessagesRouteHighlightsMessages(screen);
    case Profile =>
      if screen == FavoritesScreen {
        PatientProfileHighlightsProfile(screen);
      } else if screen != NavigationHook {
        ProfileSettingHighlightsProfile(screen);
      }
  }

  lemma SearchRouteHighlightsSearch(screen: Screen)
    ensures TabForPath(PatientBase + SearchSegment, screen) == Search
  {
    assert PatientBase + SearchSegment == PatientBase + SearchSegment + "";
    ContainsInfix(PatientBase, SearchSegment, "");
  }

  lemma BookingsRouteHighlightsBooking(screen: Screen)
    ensures TabForPath(BookingsRoute, screen) == Booking
  {
    PatternCharsOccur(BookingsRoute, SearchSegment, 'h');
    assert BookingsRoute == PatientBase + BookingSegment + "s";
    ContainsInfix(PatientBase, BookingSegment, "s");
  }

  lemma MessagesRouteHighlightsMessages(screen: Screen)
    ensures TabForPath(MessagesRoute, screen) == Messages
  {
    PatternCharsOccur(MessagesRoute, SearchSegment, 'h');
    PatternCharsOccur(MessagesRoute, BookingSegment, 'k');
    assert MessagesRoute == PatientBase + MessageSegment + "s";
    ContainsInfix(PatientBase, MessageSegment, "s");
  }

  /** The profile tab's own routes highlight it again. */
  lemma PatientProfileHighlightsProfile(screen: Screen)
    ensures TabForPath(PatientProfileRoute, screen) == Profile
  {
    var p := PatientProfileRoute;
    PatternCharsOccur(p, SearchSegment, 'h');
    PatternCharsOccur(p, BookingSegment, 'k');
    PatternCharsOccur(p, MessageSegment, 'm');
    assert p == PatientBase + ProfileSegment + "";
    ContainsInfix(PatientBase, ProfileSegment, "");
  }

  lemma ProfileSettingHighlightsProfile(screen: Screen)
    ensures TabForPath(ProfileSettingRoute, screen) == Profile
  {
    LacksFirstThree(ProfileSettingRoute);
    assert ProfileSettingRoute == PatientBase + ProfileSegment + SettingSegment;
    ContainsInfix(PatientBase, ProfileSegment, SettingSegment);
  }

  /** A path without the letters h, k and m holds none of the first three
      segments. */
  lemma LacksFirstThree(p: string)
    requires 'h' !in p && 'k' !in p && 'm' !in p
    ensures !Contains(p, SearchSegment) && !Contains(p, BookingSegment) && !Contains(p, MessageSegment)
  {
    PatternCharsOccur(p, SearchSegment, 'h');
    PatternCharsOccur(p, BookingSegment, 'k');
    PatternCharsOccur(p, MessageSegment, 'm');
  }

  const SettingsPath := PatientBase + SettingSegment + "s"
  const BookingSearchPath := "/patient/bookings/search"

  /** `/search` outranks `/booking`: a path with both highlights search. */
  lemma SearchOutranksBooking(screen: Screen)
    ensures TabForPath(BookingSearchPath, screen) == Search
  {
    assert BookingSearchPath == "/patient/bookings" + SearchSegment + "";
    ContainsInfix("/patient/bookings", SearchSegment, "");
  }

  /** The screens disagree on settings pages: the navigation hook and the
      favourites screen highlight home where the booking and messaging
      screens highlight profile. */
  lemma SettingsPathDisagreement(screen: Screen)
    ensures TabForPath(SettingsPath, screen) == if SettingIsProfile(screen) then Profile else Home
  {
    if SettingIsProfile(screen) {
      SettingsPathIsProfile(screen);
    } else {
      HomeWithoutSegments(SettingsPath, screen);
    }
  }

  lemma SettingsPathIsProfile(screen: Screen)
    requires SettingIsProfile(screen)
    ensures TabForPath(SettingsPath, screen) == Profile
  {
    LacksFirstThree(SettingsPath);
    assert SettingsPath == PatientBase + SettingSegment + "s";
    ContainsInfix(PatientBase, SettingSegment, "s");
  }

  /** Signed out, the gated tabs all lead to the login choice, and the
      routed path highlights home rather than the pressed tab. */
  lemma SignedOutGatedTabs(tab: NavTab, screen: Screen)
    requires tab == Booking || tab == Messages || tab == Profile
    ensures RouteFor(tab, false, screen) == Some(LoginRoute)
    ensures TabForPath(LoginRoute, screen) == Home
  {
    HomeWithoutSegments(LoginRoute, screen);
  }
}
