/** The provider's package-fees page: packages grouped by type in order of
    first appearance (the insertion order `Object.entries` reports), a
    title and an icon per type, and the edit popup for a package found by
    id. */
module PackageFees {
  import opened Wrappers
  import opened Keyed
  import opened Database
  import Profile = ProviderProfile

  /** One section: the type text and its packages. */
  datatype Group = Group(key: string, items: seq<ProviderPackage>)

  function TypeOf(p: ProviderPackage): string {
    PackageTypeName(p.packageType)
  }

  predicate HasKey(gs: seq<Group>, key: string) {
    exists k :: 0 <= k < |gs| && gs[k].key == key
  }

  /** The groups stand for an object's entries, so their keys are distinct. */
  predicate KeysDistinct(gs: seq<Group>) {
    forall j, k :: 0 <= j < k < |gs| ==> gs[j].key != gs[k].key
  }

  /** One step of the `reduce`: push onto the package's group, creating the
      group at the end when the type is new. */
  function AddToGroups(gs: seq<Group>, p: ProviderPackage): (r: seq<Group>)
    requires KeysDistinct(gs)
    ensures KeysDistinct(r)
    ensures HasKey(gs, TypeOf(p)) ==> |r| == |gs|
    ensures !HasKey(gs, TypeOf(p)) ==> r == gs + [Group(TypeOf(p), [p])]
    ensures forall k :: 0 <= k < |gs| ==> r[k].key == gs[k].key
    ensures forall k :: 0 <= k < |gs| ==> r[k].items == gs[k].items + (if gs[k].key == TypeOf(p) then [p] else [])
  {
    if HasKey(gs, TypeOf(p)) then
      seq(|gs|, k requires 0 <= k < |gs| =>
        if gs[k].key == TypeOf(p) then Group(gs[k].key, gs[k].items + [p]) else gs[k])
    else gs + [Group(TypeOf(p), [p])]
  }

  /** `groupedPackages`: the fold over the packages in order. */
  function GroupByType(pkgs: seq<ProviderPackage>): (r: seq<Group>)
    ensures KeysDistinct(r)
    decreases |pkgs|
  {
    if |pkgs| == 0 then [] else AddToGroups(GroupByType(pkgs[..|pkgs| - 1]), pkgs[|pkgs| - 1])
  }

  /** The declarative reading of the grouping: the keys are distinct, each
      group holds exactly the packages of its type in input order, and every
      package's type has a group. */
  predicate GroupsOf(gs: seq<Group>, pkgs: seq<ProviderPackage>) {
    && KeysDistinct(gs)
    && (forall k :: 0 <= k < |gs| ==> gs[k].items == Filter(pkgs, (p: ProviderPackage) => TypeOf(p) == gs[k].key))
    && (forall i :: 0 <= i < |pkgs| ==> HasKey(gs, TypeOf(pkgs[i])))
  }

  lemma {:induction false} GroupByTypeCorrect(pkgs: seq<ProviderPackage>)
    ensures GroupsOf(GroupByType(pkgs), pkgs)
    decreases |pkgs|
  {
    if |pkgs| > 0 {
      var init := pkgs[..|pkgs| - 1];
      var last := pkgs[|pkgs| - 1];
      assert pkgs == init + [last];
      GroupByTypeCorrect(init);
      var gs := GroupByType(init);
      AddKeepsItems(gs, init, last);
      AddKeepsCover(gs, init, last);
    }
  }

  lemma AddKeepsItems(gs: seq<Group>, init: seq<ProviderPackage>, last: ProviderPackage)
    requires KeysDistinct(gs)
    requires forall k :: 0 <= k < |gs| ==> gs[k].items == Filter(init, (p: ProviderPackage) => TypeOf(p) == gs[k].key)
    requires forall i :: 0 <= i < |init| ==> HasKey(gs, TypeOf(init[i]))
    ensures var r := AddToGroups(gs, last);
      forall k :: 0 <= k < |r| ==> r[k].items == Filter(init + [last], (p: ProviderPackage) => TypeOf(p) == r[k].key)
  {
    var r := AddToGroups(gs, last);
    forall k | 0 <= k < |r|
      ensures r[k].items == Filter(init + [last], (p: ProviderPackage) => TypeOf(p) == r[k].key)
    {
      if k < |gs| {
        GroupGrows(gs[k], r[k], init, last);
      } else {
        NewGroupHoldsLast(gs, r[k], init, last);
      }
    }
  }

  /** An existing group after one more package: it gains the package
      exactly when the type is its own. */
  lemma GroupGrows(g: Group, h: Group, init: seq<ProviderPackage>, last: ProviderPackage)
    requires g.items == Filter(init, (p: ProviderPackage) => TypeOf(p) == g.key)
    requires h.key == g.key && h.items == g.items + (if g.key == TypeOf(last) then [last] else [])
    ensures h.items == Filter(init + [last], (p: ProviderPackage) => TypeOf(p) == h.key)
  {
    FilterAppend(init, [last], (p: ProviderPackage) => TypeOf(p) == h.key);
  }

  /** The group created for a new type holds only the new package. */
  lemma NewGroupHoldsLast(gs: seq<Group>, h: Group, init: seq<ProviderPackage>, last: ProviderPackage)
    requires forall i :: 0 <= i < |init| ==> HasKey(gs, TypeOf(init[i]))
    requires !HasKey(gs, TypeOf(last)) && h == Group(TypeOf(last), [last])
    ensures h.items == Filter(init + [last], (p: ProviderPackage) => TypeOf(p) == h.key)
  {
    var keep := (p: ProviderPackage) => TypeOf(p) == h.key;
    FilterAppend(init, [last], keep);
    forall i | 0 <= i < |init|
      ensures !keep(init[i])
    {
      assert HasKey(gs, TypeOf(init[i]));
    }
    CountZeroIff(init, keep);
    FilterLength(init, keep);
  }

  lemma AddKeepsCover(gs: seq<Group>, init: seq<ProviderPackage>, last: ProviderPackage)
    requires KeysDistinct(gs)
    requires forall i :: 0 <= i < |init| ==> HasKey(gs, TypeOf(init[i]))
    ensures var r := AddToGroups(gs, last);
      forall i :: 0 <= i < |init + [last]| ==> HasKey(r, TypeOf((init + [last])[i]))
  {
    var r := AddToGroups(gs, last);
    var pkgs := init + [last];
    forall i | 0 <= i < |pkgs|
      ensures HasKey(r, TypeOf(pkgs[i]))
    {
      if i < |init| {
        assert pkgs[i] == init[i];
        var k :| 0 <= k < |gs| && gs[k].key == TypeOf(init[i]);
        assert r[k].key == TypeOf(pkgs[i]);
      } else if HasKey(gs, TypeOf(last)) {
        var k :| 0 <= k < |gs| && gs[k].key == TypeOf(last);
        assert r[k].key == TypeOf(pkgs[i]);
      } else {
        assert r[|gs|].key == TypeOf(pkgs[i]);
      }
    }
  }

  /** The empty state shows exactly when there are no packages. */
  lemma {:induction false} NoGroupsIffNoPackages(pkgs: seq<ProviderPackage>)
    ensures |GroupByType(pkgs)| == 0 <==> |pkgs| == 0
  {
    if |pkgs| > 0 {
      GroupByTypeCorrect(pkgs);
      assert HasKey(GroupByType(pkgs), TypeOf(pkgs[0]));
    }
  }

  /** `getSectionTitle`: the four known types get fixed titles, any other
      text is its own title. */
  function SectionTitle(t: string): (r: string)
    ensures t == "voice" ==> r == "Voice Call"
    ensures t == "video" ==> r == "Video Call"
    ensures t == "message" ==> r == "Message"
    ensures t == "in-person" ==> r == "In-Person"
    ensures t != "voice" && t != "video" && t != "message" && t != "in-person" ==> r == t
  {
    if t == "voice" then "Voice Call"
    else if t == "video" then "Video Call"
    else if t == "message" then "Message"
    else if t == "in-person" then "In-Person"
    else t
  }

  /** The icons, named after what they picture. */
  datatype Icon = Phone | Camera | SpeechBubble | Person | Parcel

  /** `getPackageIcon`: one icon per known type, the parcel for any other. */
  function PackageIcon(t: string): (r: Icon)
    ensures r == Parcel <==> t != "voice" && t != "video" && t != "message" && t != "in-person"
    ensures r == Phone <==> t == "voice"
    ensures r == SpeechBubble <==> t == "message"
  {
    if t == "voice" then Phone
    else if t == "video" then Camera
    else if t == "message" then SpeechBubble
    else if t == "in-person" then Person
    else Parcel
  }

  /** A stored package always has a known type: no section falls back to
      the parcel icon or to its raw type text. */
  lemma StoredTypesAreKnown(t: PackageType)
    ensures PackageIcon(PackageTypeName(t)) != Parcel
    ensures SectionTitle(PackageTypeName(t)) != PackageTypeName(t)
  {
  }

  /** The page: the profile hook it reads, the two popups and the package
      being edited, and the last alert shown. */
  datatype Page = Page(hook: Profile.HookState, editOpen: bool, addOpen: bool, selected: Option<ProviderPackage>, alert: Option<string>)

  const UpdateFailed := "Failed to update package. Please try again."
  const AddFailed := "Failed to add package. Please try again."

  /** `handleEdit`: the first package with the id is selected and the popup
      opens; an unknown id changes nothing. */
  function HandleEdit(p: Page, id: string): (r: Page)
    ensures (forall i :: 0 <= i < |p.hook.packages| ==> p.hook.packages[i].id != id) ==> r == p
    ensures (exists i :: 0 <= i < |p.hook.packages| && p.hook.packages[i].id == id) ==>
      r.editOpen && r.selected.Some? && r.selected.value in p.hook.packages && r.selected.value.id == id
    ensures r.hook == p.hook && r.addOpen == p.addOpen && r.alert == p.alert
  {
    match Find(p.hook.packages, (q: ProviderPackage) => q.id == id)
    case None => p
    case Some(q) => p.(editOpen := true, selected := Some(q))
  }

  /** `handleCloseEditPopup`. */
  function CloseEdit(p: Page): (r: Page)
    ensures !r.editOpen && r.selected.None?
    ensures r.hook == p.hook && r.addOpen == p.addOpen && r.alert == p.alert
  {
    p.(editOpen := false, selected := None)
  }

  /** `handleSavePackage`: the hook's `updatePackage` for the edited
      package's id; when it settles the popup closes, when it throws the
      popup stays and the failure is alerted. `reply` is the store's answer. */
  function SavePackage(p: Page, userId: Option<string>, target: string, updated: ProviderPackage, reply: Result<ProviderPackage>): (r: Page)
    ensures var e := Profile.UpdatePackage(p.hook, userId, target, updated.id, reply);
      r.hook == e.state && r.addOpen == p.addOpen
      && (e.result.Ok? ==> !r.editOpen && r.selected.None? && r.alert == p.alert)
      && (e.result.Err? ==> r.editOpen == p.editOpen && r.selected == p.selected && r.alert == Some(UpdateFailed))
  {
    var e := Profile.UpdatePackage(p.hook, userId, target, updated.id, reply);
    if e.result.Ok? then CloseEdit(p.(hook := e.state))
    else p.(hook := e.state, alert := Some(UpdateFailed))
  }

  /** `handleSaveNewPackage`: the hook's `addPackage`; the add popup closes
      when it settles and stays open, with an alert, when it throws. */
  function SaveNewPackage(p: Page, userId: Option<string>, target: string, reply: Result<ProviderPackage>): (r: Page)
    ensures var e := Profile.AddPackage(p.hook, userId, target, reply);
      r.hook == e.state && r.editOpen == p.editOpen && r.selected == p.selected
      && (e.result.Ok? ==> !r.addOpen && r.alert == p.alert)
      && (e.result.Err? ==> r.addOpen == p.addOpen && r.alert == Some(AddFailed))
  {
    var e := Profile.AddPackage(p.hook, userId, target, reply);
    if e.result.Ok? then p.(hook := e.state, addOpen := false)
    else p.(hook := e.state, alert := Some(AddFailed))
  }

  /** Editing one's own package and saving it: the popup closes and the
      stored row takes the edited package's place. */
  lemma EditThenSaveReplaces(p: Page, owner: string, k: nat, stored: ProviderPackage)
    requires owner != "" && k < |p.hook.packages|
    requires forall i :: 0 <= i < |p.hook.packages| && i != k ==> p.hook.packages[i].id != p.hook.packages[k].id
    ensures var shown := HandleEdit(p, p.hook.packages[k].id);
      var saved := SavePackage(shown, Some(owner), owner, shown.selected.value, Ok(stored));
      && shown.editOpen && shown.selected == Some(p.hook.packages[k])
      && !saved.editOpen && saved.selected.None?
      && saved.hook.packages == p.hook.packages[k := stored]
  {
    var id := p.hook.packages[k].id;
    var found := Find(p.hook.packages, (q: ProviderPackage) => q.id == id);
    assert found.Some? by { assert p.hook.packages[k].id == id; }
    var j :| 0 <= j < |p.hook.packages| && p.hook.packages[j] == found.value;
    assert j == k;
    var saved := SavePackage(HandleEdit(p, id), Some(owner), owner, p.hook.packages[k], Ok(stored));
    assert |saved.hook.packages| == |p.hook.packages[k := stored]|;
    assert forall i :: 0 <= i < |p.hook.packages| ==> saved.hook.packages[i] == p.hook.packages[k := stored][i];
  }

  /** Saving a package of someone else's profile is refused: the popup
      stays open, the list is unchanged and the failure is alerted. */
  lemma ForeignSaveAlerts(p: Page, userId: string, target: string, updated: ProviderPackage, reply: Result<ProviderPackage>)
    requires target != "" && userId != target
    ensures var r := SavePackage(p, Some(userId), target, updated, reply);
      r.hook == p.hook && r.editOpen == p.editOpen && r.alert == Some(UpdateFailed)
  {
  }
}
