/** `useProviderPosts`: a provider's posts. There is no posts table: the
    fetch yields two sample posts for the target, an add prepends a post of
    the signed-in user numbered by the clock, and a delete filters the local
    list. Both mutations throw without a user. */
module ProviderPosts {
  import opened Wrappers
  import opened Text
  import opened Keyed
  import Profile = ProviderProfile

  datatype Post = Post(
    id: string,
    providerId: string,
    title: string,
    content: string,
    imageUrl: Option<string>,
    categories: seq<string>,
    createdAt: string,
    updatedAt: string,
    likes: nat,
    comments: nat)

  datatype PostInput = PostInput(title: string, content: string, imageUrl: Option<string>, categories: seq<string>)

  datatype HookState = HookState(posts: seq<Post>, loading: bool, error: Option<string>)

  datatype Effect<T> = Effect(state: HookState, result: Result<T>)

  const NotAuthenticated := "User not authenticated"

  const HeartTitle := "Understanding Heart Health"
  const HeartContent := "Understanding heart health basics: 5 tips for a healthy heart \U{1F5A4}"
  const HeartImage := "https://images.pexels.com/photos/40568/medical-appointment-doctor-healthcare-40568.jpeg?auto=compress&cs=tinysrgb&w=400"
  const NutritionTitle := "Nutrition for Optimal Health"
  const NutritionContent := "What you eat matters! Here are some nutrition tips for maintaining optimal health and wellbeing."
  const NutritionImage := "https://images.pexels.com/photos/1640777/pexels-photo-1640777.jpeg?auto=compress&cs=tinysrgb&w=400"

  /** `mockPosts(target)`; the two creation times (two hours and three days
      before now) are parameters. */
  function MockPosts(target: string, hoursAgo: string, daysAgo: string): (r: seq<Post>)
    ensures |r| == 2 && r[0].id == "1" && r[1].id == "2"
    ensures forall i :: 0 <= i < |r| ==> r[i].providerId == target
    ensures r[0].likes == 2456 && r[0].comments == 123 && r[1].likes == 1872 && r[1].comments == 95
  {
    [Post("1", target, HeartTitle, HeartContent, Some(HeartImage), ["Health Tips", "Cardiology"], hoursAgo, hoursAgo, 2456, 123),
     Post("2", target, NutritionTitle, NutritionContent, Some(NutritionImage), ["Nutrition", "Health Tips"], daysAgo, daysAgo, 1872, 95)]
  }

  /** The fetch effect: no target, no posts; otherwise the samples. */
  function Fetch(s: HookState, target: string, hoursAgo: string, daysAgo: string): (r: HookState)
    ensures !r.loading
    ensures target == "" ==> r.posts == [] && r.error == s.error
    ensures target != "" ==> r.posts == MockPosts(target, hoursAgo, daysAgo) && r.error.None?
  {
    if target == "" then s.(posts := [], loading := false)
    else s.(posts := MockPosts(target, hoursAgo, daysAgo), error := None, loading := false)
  }

  /** `addPost`: throws without a user; otherwise a post by the user with no
      likes or comments, numbered by the clock reading `now` and dated
      `date`, goes to the front. */
  function AddPost(s: HookState, user: Option<string>, input: PostInput, now: nat, date: string): (r: Effect<Post>)
    ensures user.None? ==> r == Effect(s, Err(NotAuthenticated))
    ensures user.Some? ==>
      && r.result.Ok?
      && var p := r.result.value;
      && p.id == NatToString(now) && p.providerId == user.value
      && p.likes == 0 && p.comments == 0
      && p.title == input.title && p.content == input.content
      && p.imageUrl == input.imageUrl && p.categories == input.categories
      && p.createdAt == date && p.updatedAt == date
      && r.state.posts == [p] + s.posts && !r.state.loading
  {
    if user.None? then Effect(s, Err(NotAuthenticated))
    else
      var p := Post(NatToString(now), user.value, input.title, input.content, input.imageUrl, input.categories, date, date, 0, 0);
      Effect(s.(posts := [p] + s.posts, loading := false), Ok(p))
  }

  /** `deletePost`: throws without a user; otherwise the posts with the id
      are filtered out. */
  function DeletePost(s: HookState, user: Option<string>, id: string): (r: Effect<bool>)
    ensures user.None? ==> r == Effect(s, Err(NotAuthenticated))
    ensures user.Some? ==> r.result == Ok(true) && !r.state.loading
    ensures user.Some? ==> forall i :: 0 <= i < |r.state.posts| ==> r.state.posts[i].id != id && r.state.posts[i] in s.posts
    ensures user.Some? ==> forall i :: 0 <= i < |s.posts| && s.posts[i].id != id ==> s.posts[i] in r.state.posts
  {
    if user.None? then Effect(s, Err(NotAuthenticated))
    else Effect(s.(posts := Filter(s.posts, (p: Post) => p.id != id), loading := false), Ok(true))
  }

  /** Deleting the post just added, under an id no other post has, gives
      the list back. */
  lemma AddThenDeleteRestores(s: HookState, user: string, input: PostInput, now: nat, date: string)
    requires forall i :: 0 <= i < |s.posts| ==> s.posts[i].id != NatToString(now)
    ensures var a := AddPost(s, Some(user), input, now, date);
      DeletePost(a.state, Some(user), NatToString(now)).state.posts == s.posts
  {
    var keep := (p: Post) => p.id != NatToString(now);
    var p := AddPost(s, Some(user), input, now, date).result.value;
    FilterAppend([p], s.posts, keep);
    FilterAll(s.posts, keep);
    assert Filter([p], keep) == [];
  }

  /** The list is the target's, but an add is the user's: a user looking at
      another provider's posts adds one to that list under their own id. */
  lemma AddIgnoresTarget(user: string, providerId: string, input: PostInput, now: nat, date: string, hoursAgo: string, daysAgo: string)
    requires providerId != "" && providerId != user
    ensures var target := Profile.TargetId(Some(providerId), Some(user));
      var s := Fetch(HookState([], true, None), target, hoursAgo, daysAgo);
      var a := AddPost(s, Some(user), input, now, date);
      && target == providerId
      && a.state.posts[0].providerId == user
      && (forall i :: 1 <= i < |a.state.posts| ==> a.state.posts[i].providerId == target)
  {
  }
}
