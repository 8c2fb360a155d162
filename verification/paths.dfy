/** Learning-path lookup and navigation of `src/lib/paths.ts`. The path files
    are replaced by a `paths` list in load order, and `getPostBySlug` by a
    `lookup` parameter. */
module Paths {
  import opened Wrappers
  import opened Seqs
  import opened Records

  /** A neighbour in a path: its display title and its slug. */
  datatype NavLink = NavLink(title: string, slug: string)

  /** Where a post sits in its learning path. */
  datatype PathNav = PathNav(
    pathTitle: string,
    pathSlug: string,
    previous: Option<NavLink>,
    next: Option<NavLink>,
    currentIndex: nat,
    totalPosts: nat
  )

  function PathHasSlug(slug: string): LearningPath -> bool {
    (lp: LearningPath) => lp.slug == slug
  }

  /** `getPathBySlug`: the first path whose slug matches. */
  function GetPathBySlug(paths: seq<LearningPath>, slug: string): (r: Option<LearningPath>)
    ensures r.None? <==> forall i :: 0 <= i < |paths| ==> paths[i].slug != slug
    ensures r.Some? ==> exists i :: 0 <= i < |paths| && paths[i] == r.value && r.value.slug == slug
                                     && forall j :: 0 <= j < i ==> paths[j].slug != slug
  {
    Find(paths, PathHasSlug(slug))
  }

  /** A neighbour's link: the looked-up post's title, or the slug itself when
      no post has that slug. Resolution never fails. */
  function ResolveTitleSlug(slug: string, lookup: string -> Option<Post>): (l: NavLink)
    ensures l.slug == slug
    ensures lookup(slug).None? ==> l.title == slug
    ensures lookup(slug).Some? ==> l.title == lookup(slug).value.title
  {
    match lookup(slug)
    case Some(post) => NavLink(post.title, slug)
    case None => NavLink(slug, slug)
  }

  /** The navigation for the post at `index` of path `lp`. */
  function NavAt(lp: LearningPath, index: nat, lookup: string -> Option<Post>): (nav: PathNav)
    requires index < |lp.posts|
    ensures nav.pathTitle == lp.title && nav.pathSlug == lp.slug
    ensures nav.currentIndex == index && nav.totalPosts == |lp.posts|
    ensures nav.currentIndex < nav.totalPosts
    ensures nav.previous.None? <==> index == 0
    ensures nav.previous.Some? ==> nav.previous.value == ResolveTitleSlug(lp.posts[index - 1], lookup)
    ensures nav.next.None? <==> index == |lp.posts| - 1
    ensures nav.next.Some? ==> nav.next.value == ResolveTitleSlug(lp.posts[index + 1], lookup)
  {
    PathNav(
      lp.title,
      lp.slug,
      if index > 0 then Some(ResolveTitleSlug(lp.posts[index - 1], lookup)) else None,
      if index < |lp.posts| - 1 then Some(ResolveTitleSlug(lp.posts[index + 1], lookup)) else None,
      index,
      |lp.posts|
    )
  }

  /** `getPathNavForPost`: the navigation within the first path, in list order,
      that contains `postSlug`, at the slug's first position in it; `None` when no
      path contains it. */
  function GetPathNavForPost(postSlug: string, paths: seq<LearningPath>, lookup: string -> Option<Post>): (r: Option<PathNav>)
    ensures r.None? <==> forall i :: 0 <= i < |paths| ==> postSlug !in paths[i].posts
    ensures r.Some? ==>
      exists i :: 0 <= i < |paths| && postSlug in paths[i].posts
                  && (forall j :: 0 <= j < i ==> postSlug !in paths[j].posts)
                  && r.value == NavAt(paths[i], IndexOf(paths[i].posts, postSlug), lookup)
  {
    if |paths| == 0 then None
    else
      var index := IndexOf(paths[0].posts, postSlug);
      if index == -1 then
        var r := GetPathNavForPost(postSlug, paths[1..], lookup);
        assert r.Some? ==>
          exists i :: 1 <= i < |paths| && postSlug in paths[i].posts
                      && (forall j :: 0 <= j < i ==> postSlug !in paths[j].posts)
                      && r.value == NavAt(paths[i], IndexOf(paths[i].posts, postSlug), lookup);
        r
      else Some(NavAt(paths[0], index, lookup))
  }

  /** The navigation comes from the first path holding the slug, at the slug's
      first position in it (the fields then follow from `NavAt`). */
  lemma {:induction false} PathNavFromFirstPath(postSlug: string, paths: seq<LearningPath>, lookup: string -> Option<Post>, k: nat)
    requires k < |paths| && postSlug in paths[k].posts
    requires forall j :: 0 <= j < k ==> postSlug !in paths[j].posts
    ensures GetPathNavForPost(postSlug, paths, lookup) == Some(NavAt(paths[k], IndexOf(paths[k].posts, postSlug), lookup))
  {
    if k > 0 {
      assert postSlug !in paths[0].posts;
      PathNavFromFirstPath(postSlug, paths[1..], lookup, k - 1);
    }
  }

  /** An instance of `GetPathNavForPost`: in the path [A, B, C], B's previous is
      A, its next is C, and it sits at index 1 of 3. */
  lemma MiddleOfThreeExample(lookup: string -> Option<Post>)
    ensures var lp := LearningPath("p", "Path", "", ["A", "B", "C"]);
            var r := GetPathNavForPost("B", [lp], lookup);
            && r.Some?
            && r.value.previous.Some? && r.value.previous.value.slug == "A"
            && r.value.next.Some? && r.value.next.value.slug == "C"
            && r.value.currentIndex == 1 && r.value.totalPosts == 3
  {
    var lp := LearningPath("p", "Path", "", ["A", "B", "C"]);
    assert lp.posts[0] != "B";
    assert IndexOf(lp.posts, "B") == 1;
  }
}
