/** The admin path list of `src/app/admin/paths/page.tsx`: each path's posts
    resolved to titles, with their positions and whether the post exists. The
    post lookup is the `lookup` parameter. */
module AdminPaths {
  import opened Wrappers
  import opened Records
  import opened Paths
  import opened Labels

  /** One entry of a path's post list. */
  datatype PathRow = PathRow(slug: string, title: string, found: bool, position: nat)

  /** `postsWithTitles`: one row per slug of the path, in path order, numbered
      from 1; the title is the post's title or the slug when the lookup fails. */
  function PathRows(lp: LearningPath, lookup: string -> Option<Post>): (rows: seq<PathRow>)
    ensures |rows| == |lp.posts|
    ensures forall i :: 0 <= i < |rows| ==> rows[i].slug == lp.posts[i] && rows[i].position == i + 1
    ensures forall i :: 0 <= i < |rows| ==> (rows[i].found <==> lookup(lp.posts[i]).Some?)
    ensures forall i :: 0 <= i < |rows| ==>
              rows[i].title == if lookup(lp.posts[i]).Some? then lookup(lp.posts[i]).value.title else lp.posts[i]
  {
    seq(|lp.posts|, i requires 0 <= i < |lp.posts| =>
      var post := lookup(lp.posts[i]);
      PathRow(lp.posts[i], if post.Some? then post.value.title else lp.posts[i], post.Some?, i + 1))
  }

  /** The admin list and the reader's path navigation agree: the neighbours a
      reader sees at position `index` are the rows just before and after it,
      under the same titles. */
  lemma RowsAgreeWithNavigation(lp: LearningPath, lookup: string -> Option<Post>, index: nat)
    requires index < |lp.posts|
    ensures var rows := PathRows(lp, lookup);
            var nav := NavAt(lp, index, lookup);
            && (nav.previous.Some? ==> nav.previous.value == NavLink(rows[index - 1].title, rows[index - 1].slug))
            && (nav.next.Some? ==> nav.next.value == NavLink(rows[index + 1].title, rows[index + 1].slug))
            && rows[nav.currentIndex].position == nav.currentIndex + 1
            && |rows| == nav.totalPosts
  {
  }

  /** The "N post(s)" badge of a path: reads back as the path's length and is
      plural unless the path has exactly one post. */
  function PathBadge(lp: LearningPath): (badge: string)
    ensures CountOf(badge) == |lp.posts|
    ensures IsPlural(badge) <==> |lp.posts| != 1
  {
    PostCountLabel(|lp.posts|)
  }
}
