/** The post table of `src/components/admin/AdminPostsList.tsx`: the filter
    tabs and their counts, the selected post, the topic-name fallback and the
    status label. */
module AdminPosts {
  import opened Wrappers
  import opened Seqs
  import opened Records

  /** The four filter tabs. */
  datatype Tab = All | PublishedTab | DraftsTab | FeaturedTab

  /** The `switch` inside `filtered`: which posts a tab keeps. */
  function Keeps(tab: Tab): Post -> bool {
    (p: Post) =>
      match tab
      case PublishedTab => !p.draft
      case DraftsTab => p.draft
      case FeaturedTab => p.featured
      case All => true
  }

  /** `filtered`: the posts of the selected tab, in input order. "All" changes
      nothing; the other tabs keep exactly the non-drafts, the drafts and the
      featured posts. */
  function FilterPosts(posts: seq<Post>, tab: Tab): (r: seq<Post>)
    ensures tab == All ==> r == posts
    ensures tab == PublishedTab ==> r == Filter(posts, NotDraft)
    ensures tab == DraftsTab ==> r == Filter(posts, IsDraft)
    ensures tab == FeaturedTab ==> r == Filter(posts, IsFeatured)
  {
    match tab
    case All =>
      FilterAll(posts, Keeps(tab));
      Filter(posts, Keeps(tab))
    case PublishedTab =>
      FilterCongruent(posts, Keeps(tab), NotDraft);
      Filter(posts, Keeps(tab))
    case DraftsTab =>
      FilterCongruent(posts, Keeps(tab), IsDraft);
      Filter(posts, Keeps(tab))
    case FeaturedTab =>
      FilterCongruent(posts, Keeps(tab), IsFeatured);
      Filter(posts, Keeps(tab))
  }

  /** The badge counts of the tabs. */
  datatype Counts = Counts(all: nat, published: nat, drafts: nat, featured: nat)

  /** The badge counts: published and drafts add up to all, and no tab counts
      more posts than there are. */
  function TabCounts(posts: seq<Post>): (c: Counts)
    ensures c.published + c.drafts == c.all == |posts|
    ensures c.featured <= c.all
  {
    FilterPartition(posts, NotDraft, IsDraft);
    Counts(
      |posts|,
      |Filter(posts, NotDraft)|,
      |Filter(posts, IsDraft)|,
      |Filter(posts, IsFeatured)|
    )
  }

  /** The count shown on a tab. */
  function CountFor(counts: Counts, tab: Tab): nat {
    match tab
    case All => counts.all
    case PublishedTab => counts.published
    case DraftsTab => counts.drafts
    case FeaturedTab => counts.featured
  }

  /** Every tab's badge is the number of rows the tab shows, and published and
      drafts add up to all. */
  lemma CountsMatchTabs(posts: seq<Post>)
    ensures forall tab :: CountFor(TabCounts(posts), tab) == |FilterPosts(posts, tab)|
    ensures TabCounts(posts).published + TabCounts(posts).drafts == TabCounts(posts).all
  {
    FilterPartition(posts, NotDraft, IsDraft);
  }

  function SlugIsSelected(selected: Option<string>): Post -> bool {
    (p: Post) => selected == Some(p.slug)
  }

  /** `selectedPost`: the first post with the selected slug; nothing when no
      slug is selected. */
  function SelectedPost(posts: seq<Post>, selected: Option<string>): (r: Option<Post>)
    ensures selected.None? ==> r.None?
    ensures selected.Some? && r.None? ==> forall i :: 0 <= i < |posts| ==> posts[i].slug != selected.value
    ensures r.Some? ==> exists i :: 0 <= i < |posts| && posts[i] == r.value && Some(posts[i].slug) == selected
                                     && forall j :: 0 <= j < i ==> Some(posts[j].slug) != selected
  {
    Find(posts, SlugIsSelected(selected))
  }

  function TopicSlugIs(slug: string): Topic -> bool {
    (t: Topic) => t.slug == slug
  }

  /** `topicName`: the name of the first topic with this slug, else the slug. */
  function TopicName(topics: seq<Topic>, slug: string): (name: string)
    ensures (forall i :: 0 <= i < |topics| ==> topics[i].slug != slug) ==> name == slug
    ensures FirstIndex(topics, TopicSlugIs(slug)).Some? ==>
              name == topics[FirstIndex(topics, TopicSlugIs(slug)).value].name
  {
    match FirstIndex(topics, TopicSlugIs(slug))
    case Some(i) => topics[i].name
    case None => slug
  }

  /** The status shown beside a post. */
  datatype Status = Featured | Draft | PublishedStatus

  /** The status dot: featured wins over draft, draft over published. */
  function StatusOf(p: Post): (s: Status)
    ensures s == Featured <==> p.featured
    ensures s == Draft <==> p.draft && !p.featured
    ensures s == PublishedStatus <==> !p.draft && !p.featured
  {
    if p.featured then Featured
    else if p.draft then Draft
    else PublishedStatus
  }

  /** The status agrees with the tabs except that a featured post shows as
      featured even when it is a draft: such a post is listed under "Drafts". */
  lemma StatusVsTabs(posts: seq<Post>, p: Post)
    requires p in posts
    ensures StatusOf(p) == PublishedStatus ==> p in FilterPosts(posts, PublishedTab) && p !in FilterPosts(posts, FeaturedTab)
    ensures StatusOf(p) == Draft ==> p in FilterPosts(posts, DraftsTab) && p !in FilterPosts(posts, FeaturedTab)
    ensures StatusOf(p) == Featured ==> p in FilterPosts(posts, FeaturedTab)
    ensures StatusOf(p) == Featured && p.draft ==> p in FilterPosts(posts, DraftsTab) && p !in FilterPosts(posts, PublishedTab)
  {
    var i :| 0 <= i < |posts| && posts[i] == p;
    assert NotDraft(posts[i]) == !p.draft && IsDraft(posts[i]) == p.draft && IsFeatured(posts[i]) == p.featured;
  }
}
