/** The home page split of `src/app/page.tsx`: one featured post on top and the
    other posts below it. */
module Home {
  import opened Wrappers
  import opened Seqs
  import opened Records

  /** `featuredPost`: the first featured post, if any. */
  function FeaturedPost(posts: seq<Post>): (r: Option<Post>)
    ensures r.None? <==> forall i :: 0 <= i < |posts| ==> !posts[i].featured
    ensures r.Some? ==> exists i :: 0 <= i < |posts| && posts[i] == r.value && r.value.featured
                                     && forall j :: 0 <= j < i ==> !posts[j].featured
  {
    Find(posts, IsFeatured)
  }

  /** `latestPosts`: every post that is not featured, in input order. */
  function LatestPosts(posts: seq<Post>): (r: seq<Post>)
    ensures IsSubseq(r, posts)
    ensures forall i :: 0 <= i < |r| ==> !r[i].featured
    ensures forall i :: 0 <= i < |posts| && !posts[i].featured ==> posts[i] in r
  {
    FilterIsSubseq(posts, NotFeatured);
    Filter(posts, NotFeatured)
  }

  /** The featured post and the latest posts split the posts: the featured one
      is never repeated below, every featured post is kept out of the latest
      list even though only the first is shown, and nothing else is dropped. */
  lemma HomeSplit(posts: seq<Post>)
    ensures FeaturedPost(posts).Some? ==> FeaturedPost(posts).value !in LatestPosts(posts)
    ensures forall i :: 0 <= i < |LatestPosts(posts)| ==> !LatestPosts(posts)[i].featured
    ensures multiset(LatestPosts(posts)) + multiset(Filter(posts, IsFeatured)) == multiset(posts)
    ensures |Filter(posts, IsFeatured)| > 0 ==> FeaturedPost(posts) == Some(Filter(posts, IsFeatured)[0])
    ensures IsSubseq(LatestPosts(posts), posts)
  {
    FilterPartition(posts, IsFeatured, NotFeatured);
    FilterHead(posts, IsFeatured);
    FilterIsSubseq(posts, NotFeatured);
  }
}
