/** The post listing of `src/lib/content.ts`, over an in-memory list of posts:
    drafts are hidden in production, the rest is sorted newest first, and the
    by-slug, slug-list and by-topic lookups read that listing. The file-system
    scan is replaced by the `posts` parameter and `NODE_ENV` by `production`. */
module Content {
  import opened Wrappers
  import opened Seqs
  import opened Records

  /** Whether a post survives the draft filter. */
  predicate Listed(p: Post, includeDrafts: bool, production: bool) {
    includeDrafts || !production || !p.draft
  }

  function ListedIn(includeDrafts: bool, production: bool): Post -> bool {
    (p: Post) => Listed(p, includeDrafts, production)
  }

  /** Non-increasing publication keys: newest first. */
  predicate NewestFirst(s: seq<Post>) {
    forall i, j :: 0 <= i < j < |s| ==> s[i].publishedAt >= s[j].publishedAt
  }

  function PublishedAt(k: int): Post -> bool {
    (p: Post) => p.publishedAt == k
  }

  /** A post no older than the head of a newest-first list can go in front. */
  lemma InsertFront(p: Post, s: seq<Post>)
    requires NewestFirst(s)
    requires |s| == 0 || s[0].publishedAt <= p.publishedAt
    ensures NewestFirst([p] + s)
  {
    var r := [p] + s;
    assert forall i :: 1 <= i < |r| ==> r[i] == s[i - 1];
  }

  /** A post older than the head goes behind it: the head stays in front of
      the insertion into the rest. */
  lemma InsertBehind(p: Post, s: seq<Post>, t: seq<Post>)
    requires NewestFirst(s) && |s| > 0 && s[0].publishedAt > p.publishedAt
    requires NewestFirst(t) && multiset(t) == multiset(s[1..]) + multiset{p}
    ensures NewestFirst([s[0]] + t)
    ensures multiset([s[0]] + t) == multiset(s) + multiset{p}
  {
    assert s == [s[0]] + s[1..];
    forall i | 0 <= i < |t| ensures t[i].publishedAt <= s[0].publishedAt {
      assert t[i] in multiset(t);
      if t[i] != p {
        assert t[i] in multiset(s[1..]);
        var j :| 0 <= j < |s[1..]| && s[1..][j] == t[i];
        assert s[1..][j] == s[j + 1];
      }
    }
    var r := [s[0]] + t;
    assert forall i :: 1 <= i < |r| ==> r[i] == t[i - 1];
  }

  /** Inserts `p` into a newest-first list, ahead of every post that is not newer. */
  function Insert(p: Post, s: seq<Post>): (r: seq<Post>)
    requires NewestFirst(s)
    ensures NewestFirst(r)
    ensures multiset(r) == multiset(s) + multiset{p}
  {
    if |s| == 0 || s[0].publishedAt <= p.publishedAt then
      InsertFront(p, s);
      [p] + s
    else
      var t := Insert(p, s[1..]);
      InsertBehind(p, s, t);
      [s[0]] + t
  }

  /** The `sort((a, b) => time(b) - time(a))` of the listing. The sort is stable,
      so posts published at the same time keep their input order. */
  function SortNewestFirst(s: seq<Post>): (r: seq<Post>)
    ensures NewestFirst(r)
    ensures multiset(r) == multiset(s)
    ensures |r| == |s|
  {
    if |s| == 0 then []
    else
      assert s == [s[0]] + s[1..];
      Insert(s[0], SortNewestFirst(s[1..]))
  }

  lemma {:induction false} InsertKeepsTies(p: Post, s: seq<Post>, k: int)
    requires NewestFirst(s)
    ensures Filter(Insert(p, s), PublishedAt(k))
         == (if p.publishedAt == k then [p] else []) + Filter(s, PublishedAt(k))
  {
    if |s| == 0 || s[0].publishedAt <= p.publishedAt {
      assert ([p] + s)[1..] == s;
    } else {
      InsertKeepsTies(p, s[1..], k);
      var t := Insert(p, s[1..]);
      assert ([s[0]] + t)[1..] == t;
      if s[0].publishedAt == k {
        // `s[0]` is strictly newer than `p`, so `p` is not at time `k`
        assert p.publishedAt != k;
      }
    }
  }

  /** The sort is stable: among posts with the same publication key, the sorted
      listing keeps their input order. Together with `SortNewestFirst`'s contract
      this pins the output down completely. */
  lemma {:induction false} SortIsStable(s: seq<Post>, k: int)
    ensures Filter(SortNewestFirst(s), PublishedAt(k)) == Filter(s, PublishedAt(k))
  {
    if |s| > 0 {
      SortIsStable(s[1..], k);
      InsertKeepsTies(s[0], SortNewestFirst(s[1..]), k);
    }
  }

  /** `getAllPosts(includeDrafts)`. */
  function GetAllPosts(posts: seq<Post>, includeDrafts: bool, production: bool): (r: seq<Post>)
    ensures NewestFirst(r)
    ensures multiset(r) == multiset(Filter(posts, ListedIn(includeDrafts, production)))
    ensures forall i :: 0 <= i < |r| ==> r[i] in posts && Listed(r[i], includeDrafts, production)
  {
    var kept := Filter(posts, ListedIn(includeDrafts, production));
    var r := SortNewestFirst(kept);
    forall i | 0 <= i < |r| ensures r[i] in posts && Listed(r[i], includeDrafts, production) {
      assert r[i] in multiset(r);
      assert r[i] in kept;
      var j :| 0 <= j < |kept| && kept[j] == r[i];
    }
    r
  }

  /** Which posts the listing keeps: all of them when drafts are requested or
      outside production, and exactly the non-drafts in production. */
  lemma ListingKeeps(posts: seq<Post>, includeDrafts: bool, production: bool)
    ensures includeDrafts || !production ==> multiset(GetAllPosts(posts, includeDrafts, production)) == multiset(posts)
    ensures !includeDrafts && production ==>
      forall p :: p in GetAllPosts(posts, includeDrafts, production) <==> p in posts && !p.draft
  {
    var kept := Filter(posts, ListedIn(includeDrafts, production));
    if includeDrafts || !production {
      FilterAll(posts, ListedIn(includeDrafts, production));
    } else {
      forall p ensures p in GetAllPosts(posts, includeDrafts, production) <==> p in posts && !p.draft {
        assert p in GetAllPosts(posts, includeDrafts, production) <==> p in multiset(kept);
      }
    }
  }

  function HasSlug(slug: string): Post -> bool {
    (p: Post) => p.slug == slug
  }

  /** `getPostBySlug`: the first post of the public listing with this slug, so
      the newest when several share it. */
  function GetPostBySlug(posts: seq<Post>, slug: string, production: bool): (r: Option<Post>)
    ensures r.Some? ==> r.value.slug == slug && r.value in posts
    ensures r.Some? && production ==> !r.value.draft
    ensures r.None? <==> forall p :: p in posts && Listed(p, false, production) ==> p.slug != slug
    ensures r.Some? ==>
      var listing := GetAllPosts(posts, false, production);
      exists i :: 0 <= i < |listing| && listing[i] == r.value
                  && forall j :: 0 <= j < i ==> listing[j].slug != slug
  {
    ListingHoldsListed(posts, production);
    Find(GetAllPosts(posts, false, production), HasSlug(slug))
  }

  /** The public listing holds exactly the listed posts. */
  lemma ListingHoldsListed(posts: seq<Post>, production: bool)
    ensures forall p :: p in GetAllPosts(posts, false, production) <==> p in posts && Listed(p, false, production)
  {
    var listing := GetAllPosts(posts, false, production);
    var kept := Filter(posts, ListedIn(false, production));
    SameElements(listing, kept);
    assert forall p :: p in posts && Listed(p, false, production) ==> p in kept;
  }

  /** The lookup the path navigation and the admin path page are given in the source. */
  function PostLookup(posts: seq<Post>, production: bool): (lookup: string -> Option<Post>)
    ensures forall slug :: lookup(slug).Some? ==> lookup(slug).value.slug == slug && lookup(slug).value in posts
    ensures forall slug :: lookup(slug).None? <==>
              forall p :: p in posts && Listed(p, false, production) ==> p.slug != slug
  {
    slug => GetPostBySlug(posts, slug, production)
  }

  /** `getAllPostSlugs`: the listing's slugs, in listing order. */
  function GetAllPostSlugs(posts: seq<Post>, production: bool): (r: seq<string>)
    ensures |r| == |GetAllPosts(posts, false, production)|
    ensures forall i :: 0 <= i < |r| ==> r[i] == GetAllPosts(posts, false, production)[i].slug
  {
    var listing := GetAllPosts(posts, false, production);
    seq(|listing|, i requires 0 <= i < |listing| => listing[i].slug)
  }

  function HasTopic(topic: string): Post -> bool {
    (p: Post) => p.topic == topic
  }

  /** `getPostsByTopic`: the listed posts of one topic, in listing order, each as
      many times as the listing holds it. */
  function GetPostsByTopic(posts: seq<Post>, topic: string, production: bool): (r: seq<Post>)
    ensures IsSubseq(r, GetAllPosts(posts, false, production))
    ensures forall i :: 0 <= i < |r| ==> r[i].topic == topic
    ensures forall p :: p in GetAllPosts(posts, false, production) && p.topic == topic ==> p in r
    ensures forall p :: multiset(r)[p]
                        == if p.topic == topic then multiset(GetAllPosts(posts, false, production))[p] else 0
  {
    TopicFilter(GetAllPosts(posts, false, production), topic);
    Filter(GetAllPosts(posts, false, production), HasTopic(topic))
  }

  lemma TopicFilter(listing: seq<Post>, topic: string)
    ensures var r := Filter(listing, HasTopic(topic));
            && IsSubseq(r, listing)
            && (forall i :: 0 <= i < |r| ==> r[i].topic == topic)
            && (forall p :: p in listing && p.topic == topic ==> p in r)
            && forall p :: multiset(r)[p] == if p.topic == topic then multiset(listing)[p] else 0
  {
    FilterIsSubseq(listing, HasTopic(topic));
    FilterMultiplicity(listing, HasTopic(topic));
  }
}
