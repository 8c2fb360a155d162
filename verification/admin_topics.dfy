/** The admin topic list of `src/app/admin/topics/page.tsx`: posts per topic
    over the full listing (drafts included), shown beside each listed topic. */
module AdminTopics {
  import opened Seqs
  import opened Records
  import opened Content
  import opened Labels

  /** Some post has topic `t`. */
  predicate SomePostHas(posts: seq<Post>, t: string) {
    exists i :: 0 <= i < |posts| && posts[i].topic == t
  }

  /** `counts` is the `postCounts` map of `allPosts`: one key per topic some post
      has, mapped to the number of posts with that topic. */
  ghost predicate IsPostCounts(counts: map<string, nat>, allPosts: seq<Post>) {
    && (forall t :: t in counts <==> SomePostHas(allPosts, t))
    && (forall t :: t in counts ==> counts[t] == |Filter(allPosts, HasTopic(t))|)
  }

  /** `postCounts.get(slug) ?? 0`. */
  function CountOrZero(counts: map<string, nat>, slug: string): nat {
    if slug in counts then counts[slug] else 0
  }

  /** One more post: its topic's count goes up by one, a missing key counting as zero. */
  lemma CountsStep(counts: map<string, nat>, prefix: seq<Post>, post: Post)
    requires IsPostCounts(counts, prefix)
    ensures IsPostCounts(counts[post.topic := CountOrZero(counts, post.topic) + 1], prefix + [post])
  {
    var next := counts[post.topic := CountOrZero(counts, post.topic) + 1];
    forall t ensures SomePostHas(prefix + [post], t) <==> SomePostHas(prefix, t) || post.topic == t {
      if SomePostHas(prefix, t) {
        var j :| 0 <= j < |prefix| && prefix[j].topic == t;
        assert (prefix + [post])[j] == prefix[j];
      }
      assert (prefix + [post])[|prefix|] == post;
    }
    forall t | t in next ensures next[t] == |Filter(prefix + [post], HasTopic(t))| {
      FilterAppend(prefix, [post], HasTopic(t));
      if t !in counts {
        FilterNone(prefix, HasTopic(t));
      }
    }
  }

  /** The `postCounts` loop: one pass over the posts, incrementing the count of
      each post's topic. */
  method PostCounts(allPosts: seq<Post>) returns (counts: map<string, nat>)
    ensures IsPostCounts(counts, allPosts)
  {
    counts := map[];
    var i := 0;
    while i < |allPosts|
      invariant 0 <= i <= |allPosts|
      invariant IsPostCounts(counts, allPosts[..i])
    {
      var post := allPosts[i];
      var count := CountOrZero(counts, post.topic);
      CountsStep(counts, allPosts[..i], post);
      assert allPosts[..i + 1] == allPosts[..i] + [post];
      counts := counts[post.topic := count + 1];
      i := i + 1;
    }
    assert allPosts[..i] == allPosts;
  }

  /** The count shown for a topic is the number of its posts, drafts included;
      a topic without posts shows 0. */
  lemma ShownCount(counts: map<string, nat>, allPosts: seq<Post>, slug: string)
    requires IsPostCounts(counts, allPosts)
    ensures CountOrZero(counts, slug) == |Filter(allPosts, HasTopic(slug))|
    ensures (forall i :: 0 <= i < |allPosts| ==> allPosts[i].topic != slug) ==> CountOrZero(counts, slug) == 0
  {
    if slug !in counts {
      FilterNone(allPosts, HasTopic(slug));
    }
  }

  function InTopics(keys: seq<string>): Post -> bool {
    (p: Post) => p.topic in keys
  }

  /** The sum of the counts of `keys`. */
  function SumCounts(counts: map<string, nat>, keys: seq<string>): nat {
    if |keys| == 0 then 0 else CountOrZero(counts, keys[0]) + SumCounts(counts, keys[1..])
  }

  lemma {:induction false} SumCountsFilter(counts: map<string, nat>, allPosts: seq<Post>, keys: seq<string>)
    requires IsPostCounts(counts, allPosts)
    requires forall i, j :: 0 <= i < j < |keys| ==> keys[i] != keys[j]
    ensures SumCounts(counts, keys) == |Filter(allPosts, InTopics(keys))|
  {
    if |keys| == 0 {
      FilterNone(allPosts, InTopics(keys));
    } else {
      SumCountsFilter(counts, allPosts, keys[1..]);
      ShownCount(counts, allPosts, keys[0]);
      FilterDisjointUnion(allPosts, HasTopic(keys[0]), InTopics(keys[1..]), InTopics(keys));
    }
  }

  /** The counts add up to the number of posts: summed over any duplicate-free
      list of keys that holds every key of the map, they give `|allPosts|`. */
  lemma CountsSumToPosts(counts: map<string, nat>, allPosts: seq<Post>, keys: seq<string>)
    requires IsPostCounts(counts, allPosts)
    requires forall i, j :: 0 <= i < j < |keys| ==> keys[i] != keys[j]
    requires forall t :: t in counts ==> t in keys
    ensures SumCounts(counts, keys) == |allPosts|
  {
    SumCountsFilter(counts, allPosts, keys);
    forall i | 0 <= i < |allPosts| ensures InTopics(keys)(allPosts[i]) {
      assert allPosts[i].topic in counts;
    }
    FilterAll(allPosts, InTopics(keys));
  }

  /** One row of the list: the topic's name, description, count badge and slug. */
  datatype TopicRow = TopicRow(name: string, description: string, badge: string, slug: string)

  /** The rendered rows, one per listed topic, in topic order. */
  function TopicRows(topics: seq<Topic>, counts: map<string, nat>): (rows: seq<TopicRow>)
    ensures |rows| == |topics|
    ensures forall k :: 0 <= k < |rows| ==> rows[k].slug == topics[k].slug && rows[k].name == topics[k].name
  {
    seq(|topics|, k requires 0 <= k < |topics| =>
      TopicRow(topics[k].name, topics[k].description, PostCountLabel(CountOrZero(counts, topics[k].slug)), topics[k].slug))
  }

  /** Each row's badge reads back as the number of the topic's posts and is
      plural unless there is exactly one; a topic no listed topic names is
      counted in the map but has no row. */
  lemma TopicRowsShowCounts(topics: seq<Topic>, counts: map<string, nat>, allPosts: seq<Post>)
    requires IsPostCounts(counts, allPosts)
    ensures forall k :: 0 <= k < |topics| ==>
              CountOf(TopicRows(topics, counts)[k].badge) == |Filter(allPosts, HasTopic(topics[k].slug))|
              && (IsPlural(TopicRows(topics, counts)[k].badge) <==> |Filter(allPosts, HasTopic(topics[k].slug))| != 1)
    ensures forall i :: 0 <= i < |allPosts| && (forall k :: 0 <= k < |topics| ==> topics[k].slug != allPosts[i].topic) ==>
              allPosts[i].topic in counts
              && forall k :: 0 <= k < |topics| ==> TopicRows(topics, counts)[k].slug != allPosts[i].topic
  {
    forall k | 0 <= k < |topics|
      ensures CountOrZero(counts, topics[k].slug) == |Filter(allPosts, HasTopic(topics[k].slug))|
    {
      ShownCount(counts, allPosts, topics[k].slug);
    }
  }
}
