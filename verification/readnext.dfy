/** Read Next resolution of `src/lib/readnext.ts`: the suggestions shown at the
    bottom of a post. Same-topic posts come first and other-topic posts fill the
    remaining slots, both in the caller's order; the current post and the path's
    "next" post are never suggested. */
module ReadNext {
  import opened Wrappers
  import opened Seqs
  import opened Records
  import opened Paths

  /** The fields a suggestion carries over from its post. */
  datatype Suggestion = Suggestion(slug: string, title: string, summary: string, topic: string)

  /** The `maxResults` used when the caller gives none. */
  const DefaultMaxResults: int := 2

  function ToSuggestion(p: Post): Suggestion {
    Suggestion(p.slug, p.title, p.summary, p.topic)
  }

  /** `slug` is in the exclusion set: the current slug, plus the path's next slug when there is one. */
  predicate Excluded(slug: string, currentSlug: string, pathNav: Option<PathNav>) {
    || slug == currentSlug
    || (pathNav.Some? && pathNav.value.next.Some? && slug == pathNav.value.next.value.slug)
  }

  function SlugIs(slug: string): Post -> bool {
    (p: Post) => p.slug == slug
  }

  function TopicIs(topic: string): Post -> bool {
    (p: Post) => p.topic == topic
  }

  function TopicIsNot(topic: string): Post -> bool {
    (p: Post) => p.topic != topic
  }

  /** Posts not in the exclusion set. */
  function Eligible(currentSlug: string, pathNav: Option<PathNav>): Post -> bool {
    (p: Post) => !Excluded(p.slug, currentSlug, pathNav)
  }

  function SameTopicCandidate(topic: string, currentSlug: string, pathNav: Option<PathNav>): Post -> bool {
    (p: Post) => p.topic == topic && !Excluded(p.slug, currentSlug, pathNav)
  }

  function OtherTopicCandidate(topic: string, currentSlug: string, pathNav: Option<PathNav>): Post -> bool {
    (p: Post) => p.topic != topic && !Excluded(p.slug, currentSlug, pathNav)
  }

  /** The current post: the first one with the current slug. */
  function CurrentPost(currentSlug: string, allPosts: seq<Post>): Option<Post> {
    Find(allPosts, SlugIs(currentSlug))
  }

  /** The posts whose suggestions are returned, in order. */
  function Picks(currentSlug: string, allPosts: seq<Post>, pathNav: Option<PathNav>, maxResults: int): seq<Post> {
    match CurrentPost(currentSlug, allPosts)
    case None => []
    case Some(current) =>
      var sameTopic := Filter(allPosts, SameTopicCandidate(current.topic, currentSlug, pathNav));
      var otherTopic := Filter(allPosts, OtherTopicCandidate(current.topic, currentSlug, pathNav));
      SliceTo(sameTopic + otherTopic, maxResults)
  }

  /** `getReadNextSuggestions`. */
  function GetReadNextSuggestions(currentSlug: string, allPosts: seq<Post>, pathNav: Option<PathNav>, maxResults: int)
    : (r: seq<Suggestion>)
    ensures (forall j :: 0 <= j < |allPosts| ==> allPosts[j].slug != currentSlug) ==> r == []
    ensures maxResults >= 0 ==> |r| <= maxResults
    ensures forall i :: 0 <= i < |r| ==> r[i].slug != currentSlug
    ensures pathNav.Some? && pathNav.value.next.Some? ==>
              forall i :: 0 <= i < |r| ==> r[i].slug != pathNav.value.next.value.slug
    ensures forall i :: 0 <= i < |r| ==> exists j :: 0 <= j < |allPosts| && r[i] == ToSuggestion(allPosts[j])
  {
    var picks := Picks(currentSlug, allPosts, pathNav, maxResults);
    PicksAreEligible(currentSlug, allPosts, pathNav, maxResults);
    seq(|picks|, i requires 0 <= i < |picks| => ToSuggestion(picks[i]))
  }

  /** The chosen posts: none for an unknown slug, at most `maxResults`, and each
      one a post of the input outside the exclusion set. */
  lemma PicksAreEligible(currentSlug: string, allPosts: seq<Post>, pathNav: Option<PathNav>, maxResults: int)
    ensures var picks := Picks(currentSlug, allPosts, pathNav, maxResults);
            && ((forall j :: 0 <= j < |allPosts| ==> allPosts[j].slug != currentSlug) ==> picks == [])
            && (maxResults >= 0 ==> |picks| <= maxResults)
            && forall i :: 0 <= i < |picks| ==>
                 (exists j :: 0 <= j < |allPosts| && picks[i] == allPosts[j])
                 && !Excluded(picks[i].slug, currentSlug, pathNav)
  {
    var picks := Picks(currentSlug, allPosts, pathNav, maxResults);
    match CurrentPost(currentSlug, allPosts)
    case None =>
    case Some(current) =>
      var same := Filter(allPosts, SameTopicCandidate(current.topic, currentSlug, pathNav));
      var other := Filter(allPosts, OtherTopicCandidate(current.topic, currentSlug, pathNav));
      var c := same + other;
      assert picks == c[..|picks|];
      forall i | 0 <= i < |picks|
        ensures (exists j :: 0 <= j < |allPosts| && picks[i] == allPosts[j])
                && !Excluded(picks[i].slug, currentSlug, pathNav)
      {
        assert picks[i] == c[i];
        if i < |same| {
          assert c[i] == same[i];
        } else {
          assert c[i] == other[i - |same|];
        }
      }
  }

  /** The result has as many entries as `maxResults` allows and the eligible posts
      supply: min(maxResults, number of posts outside the exclusion set). With no
      path "next", only posts with the current slug are excluded. */
  lemma ReadNextLength(currentSlug: string, allPosts: seq<Post>, pathNav: Option<PathNav>, maxResults: int)
    requires maxResults >= 0
    requires exists j :: 0 <= j < |allPosts| && allPosts[j].slug == currentSlug
    ensures var n := |Filter(allPosts, Eligible(currentSlug, pathNav))|;
            |GetReadNextSuggestions(currentSlug, allPosts, pathNav, maxResults)| == if maxResults < n then maxResults else n
    ensures pathNav.None? || pathNav.value.next.None? ==>
              var n := |Filter(allPosts, (p: Post) => p.slug != currentSlug)|;
              |GetReadNextSuggestions(currentSlug, allPosts, pathNav, maxResults)| == if maxResults < n then maxResults else n
  {
    var current := CurrentPost(currentSlug, allPosts).value;
    var t := current.topic;
    var eligible := Filter(allPosts, Eligible(currentSlug, pathNav));
    FilterFusion(allPosts, Eligible(currentSlug, pathNav), TopicIs(t), SameTopicCandidate(t, currentSlug, pathNav));
    FilterFusion(allPosts, Eligible(currentSlug, pathNav), TopicIsNot(t), OtherTopicCandidate(t, currentSlug, pathNav));
    FilterPartition(eligible, TopicIs(t), TopicIsNot(t));
    if pathNav.None? || pathNav.value.next.None? {
      FilterCongruent(allPosts, Eligible(currentSlug, pathNav), (p: Post) => p.slug != currentSlug);
    }
  }

  /** Same-topic suggestions come before other-topic ones. */
  lemma {:induction false} SameTopicFirst(currentSlug: string, allPosts: seq<Post>, pathNav: Option<PathNav>, maxResults: int)
    requires CurrentPost(currentSlug, allPosts).Some?
    ensures var t := CurrentPost(currentSlug, allPosts).value.topic;
            var r := GetReadNextSuggestions(currentSlug, allPosts, pathNav, maxResults);
            forall i, j :: 0 <= i < j < |r| && r[j].topic == t ==> r[i].topic == t
  {
    var t := CurrentPost(currentSlug, allPosts).value.topic;
    var same := Filter(allPosts, SameTopicCandidate(t, currentSlug, pathNav));
    var other := Filter(allPosts, OtherTopicCandidate(t, currentSlug, pathNav));
    var c := same + other;
    assert forall k :: 0 <= k < |c| ==> (c[k].topic == t <==> k < |same|);
  }

  /** The chosen posts when the same-topic candidates fill every slot. */
  lemma {:induction false} PicksWithinSameTopic(same: seq<Post>, other: seq<Post>, picks: seq<Post>, t: string)
    requires forall i :: 0 <= i < |same| ==> same[i].topic == t
    requires |picks| <= |same| && picks == (same + other)[..|picks|]
    ensures Filter(picks, TopicIs(t)) == picks <= same
    ensures Filter(picks, TopicIsNot(t)) == []
  {
    assert picks == same[..|picks|];
    FilterAll(picks, TopicIs(t));
    FilterNone(picks, TopicIsNot(t));
  }

  /** The chosen posts when other-topic candidates fill the slots left over. */
  lemma {:induction false} PicksBeyondSameTopic(same: seq<Post>, other: seq<Post>, picks: seq<Post>, t: string)
    requires forall i :: 0 <= i < |same| ==> same[i].topic == t
    requires forall i :: 0 <= i < |other| ==> other[i].topic != t
    requires |same| < |picks| <= |same| + |other| && picks == (same + other)[..|picks|]
    ensures Filter(picks, TopicIs(t)) == same
    ensures Filter(picks, TopicIsNot(t)) <= other
  {
    var rest := other[..|picks| - |same|];
    assert picks == same + rest;
    FilterAppend(same, rest, TopicIs(t));
    FilterAppend(same, rest, TopicIsNot(t));
    FilterAll(same, TopicIs(t));
    FilterNone(same, TopicIsNot(t));
    FilterNone(rest, TopicIs(t));
    FilterAll(rest, TopicIsNot(t));
    assert Filter(picks, TopicIsNot(t)) == [] + rest;
  }

  /** Within each topic group the chosen posts are the first candidates of that
      group in input order, and other-topic posts appear only once every
      same-topic candidate has been taken. */
  lemma GroupsArePrefixes(currentSlug: string, allPosts: seq<Post>, pathNav: Option<PathNav>, maxResults: int)
    requires CurrentPost(currentSlug, allPosts).Some?
    ensures var t := CurrentPost(currentSlug, allPosts).value.topic;
            var picks := Picks(currentSlug, allPosts, pathNav, maxResults);
            var same := Filter(allPosts, SameTopicCandidate(t, currentSlug, pathNav));
            var other := Filter(allPosts, OtherTopicCandidate(t, currentSlug, pathNav));
            && Filter(picks, TopicIs(t)) <= same
            && Filter(picks, TopicIsNot(t)) <= other
            && ((exists i :: 0 <= i < |picks| && picks[i].topic != t) ==> Filter(picks, TopicIs(t)) == same)
            && IsSubseq(same, allPosts) && IsSubseq(other, allPosts)
  {
    var t := CurrentPost(currentSlug, allPosts).value.topic;
    var picks := Picks(currentSlug, allPosts, pathNav, maxResults);
    var same := Filter(allPosts, SameTopicCandidate(t, currentSlug, pathNav));
    var other := Filter(allPosts, OtherTopicCandidate(t, currentSlug, pathNav));
    FilterIsSubseq(allPosts, SameTopicCandidate(t, currentSlug, pathNav));
    FilterIsSubseq(allPosts, OtherTopicCandidate(t, currentSlug, pathNav));
    assert picks == (same + other)[..|picks|];
    if |picks| <= |same| {
      PicksWithinSameTopic(same, other, picks, t);
    } else {
      PicksBeyondSameTopic(same, other, picks, t);
    }
  }

  /** The post a learning path lists after the current one is never suggested,
      when the navigation is the one computed for the current post. */
  lemma PathNextNeverSuggested(currentSlug: string, allPosts: seq<Post>, paths: seq<LearningPath>,
                               lookup: string -> Option<Post>, maxResults: int, k: nat)
    requires k < |paths| && currentSlug in paths[k].posts
    requires forall j :: 0 <= j < k ==> currentSlug !in paths[j].posts
    ensures var posts := paths[k].posts;
            var index := IndexOf(posts, currentSlug);
            var r := GetReadNextSuggestions(currentSlug, allPosts, GetPathNavForPost(currentSlug, paths, lookup), maxResults);
            index + 1 < |posts| ==> forall i :: 0 <= i < |r| ==> r[i].slug != posts[index + 1]
  {
    PathNavFromFirstPath(currentSlug, paths, lookup, k);
  }

  /** The posts of the examples: a and b on topic x, c on topic y, newest first. */
  const ExampleA: Post := Post("a", "A", "", "x", "beginner", false, false, [], 3, "")
  const ExampleB: Post := Post("b", "B", "", "x", "beginner", false, false, [], 2, "")
  const ExampleC: Post := Post("c", "C", "", "y", "beginner", false, false, [], 1, "")

  /** The posts chosen from a: b then c, or just b with one slot. */
  lemma ExamplePicks()
    ensures Picks("a", [ExampleA, ExampleB, ExampleC], None, 2) == [ExampleB, ExampleC]
    ensures Picks("a", [ExampleA, ExampleB, ExampleC], None, 1) == [ExampleB]
  {
    var posts := [ExampleA, ExampleB, ExampleC];
    assert CurrentPost("a", posts) == Some(ExampleA);
    assert posts[1..] == [ExampleB, ExampleC] && posts[1..][1..] == [ExampleC] && posts[1..][1..][1..] == [];
    var same := SameTopicCandidate("x", "a", None);
    var other := OtherTopicCandidate("x", "a", None);
    assert Filter([ExampleC], same) == [];
    assert Filter([ExampleB, ExampleC], same) == [ExampleB];
    assert Filter(posts, same) == [ExampleB];
    assert Filter([ExampleC], other) == [ExampleC];
    assert Filter([ExampleB, ExampleC], other) == [ExampleC];
    assert Filter(posts, other) == [ExampleC];
  }

  lemma ExampleTwoSlots()
    ensures GetReadNextSuggestions("a", [ExampleA, ExampleB, ExampleC], None, 2)
            == [ToSuggestion(ExampleB), ToSuggestion(ExampleC)]
  {
    ExamplePicks();
    var r := GetReadNextSuggestions("a", [ExampleA, ExampleB, ExampleC], None, 2);
    assert |r| == 2;
    assert r[0] == ToSuggestion(ExampleB);
    assert r[1] == ToSuggestion(ExampleC);
  }

  lemma ExampleOneSlot()
    ensures GetReadNextSuggestions("a", [ExampleA, ExampleB, ExampleC], None, 1) == [ToSuggestion(ExampleB)]
  {
    ExamplePicks();
    var r := GetReadNextSuggestions("a", [ExampleA, ExampleB, ExampleC], None, 1);
    assert |r| == 1;
    assert r[0] == ToSuggestion(ExampleB);
  }

  /** Instances of `GetReadNextSuggestions`: from a, the suggestions are b then
      c; with one slot, just b; from an unknown slug, none. */
  lemma SuggestionExamples()
    ensures GetReadNextSuggestions("a", [ExampleA, ExampleB, ExampleC], None, DefaultMaxResults)
            == [ToSuggestion(ExampleB), ToSuggestion(ExampleC)]
    ensures GetReadNextSuggestions("a", [ExampleA, ExampleB, ExampleC], None, 1) == [ToSuggestion(ExampleB)]
    ensures GetReadNextSuggestions("z", [ExampleA, ExampleB, ExampleC], None, DefaultMaxResults) == []
  {
    ExampleTwoSlots();
    ExampleOneSlot();
    var posts := [ExampleA, ExampleB, ExampleC];
    assert forall j :: 0 <= j < |posts| ==> posts[j].slug != "z";
  }
}
