/** The admin overview of `src/app/admin/page.tsx`: the published / drafts /
    featured split of the full listing (drafts included) and the content-health
    warnings. A warning is kept as structured data; its wording is rendering. */
module AdminOverview {
  import opened Seqs
  import opened Records

  /** One content-health warning. */
  datatype Warning =
    | MissingReadNext(count: nat)
    | DanglingReadNext(title: string, slug: string)
    | UnknownTopic(title: string, topic: string)
    | ManyFeatured(count: nat)

  function Published(allPosts: seq<Post>): seq<Post> {
    Filter(allPosts, NotDraft)
  }

  function Drafts(allPosts: seq<Post>): seq<Post> {
    Filter(allPosts, IsDraft)
  }

  function FeaturedPosts(allPosts: seq<Post>): seq<Post> {
    Filter(allPosts, IsFeatured)
  }

  /** Published and drafts split the listing by the draft flag: together they
      hold every post exactly once. */
  lemma PublishedDraftsPartition(allPosts: seq<Post>)
    ensures multiset(Published(allPosts)) + multiset(Drafts(allPosts)) == multiset(allPosts)
    ensures |Published(allPosts)| + |Drafts(allPosts)| == |allPosts|
    ensures forall i :: 0 <= i < |Published(allPosts)| ==> !Published(allPosts)[i].draft
    ensures forall i :: 0 <= i < |Drafts(allPosts)| ==> Drafts(allPosts)[i].draft
  {
    FilterPartition(allPosts, NotDraft, IsDraft);
  }

  /** A missing `readNext` is the same as an empty one. */
  const NoReadNext: Post -> bool := (p: Post) => |p.readNext| == 0

  /** The slugs of a list of posts (the `Set` of published slugs). */
  function SlugSet(posts: seq<Post>): set<string> {
    set i | 0 <= i < |posts| :: posts[i].slug
  }

  function TopicSlugSet(topics: seq<Topic>): set<string> {
    set i | 0 <= i < |topics| :: topics[i].slug
  }

  /** The "no Read Next" warning: present when some published post has none. */
  function MissingWarning(published: seq<Post>): (ws: seq<Warning>)
    ensures |ws| <= 1
    ensures |ws| == 1 <==> exists i :: 0 <= i < |published| && |published[i].readNext| == 0
    ensures |ws| == 1 ==> ws[0] == MissingReadNext(|Filter(published, NoReadNext)|)
  {
    var n := |Filter(published, NoReadNext)|;
    FilterHead(published, NoReadNext);
    if n > 0 then [MissingReadNext(n)] else []
  }

  /** The dangling-slug warnings for one post's `readNext` entries, in entry order. */
  function DanglingIn(title: string, entries: seq<string>, known: set<string>): (ws: seq<Warning>)
    ensures |ws| <= |entries|
    ensures forall i :: 0 <= i < |ws| ==>
              ws[i].DanglingReadNext? && ws[i].title == title && ws[i].slug in entries && ws[i].slug !in known
    decreases |entries|
  {
    if |entries| == 0 then []
    else
      var last := entries[|entries| - 1];
      DanglingIn(title, entries[..|entries| - 1], known)
        + (if last in known then [] else [DanglingReadNext(title, last)])
  }

  /** The dangling-slug warnings of the loop over the published posts. */
  function DanglingWarnings(published: seq<Post>, known: set<string>): (ws: seq<Warning>)
    ensures forall i :: 0 <= i < |ws| ==> ws[i].DanglingReadNext? && ws[i].slug !in known
    decreases |published|
  {
    if |published| == 0 then []
    else
      var p := published[|published| - 1];
      DanglingWarnings(published[..|published| - 1], known) + DanglingIn(p.title, p.readNext, known)
  }

  /** The unknown-topic warnings of the loop over the published posts. */
  function TopicWarnings(published: seq<Post>, topicSlugs: set<string>): (ws: seq<Warning>)
    ensures |ws| <= |published|
    ensures forall i :: 0 <= i < |ws| ==> ws[i].UnknownTopic? && ws[i].topic !in topicSlugs
    decreases |published|
  {
    if |published| == 0 then []
    else
      var p := published[|published| - 1];
      TopicWarnings(published[..|published| - 1], topicSlugs)
        + (if p.topic in topicSlugs then [] else [UnknownTopic(p.title, p.topic)])
  }

  /** The featured warning: more than one featured post, drafts included. */
  function FeaturedWarning(allPosts: seq<Post>): (ws: seq<Warning>)
    ensures |ws| <= 1
    ensures |ws| == 1 <==> |FeaturedPosts(allPosts)| > 1
    ensures |ws| == 1 ==> ws[0] == ManyFeatured(|FeaturedPosts(allPosts)|)
  {
    var n := |FeaturedPosts(allPosts)|;
    if n > 1 then [ManyFeatured(n)] else []
  }

  /** The `warnings` list, in the order the checks push to it. Each warning
      reports a real defect: a count of at least one post without suggestions,
      a slug no published post has, a topic no topic has, or more than one
      featured post. */
  function HealthWarnings(allPosts: seq<Post>, topics: seq<Topic>): (ws: seq<Warning>)
    ensures forall i :: 0 <= i < |ws| ==> match ws[i]
      case MissingReadNext(n) => n > 0
      case DanglingReadNext(_, s) => s !in SlugSet(Published(allPosts))
      case UnknownTopic(_, topic) => topic !in TopicSlugSet(topics)
      case ManyFeatured(n) => n > 1
  {
    var published := Published(allPosts);
    MissingWarning(published)
      + DanglingWarnings(published, SlugSet(published))
      + TopicWarnings(published, TopicSlugSet(topics))
      + FeaturedWarning(allPosts)
  }

  // ---------------------------------------------------------------------------
  // What each kind of warning means
  // ---------------------------------------------------------------------------

  lemma {:induction false} DanglingInMembers(title: string, entries: seq<string>, known: set<string>, s: string)
    ensures DanglingReadNext(title, s) in DanglingIn(title, entries, known) <==> s in entries && s !in known
    decreases |entries|
  {
    if |entries| > 0 {
      var init := entries[..|entries| - 1];
      DanglingInMembers(title, init, known, s);
      assert entries == init + [entries[|entries| - 1]];
    }
  }

  /** One dangling warning per `readNext` entry that is not a known slug. */
  lemma {:induction false} DanglingInCount(title: string, entries: seq<string>, known: set<string>)
    ensures |DanglingIn(title, entries, known)| == |Filter(entries, (s: string) => s !in known)|
    decreases |entries|
  {
    if |entries| > 0 {
      var init := entries[..|entries| - 1];
      var last := entries[|entries| - 1];
      DanglingInCount(title, init, known);
      assert entries == init + [last];
      FilterAppend(init, [last], (s: string) => s !in known);
    }
  }

  function UnknownIn(known: set<string>): string -> bool {
    (s: string) => s !in known
  }

  /** One dangling warning titled `title` per slug, in slug order. */
  function WarnAll(title: string, slugs: seq<string>): (ws: seq<Warning>)
    ensures |ws| == |slugs|
  {
    seq(|slugs|, i requires 0 <= i < |slugs| => DanglingReadNext(title, slugs[i]))
  }

  /** A post's dangling warnings are its unknown entries, in entry order,
      duplicates included. */
  lemma {:induction false} DanglingInIsFilter(title: string, entries: seq<string>, known: set<string>)
    ensures DanglingIn(title, entries, known) == WarnAll(title, Filter(entries, UnknownIn(known)))
    decreases |entries|
  {
    if |entries| > 0 {
      var init := entries[..|entries| - 1];
      var last := entries[|entries| - 1];
      DanglingInIsFilter(title, init, known);
      assert entries == init + [last];
      FilterAppend(init, [last], UnknownIn(known));
      var a := Filter(init, UnknownIn(known));
      if last !in known {
        assert Filter([last], UnknownIn(known)) == [last];
        assert WarnAll(title, a + [last]) == WarnAll(title, a) + [DanglingReadNext(title, last)];
      } else {
        assert Filter([last], UnknownIn(known)) == [];
        assert a + [] == a;
      }
    }
  }

  /** The loop over the published posts emits the posts' warnings in post order:
      the warnings of a concatenation are the concatenation of the warnings. */
  lemma {:induction false} DanglingWarningsAppend(a: seq<Post>, b: seq<Post>, known: set<string>)
    ensures DanglingWarnings(a + b, known) == DanglingWarnings(a, known) + DanglingWarnings(b, known)
    decreases |b|
  {
    if |b| > 0 {
      var initB := b[..|b| - 1];
      var p := b[|b| - 1];
      DanglingWarningsAppend(a, initB, known);
      assert (a + b)[..|a + b| - 1] == a + initB;
      assert (a + b)[|a + b| - 1] == p;
    } else {
      assert a + b == a;
    }
  }

  /** One post contributes exactly its own dangling warnings. */
  lemma DanglingWarningsOne(p: Post, known: set<string>)
    ensures DanglingWarnings([p], known) == DanglingIn(p.title, p.readNext, known)
  {
    assert [p][..0] == [];
  }

  /** The number of (published post, entry) pairs whose entry is unknown. */
  function DanglingTotal(published: seq<Post>, known: set<string>): nat
    decreases |published|
  {
    if |published| == 0 then 0
    else |Filter(published[0].readNext, UnknownIn(known))| + DanglingTotal(published[1..], known)
  }

  /** One dangling warning per (published post, entry) pair whose entry is not a
      known slug, duplicates counted. */
  lemma {:induction false} DanglingWarningsCount(published: seq<Post>, known: set<string>)
    ensures |DanglingWarnings(published, known)| == DanglingTotal(published, known)
    decreases |published|
  {
    if |published| > 0 {
      var p := published[0];
      var rest := published[1..];
      assert published == [p] + rest;
      DanglingWarningsAppend([p], rest, known);
      DanglingWarningsOne(p, known);
      DanglingInIsFilter(p.title, p.readNext, known);
      DanglingWarningsCount(rest, known);
    }
  }

  lemma {:induction false} DanglingWarningsMembers(published: seq<Post>, known: set<string>, t: string, s: string)
    ensures DanglingReadNext(t, s) in DanglingWarnings(published, known)
        <==> exists i :: 0 <= i < |published| && published[i].title == t && s in published[i].readNext && s !in known
    decreases |published|
  {
    if |published| > 0 {
      var init := published[..|published| - 1];
      var p := published[|published| - 1];
      DanglingWarningsMembers(init, known, t, s);
      if p.title == t {
        DanglingInMembers(t, p.readNext, known, s);
      }
      if exists i :: 0 <= i < |published| && published[i].title == t && s in published[i].readNext && s !in known {
        var i :| 0 <= i < |published| && published[i].title == t && s in published[i].readNext && s !in known;
        if i < |published| - 1 {
          assert init[i] == published[i];
        }
      }
    }
  }

  /** One unknown-topic warning per published post whose topic is not a topic slug. */
  lemma {:induction false} TopicWarningsCount(published: seq<Post>, topicSlugs: set<string>)
    ensures |TopicWarnings(published, topicSlugs)| == |Filter(published, (p: Post) => p.topic !in topicSlugs)|
    decreases |published|
  {
    if |published| > 0 {
      var init := published[..|published| - 1];
      var p := published[|published| - 1];
      TopicWarningsCount(init, topicSlugs);
      assert published == init + [p];
      FilterAppend(init, [p], (p: Post) => p.topic !in topicSlugs);
    }
  }

  lemma {:induction false} TopicWarningsMembers(published: seq<Post>, topicSlugs: set<string>, t: string, topic: string)
    ensures UnknownTopic(t, topic) in TopicWarnings(published, topicSlugs)
        <==> exists i :: 0 <= i < |published| && published[i].title == t && published[i].topic == topic && topic !in topicSlugs
    decreases |published|
  {
    if |published| > 0 {
      var init := published[..|published| - 1];
      TopicWarningsMembers(init, topicSlugs, t, topic);
      if exists i :: 0 <= i < |published| && published[i].title == t && published[i].topic == topic && topic !in topicSlugs {
        var i :| 0 <= i < |published| && published[i].title == t && published[i].topic == topic && topic !in topicSlugs;
        if i < |published| - 1 {
          assert init[i] == published[i];
        }
      }
    }
  }

  /** The two single warnings: at most one "no Read Next" warning, first,
      carrying the number of published posts without suggestions, and at most
      one featured warning, last, when more than one post is featured. The
      dangling and unknown-topic sections are described by
      `HealthWarningsDanglingCount`, `DanglingMeaning` and `UnknownTopicMeaning`. */
  lemma HealthWarningsByKind(allPosts: seq<Post>, topics: seq<Topic>)
    ensures var ws := HealthWarnings(allPosts, topics);
            var published := Published(allPosts);
            && (forall i :: 0 <= i < |ws| && ws[i].MissingReadNext? ==>
                  i == 0 && ws[i].count == |Filter(published, NoReadNext)|)
            && ((exists i :: 0 <= i < |ws| && ws[i].MissingReadNext?) <==>
                  exists j :: 0 <= j < |published| && |published[j].readNext| == 0)
            && (forall i :: 0 <= i < |ws| && ws[i].ManyFeatured? ==>
                  i == |ws| - 1 && ws[i].count == |FeaturedPosts(allPosts)|)
            && ((exists i :: 0 <= i < |ws| && ws[i].ManyFeatured?) <==> |FeaturedPosts(allPosts)| > 1)
  {
    var published := Published(allPosts);
    var m := MissingWarning(published);
    var d := DanglingWarnings(published, SlugSet(published));
    var t := TopicWarnings(published, TopicSlugSet(topics));
    var f := FeaturedWarning(allPosts);
    assert HealthWarnings(allPosts, topics) == m + d + t + f;
    ConcatByKind(m, d, t, f);
  }

  predicate IsDangling(w: Warning) {
    w.DanglingReadNext?
  }

  /** The full list holds one dangling warning per (published post, entry) pair
      whose entry is not a published slug, so a draft target counts as dangling. */
  lemma HealthWarningsDanglingCount(allPosts: seq<Post>, topics: seq<Topic>)
    ensures |Filter(HealthWarnings(allPosts, topics), IsDangling)|
         == DanglingTotal(Published(allPosts), SlugSet(Published(allPosts)))
  {
    var published := Published(allPosts);
    var m := MissingWarning(published);
    var d := DanglingWarnings(published, SlugSet(published));
    var t := TopicWarnings(published, TopicSlugSet(topics));
    var f := FeaturedWarning(allPosts);
    assert HealthWarnings(allPosts, topics) == m + d + t + f;
    FilterAppend(m + d + t, f, IsDangling);
    FilterAppend(m + d, t, IsDangling);
    FilterAppend(m, d, IsDangling);
    FilterNone(m, IsDangling);
    FilterAll(d, IsDangling);
    FilterNone(t, IsDangling);
    FilterNone(f, IsDangling);
    DanglingWarningsCount(published, SlugSet(published));
  }

  /** Where each kind sits in the concatenated list: a missing warning only in
      front, a featured warning only at the end. */
  lemma ConcatByKind(m: seq<Warning>, d: seq<Warning>, t: seq<Warning>, f: seq<Warning>)
    requires |m| <= 1 && (forall i :: 0 <= i < |m| ==> m[i].MissingReadNext?)
    requires forall i :: 0 <= i < |d| ==> d[i].DanglingReadNext?
    requires forall i :: 0 <= i < |t| ==> t[i].UnknownTopic?
    requires |f| <= 1 && (forall i :: 0 <= i < |f| ==> f[i].ManyFeatured?)
    ensures var ws := m + d + t + f;
            && (forall i :: 0 <= i < |ws| && ws[i].MissingReadNext? ==> i == 0 && |m| == 1 && ws[i] == m[0])
            && ((exists i :: 0 <= i < |ws| && ws[i].MissingReadNext?) <==> |m| == 1)
            && (forall i :: 0 <= i < |ws| && ws[i].ManyFeatured? ==> i == |ws| - 1 && |f| == 1 && ws[i] == f[0])
            && ((exists i :: 0 <= i < |ws| && ws[i].ManyFeatured?) <==> |f| == 1)
  {
    var ws := m + d + t + f;
    assert forall i :: |m| <= i < |m| + |d| ==> ws[i] == d[i - |m|];
    assert forall i :: |m| + |d| <= i < |m| + |d| + |t| ==> ws[i] == t[i - |m| - |d|];
    assert forall i :: |m| + |d| + |t| <= i < |ws| ==> ws[i] == f[i - |m| - |d| - |t|];
    if |m| == 1 {
      assert ws[0] == m[0];
    }
    if |f| == 1 {
      assert ws[|ws| - 1] == f[0];
    }
  }

  /** A dangling warning names a published post and an entry of its `readNext`
      that is not the slug of any published post. */
  lemma DanglingMeaning(allPosts: seq<Post>, topics: seq<Topic>, t: string, s: string)
    ensures var published := Published(allPosts);
            DanglingReadNext(t, s) in HealthWarnings(allPosts, topics)
            <==> exists i :: 0 <= i < |published| && published[i].title == t && s in published[i].readNext
                             && forall j :: 0 <= j < |published| ==> published[j].slug != s
  {
    var published := Published(allPosts);
    DanglingWarningsMembers(published, SlugSet(published), t, s);
    var m, d := MissingWarning(published), DanglingWarnings(published, SlugSet(published));
    var tw, f := TopicWarnings(published, TopicSlugSet(topics)), FeaturedWarning(allPosts);
    assert HealthWarnings(allPosts, topics) == m + d + tw + f;
    var w := DanglingReadNext(t, s);
    assert w !in m && w !in tw && w !in f;
    assert w in m + d + tw + f <==> w in d;
  }

  /** An unknown-topic warning names a published post whose topic is no topic's slug. */
  lemma UnknownTopicMeaning(allPosts: seq<Post>, topics: seq<Topic>, t: string, topic: string)
    ensures var published := Published(allPosts);
            UnknownTopic(t, topic) in HealthWarnings(allPosts, topics)
            <==> exists i :: 0 <= i < |published| && published[i].title == t && published[i].topic == topic
                             && forall j :: 0 <= j < |topics| ==> topics[j].slug != topic
  {
    var published := Published(allPosts);
    TopicWarningsMembers(published, TopicSlugSet(topics), t, topic);
    var ws := HealthWarnings(allPosts, topics);
    assert ws == MissingWarning(published) + DanglingWarnings(published, SlugSet(published))
               + TopicWarnings(published, TopicSlugSet(topics)) + FeaturedWarning(allPosts);
  }

  /** `s` is the slug of one of `posts`. */
  predicate IsSlugOf(posts: seq<Post>, s: string) {
    exists j :: 0 <= j < |posts| && posts[j].slug == s
  }

  /** `s` is the slug of one of `topics`. */
  predicate IsTopicSlug(topics: seq<Topic>, s: string) {
    exists j :: 0 <= j < |topics| && topics[j].slug == s
  }

  predicate HaveSuggestions(published: seq<Post>) {
    forall i :: 0 <= i < |published| ==> |published[i].readNext| > 0
  }

  predicate SuggestionsArePublished(published: seq<Post>) {
    forall i, s :: 0 <= i < |published| && s in published[i].readNext ==> IsSlugOf(published, s)
  }

  predicate TopicsAreKnown(published: seq<Post>, topics: seq<Topic>) {
    forall i :: 0 <= i < |published| ==> IsTopicSlug(topics, published[i].topic)
  }

  /** The content is healthy: every published post has suggestions, each naming a
      published post, and a known topic; at most one post is featured. */
  predicate AllChecksPass(allPosts: seq<Post>, topics: seq<Topic>) {
    var published := Published(allPosts);
    && HaveSuggestions(published)
    && SuggestionsArePublished(published)
    && TopicsAreKnown(published, topics)
    && |FeaturedPosts(allPosts)| <= 1
  }

  lemma {:induction false} NoDanglingIffPublished(published: seq<Post>)
    ensures |DanglingWarnings(published, SlugSet(published))| == 0 <==> SuggestionsArePublished(published)
  {
    var known := SlugSet(published);
    assert forall s :: s in known <==> IsSlugOf(published, s);
    var d := DanglingWarnings(published, known);
    if |d| > 0 {
      DanglingWarningsMembers(published, known, d[0].title, d[0].slug);
    }
    if !SuggestionsArePublished(published) {
      var i, s :| 0 <= i < |published| && s in published[i].readNext && !IsSlugOf(published, s);
      DanglingWarningsMembers(published, known, published[i].title, s);
    }
  }

  lemma {:induction false} NoTopicWarningsIffKnown(published: seq<Post>, topics: seq<Topic>)
    ensures |TopicWarnings(published, TopicSlugSet(topics))| == 0 <==> TopicsAreKnown(published, topics)
  {
    var topicSlugs := TopicSlugSet(topics);
    assert forall s :: s in topicSlugs <==> IsTopicSlug(topics, s);
    var w := TopicWarnings(published, topicSlugs);
    if |w| > 0 {
      TopicWarningsMembers(published, topicSlugs, w[0].title, w[0].topic);
    }
    if !TopicsAreKnown(published, topics) {
      var i :| 0 <= i < |published| && !IsTopicSlug(topics, published[i].topic);
      TopicWarningsMembers(published, topicSlugs, published[i].title, published[i].topic);
    }
  }

  /** "All content checks passing" is shown exactly when there is no warning. */
  lemma ChecksPassIffNoWarnings(allPosts: seq<Post>, topics: seq<Topic>)
    ensures |HealthWarnings(allPosts, topics)| == 0 <==> AllChecksPass(allPosts, topics)
  {
    var published := Published(allPosts);
    NoDanglingIffPublished(published);
    NoTopicWarningsIffKnown(published, topics);
  }

  /** The "Featured post" line: the first featured post's title, or "None set". */
  function FeaturedTitle(allPosts: seq<Post>): (title: string)
    ensures FirstIndex(allPosts, IsFeatured).None? ==> title == "None set"
    ensures FirstIndex(allPosts, IsFeatured).Some? ==> title == allPosts[FirstIndex(allPosts, IsFeatured).value].title
  {
    FilterHead(allPosts, IsFeatured);
    var featured := FeaturedPosts(allPosts);
    if |featured| > 0 then featured[0].title else "None set"
  }
}
