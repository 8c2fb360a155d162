# Stackless: a Dafny model of the blog's content logic

Stackless is a Next.js blog and CMS for engineering write-ups. Posts carry
frontmatter: slug, title, summary, topic, difficulty, draft and featured flags,
curated "Read Next" slugs and a publication date. Learning paths are ordered
lists of post slugs. An admin area is guarded by a session.

This project models the pure logic of the site as functions over immutable
sequences of records:

- the Read Next suggestions;
- the learning-path navigation;
- the client-side search filter;
- the admin overview's content-health warnings;
- the admin post table's tabs, counts and status;
- the admin sidebar's active item;
- the per-topic post counts and the path rows;
- the home page's featured/latest split;
- the content listing;
- the frontmatter, topic and path schemas;
- the route guard;
- the `.env.local` line parser;
- the document serializer.

Store lookups enter as parameters: a post list, a path list, and a
`lookup: string -> Option<Post>`. Environment inputs are parameters too: `NODE_ENV`
is `production: bool` and the session is `authenticated: bool`.

Layout, one module per file:

- `Wrappers`: `Option` and `Result`.
- `Seqs`: `Filter` (the `Array.prototype.filter` of the source) with its algebra, `Find`, `indexOf` and `slice`.
- `Strings`: ECMAScript white space and `trim`, ASCII `toLowerCase`, splitting on runs of white space and on one character, and decimal numerals.
- `Records`: the `Post`, `Topic` and `LearningPath` records.
- The feature modules, named after the source files: `Content`, `Paths`, `ReadNext`, `Search`, `AdminOverview`, `AdminPosts`, `AdminShell`, `AdminTopics`, `AdminPaths`, `Labels`, `Home`, `Middleware`, `Schema`, `EnvFile`, `Serialize`.

## Model

| member | source | states |
|---|---|---|
| ReadNext.GetReadNextSuggestions | stackless/src/lib/readnext.ts:24-60 | Unknown current slug gives no suggestions. At most `maxResults` results. No result has the current slug, nor the path's "next" slug when there is one. Every result copies slug, title, summary and topic from one input post. |
| ReadNext.PicksAreEligible | stackless/src/lib/readnext.ts:30-54 | The chosen posts: none for an unknown slug, at most `maxResults`, each a post of the input outside the exclusion set. |
| ReadNext.ReadNextLength | stackless/src/lib/readnext.ts:36-54 | Result length is min(maxResults, number of posts outside the exclusion set). With no path "next", only the current slug is excluded. |
| ReadNext.SameTopicFirst | stackless/src/lib/readnext.ts:42-52 | Every same-topic suggestion precedes every other-topic one. |
| ReadNext.GroupsArePrefixes | stackless/src/lib/readnext.ts:42-54 | Within each topic group the chosen posts are a prefix of that group's candidates in input order. Other-topic posts appear only once all same-topic candidates are taken. |
| ReadNext.PathNextNeverSuggested | stackless/src/lib/readnext.ts:37-39 | With the navigation computed for the current post, the post its path lists next is never suggested. |
| ReadNext.SuggestionExamples | stackless/src/lib/readnext.ts:24-60 | Concrete cases: same topic before other topic, truncation to one slot, empty for an unknown slug. |
| Paths.GetPathBySlug | stackless/src/lib/paths.ts:53-55 | The first path with the slug, or none iff no path has it. |
| Paths.ResolveTitleSlug | stackless/src/lib/paths.ts:82-86 | Keeps the slug. The title is the found post's title, else the slug. Never fails. |
| Paths.NavAt | stackless/src/lib/paths.ts:88-98 | Path title and slug, index < length, previous absent iff index 0, next absent iff last, neighbours resolved from the adjacent slugs. |
| Paths.GetPathNavForPost | stackless/src/lib/paths.ts:73-102 | None iff no path contains the slug. Otherwise the navigation of the first containing path, at the slug's first index. |
| Paths.PathNavFromFirstPath | stackless/src/lib/paths.ts:78-80 | Given the first path k holding the slug, the result is exactly the navigation in path k. |
| Paths.MiddleOfThreeExample | stackless/src/lib/paths.ts:88-98 | In [A, B, C], B has previous A, next C, index 1 of 3. |
| Search.Terms | stackless/src/components/search/SearchView.tsx:48-49 | Every query term is non-empty, free of white space and free of capital letters. |
| Search.QueryIgnoresCase | stackless/src/components/search/SearchView.tsx:47-61 | A query and its lower-cased form have the same terms, are blank together and match the same posts. |
| Search.TopicStage | stackless/src/components/search/SearchView.tsx:36-39 | The guarded topic step equals one filter that keeps everything for "all" and the exact topic otherwise. |
| Search.DifficultyStage | stackless/src/components/search/SearchView.tsx:41-44 | The same for the difficulty step. |
| Search.QueryStage | stackless/src/components/search/SearchView.tsx:46-63 | A blank query imposes nothing. Otherwise every term must occur in the searchable text. |
| Search.SearchResults | stackless/src/components/search/SearchView.tsx:33-66 | No more results than posts. Every result is one of the posts and passes the topic, difficulty and query filters. |
| Search.SearchIsConjunction | stackless/src/components/search/SearchView.tsx:33-66 | The three successive filters equal one filter by their conjunction, so their order does not matter. |
| Search.SearchResultsCharacterized | stackless/src/components/search/SearchView.tsx:33-66 | Results are a subsequence of the posts. A post is a result iff it passes topic, difficulty and query. |
| Search.NoFiltersShowsEverything | stackless/src/components/search/SearchView.tsx:34-47 | An empty query with both filters "all" shows all posts in order. |
| Search.TermsOfLowerWords | stackless/src/components/search/SearchView.tsx:47-49 | Lower-case words joined by spaces split back into exactly those terms. |
| AdminOverview.PublishedDraftsPartition | stackless/src/app/admin/page.tsx:19-20 | Published and drafts partition the posts by the draft flag, as multisets and by count. |
| AdminOverview.MissingWarning | stackless/src/app/admin/page.tsx:26-33 | At most one warning. Present iff some published post has no suggestions, carrying how many. |
| AdminOverview.DanglingIn | stackless/src/app/admin/page.tsx:37-43 | At most one warning per entry. Each names the post's title and an entry that is not a published slug. |
| AdminOverview.DanglingWarnings | stackless/src/app/admin/page.tsx:35-44 | Every warning of the loop is a dangling-slug warning whose slug is not a published slug. |
| AdminOverview.DanglingInIsFilter | stackless/src/app/admin/page.tsx:37-43 | A post's warnings are its unknown entries, in entry order, one warning each. |
| AdminOverview.DanglingWarningsAppend | stackless/src/app/admin/page.tsx:35-44 | The loop runs post by post: the warnings for a + b are those for a followed by those for b. |
| AdminOverview.DanglingWarningsCount | stackless/src/app/admin/page.tsx:35-44 | The loop yields exactly one warning per unknown entry of each published post, summed over the posts. |
| AdminOverview.TopicWarnings | stackless/src/app/admin/page.tsx:46-53 | At most one warning per published post. Each is an unknown-topic warning whose topic is no topic's slug. |
| AdminOverview.DanglingInMembers | stackless/src/app/admin/page.tsx:37-43 | A post's dangling warning for s exists iff s is one of its entries and not a published slug. |
| AdminOverview.DanglingInCount | stackless/src/app/admin/page.tsx:37-43 | One warning per unknown entry, duplicates counted. |
| AdminOverview.DanglingWarningsMembers | stackless/src/app/admin/page.tsx:35-44 | A dangling warning (t, s) exists iff some published post titled t lists s and s is unknown. |
| AdminOverview.TopicWarningsCount | stackless/src/app/admin/page.tsx:46-53 | One unknown-topic warning per published post whose topic is not a topic slug. |
| AdminOverview.TopicWarningsMembers | stackless/src/app/admin/page.tsx:46-53 | An unknown-topic warning (t, topic) exists iff a published post has that title and that unknown topic. |
| AdminOverview.FeaturedWarning | stackless/src/app/admin/page.tsx:55-59 | At most one warning. Present iff more than one post, drafts included, is featured, carrying the count. |
| AdminOverview.HealthWarnings | stackless/src/app/admin/page.tsx:24-59 | Every warning reports a real defect: a missing-suggestions count of at least 1, a slug no published post has, a topic no topic has, or more than one featured post. |
| AdminOverview.HealthWarningsDanglingCount | stackless/src/app/admin/page.tsx:24-59 | The full list holds exactly as many dangling-slug warnings as there are unknown entries over all published posts. |
| AdminOverview.HealthWarningsByKind | stackless/src/app/admin/page.tsx:24-59 | In the full list, the missing warning comes first and the featured warning last, each present under its condition. |
| AdminOverview.DanglingMeaning | stackless/src/app/admin/page.tsx:35-44 | A dangling warning names a published post and an entry that matches no published slug, so a draft target is dangling. |
| AdminOverview.UnknownTopicMeaning | stackless/src/app/admin/page.tsx:46-53 | An unknown-topic warning names a published post whose topic is no topic's slug. |
| AdminOverview.NoDanglingIffPublished | stackless/src/app/admin/page.tsx:35-44 | There is no dangling warning iff every suggestion of a published post is a published slug. |
| AdminOverview.NoTopicWarningsIffKnown | stackless/src/app/admin/page.tsx:46-53 | There is no topic warning iff every published post's topic is a known topic. |
| AdminOverview.ChecksPassIffNoWarnings | stackless/src/app/admin/page.tsx:79-82 | "All content checks passing" shows iff the content is healthy in each of the four respects. |
| AdminOverview.FeaturedTitle | stackless/src/app/admin/page.tsx:103-105 | The first featured post's title, or "None set" when none is featured. |
| AdminPosts.FilterPosts | stackless/src/components/admin/AdminPostsList.tsx:51-62 | "All" returns the posts unchanged. The other tabs keep exactly the non-draft, draft or featured posts, in order. |
| AdminPosts.TabCounts | stackless/src/components/admin/AdminPostsList.tsx:64-69 | published + drafts = all = the number of posts, and the featured count is at most all. |
| AdminPosts.CountsMatchTabs | stackless/src/components/admin/AdminPostsList.tsx:64-69 | Every tab's count is the length of that tab's list. published + drafts = all. |
| AdminPosts.SelectedPost | stackless/src/components/admin/AdminPostsList.tsx:71 | None when nothing is selected. Otherwise the first post with the selected slug, or none when no post has it. |
| AdminPosts.TopicName | stackless/src/components/admin/AdminPostsList.tsx:72-73 | The name of the first topic with the slug, else the slug itself. |
| AdminPosts.StatusOf | stackless/src/components/admin/AdminPostsList.tsx:218-224 | Featured iff featured. Draft iff draft and not featured. Published otherwise. |
| AdminPosts.StatusVsTabs | stackless/src/components/admin/AdminPostsList.tsx:218-224 | The status agrees with the tab membership. A featured draft shows "Featured" yet sits in the drafts tab. |
| AdminShell.IsActive | stackless/src/components/admin/AdminShell.tsx:33-36 | An active item's href is always a prefix of the pathname, the overview's included. |
| AdminShell.ActiveItems | stackless/src/components/admin/AdminShell.tsx:15-51 | The highlighted items are exactly the active entries of the seven-item sidebar, and there is at most one. |
| AdminShell.AtMostOneActive | stackless/src/components/admin/AdminShell.tsx:15-36 | For any pathname, at most one sidebar item is active. |
| AdminShell.NewPostPageHighlightsPosts | stackless/src/components/admin/AdminShell.tsx:33-36 | On "/admin/posts/new", Posts is active and Overview is not. |
| AdminShell.RawPrefixHighlightsPosts | stackless/src/components/admin/AdminShell.tsx:35 | The test is a raw prefix: "/admin/postsx" activates Posts. |
| AdminTopics.CountsStep | stackless/src/app/admin/topics/page.tsx:19-22 | One loop step keeps the map equal to the per-topic counts of the posts seen so far. |
| AdminTopics.PostCounts | stackless/src/app/admin/topics/page.tsx:18-22 | The map has one key per topic some post has, valued at that topic's post count, drafts included. |
| AdminTopics.ShownCount | stackless/src/app/admin/topics/page.tsx:49-50 | The shown count is the topic's number of posts. A topic without posts shows 0. |
| AdminTopics.SumCountsFilter | stackless/src/app/admin/topics/page.tsx:18-22 | Counts summed over distinct keys equal the number of posts with one of those topics. |
| AdminTopics.CountsSumToPosts | stackless/src/app/admin/topics/page.tsx:18-22 | Summed over all keys, the counts give the number of posts. |
| AdminTopics.TopicRows | stackless/src/app/admin/topics/page.tsx:36-50 | One row per listed topic, in order, with its slug and name. |
| AdminTopics.TopicRowsShowCounts | stackless/src/app/admin/topics/page.tsx:36-50 | Each badge reads back as the topic's post count and is plural iff that count is not 1. A post whose topic is not listed is counted but has no row. |
| Labels.PostCountLabel | stackless/src/app/admin/topics/page.tsx:49-50 | The badge reads back as the count and ends in "s" iff the count is not 1. |
| AdminPaths.PathRows | stackless/src/app/admin/paths/page.tsx:31-39 | One row per slug, in path order, at position index + 1. `exists` iff the lookup finds a post. Title is the post's title, else the slug. |
| AdminPaths.RowsAgreeWithNavigation | stackless/src/app/admin/paths/page.tsx:31-39 | The admin rows and the reader's path navigation agree on neighbours, positions and length. |
| AdminPaths.PathBadge | stackless/src/app/admin/paths/page.tsx:56 | The badge reads back as the path's length and is plural iff that length is not 1. |
| Home.FeaturedPost | stackless/src/app/page.tsx:21 | None iff no post is featured. Otherwise a featured post of the list. |
| Home.LatestPosts | stackless/src/app/page.tsx:22 | A subsequence of the posts, none featured, holding every non-featured post. |
| Home.HomeSplit | stackless/src/app/page.tsx:21-22 | The featured post is never among the latest. The latest are exactly the non-featured posts, in order. With several featured posts only the first is shown. |
| Content.Insert | stackless/src/lib/content.ts:73-78 | Insertion into a newest-first list keeps it newest first and adds exactly one element. |
| Content.SortNewestFirst | stackless/src/lib/content.ts:73-78 | The output is newest first and a permutation of the input. |
| Content.InsertKeepsTies | stackless/src/lib/content.ts:73-78 | Insertion places the new post ahead of the posts sharing its date. |
| Content.SortIsStable | stackless/src/lib/content.ts:73-78 | Posts with equal dates keep their input order. |
| Content.GetAllPosts | stackless/src/lib/content.ts:45-81 | The listing is newest first and a permutation of the kept posts. |
| Content.ListingKeeps | stackless/src/lib/content.ts:66-72 | All posts are kept with `includeDrafts` or outside production. In production exactly the non-drafts are kept. |
| Content.GetPostBySlug | stackless/src/lib/content.ts:87-89 | A listed post with the slug. Never a draft in production. None iff no listed post has the slug. Otherwise no post before it in the listing has the slug, so among posts sharing a slug the newest wins. |
| Content.PostLookup | stackless/src/lib/paths.ts:84 | The lookup the path pages use: a found post has the asked slug and is one of the posts. Nothing is found iff no listed post has the slug. |
| Content.GetAllPostSlugs | stackless/src/lib/content.ts:94-96 | The listing's slugs, with the same length and order. |
| Content.GetPostsByTopic | stackless/src/lib/content.ts:101-103 | A subsequence of the listing, all of the topic. Each post of the topic appears as many times as in the listing, and no other post appears. |
| Schema.ParseDifficulty | stackless/src/lib/schema.ts:26 | Accepts exactly the three difficulty names, and its value prints back as the input. |
| Schema.ParseFrontmatter | stackless/src/lib/schema.ts:15-33 | Success iff every field constraint holds, else a non-empty issue list. Read time and order must be safe integers (at most 2^53 - 1 in magnitude). On success: draft and featured default to false, readNext defaults to [] and has at most 2 entries, summary has at most 160 characters, read time is positive. Every other field is the input's value: writing the result back gives the input with the three defaults filled in. |
| Schema.UnsafeReadTimeRejected | stackless/src/lib/schema.ts:27 | A whole read time above `Number.MAX_SAFE_INTEGER` is rejected with a "too big" issue for `readTimeMinutes`. |
| Schema.FrontmatterRoundTrip | stackless/src/lib/schema.ts:15-33 | A validated frontmatter written back with every field set validates to itself. |
| Schema.LongSummaryRejected | stackless/src/lib/schema.ts:18-20 | A summary over 160 characters is rejected with a "too long" issue for `summary`. |
| Schema.ParseTopic | stackless/src/lib/schema.ts:40-45 | Success iff slug and name are non-empty and a description is present. |
| Schema.ParsePath | stackless/src/lib/schema.ts:52-57 | Success iff slug and title are non-empty, a description is present and there is at least one post. An empty post list is rejected by name. |
| Middleware.Guard | stackless/middleware.ts:14-31 | Redirect iff unauthenticated and the pathname starts with "/admin" but is not "/admin/login". A redirect always goes to the login page. |
| Middleware.LoginAlwaysPasses | stackless/middleware.ts:18-20 | "/admin/login" passes whatever the session. |
| Middleware.AuthApiPasses | stackless/middleware.ts:18-20 | Every pathname under "/api/auth" passes. |
| Middleware.OnlyAnonymousAdminRedirects | stackless/middleware.ts:22-30 | Authenticated requests, and pathnames outside "/admin", always pass. |
| Middleware.RawPrefixExamples | stackless/middleware.ts:18-28 | The prefix test is raw: anonymous "/administrator" and "/admin/login/x" both redirect. |
| EnvFile.ParseLine | stackless/src/db/seed.ts:20-25 | An assignment's key and value are trimmed, and the key holds no '='. |
| EnvFile.ParseLineMeaning | stackless/src/db/seed.ts:20-25 | A line is skipped iff, trimmed, it is blank, a comment or has no '='. Otherwise the key is the trimmed text before the first '=' and the value the trimmed rest. |
| EnvFile.Apply | stackless/src/db/seed.ts:26 | Only the line's key can change, and no variable disappears. |
| EnvFile.ParseLines | stackless/src/db/seed.ts:19 | One parsed entry per line, in file order. |
| EnvFile.ApplyAll | stackless/src/db/seed.ts:19-27 | No variable is removed. Every final value is the environment's own or one some line assigns to that variable. |
| EnvFile.LoadEnv | stackless/src/db/seed.ts:17-28 | No variable is removed, and one with a non-empty value keeps it. An unset variable ends with the first non-empty value the file's lines give it, and stays unset when no line gives it one. |
| EnvFile.FirstValueAt | stackless/src/db/seed.ts:19-26 | The first line that assigns a key a non-empty value supplies that key's first value. |
| EnvFile.FirstEntryValue | stackless/src/db/seed.ts:19-26 | When entry i assigns a key a non-empty value and every earlier assignment of that key is empty, entry i's value is the key's first value. |
| EnvFile.FirstValueApplied | stackless/src/db/seed.ts:19-27 | Applying the entries in order leaves an unset variable with its first non-empty assigned value, or unset. |
| EnvFile.IgnoredLines | stackless/src/db/test-connection.ts:17-20 | Blank lines, comments and lines without '=' leave the environment unchanged. |
| EnvFile.NeverOverwritten | stackless/src/db/seed.ts:26 | A variable with a non-empty value keeps it, whatever the file says. |
| EnvFile.EmptyIsOverwritten | stackless/src/db/seed.ts:26 | A variable holding "" counts as unset and takes the line's value. |
| EnvFile.FirstNonEmptyWins | stackless/src/db/seed.ts:19-26 | Among lines with the same key, the first one with a non-empty value decides the variable. |
| EnvFile.AssignmentRoundTrip | stackless/src/db/test-connection.ts:19-22 | A trimmed "key=value" line reads back as exactly that key and value. The value may contain '='. |
| Serialize.IndexMap | stackless/src/lib/serialize.ts:26 | Spreading an array gives one property per index, under its decimal name, holding that element. |
| Serialize.Clean | stackless/src/lib/serialize.ts:28-42 | `__v` is gone. A truthy non-string `_id` becomes its text. Date `createdAt`/`updatedAt` become ISO strings. Every other key is unchanged. |
| Serialize.SerializeDoc | stackless/src/lib/serialize.ts:23-45 | Falsy and non-object values come back unchanged. Objects become plain objects without `__v`, with unmanaged fields kept. |
| Serialize.CleanIdempotent | stackless/src/lib/serialize.ts:28-42 | Cleaning twice is cleaning once. |
| Serialize.SerializeIdempotent | stackless/src/lib/serialize.ts:23-45 | Serializing a serialized document changes nothing. |
| Serialize.SerializeDocs | stackless/src/lib/serialize.ts:50-52 | Element-wise serialization, preserving length and order. |

## Left out

- File-system and database loading: `getAllPosts`, `getAllPaths`, `getAllTopics`, gray-matter, Mongoose models and queries. The loaded lists are parameters.
- JSX rendering, React state and hooks, routing and metadata. Only the expressions that compute what is shown are modelled.
- Dates. `publishedAt` is an abstract integer key standing for `new Date(...).getTime()`, and `Date.prototype.toISOString` is the `toIso` parameter.
- The date and URL formats. `z.iso.date()` and `z.url()` are the `isDate` and `isUrl` parameters.
- The text of messages. Warning and issue texts are datatype constructors, and the wording of zod's messages is not modelled.
- Strings.ToLower: lower-cases ASCII letters only, because full Unicode case mapping is out of scope. Search over non-ASCII text is therefore not modelled exactly.
- String lengths. The schema counts characters of `seq<char>`, whereas JavaScript counts UTF-16 code units.
- Schema.ParseFrontmatter: the issue reported for an unsafe integer is this model's `TooBig` or `TooSmall`; zod's own issue code and message are not modelled.
- Schema.ParseFrontmatter: values of the wrong JavaScript type are not modelled. Each field has its declared type or is absent.
- Schema.ParseFrontmatter: unknown keys are not modelled (zod strips them).
- Schema.ParseFrontmatter: the order and multiplicity of issues is this model's choice, not zod's. Only "no issue iff valid" is promised.
- `SiteConfigSchema`: not a core constraint of the content model.
- The middleware's `matcher` configuration and NextAuth itself. The session is the `authenticated` parameter.
- `ObjectId.prototype.toString` and an ObjectId's own properties: the `toText` and `idProps` parameters of `Serialize`.
- Serialize.Clean: `toIso` is total, but `Date.prototype.toISOString` throws a `RangeError` for an invalid Date, such as a time beyond 8.64e15 ms either side of the epoch. That throw is not modelled, so an invalid `createdAt` or `updatedAt` is converted rather than raising.
- Serialize: numbers are integers in this model. JavaScript's `NaN`, which is falsy, does not arise.
- Reading `.env.local`: the file text is a parameter of `EnvFile.LoadEnv`, and a missing file is not modelled.
- The RSS feed, the API routes, the deploy hook and the admin toggle/delete handlers. These are I/O.
