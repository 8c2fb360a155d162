/** The content schemas of `src/lib/schema.ts` as validators: a raw record (a
    field the file does not set is `None`) either passes every constraint and
    becomes a typed record with the defaults filled in, or fails with the list of
    issues found, in field order. Whether a string is an ISO date or a URL is
    decided by the `isDate` and `isUrl` parameters. */
module Schema {
  import opened Wrappers

  /** Why a field was rejected. */
  datatype Issue =
    | Missing(field: string)
    | TooShort(field: string)
    | TooLong(field: string)
    | TooMany(field: string)
    | NotADate(field: string)
    | NotAUrl(field: string)
    | NotAnOption(field: string)
    | NotAnInteger(field: string)
    | NotPositive(field: string)
    | TooBig(field: string)
    | TooSmall(field: string)

  const SummaryMax: nat := 160
  const ReadNextMax: nat := 2

  datatype Difficulty = Beginner | Intermediate | Advanced

  function DifficultyName(d: Difficulty): string {
    match d
    case Beginner => "beginner"
    case Intermediate => "intermediate"
    case Advanced => "advanced"
  }

  /** `z.enum(["beginner", "intermediate", "advanced"])`. */
  function ParseDifficulty(s: string): (r: Option<Difficulty>)
    ensures r.Some? ==> DifficultyName(r.value) == s
    ensures r.None? ==> forall d: Difficulty :: DifficultyName(d) != s
  {
    if s == "beginner" then Some(Beginner)
    else if s == "intermediate" then Some(Intermediate)
    else if s == "advanced" then Some(Advanced)
    else None
  }

  /** A JavaScript number is an integer when it has no fractional part. */
  predicate IsInteger(x: real) {
    x.Floor as real == x
  }

  /** `Number.MAX_SAFE_INTEGER`, 2^53 - 1. */
  const MaxSafeInteger: int := 0x1F_FFFF_FFFF_FFFF

  /** What zod's `.int()` accepts: an integer no larger in magnitude than `MaxSafeInteger`. */
  predicate IsSafeInteger(x: real) {
    IsInteger(x) && -MaxSafeInteger as real <= x <= MaxSafeInteger as real
  }

  // ---------------------------------------------------------------------------
  // Field checks
  // ---------------------------------------------------------------------------

  /** `z.string().min(1)`. */
  function NonEmpty(field: string, v: Option<string>): (issues: seq<Issue>)
    ensures |issues| == 0 <==> v.Some? && |v.value| >= 1
  {
    match v
    case None => [Missing(field)]
    case Some(s) => if |s| < 1 then [TooShort(field)] else []
  }

  /** `z.string()`, required. */
  function Present(field: string, v: Option<string>): (issues: seq<Issue>)
    ensures |issues| == 0 <==> v.Some?
  {
    if v.None? then [Missing(field)] else []
  }

  /** `z.string().max(n)`. */
  function AtMost(field: string, v: Option<string>, n: nat): (issues: seq<Issue>)
    ensures |issues| == 0 <==> v.Some? && |v.value| <= n
  {
    match v
    case None => [Missing(field)]
    case Some(s) => if |s| > n then [TooLong(field)] else []
  }

  /** `z.iso.date()`, required or `.optional()`. */
  function DateField(field: string, v: Option<string>, required: bool, isDate: string -> bool): (issues: seq<Issue>)
    ensures |issues| == 0 <==> if v.Some? then isDate(v.value) else !required
  {
    match v
    case None => if required then [Missing(field)] else []
    case Some(s) => if isDate(s) then [] else [NotADate(field)]
  }

  /** `z.url()`. */
  function UrlField(field: string, v: Option<string>, isUrl: string -> bool): (issues: seq<Issue>)
    ensures |issues| == 0 <==> v.Some? && isUrl(v.value)
  {
    match v
    case None => [Missing(field)]
    case Some(s) => if isUrl(s) then [] else [NotAUrl(field)]
  }

  function DifficultyField(field: string, v: Option<string>): (issues: seq<Issue>)
    ensures |issues| == 0 <==> v.Some? && ParseDifficulty(v.value).Some?
  {
    match v
    case None => [Missing(field)]
    case Some(s) => if ParseDifficulty(s).Some? then [] else [NotAnOption(field)]
  }

  /** `.int()`: a fraction is not an integer; an integer beyond the safe range is
      too big or too small. */
  function IntCheck(field: string, x: real): (issues: seq<Issue>)
    ensures |issues| <= 1
    ensures |issues| == 0 <==> IsSafeInteger(x)
    ensures |issues| == 1 && IsInteger(x) ==> issues[0] == (if x > 0.0 then TooBig(field) else TooSmall(field))
  {
    if !IsInteger(x) then [NotAnInteger(field)]
    else if x > MaxSafeInteger as real then [TooBig(field)]
    else if x < -MaxSafeInteger as real then [TooSmall(field)]
    else []
  }

  /** `z.number().int().positive()`: both checks run, so a negative fraction
      draws two issues. */
  function PositiveInt(field: string, v: Option<real>): (issues: seq<Issue>)
    ensures |issues| == 0 <==> v.Some? && IsSafeInteger(v.value) && v.value > 0.0
  {
    match v
    case None => [Missing(field)]
    case Some(x) => IntCheck(field, x) + (if x > 0.0 then [] else [NotPositive(field)])
  }

  /** `z.number().int().optional()`. */
  function OptionalInt(field: string, v: Option<real>): (issues: seq<Issue>)
    ensures |issues| == 0 <==> v.None? || IsSafeInteger(v.value)
  {
    match v
    case None => []
    case Some(x) => IntCheck(field, x)
  }

  /** `z.array(z.string()).max(n)`, absent allowed. */
  function ListAtMost(field: string, v: Option<seq<string>>, n: nat): (issues: seq<Issue>)
    ensures |issues| == 0 <==> v.None? || |v.value| <= n
  {
    match v
    case None => []
    case Some(xs) => if |xs| > n then [TooMany(field)] else []
  }

  /** `z.array(z.string()).min(1)`, required. */
  function ListNonEmpty(field: string, v: Option<seq<string>>): (issues: seq<Issue>)
    ensures |issues| == 0 <==> v.Some? && |v.value| >= 1
  {
    match v
    case None => [Missing(field)]
    case Some(xs) => if |xs| < 1 then [TooShort(field)] else []
  }

  // ---------------------------------------------------------------------------
  // Post frontmatter
  // ---------------------------------------------------------------------------

  /** The frontmatter as written in the file. */
  datatype RawFrontmatter = RawFrontmatter(
    title: Option<string>,
    slug: Option<string>,
    summary: Option<string>,
    publishedAt: Option<string>,
    updatedAt: Option<string>,
    topic: Option<string>,
    sourceUrl: Option<string>,
    sourcePublisher: Option<string>,
    difficulty: Option<string>,
    readTimeMinutes: Option<real>,
    ogImage: Option<string>,
    draft: Option<bool>,
    featured: Option<bool>,
    readNext: Option<seq<string>>,
    order: Option<real>
  )

  /** The frontmatter once validated, with the defaults applied. */
  datatype Frontmatter = Frontmatter(
    title: string,
    slug: string,
    summary: string,
    publishedAt: string,
    updatedAt: Option<string>,
    topic: string,
    sourceUrl: string,
    sourcePublisher: string,
    difficulty: Difficulty,
    readTimeMinutes: int,
    ogImage: Option<string>,
    draft: bool,
    featured: bool,
    readNext: seq<string>,
    order: Option<int>
  )

  /** Every issue of a raw frontmatter, in the schema's field order. */
  function FrontmatterIssues(raw: RawFrontmatter, isDate: string -> bool, isUrl: string -> bool): seq<Issue> {
    NonEmpty("title", raw.title)
      + NonEmpty("slug", raw.slug)
      + AtMost("summary", raw.summary, SummaryMax)
      + DateField("publishedAt", raw.publishedAt, true, isDate)
      + DateField("updatedAt", raw.updatedAt, false, isDate)
      + NonEmpty("topic", raw.topic)
      + UrlField("sourceUrl", raw.sourceUrl, isUrl)
      + NonEmpty("sourcePublisher", raw.sourcePublisher)
      + DifficultyField("difficulty", raw.difficulty)
      + PositiveInt("readTimeMinutes", raw.readTimeMinutes)
      + ListAtMost("readNext", raw.readNext, ReadNextMax)
      + OptionalInt("order", raw.order)
  }

  /** The constraints of the post schema, field by field. */
  predicate ValidFrontmatter(raw: RawFrontmatter, isDate: string -> bool, isUrl: string -> bool) {
    && raw.title.Some? && |raw.title.value| >= 1
    && raw.slug.Some? && |raw.slug.value| >= 1
    && raw.summary.Some? && |raw.summary.value| <= SummaryMax
    && raw.publishedAt.Some? && isDate(raw.publishedAt.value)
    && (raw.updatedAt.Some? ==> isDate(raw.updatedAt.value))
    && raw.topic.Some? && |raw.topic.value| >= 1
    && raw.sourceUrl.Some? && isUrl(raw.sourceUrl.value)
    && raw.sourcePublisher.Some? && |raw.sourcePublisher.value| >= 1
    && raw.difficulty.Some? && ParseDifficulty(raw.difficulty.value).Some?
    && raw.readTimeMinutes.Some? && IsSafeInteger(raw.readTimeMinutes.value) && raw.readTimeMinutes.value > 0.0
    && (raw.readNext.Some? ==> |raw.readNext.value| <= ReadNextMax)
    && (raw.order.Some? ==> IsSafeInteger(raw.order.value))
  }

  /** The raw frontmatter with the three defaults written in. */
  function WithDefaults(raw: RawFrontmatter): RawFrontmatter {
    raw.(draft := Some(raw.draft.GetOr(false)), featured := Some(raw.featured.GetOr(false)),
         readNext := Some(raw.readNext.GetOr([])))
  }

  /** `PostFrontmatterSchema.parse`. */
  function ParseFrontmatter(raw: RawFrontmatter, isDate: string -> bool, isUrl: string -> bool)
    : (r: Result<Frontmatter, seq<Issue>>)
    ensures r.Success? <==> ValidFrontmatter(raw, isDate, isUrl)
    ensures r.Failure? ==> |r.error| > 0
    ensures r.Success? ==>
      && r.value.draft == raw.draft.GetOr(false)
      && r.value.featured == raw.featured.GetOr(false)
      && r.value.readNext == raw.readNext.GetOr([])
      && |r.value.readNext| <= ReadNextMax
      && |r.value.summary| <= SummaryMax
      && 0 < r.value.readTimeMinutes <= MaxSafeInteger
      && (r.value.order.Some? ==> -MaxSafeInteger <= r.value.order.value <= MaxSafeInteger)
      && Some(r.value.title) == raw.title && Some(r.value.slug) == raw.slug && Some(r.value.topic) == raw.topic
      && Some(DifficultyName(r.value.difficulty)) == raw.difficulty
    ensures r.Success? ==> FrontmatterToRaw(r.value) == WithDefaults(raw)
  {
    var issues := FrontmatterIssues(raw, isDate, isUrl);
    if |issues| > 0 then Failure(issues)
    else
      Success(Frontmatter(
        raw.title.value,
        raw.slug.value,
        raw.summary.value,
        raw.publishedAt.value,
        raw.updatedAt,
        raw.topic.value,
        raw.sourceUrl.value,
        raw.sourcePublisher.value,
        ParseDifficulty(raw.difficulty.value).value,
        raw.readTimeMinutes.value.Floor,
        raw.ogImage,
        raw.draft.GetOr(false),
        raw.featured.GetOr(false),
        raw.readNext.GetOr([]),
        if raw.order.Some? then Some(raw.order.value.Floor) else None
      ))
  }

  /** A validated frontmatter written back with every field set. */
  function FrontmatterToRaw(fm: Frontmatter): RawFrontmatter {
    RawFrontmatter(
      Some(fm.title), Some(fm.slug), Some(fm.summary), Some(fm.publishedAt), fm.updatedAt,
      Some(fm.topic), Some(fm.sourceUrl), Some(fm.sourcePublisher), Some(DifficultyName(fm.difficulty)),
      Some(fm.readTimeMinutes as real), fm.ogImage, Some(fm.draft), Some(fm.featured), Some(fm.readNext),
      if fm.order.Some? then Some(fm.order.value as real) else None
    )
  }

  /** Writing a validated frontmatter back and parsing it again gives it back. */
  lemma FrontmatterRoundTrip(raw: RawFrontmatter, isDate: string -> bool, isUrl: string -> bool)
    requires ParseFrontmatter(raw, isDate, isUrl).Success?
    ensures var fm := ParseFrontmatter(raw, isDate, isUrl).value;
            ParseFrontmatter(FrontmatterToRaw(fm), isDate, isUrl) == Success(fm)
  {
    var fm := ParseFrontmatter(raw, isDate, isUrl).value;
    var d := ParseDifficulty(raw.difficulty.value).value;
    assert ParseDifficulty(DifficultyName(d)) == Some(d) by {
      match d
      case Beginner =>
      case Intermediate =>
      case Advanced =>
    }
  }

  /** A summary longer than 160 characters is rejected and the issue names it. */
  lemma LongSummaryRejected(raw: RawFrontmatter, isDate: string -> bool, isUrl: string -> bool)
    requires raw.summary.Some? && |raw.summary.value| > SummaryMax
    ensures ParseFrontmatter(raw, isDate, isUrl).Failure?
    ensures TooLong("summary") in ParseFrontmatter(raw, isDate, isUrl).error
  {
    var prefix := NonEmpty("title", raw.title) + NonEmpty("slug", raw.slug);
    var issues := FrontmatterIssues(raw, isDate, isUrl);
    assert issues[|prefix|] == TooLong("summary");
  }

  /** A whole reading time beyond `Number.MAX_SAFE_INTEGER` is rejected as too big. */
  lemma UnsafeReadTimeRejected(raw: RawFrontmatter, isDate: string -> bool, isUrl: string -> bool)
    requires raw.readTimeMinutes.Some? && IsInteger(raw.readTimeMinutes.value)
    requires raw.readTimeMinutes.value > MaxSafeInteger as real
    ensures ParseFrontmatter(raw, isDate, isUrl).Failure?
    ensures TooBig("readTimeMinutes") in ParseFrontmatter(raw, isDate, isUrl).error
  {
    var before := NonEmpty("title", raw.title)
      + NonEmpty("slug", raw.slug)
      + AtMost("summary", raw.summary, SummaryMax)
      + DateField("publishedAt", raw.publishedAt, true, isDate)
      + DateField("updatedAt", raw.updatedAt, false, isDate)
      + NonEmpty("topic", raw.topic)
      + UrlField("sourceUrl", raw.sourceUrl, isUrl)
      + NonEmpty("sourcePublisher", raw.sourcePublisher)
      + DifficultyField("difficulty", raw.difficulty);
    var issues := FrontmatterIssues(raw, isDate, isUrl);
    assert issues[|before|] == TooBig("readTimeMinutes");
  }

  // ---------------------------------------------------------------------------
  // Topics and learning paths
  // ---------------------------------------------------------------------------

  datatype RawTopic = RawTopic(slug: Option<string>, name: Option<string>, description: Option<string>, icon: Option<string>)

  datatype TopicEntry = TopicEntry(slug: string, name: string, description: string, icon: Option<string>)

  /** `TopicSchema.parse`: slug and name non-empty, description present. */
  function ParseTopic(raw: RawTopic): (r: Result<TopicEntry, seq<Issue>>)
    ensures r.Success? <==>
      raw.slug.Some? && |raw.slug.value| >= 1 && raw.name.Some? && |raw.name.value| >= 1 && raw.description.Some?
    ensures r.Success? ==> r.value == TopicEntry(raw.slug.value, raw.name.value, raw.description.value, raw.icon)
  {
    var issues := NonEmpty("slug", raw.slug) + NonEmpty("name", raw.name) + Present("description", raw.description);
    if |issues| > 0 then Failure(issues)
    else Success(TopicEntry(raw.slug.value, raw.name.value, raw.description.value, raw.icon))
  }

  datatype RawPath = RawPath(slug: Option<string>, title: Option<string>, description: Option<string>, posts: Option<seq<string>>)

  datatype PathEntry = PathEntry(slug: string, title: string, description: string, posts: seq<string>)

  /** `LearningPathSchema.parse`: slug and title non-empty, a description, and
      at least one post. */
  function ParsePath(raw: RawPath): (r: Result<PathEntry, seq<Issue>>)
    ensures r.Success? <==>
      && raw.slug.Some? && |raw.slug.value| >= 1
      && raw.title.Some? && |raw.title.value| >= 1
      && raw.description.Some?
      && raw.posts.Some? && |raw.posts.value| >= 1
    ensures r.Success? ==> r.value == PathEntry(raw.slug.value, raw.title.value, raw.description.value, raw.posts.value)
    ensures raw.posts == Some([]) ==> r.Failure? && TooShort("posts") in r.error
  {
    var issues := NonEmpty("slug", raw.slug) + NonEmpty("title", raw.title)
                  + Present("description", raw.description) + ListNonEmpty("posts", raw.posts);
    if |issues| > 0 then Failure(issues)
    else Success(PathEntry(raw.slug.value, raw.title.value, raw.description.value, raw.posts.value))
  }
}
