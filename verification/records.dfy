/** The content records every component reads: posts, topics and learning paths. */
module Records {

  /** A post's metadata. `publishedAt` is an abstract, totally ordered publication
      key (a larger key is a later date); `readNext` holds the curated follow-up
      slugs, absent in the source being the same as empty. */
  datatype Post = Post(
    slug: string,
    title: string,
    summary: string,
    topic: string,
    difficulty: string,
    draft: bool,
    featured: bool,
    readNext: seq<string>,
    publishedAt: int,
    sourcePublisher: string
  )

  /** A topic of the taxonomy. */
  datatype Topic = Topic(slug: string, name: string, description: string)

  /** A learning path: an ordered, curated sequence of post slugs. */
  datatype LearningPath = LearningPath(slug: string, title: string, description: string, posts: seq<string>)

  /** The post filters the admin pages and the home page share. */
  const IsDraft: Post -> bool := (p: Post) => p.draft
  const NotDraft: Post -> bool := (p: Post) => !p.draft
  const IsFeatured: Post -> bool := (p: Post) => p.featured
  const NotFeatured: Post -> bool := (p: Post) => !p.featured
}
