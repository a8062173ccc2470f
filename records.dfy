/** The seven record kinds of the store and the inputs their `create` operations
    take. A stored record is its input spread with the fields the store sets
    itself (`id`, and for some kinds a timestamp, `views` or `isActive`).
    Timestamps are milliseconds since the epoch, as `Date.getTime()` gives them.
    Optional columns are `Option`s: the in-memory store copies what it is given
    and applies none of the table defaults. */
module Records {
  import opened Wrappers

  type Timestamp = int

  datatype User = User(
    id: int, username: string, password: string, email: string,
    fullName: string, avatar: Option<string>, role: Option<string>)

  datatype UserInput = UserInput(
    username: string, password: string, email: string,
    fullName: string, avatar: Option<string>, role: Option<string>)
  {
    function WithId(id: int): User
    {
      User(id, username, password, email, fullName, avatar, role)
    }
  }

  datatype Category = Category(
    id: int, name: string, slug: string, description: Option<string>, icon: Option<string>)

  datatype CategoryInput = CategoryInput(
    name: string, slug: string, description: Option<string>, icon: Option<string>)
  {
    function WithId(id: int): Category
    {
      Category(id, name, slug, description, icon)
    }
  }

  datatype Article = Article(
    id: int, title: string, slug: string, excerpt: string, content: string,
    featuredImage: Option<string>, authorId: int, categoryId: int,
    readingTime: Option<int>, views: int, isFeatured: Option<bool>,
    publishedAt: Timestamp)

  /** What `createArticle` receives. The insert schema leaves `views` out, but
      callers (the seed data) may still pass one; the store discards it. */
  datatype ArticleInput = ArticleInput(
    title: string, slug: string, excerpt: string, content: string,
    featuredImage: Option<string>, authorId: int, categoryId: int,
    readingTime: Option<int>, views: Option<int>, isFeatured: Option<bool>,
    publishedAt: Option<Timestamp>)

  /** `article.isFeatured` used as a filter condition: only `true` passes. */
  predicate IsFeatured(a: Article) {
    a.isFeatured == Some(true)
  }

  datatype Comment = Comment(
    id: int, content: string, authorId: int, articleId: int, createdAt: Timestamp)

  datatype CommentInput = CommentInput(content: string, authorId: int, articleId: int)

  datatype Tool = Tool(
    id: int, name: string, slug: string, description: string, icon: string, kind: string)

  datatype ToolInput = ToolInput(
    name: string, slug: string, description: string, icon: string, kind: string)
  {
    function WithId(id: int): Tool
    {
      Tool(id, name, slug, description, icon, kind)
    }
  }

  datatype Newsletter = Newsletter(
    id: int, email: string, name: Option<string>, isActive: bool, createdAt: Timestamp)

  datatype NewsletterInput = NewsletterInput(email: string, name: Option<string>)

  datatype News = News(id: int, title: string, source: string, content: string, publishedAt: Timestamp)

  datatype NewsInput = NewsInput(title: string, source: string, content: string)

  /** An article with its author and category attached (the `...article, author,
      category` spread of the source, with the three parts kept apart). */
  datatype ArticleWithRelations = ArticleWithRelations(article: Article, author: User, category: Category)

  /** The error thrown when an article's author or category cannot be found. */
  datatype StoreError = MissingRelations(articleId: int)

  // Sort keys and ids, as function values for the generic pipelines.
  function ArticleId(a: Article): int { a.id }
  function PublishedAt(a: Article): int { a.publishedAt }
  function Views(a: Article): int { a.views }
  function CommentId(c: Comment): int { c.id }
  function CreatedAt(c: Comment): int { c.createdAt }
  function NewsId(n: News): int { n.id }
  function NewsPublishedAt(n: News): int { n.publishedAt }
}
