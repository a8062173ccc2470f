/** The store's reads: lookups by id and by a unique-looking column, the
    filter / sort / slice listings of articles, comments and news, the search,
    the related-article selection and the author/category join. */
module Queries {
  import opened Wrappers
  import opened Records
  import opened Listing
  import opened Text
  import opened StoreState

  /** `a` is the record stored under its own id. */
  predicate StoredArticle(t: Tables, a: Article) {
    a.id in t.articles && t.articles[a.id] == a
  }

  // ---------------------------------------------------------------- by id

  /** `users.get(id)`. */
  function GetUser(t: Tables, id: int): (r: Option<User>)
    ensures r.Some? <==> id in t.users
    ensures r.Some? ==> r.value == t.users[id]
    ensures Valid(t) && r.Some? ==> r.value.id == id
  {
    if id in t.users then Some(t.users[id]) else None
  }

  /** `categories.get(id)`. */
  function GetCategory(t: Tables, id: int): (r: Option<Category>)
    ensures r.Some? <==> id in t.categories
    ensures r.Some? ==> r.value == t.categories[id]
    ensures Valid(t) && r.Some? ==> r.value.id == id
  {
    if id in t.categories then Some(t.categories[id]) else None
  }

  /** `articles.get(id)`. */
  function GetArticleById(t: Tables, id: int): (r: Option<Article>)
    ensures r.Some? <==> id in t.articles
    ensures Valid(t) && r.Some? ==> r.value.id == id && StoredArticle(t, r.value)
  {
    if id in t.articles then Some(t.articles[id]) else None
  }

  // ---------------------------------------------------------------- by column
  // `find` over the values: the matching record with the smallest id.

  function GetUserByUsername(t: Tables, username: string): (r: Option<User>)
    requires Valid(t)
    ensures r.Some? ==> r.value.id in t.users && t.users[r.value.id] == r.value && r.value.username == username
    ensures r.Some? ==> forall k | k in t.users && t.users[k].username == username :: r.value.id <= k
    ensures r.None? <==> forall k | k in t.users :: t.users[k].username != username
  {
    var p := (u: User) => u.username == username;
    FindInRows(t.users, t.userIdCounter, (u: User) => u.id, p);
    FindFirst(UserRows(t), p)
  }

  function GetUserByEmail(t: Tables, email: string): (r: Option<User>)
    requires Valid(t)
    ensures r.Some? ==> r.value.id in t.users && t.users[r.value.id] == r.value && r.value.email == email
    ensures r.Some? ==> forall k | k in t.users && t.users[k].email == email :: r.value.id <= k
    ensures r.None? <==> forall k | k in t.users :: t.users[k].email != email
  {
    var p := (u: User) => u.email == email;
    FindInRows(t.users, t.userIdCounter, (u: User) => u.id, p);
    FindFirst(UserRows(t), p)
  }

  function GetCategoryBySlug(t: Tables, slug: string): (r: Option<Category>)
    requires Valid(t)
    ensures r.Some? ==> r.value.id in t.categories && t.categories[r.value.id] == r.value && r.value.slug == slug
    ensures r.Some? ==> forall k | k in t.categories && t.categories[k].slug == slug :: r.value.id <= k
    ensures r.None? <==> forall k | k in t.categories :: t.categories[k].slug != slug
  {
    var p := (c: Category) => c.slug == slug;
    FindInRows(t.categories, t.categoryIdCounter, (c: Category) => c.id, p);
    FindFirst(CategoryRows(t), p)
  }

  function GetArticleBySlug(t: Tables, slug: string): (r: Option<Article>)
    requires Valid(t)
    ensures r.Some? ==> StoredArticle(t, r.value) && r.value.slug == slug
    ensures r.Some? ==> forall k | k in t.articles && t.articles[k].slug == slug :: r.value.id <= k
    ensures r.None? <==> forall k | k in t.articles :: t.articles[k].slug != slug
  {
    var p := (a: Article) => a.slug == slug;
    FindInRows(t.articles, t.articleIdCounter, ArticleId, p);
    FindFirst(ArticleRows(t), p)
  }

  function GetToolBySlug(t: Tables, slug: string): (r: Option<Tool>)
    requires Valid(t)
    ensures r.Some? ==> r.value.id in t.tools && t.tools[r.value.id] == r.value && r.value.slug == slug
    ensures r.Some? ==> forall k | k in t.tools && t.tools[k].slug == slug :: r.value.id <= k
    ensures r.None? <==> forall k | k in t.tools :: t.tools[k].slug != slug
  {
    var p := (x: Tool) => x.slug == slug;
    FindInRows(t.tools, t.toolIdCounter, (x: Tool) => x.id, p);
    FindFirst(ToolRows(t), p)
  }

  // ---------------------------------------------------------------- whole lists

  /** `getCategories`: every category, in ascending id order. */
  function GetCategories(t: Tables): (r: seq<Category>)
    requires Valid(t)
    ensures |r| == t.categoryIdCounter - 1
    ensures forall i :: 0 <= i < |r| ==> r[i].id == i + 1 && r[i] == t.categories[i + 1]
  {
    RowsOfDense(t.categories, t.categoryIdCounter, (c: Category) => c.id);
    CategoryRows(t)
  }

  /** `getTools`: every tool, in ascending id order. */
  function GetTools(t: Tables): (r: seq<Tool>)
    requires Valid(t)
    ensures |r| == t.toolIdCounter - 1
    ensures forall i :: 0 <= i < |r| ==> r[i].id == i + 1 && r[i] == t.tools[i + 1]
  {
    RowsOfDense(t.tools, t.toolIdCounter, (x: Tool) => x.id);
    ToolRows(t)
  }

  // ---------------------------------------------------------------- article listings

  /** The pipeline every article listing runs: keep the articles satisfying `p`,
      sort them by `key` descending (stable, so equal keys stay in id order) and
      slice `[offset, offset + limit)`. */
  function ArticleQuery(t: Tables, p: Article -> bool, key: Article -> int, offset: nat, limit: nat): (r: seq<Article>)
    requires Valid(t)
    ensures |r| == Min(limit, Max(0, |Filter(ArticleRows(t), p)| - offset))
    ensures forall i :: 0 <= i < |r| ==> StoredArticle(t, r[i]) && p(r[i])
    ensures StablyOrdered(r, key, ArticleId)
  {
    ArticleListing(t, p, key, offset, limit);
    Window(SortDesc(Filter(ArticleRows(t), p), key), offset, limit)
  }

  lemma ArticleListing(t: Tables, p: Article -> bool, key: Article -> int, offset: nat, limit: nat)
    requires Valid(t)
    ensures var r := Window(SortDesc(Filter(ArticleRows(t), p), key), offset, limit);
      && |r| == Min(limit, Max(0, |Filter(ArticleRows(t), p)| - offset))
      && (forall i :: 0 <= i < |r| ==> StoredArticle(t, r[i]) && p(r[i]))
      && StablyOrdered(r, key, ArticleId)
  {
    ListingOfDense(t.articles, t.articleIdCounter, ArticleId, p, key, offset, limit);
    var r := Window(SortDesc(Filter(ArticleRows(t), p), key), offset, limit);
    forall i | 0 <= i < |r| ensures StoredArticle(t, r[i]) {
      assert ArticleId(r[i]) == r[i].id;
    }
  }

  /** Reference characterisation of every article listing: take the qualifying
      articles in ANY order that is descending by `key` with ties in ascending id
      order; the listing is exactly the slice `[offset, offset + limit)` of it. */
  lemma ArticleQueryCharacterised(t: Tables, p: Article -> bool, key: Article -> int,
                                  sorted: seq<Article>, offset: nat, limit: nat)
    requires Valid(t)
    requires multiset(sorted) == multiset(Filter(ArticleRows(t), p))
    requires StablyOrdered(sorted, key, ArticleId)
    ensures ArticleQuery(t, p, key, offset, limit) == Window(sorted, offset, limit)
  {
    RowsOfDense(t.articles, t.articleIdCounter, ArticleId);
    FilterAscending(ArticleRows(t), p, ArticleId);
    SortCharacterised(Filter(ArticleRows(t), p), sorted, key, ArticleId);
  }

  function All(a: Article): bool { true }

  /** `getArticles(limit, offset)`: newest first. */
  function GetArticles(t: Tables, limit: nat, offset: nat): (r: seq<Article>)
    requires Valid(t)
    ensures |r| <= limit
    ensures |r| == Min(limit, Max(0, t.articleIdCounter - 1 - offset))
    ensures forall i :: 0 <= i < |r| ==> StoredArticle(t, r[i])
    ensures StablyOrdered(r, PublishedAt, ArticleId)
  {
    FilterAll(ArticleRows(t), All);
    ArticleQuery(t, All, PublishedAt, offset, limit)
  }

  /** Reading page `[offset, offset + l1)` and then `[offset + l1, offset + l1 + l2)`
      gives page `[offset, offset + l1 + l2)`. */
  lemma GetArticlesPages(t: Tables, l1: nat, l2: nat, offset: nat)
    requires Valid(t)
    ensures GetArticles(t, l1, offset) + GetArticles(t, l2, offset + l1) == GetArticles(t, l1 + l2, offset)
  {
    WindowConcat(SortDesc(Filter(ArticleRows(t), All), PublishedAt), offset, l1, l2);
  }

  /** `getArticlesByCategory(categoryId, limit, offset)`: that category's articles, newest first. */
  function GetArticlesByCategory(t: Tables, categoryId: int, limit: nat, offset: nat): (r: seq<Article>)
    requires Valid(t)
    ensures |r| <= limit
    ensures forall i :: 0 <= i < |r| ==> StoredArticle(t, r[i]) && r[i].categoryId == categoryId
    ensures StablyOrdered(r, PublishedAt, ArticleId)
  {
    ArticleQuery(t, (a: Article) => a.categoryId == categoryId, PublishedAt, offset, limit)
  }

  /** Reference characterisation of a category listing: the `[offset, offset + limit)`
      slice of ANY newest-first arrangement of that category's articles, ties in id order. */
  lemma ByCategoryCharacterised(t: Tables, categoryId: int, sorted: seq<Article>, limit: nat, offset: nat)
    requires Valid(t)
    requires multiset(sorted) == multiset(Filter(ArticleRows(t), (a: Article) => a.categoryId == categoryId))
    requires StablyOrdered(sorted, PublishedAt, ArticleId)
    ensures GetArticlesByCategory(t, categoryId, limit, offset) == Window(sorted, offset, limit)
  {
    ArticleQueryCharacterised(t, (a: Article) => a.categoryId == categoryId, PublishedAt, sorted, offset, limit);
  }

  lemma GetArticlesByCategoryPages(t: Tables, categoryId: int, l1: nat, l2: nat, offset: nat)
    requires Valid(t)
    ensures GetArticlesByCategory(t, categoryId, l1, offset) + GetArticlesByCategory(t, categoryId, l2, offset + l1)
         == GetArticlesByCategory(t, categoryId, l1 + l2, offset)
  {
    var p := (a: Article) => a.categoryId == categoryId;
    WindowConcat(SortDesc(Filter(ArticleRows(t), p), PublishedAt), offset, l1, l2);
  }

  /** `getArticlesByCategorySlug`: empty for an unknown slug, otherwise the
      listing of the first category with that slug. */
  function GetArticlesByCategorySlug(t: Tables, slug: string, limit: nat, offset: nat): (r: seq<Article>)
    requires Valid(t)
    ensures (forall k | k in t.categories :: t.categories[k].slug != slug) ==> r == []
    ensures GetCategoryBySlug(t, slug).Some? ==>
      r == GetArticlesByCategory(t, GetCategoryBySlug(t, slug).value.id, limit, offset)
    ensures |r| <= limit
    ensures forall i :: 0 <= i < |r| ==>
      StoredArticle(t, r[i]) && r[i].categoryId in t.categories && t.categories[r[i].categoryId].slug == slug
  {
    match GetCategoryBySlug(t, slug)
    case None => []
    case Some(c) => GetArticlesByCategory(t, c.id, limit, offset)
  }

  /** `getFeaturedArticles(limit)`: featured articles, newest first. */
  function GetFeaturedArticles(t: Tables, limit: nat): (r: seq<Article>)
    requires Valid(t)
    ensures |r| <= limit
    ensures forall i :: 0 <= i < |r| ==> StoredArticle(t, r[i]) && IsFeatured(r[i])
    ensures StablyOrdered(r, PublishedAt, ArticleId)
  {
    ArticleQuery(t, IsFeatured, PublishedAt, 0, limit)
  }

  /** Reference characterisation of the featured list: the first `limit` of ANY
      newest-first arrangement of the featured articles, ties in id order. */
  lemma FeaturedCharacterised(t: Tables, sorted: seq<Article>, limit: nat)
    requires Valid(t)
    requires multiset(sorted) == multiset(Filter(ArticleRows(t), IsFeatured))
    requires StablyOrdered(sorted, PublishedAt, ArticleId)
    ensures GetFeaturedArticles(t, limit) == Window(sorted, 0, limit)
  {
    ArticleQueryCharacterised(t, IsFeatured, PublishedAt, sorted, 0, limit);
  }

  /** `getPopularArticles(limit)`: most viewed first. */
  function GetPopularArticles(t: Tables, limit: nat): (r: seq<Article>)
    requires Valid(t)
    ensures |r| == Min(limit, t.articleIdCounter - 1)
    ensures forall i :: 0 <= i < |r| ==> StoredArticle(t, r[i])
    ensures StablyOrdered(r, Views, ArticleId)
  {
    FilterAll(ArticleRows(t), All);
    ArticleQuery(t, All, Views, 0, limit)
  }

  /** Reference characterisation of the popular list: the `limit` most viewed
      articles, taken from ANY arrangement of all of them by views, ties in id order. */
  lemma PopularCharacterised(t: Tables, sorted: seq<Article>, limit: nat)
    requires Valid(t)
    requires multiset(sorted) == multiset(ArticleRows(t))
    requires StablyOrdered(sorted, Views, ArticleId)
    ensures GetPopularArticles(t, limit) == Window(sorted, 0, limit)
  {
    FilterAll(ArticleRows(t), All);
    ArticleQueryCharacterised(t, All, Views, sorted, 0, limit);
  }

  /** `getRelatedArticles(articleId, limit)`: empty for an unknown id; otherwise the
      other articles of the same category, most viewed first. */
  function GetRelatedArticles(t: Tables, articleId: int, limit: nat): (r: seq<Article>)
    requires Valid(t)
    ensures articleId !in t.articles ==> r == []
    ensures |r| <= limit
    ensures forall i :: 0 <= i < |r| ==>
      && StoredArticle(t, r[i])
      && r[i].id != articleId
      && r[i].categoryId == t.articles[articleId].categoryId
    ensures NonIncreasing(r, Views)
    ensures StablyOrdered(r, Views, ArticleId)
  {
    match GetArticleById(t, articleId)
    case None => []
    case Some(source) =>
      ArticleQuery(t, (a: Article) => a.id != articleId && a.categoryId == source.categoryId, Views, 0, limit)
  }

  /** Reference characterisation of the related list of a stored article: the
      `limit` most viewed other articles of its category, taken from ANY
      arrangement of them by views, ties in id order. */
  lemma RelatedCharacterised(t: Tables, articleId: int, sorted: seq<Article>, limit: nat)
    requires Valid(t) && articleId in t.articles
    requires multiset(sorted) == multiset(Filter(ArticleRows(t), (a: Article) =>
      a.id != articleId && a.categoryId == t.articles[articleId].categoryId))
    requires StablyOrdered(sorted, Views, ArticleId)
    ensures GetRelatedArticles(t, articleId, limit) == Window(sorted, 0, limit)
  {
    var categoryId := t.articles[articleId].categoryId;
    ArticleQueryCharacterised(t, (a: Article) => a.id != articleId && a.categoryId == categoryId,
                              Views, sorted, 0, limit);
  }

  // ---------------------------------------------------------------- search

  /** The search condition: the lower-cased query occurs in the lower-cased
      title, excerpt or content. */
  predicate Matches(a: Article, query: string) {
    var q := Lower(query);
    Contains(Lower(a.title), q) || Contains(Lower(a.excerpt), q) || Contains(Lower(a.content), q)
  }

  /** `searchArticles(query, limit)`: matching articles, most viewed first; when
      at most `limit` articles match, every one of them is returned. */
  function SearchArticles(t: Tables, query: string, limit: nat): (r: seq<Article>)
    requires Valid(t)
    ensures |r| <= limit
    ensures forall i :: 0 <= i < |r| ==> StoredArticle(t, r[i]) && Matches(r[i], query)
    ensures StablyOrdered(r, Views, ArticleId)
    ensures |Filter(ArticleRows(t), (a: Article) => Matches(a, query))| <= limit ==>
      forall k | k in t.articles && Matches(t.articles[k], query) :: t.articles[k] in r
  {
    var p := (a: Article) => Matches(a, query);
    SearchReturnsAllWhenFew(t, p, limit);
    ArticleQuery(t, p, Views, 0, limit)
  }

  /** When at most `limit` articles qualify, a listing from offset 0 returns them all. */
  lemma SearchReturnsAllWhenFew(t: Tables, p: Article -> bool, limit: nat)
    requires Valid(t)
    ensures |Filter(ArticleRows(t), p)| <= limit ==>
      forall k | k in t.articles && p(t.articles[k]) :: t.articles[k] in ArticleQuery(t, p, Views, 0, limit)
  {
    if |Filter(ArticleRows(t), p)| <= limit {
      ListingOfDenseComplete(t.articles, t.articleIdCounter, ArticleId, p, Views, limit);
    }
  }

  /** Reference characterisation of the search: the `limit` most viewed matching
      articles, taken from ANY arrangement of the matches by views, ties in id order. */
  lemma SearchCharacterised(t: Tables, query: string, sorted: seq<Article>, limit: nat)
    requires Valid(t)
    requires multiset(sorted) == multiset(Filter(ArticleRows(t), (a: Article) => Matches(a, query)))
    requires StablyOrdered(sorted, Views, ArticleId)
    ensures SearchArticles(t, query, limit) == Window(sorted, 0, limit)
  {
    ArticleQueryCharacterised(t, (a: Article) => Matches(a, query), Views, sorted, 0, limit);
  }

  /** The search ignores the case of the query: searching for it and for its
      lower-cased form gives the same articles in the same order. */
  lemma SearchIgnoresQueryCase(t: Tables, query: string, limit: nat)
    requires Valid(t)
    ensures SearchArticles(t, query, limit) == SearchArticles(t, Lower(query), limit)
  {
    LowerIdempotent(query);
    var rows := ArticleRows(t);
    FilterSame(rows, (a: Article) => Matches(a, query), (a: Article) => Matches(a, Lower(query)));
  }

  /** An empty query matches every article, so it ranks the whole store by views:
      the search returns what `getPopularArticles` returns for the same limit. */
  lemma SearchEmptyQuery(t: Tables, limit: nat)
    requires Valid(t)
    ensures SearchArticles(t, "", limit) == GetPopularArticles(t, limit)
  {
    var rows := ArticleRows(t);
    forall i | 0 <= i < |rows| ensures Matches(rows[i], "") {
      ContainsEmpty(Lower(rows[i].title));
    }
    FilterAll(rows, (a: Article) => Matches(a, ""));
    FilterAll(rows, All);
  }

  // ---------------------------------------------------------------- comments and news

  /** `getCommentsByArticle(articleId)`: all of that article's comments, newest first. */
  function GetCommentsByArticle(t: Tables, articleId: int): (r: seq<Comment>)
    requires Valid(t)
    ensures forall i :: 0 <= i < |r| ==>
      r[i].articleId == articleId && r[i].id in t.comments && t.comments[r[i].id] == r[i]
    ensures forall k | k in t.comments && t.comments[k].articleId == articleId :: t.comments[k] in r
    ensures StablyOrdered(r, CreatedAt, CommentId)
  {
    SortedFilterOfDense(t.comments, t.commentIdCounter, CommentId, (c: Comment) => c.articleId == articleId, CreatedAt);
    SortDesc(Filter(CommentRows(t), (c: Comment) => c.articleId == articleId), CreatedAt)
  }

  /** `getLatestNews(limit)`: the newest news items. */
  function GetLatestNews(t: Tables, limit: nat): (r: seq<News>)
    requires Valid(t)
    ensures |r| == Min(limit, t.newsIdCounter - 1)
    ensures forall i :: 0 <= i < |r| ==> r[i].id in t.news && t.news[r[i].id] == r[i]
    ensures StablyOrdered(r, NewsPublishedAt, NewsId)
  {
    RowsOfDense(t.news, t.newsIdCounter, NewsId);
    SortedWindow(NewsRows(t), NewsPublishedAt, NewsId, 0, limit);
    Window(SortDesc(NewsRows(t), NewsPublishedAt), 0, limit)
  }

  /** Reference characterisation of the latest news: arrange every stored item
      newest first, ties in ascending id order; the result is the first `limit`
      of that arrangement. */
  lemma LatestNewsCharacterised(t: Tables, sorted: seq<News>, limit: nat)
    requires Valid(t)
    requires multiset(sorted) == multiset(NewsRows(t))
    requires StablyOrdered(sorted, NewsPublishedAt, NewsId)
    ensures GetLatestNews(t, limit) == Window(sorted, 0, limit)
  {
    RowsOfDense(t.news, t.newsIdCounter, NewsId);
    SortCharacterised(NewsRows(t), sorted, NewsPublishedAt, NewsId);
  }

  // ---------------------------------------------------------------- join

  /** Both foreign keys of `a` resolve. */
  predicate Resolves(t: Tables, a: Article) {
    a.authorId in t.users && a.categoryId in t.categories
  }

  /** `articles[i]` is the first article of the list that does not resolve. */
  predicate FirstUnresolved(t: Tables, articles: seq<Article>, i: int) {
    && 0 <= i < |articles| && !Resolves(t, articles[i])
    && forall j :: 0 <= j < i ==> Resolves(t, articles[j])
  }

  /** One article with its author and category, or the integrity error when either is missing. */
  function Enrich(t: Tables, a: Article): (r: Result<ArticleWithRelations, StoreError>)
    ensures r.Success? <==> Resolves(t, a)
    ensures r.Success? ==>
      r.value == ArticleWithRelations(a, t.users[a.authorId], t.categories[a.categoryId])
    ensures Valid(t) && r.Success? ==> r.value.author.id == a.authorId && r.value.category.id == a.categoryId
    ensures r.Failure? ==> r.error == MissingRelations(a.id)
  {
    match (GetUser(t, a.authorId), GetCategory(t, a.categoryId))
    case (Some(author), Some(category)) => Success(ArticleWithRelations(a, author, category))
    case _ => Failure(MissingRelations(a.id))
  }

  /** `getArticleWithRelations(slug)`: nothing for an unknown slug, the integrity
      error when the article's author or category is missing, else the joined record. */
  function GetArticleWithRelations(t: Tables, slug: string): (r: Result<Option<ArticleWithRelations>, StoreError>)
    requires Valid(t)
    ensures (forall k | k in t.articles :: t.articles[k].slug != slug) ==> r == Success(None)
    ensures r.Success? && r.value.Some? ==>
      && StoredArticle(t, r.value.value.article)
      && r.value.value.article.slug == slug
      && r.value.value.author.id == r.value.value.article.authorId
      && r.value.value.category.id == r.value.value.article.categoryId
    ensures GetArticleBySlug(t, slug).Some? ==>
      var a := GetArticleBySlug(t, slug).value;
      (r.Failure? <==> !Resolves(t, a)) && (r.Failure? ==> r.error == MissingRelations(a.id))
    ensures GetArticleBySlug(t, slug).Some? && r.Success? ==>
      var a := GetArticleBySlug(t, slug).value;
      r.value == Some(ArticleWithRelations(a, t.users[a.authorId], t.categories[a.categoryId]))
  {
    match GetArticleBySlug(t, slug)
    case None => Success(None)
    case Some(a) =>
      match Enrich(t, a)
      case Failure(e) => Failure(e)
      case Success(x) => Success(Some(x))
  }

  /** `Promise.all` over the joins of a list: the joined list when every article
      resolves, otherwise the error of the first one that does not. */
  function EnrichAll(t: Tables, articles: seq<Article>): (r: Result<seq<ArticleWithRelations>, StoreError>)
    ensures r.Success? <==> forall i :: 0 <= i < |articles| ==> Resolves(t, articles[i])
    ensures r.Success? ==> |r.value| == |articles|
    ensures r.Success? ==> forall i :: 0 <= i < |articles| ==> r.value[i] == Enrich(t, articles[i]).value
    ensures r.Failure? ==>
      exists i :: FirstUnresolved(t, articles, i) && r.error == MissingRelations(articles[i].id)
  {
    if articles == [] then Success([])
    else
      match Enrich(t, articles[0])
      case Failure(e) => Failure(e)
      case Success(x) =>
        match EnrichAll(t, articles[1..])
        case Failure(e) =>
          ghost var i :| FirstUnresolved(t, articles[1..], i) && e == MissingRelations(articles[1..][i].id);
          assert FirstUnresolved(t, articles, i + 1);
          Failure(e)
        case Success(xs) => Success([x] + xs)
  }

  /** `getArticlesWithRelations(limit, offset)`: the joins of the `getArticles` page. */
  function GetArticlesWithRelations(t: Tables, limit: nat, offset: nat): (r: Result<seq<ArticleWithRelations>, StoreError>)
    requires Valid(t)
    ensures var page := GetArticles(t, limit, offset);
      && (r.Success? <==> forall i :: 0 <= i < |page| ==> Resolves(t, page[i]))
      && (r.Success? ==> |r.value| == |page| && forall i :: 0 <= i < |page| ==>
            r.value[i].article == page[i]
            && r.value[i].author.id == page[i].authorId
            && r.value[i].category.id == page[i].categoryId
            && r.value[i].author == t.users[page[i].authorId]
            && r.value[i].category == t.categories[page[i].categoryId])
  {
    EnrichAll(t, GetArticles(t, limit, offset))
  }
}
