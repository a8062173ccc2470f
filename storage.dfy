/** `MemStorage`, the in-memory store itself: seven maps and seven id counters
    held in fields, written by its methods in place. Each method is proved to
    leave the store in the state its pure counterpart in `Mutations` computes
    from the old state, so every property proved there and in `History`,
    `Queries` and `Seeding` holds of the object. The read operations are the
    functions of `Queries`, applied to `Snapshot()`. */
module Storage {
  import opened Records
  import opened StoreState
  import Mutations
  import Seeding

  class MemStorage {
    var users: map<int, User>
    var categories: map<int, Category>
    var articles: map<int, Article>
    var comments: map<int, Comment>
    var tools: map<int, Tool>
    var newsletters: map<int, Newsletter>
    var news: map<int, News>

    var userIdCounter: int
    var categoryIdCounter: int
    var articleIdCounter: int
    var commentIdCounter: int
    var toolIdCounter: int
    var newsletterIdCounter: int
    var newsIdCounter: int

    /** The fields, as one value. */
    function Snapshot(): Tables
      reads this
    {
      Tables(users, categories, articles, comments, tools, newsletters, news,
             userIdCounter, categoryIdCounter, articleIdCounter, commentIdCounter,
             toolIdCounter, newsletterIdCounter, newsIdCounter)
    }

    ghost predicate Valid()
      reads this
    {
      StoreState.Valid(Snapshot())
    }

    /** Empty maps and every counter at 1, then `initializeData`. The seed is
        a parameter: `Seeding.StoreSeed(now)` is the data the source loads. */
    constructor(seed: Seeding.Seed, now: Timestamp)
      ensures Snapshot() == Seeding.InitializeData(Empty(), seed, now)
      ensures Valid()
    {
      users := map[];
      categories := map[];
      articles := map[];
      comments := map[];
      tools := map[];
      newsletters := map[];
      news := map[];
      userIdCounter := 1;
      categoryIdCounter := 1;
      articleIdCounter := 1;
      commentIdCounter := 1;
      toolIdCounter := 1;
      newsletterIdCounter := 1;
      newsIdCounter := 1;
      new;
      InitializeData(seed, now);
    }

    /** `initializeData`: each seed list loaded in order through the creates. */
    method InitializeData(seed: Seeding.Seed, now: Timestamp)
      modifies this
      ensures Snapshot() == Seeding.InitializeData(old(Snapshot()), seed, now)
      ensures StoreState.Valid(old(Snapshot())) ==> Valid()
    {
      CreateCategories(seed.categories);
      var _ := CreateUser(seed.admin);
      CreateArticles(seed.articles, now);
      CreateTools(seed.tools);
      CreateNewsItems(seed.news, now);
    }

    /** `categoryData.forEach(category => this.createCategory(category))`. */
    method CreateCategories(inputs: seq<CategoryInput>)
      modifies this
      ensures Snapshot() == Seeding.CreateCategories(old(Snapshot()), inputs)
    {
      for i := 0 to |inputs|
        invariant Snapshot() == Seeding.CreateCategories(old(Snapshot()), inputs[..i])
      {
        assert inputs[..i + 1][..i] == inputs[..i];
        var _ := CreateCategory(inputs[i]);
      }
      assert inputs[..|inputs|] == inputs;
    }

    /** `articleData.forEach(article => this.createArticle(article))`. */
    method CreateArticles(inputs: seq<ArticleInput>, now: Timestamp)
      modifies this
      ensures Snapshot() == Seeding.CreateArticles(old(Snapshot()), inputs, now)
    {
      for i := 0 to |inputs|
        invariant Snapshot() == Seeding.CreateArticles(old(Snapshot()), inputs[..i], now)
      {
        assert inputs[..i + 1][..i] == inputs[..i];
        var _ := CreateArticle(inputs[i], now);
      }
      assert inputs[..|inputs|] == inputs;
    }

    /** `toolData.forEach(tool => this.createTool(tool))`. */
    method CreateTools(inputs: seq<ToolInput>)
      modifies this
      ensures Snapshot() == Seeding.CreateTools(old(Snapshot()), inputs)
    {
      for i := 0 to |inputs|
        invariant Snapshot() == Seeding.CreateTools(old(Snapshot()), inputs[..i])
      {
        assert inputs[..i + 1][..i] == inputs[..i];
        var _ := CreateTool(inputs[i]);
      }
      assert inputs[..|inputs|] == inputs;
    }

    /** `newsData.forEach(newsItem => this.createNews(newsItem))`. */
    method CreateNewsItems(inputs: seq<NewsInput>, now: Timestamp)
      modifies this
      ensures Snapshot() == Seeding.CreateNewsItems(old(Snapshot()), inputs, now)
    {
      for i := 0 to |inputs|
        invariant Snapshot() == Seeding.CreateNewsItems(old(Snapshot()), inputs[..i], now)
      {
        assert inputs[..i + 1][..i] == inputs[..i];
        var _ := CreateNews(inputs[i], now);
      }
      assert inputs[..|inputs|] == inputs;
    }

    method CreateUser(input: UserInput) returns (user: User)
      modifies this
      ensures (Snapshot(), user) == Mutations.CreateUser(old(Snapshot()), input)
    {
      var id := userIdCounter;
      userIdCounter := userIdCounter + 1;
      user := input.WithId(id);
      users := users[id := user];
    }

    method CreateCategory(input: CategoryInput) returns (category: Category)
      modifies this
      ensures (Snapshot(), category) == Mutations.CreateCategory(old(Snapshot()), input)
    {
      var id := categoryIdCounter;
      categoryIdCounter := categoryIdCounter + 1;
      category := input.WithId(id);
      categories := categories[id := category];
    }

    /** `createArticle`, reading the clock as `now`. */
    method CreateArticle(input: ArticleInput, now: Timestamp) returns (article: Article)
      modifies this
      ensures (Snapshot(), article) == Mutations.CreateArticle(old(Snapshot()), input, now)
    {
      var id := articleIdCounter;
      articleIdCounter := articleIdCounter + 1;
      article := Mutations.NewArticle(id, input, now);
      articles := articles[id := article];
    }

    /** `incrementArticleViews`: an unknown id is ignored. */
    method IncrementArticleViews(id: int)
      modifies this
      ensures Snapshot() == Mutations.IncrementArticleViews(old(Snapshot()), id)
    {
      if id in articles {
        var article := articles[id];
        article := article.(views := article.views + 1);
        articles := articles[id := article];
      }
    }

    /** `createComment`, reading the clock as `now`. */
    method CreateComment(input: CommentInput, now: Timestamp) returns (comment: Comment)
      modifies this
      ensures (Snapshot(), comment) == Mutations.CreateComment(old(Snapshot()), input, now)
    {
      var id := commentIdCounter;
      commentIdCounter := commentIdCounter + 1;
      comment := Comment(id, input.content, input.authorId, input.articleId, now);
      comments := comments[id := comment];
    }

    method CreateTool(input: ToolInput) returns (tool: Tool)
      modifies this
      ensures (Snapshot(), tool) == Mutations.CreateTool(old(Snapshot()), input)
    {
      var id := toolIdCounter;
      toolIdCounter := toolIdCounter + 1;
      tool := input.WithId(id);
      tools := tools[id := tool];
    }

    /** `createNews`, reading the clock as `now`. */
    method CreateNews(input: NewsInput, now: Timestamp) returns (item: News)
      modifies this
      ensures (Snapshot(), item) == Mutations.CreateNews(old(Snapshot()), input, now)
    {
      var id := newsIdCounter;
      newsIdCounter := newsIdCounter + 1;
      item := News(id, input.title, input.source, input.content, now);
      news := news[id := item];
    }

    /** `subscribeToNewsletter`, reading the clock as `now`. */
    method SubscribeToNewsletter(input: NewsletterInput, now: Timestamp) returns (subscription: Newsletter)
      requires Valid()
      modifies this
      ensures Valid()
      ensures (Snapshot(), subscription) == Mutations.Subscribe(old(Snapshot()), input, now)
    {
      var existing := NewsletterByEmail(Snapshot(), input.email);
      if existing.Some? {
        subscription := Reactivate(existing.value);
      } else {
        subscription := AddSubscription(input, now);
      }
    }

    /** The branch for an address on file: an inactive record is set active. */
    method Reactivate(existing: Newsletter) returns (subscription: Newsletter)
      requires Valid() && existing.id in newsletters && newsletters[existing.id] == existing
      modifies this
      ensures Valid()
      ensures subscription == existing.(isActive := true)
      ensures Snapshot() == old(Snapshot()).(newsletters := old(newsletters)[existing.id := subscription])
    {
      ghost var t := Snapshot();
      subscription := existing;
      if !subscription.isActive {
        subscription := subscription.(isActive := true);
        ReplaceNewsletter(t, subscription);
        newsletters := newsletters[subscription.id := subscription];
      } else {
        assert newsletters[existing.id := subscription] == newsletters;
      }
    }

    /** The branch for a new address: a fresh active record under the next id. */
    method AddSubscription(input: NewsletterInput, now: Timestamp) returns (subscription: Newsletter)
      requires Valid()
      modifies this
      ensures Valid()
      ensures subscription == Newsletter(old(newsletterIdCounter), input.email, input.name, true, now)
      ensures Snapshot() == old(Snapshot()).(newsletters := old(newsletters)[subscription.id := subscription],
                                             newsletterIdCounter := old(newsletterIdCounter) + 1)
    {
      ghost var t := Snapshot();
      var id := newsletterIdCounter;
      newsletterIdCounter := newsletterIdCounter + 1;
      subscription := Newsletter(id, input.email, input.name, true, now);
      AddNewsletter(t, subscription);
      newsletters := newsletters[id := subscription];
    }

    /** `unsubscribeFromNewsletter`. */
    method UnsubscribeFromNewsletter(email: string) returns (found: bool)
      requires Valid()
      modifies this
      ensures Valid()
      ensures (Snapshot(), found) == Mutations.Unsubscribe(old(Snapshot()), email)
    {
      var existing := NewsletterByEmail(Snapshot(), email);
      if existing.None? {
        return false;
      }
      var subscription := existing.value.(isActive := false);
      newsletters := newsletters[subscription.id := subscription];
      found := true;
    }
  }

  /** The store as the source constructs it, with its own seed data. */
  method NewMemStorage(now: Timestamp) returns (s: MemStorage)
    ensures fresh(s) && s.Valid()
    ensures s.Snapshot() == Seeding.NewStore(now)
  {
    s := new MemStorage(Seeding.StoreSeed(now), now);
  }
}
