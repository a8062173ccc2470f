/** The seed data the store loads when it is constructed (six categories, one
    administrator, six articles, three tools and three news items), and the
    state it produces. Every `new Date()` of the seeding is the one clock
    reading `now`. */
module Seeding {
  import opened Wrappers
  import opened Records
  import opened StoreState
  import opened Listing
  import Mutations
  import Queries

  // ---------------------------------------------------------------- seed data

  /** What `initializeData` loads, list by list. */
  datatype Seed = Seed(
    categories: seq<CategoryInput>,
    admin: UserInput,
    articles: seq<ArticleInput>,
    tools: seq<ToolInput>,
    news: seq<NewsInput>)

  /** The store's own seed data. Every article is dated with the clock reading
        taken while the list is built, names author 1, and carries a view count,
        which `createArticle` discards. */
  function StoreSeed(now: Timestamp): Seed {
    Seed(CategorySeed(), AdminSeed(), ArticleSeed(now), ToolSeed(), NewsSeed())
  }

  function CategorySeed(): seq<CategoryInput> {
    [
      CategoryInput(
        "الاستثمار", "investing",
        Some("نصائح وإرشادات للاستثمار في مختلف المجالات"), Some("chart-line")),
      CategoryInput(
        "التوفير", "savings",
        Some("استراتيجيات للتوفير وإدارة المصاريف"), Some("piggy-bank")),
      CategoryInput(
        "التكنولوجيا المالية", "fintech",
        Some("أحدث التطورات في مجال التكنولوجيا المالية"), Some("mobile-alt")),
      CategoryInput(
        "العملات الرقمية", "crypto",
        Some("كل ما يتعلق بالعملات الرقمية والبلوكتشين"), Some("coins")),
      CategoryInput(
        "العقارات", "realestate",
        Some("الاستثمار العقاري والتمويل العقاري"), Some("home")),
      CategoryInput(
        "التخطيط المالي", "planning",
        Some("التخطيط المالي للمستقبل والتقاعد"), Some("map"))
    ]
  }

  function AdminSeed(): UserInput {
    UserInput(
      "admin", "adminpassword", "admin@maltak.com", "أحمد الشريف",
      Some("https://randomuser.me/api/portraits/men/1.jpg"), Some("admin"))
  }

  /** The words of one seeded article: everything but its links and counters. */
  datatype ArticleText = ArticleText(
    title: string, slug: string, excerpt: string, content: string, featuredImage: string)

  /** The words of the six seeded articles, one field per article. */
  datatype ArticleTexts = ArticleTexts(
    investing: ArticleText, budgetApps: ArticleText, funds: ArticleText,
    cryptoFuture: ArticleText, independence: ArticleText, cryptoGuide: ArticleText)

  /** A seeded article: written by the administrator (user 1) and dated `now`. */
  function SeedArticle(x: ArticleText, categoryId: int, readingTime: int, views: int,
                       isFeatured: bool, now: Timestamp): ArticleInput {
    ArticleInput(x.title, x.slug, x.excerpt, x.content, Some(x.featuredImage), 1, categoryId,
                 Some(readingTime), Some(views), Some(isFeatured), Some(now))
  }

  /** The seeded articles in the order they are created, with their categories,
      reading times, view counts and featured flags. */
  function ArticlesOf(x: ArticleTexts, now: Timestamp): seq<ArticleInput> {
    [ SeedArticle(x.investing, 1, 12, 1500, true, now),
      SeedArticle(x.budgetApps, 3, 5, 800, false, now),
      SeedArticle(x.funds, 1, 8, 650, false, now),
      SeedArticle(x.cryptoFuture, 4, 10, 1200, false, now),
      SeedArticle(x.independence, 6, 12, 15200, false, now),
      SeedArticle(x.cryptoGuide, 4, 18, 12750, false, now) ]
  }

  function ArticleSeed(now: Timestamp): seq<ArticleInput> {
    ArticlesOf(ArticleWords(), now)
  }

  function ArticleWords(): ArticleTexts {
    ArticleTexts(
      ArticleText(
        "كيف تبدأ رحلة الاستثمار الخاصة بك في سوق الأسهم العربية",
        "how-to-start-investing-in-arab-stock-markets",
        "دليل شامل للمبتدئين لفهم أساسيات التداول، واختيار المنصات المناسبة، وبناء محفظة استثمارية متوازنة تناسب أهدافك المالية.",
        "## مقدمة في الاستثمار\n\nيعتبر الاستثمار في الأسهم من أكثر الطرق فعالية لتنمية الثروة على المدى الطويل. ولكن قبل أن تبدأ، يجب أن تفهم الأساسيات...",
        "https://images.unsplash.com/photo-1460925895917-afdab827c52f?ixlib=rb-4.0.3&auto=format&fit=crop&w=800&h=500&q=80"),
      ArticleText(
        "أفضل 5 تطبيقات للميزانية والادخار في 2023",
        "best-5-budgeting-apps-2023",
        "اكتشف أحدث التطبيقات التي تساعدك على تتبع مصاريفك وتحقيق أهدافك المالية بسهولة من هاتفك.",
        "## أهمية إدارة الميزانية الشخصية\n\nتعتبر إدارة الميزانية الشخصية الخطوة الأولى نحو الاستقرار المالي...",
        "https://images.unsplash.com/photo-1591696205602-2f950c417cb9?ixlib=rb-4.0.3&auto=format&fit=crop&w=500&h=300&q=80"),
      ArticleText(
        "دليل الصناديق الاستثمارية: كيف تختار الصندوق المناسب؟",
        "investment-funds-guide",
        "شرح مفصل لأنواع الصناديق الاستثمارية المتاحة في المنطقة العربية وكيفية اختيار ما يناسب أهدافك المالية.",
        "## أنواع الصناديق الاستثمارية\n\nتتنوع الصناديق الاستثمارية لتشمل صناديق الأسهم، وصناديق السندات، والصناديق المختلطة...",
        "https://images.unsplash.com/photo-1565514020179-026b92b2ed86?ixlib=rb-4.0.3&auto=format&fit=crop&w=500&h=300&q=80"),
      ArticleText(
        "مستقبل العملات الرقمية في العالم العربي",
        "future-of-cryptocurrencies-in-arab-world",
        "نظرة على تطور البلوكتشين والعملات الرقمية في الدول العربية والفرص المتاحة للمستثمرين.",
        "## تطور العملات الرقمية\n\nشهدت السنوات الأخيرة تطوراً ملحوظاً في تقنية البلوكتشين والعملات الرقمية في المنطقة العربية...",
        "https://images.unsplash.com/photo-1544377193-33dcf4d68fb5?ixlib=rb-4.0.3&auto=format&fit=crop&w=500&h=300&q=80"),
      ArticleText(
        "خطة مالية لتحقيق الاستقلال المالي قبل سن الأربعين",
        "financial-plan-for-independence-before-40",
        "استراتيجيات عملية للاستثمار والادخار تمكنك من تحقيق الحرية المالية مبكراً.",
        "## ما هو الاستقلال المالي؟\n\nالاستقلال المالي هو الوصول إلى مرحلة لا تحتاج فيها إلى العمل للحصول على المال...",
        "https://images.unsplash.com/photo-1579532537598-459ecdaf39cc?ixlib=rb-4.0.3&auto=format&fit=crop&w=300&h=300&q=80"),
      ArticleText(
        "دليل المبتدئين الشامل للاستثمار في العملات الرقمية",
        "complete-beginners-guide-to-cryptocurrency-investment",
        "كل ما تحتاج معرفته لبدء الاستثمار في البيتكوين والعملات الرقمية الأخرى بأمان.",
        "## مقدمة إلى العملات الرقمية\n\nالعملات الرقمية هي أصول رقمية مصممة للعمل كوسيلة للتبادل باستخدام التشفير...",
        "https://images.unsplash.com/photo-1607270788732-55d57ac2f424?ixlib=rb-4.0.3&auto=format&fit=crop&w=300&h=300&q=80"))
  }

  function ToolSeed(): seq<ToolInput> {
    [
      ToolInput(
        "حاسبة القروض", "loan-calculator",
        "حساب الأقساط الشهرية وإجمالي الفوائد على القروض الشخصية والعقارية.",
        "calculator", "calculator"),
      ToolInput(
        "حاسبة التوفير", "savings-calculator",
        "تخطيط أهداف التوفير وحساب المبلغ المطلوب توفيره شهرياً لتحقيق هدفك.",
        "piggy-bank", "calculator"),
      ToolInput(
        "مخطط الميزانية", "budget-planner",
        "إنشاء ميزانية شهرية متوازنة تساعدك على تنظيم مصاريفك وتحقيق أهدافك المالية.",
        "chart-pie", "planner")
    ]
  }

  function NewsSeed(): seq<NewsInput> {
    [
      NewsInput(
        "البنك المركزي يخفض أسعار الفائدة بنسبة 0.25%",
        "وكالة الأنباء الاقتصادية",
        "أعلن البنك المركزي اليوم عن خفض سعر الفائدة الرئيسي بنسبة 0.25% في خطوة تهدف إلى تحفيز النمو الاقتصادي."),
      NewsInput(
        "ارتفاع مؤشر سوق الأسهم بنسبة 1.2% في ختام التعاملات",
        "بورصة الأوراق المالية",
        "ارتفع المؤشر العام للسوق بنسبة 1.2% في ختام جلسة اليوم، مدفوعاً بأداء قوي لقطاعي البنوك والاتصالات."),
      NewsInput(
        "إطلاق صندوق استثماري جديد بقيمة 500 مليون ريال",
        "شركة الاستثمارات المالية",
        "أعلنت شركة الاستثمارات المالية عن إطلاق صندوق استثماري جديد يستهدف قطاع التكنولوجيا برأس مال قدره 500 مليون ريال.")
    ]
  }

  // ---------------------------------------------------------------- the seeding loops

  /** `inputs.forEach(c => this.createCategory(c))`. */
  function CreateCategories(t: Tables, inputs: seq<CategoryInput>): (r: Tables)
    ensures r.categoryIdCounter == t.categoryIdCounter + |inputs|
    ensures r.(categories := t.categories, categoryIdCounter := t.categoryIdCounter) == t
    ensures Valid(t) ==> Valid(r)
    decreases |inputs|
  {
    if inputs == [] then t
    else Mutations.CreateCategory(CreateCategories(t, inputs[..|inputs| - 1]), inputs[|inputs| - 1]).0
  }

  /** `inputs.forEach(a => this.createArticle(a))`, every call reading the clock as `now`. */
  function CreateArticles(t: Tables, inputs: seq<ArticleInput>, now: Timestamp): (r: Tables)
    ensures r.articleIdCounter == t.articleIdCounter + |inputs|
    ensures r.(articles := t.articles, articleIdCounter := t.articleIdCounter) == t
    ensures Valid(t) ==> Valid(r)
    decreases |inputs|
  {
    if inputs == [] then t
    else Mutations.CreateArticle(CreateArticles(t, inputs[..|inputs| - 1], now), inputs[|inputs| - 1], now).0
  }

  /** `inputs.forEach(x => this.createTool(x))`. */
  function CreateTools(t: Tables, inputs: seq<ToolInput>): (r: Tables)
    ensures r.toolIdCounter == t.toolIdCounter + |inputs|
    ensures r.(tools := t.tools, toolIdCounter := t.toolIdCounter) == t
    ensures Valid(t) ==> Valid(r)
    decreases |inputs|
  {
    if inputs == [] then t
    else Mutations.CreateTool(CreateTools(t, inputs[..|inputs| - 1]), inputs[|inputs| - 1]).0
  }

  /** `inputs.forEach(n => this.createNews(n))`, every call reading the clock as `now`. */
  function CreateNewsItems(t: Tables, inputs: seq<NewsInput>, now: Timestamp): (r: Tables)
    ensures r.newsIdCounter == t.newsIdCounter + |inputs|
    ensures r.(news := t.news, newsIdCounter := t.newsIdCounter) == t
    ensures Valid(t) ==> Valid(r)
    decreases |inputs|
  {
    if inputs == [] then t
    else Mutations.CreateNews(CreateNewsItems(t, inputs[..|inputs| - 1], now), inputs[|inputs| - 1], now).0
  }

  /** Creating a list of articles files the `j`-th of them under the `j`-th id
      the counter hands out next, as `createArticle` builds it. */
  lemma {:induction false} ArticleCreated(t: Tables, inputs: seq<ArticleInput>, now: Timestamp, j: int)
    requires 0 <= j < |inputs|
    ensures var r := CreateArticles(t, inputs, now);
      && t.articleIdCounter + j in r.articles
      && r.articles[t.articleIdCounter + j] == Mutations.NewArticle(t.articleIdCounter + j, inputs[j], now)
    decreases |inputs|
  {
    var n := |inputs|;
    var prefix := inputs[..n - 1];
    var before := CreateArticles(t, prefix, now);
    var created := Mutations.CreateArticle(before, inputs[n - 1], now);
    assert CreateArticles(t, inputs, now) == created.0;
    if j < n - 1 {
      ArticleCreated(t, prefix, now, j);
      assert prefix[j] == inputs[j];
    } else {
      assert created.1 == Mutations.NewArticle(before.articleIdCounter, inputs[n - 1], now);
    }
  }

  /** Creating a list of categories files the `j`-th of them under the `j`-th id
      the counter hands out next. */
  lemma {:induction false} CategoryCreated(t: Tables, inputs: seq<CategoryInput>, j: int)
    requires 0 <= j < |inputs|
    ensures var r := CreateCategories(t, inputs);
      && t.categoryIdCounter + j in r.categories
      && r.categories[t.categoryIdCounter + j] == inputs[j].WithId(t.categoryIdCounter + j)
    decreases |inputs|
  {
    var n := |inputs|;
    var prefix := inputs[..n - 1];
    if j < n - 1 {
      CategoryCreated(t, prefix, j);
      assert prefix[j] == inputs[j];
    }
  }

  /** The same for tools. */
  lemma {:induction false} ToolCreated(t: Tables, inputs: seq<ToolInput>, j: int)
    requires 0 <= j < |inputs|
    ensures var r := CreateTools(t, inputs);
      && t.toolIdCounter + j in r.tools
      && r.tools[t.toolIdCounter + j] == inputs[j].WithId(t.toolIdCounter + j)
    decreases |inputs|
  {
    var n := |inputs|;
    var prefix := inputs[..n - 1];
    if j < n - 1 {
      ToolCreated(t, prefix, j);
      assert prefix[j] == inputs[j];
    }
  }

  /** The same for news items, each published at `now`. */
  lemma {:induction false} NewsItemCreated(t: Tables, inputs: seq<NewsInput>, now: Timestamp, j: int)
    requires 0 <= j < |inputs|
    ensures var r := CreateNewsItems(t, inputs, now);
      && t.newsIdCounter + j in r.news
      && r.news[t.newsIdCounter + j] ==
           News(t.newsIdCounter + j, inputs[j].title, inputs[j].source, inputs[j].content, now)
    decreases |inputs|
  {
    var n := |inputs|;
    var prefix := inputs[..n - 1];
    if j < n - 1 {
      NewsItemCreated(t, prefix, now, j);
      assert prefix[j] == inputs[j];
    }
  }

  /** `initializeData` on the given seed: categories, then the administrator, then
      articles, tools and news. The administrator's id is not used: every seed
      article names author 1. */
  function InitializeData(t: Tables, seed: Seed, now: Timestamp): (r: Tables)
    ensures Valid(t) ==> Valid(r)
  {
    var withCategories := CreateCategories(t, seed.categories);
    var withAdmin := Mutations.CreateUser(withCategories, seed.admin).0;
    var withArticles := CreateArticles(withAdmin, seed.articles, now);
    var withTools := CreateTools(withArticles, seed.tools);
    CreateNewsItems(withTools, seed.news, now)
  }

  /** The state of a newly constructed store. */
  function NewStore(now: Timestamp): Tables {
    InitializeData(Empty(), StoreSeed(now), now)
  }

  // ---------------------------------------------------------------- the seeded state

  /** Seeding an empty store gives every list its ids from 1 in list order, the
      administrator id 1, and no comments or subscriptions; its articles are
      exactly the seed articles, each with 0 views. */
  lemma SeededFromEmpty(seed: Seed, now: Timestamp)
    ensures var s := InitializeData(Empty(), seed, now);
      && Valid(s)
      && s.categoryIdCounter == 1 + |seed.categories|
      && s.userIdCounter == 2 && s.users == map[1 := seed.admin.WithId(1)]
      && s.articleIdCounter == 1 + |seed.articles|
      && s.toolIdCounter == 1 + |seed.tools|
      && s.newsIdCounter == 1 + |seed.news|
      && s.comments == map[] && s.commentIdCounter == 1
      && s.newsletters == map[] && s.newsletterIdCounter == 1
      && (forall j :: 0 <= j < |seed.categories| ==>
           s.categories[j + 1] == seed.categories[j].WithId(j + 1))
      && (forall j :: 0 <= j < |seed.articles| ==>
           s.articles[j + 1] == Mutations.NewArticle(j + 1, seed.articles[j], now))
      && (forall j :: 0 <= j < |seed.tools| ==>
           s.tools[j + 1] == seed.tools[j].WithId(j + 1))
      && (forall j :: 0 <= j < |seed.news| ==>
           s.news[j + 1] == News(j + 1, seed.news[j].title, seed.news[j].source, seed.news[j].content, now))
  {
    SeededCounters(seed, now);
    SeededCategories(seed, now);
    SeededArticles(seed, now);
    SeededTools(seed, now);
    SeededNews(seed, now);
  }

  /** The counters, the administrator and the empty tables of a seeded store. */
  lemma SeededCounters(seed: Seed, now: Timestamp)
    ensures var s := InitializeData(Empty(), seed, now);
      && Valid(s)
      && s.categoryIdCounter == 1 + |seed.categories|
      && s.userIdCounter == 2 && s.users == map[1 := seed.admin.WithId(1)]
      && s.articleIdCounter == 1 + |seed.articles|
      && s.toolIdCounter == 1 + |seed.tools|
      && s.newsIdCounter == 1 + |seed.news|
      && s.comments == map[] && s.commentIdCounter == 1
      && s.newsletters == map[] && s.newsletterIdCounter == 1
  {
    var withCategories := CreateCategories(Empty(), seed.categories);
    assert withCategories.users == map[] && withCategories.userIdCounter == 1;
  }

  lemma SeededCategories(seed: Seed, now: Timestamp)
    ensures var s := InitializeData(Empty(), seed, now);
      forall j :: 0 <= j < |seed.categories| ==>
        j + 1 in s.categories && s.categories[j + 1] == seed.categories[j].WithId(j + 1)
  {
    var withCategories := CreateCategories(Empty(), seed.categories);
    forall j | 0 <= j < |seed.categories|
      ensures j + 1 in withCategories.categories
      ensures withCategories.categories[j + 1] == seed.categories[j].WithId(j + 1)
    {
      CategoryCreated(Empty(), seed.categories, j);
    }
  }

  lemma SeededArticles(seed: Seed, now: Timestamp)
    ensures var s := InitializeData(Empty(), seed, now);
      forall j :: 0 <= j < |seed.articles| ==>
        j + 1 in s.articles && s.articles[j + 1] == Mutations.NewArticle(j + 1, seed.articles[j], now)
  {
    var withCategories := CreateCategories(Empty(), seed.categories);
    var withAdmin := Mutations.CreateUser(withCategories, seed.admin).0;
    var withArticles := CreateArticles(withAdmin, seed.articles, now);
    assert withAdmin.articleIdCounter == 1;
    forall j | 0 <= j < |seed.articles|
      ensures j + 1 in withArticles.articles
      ensures withArticles.articles[j + 1] == Mutations.NewArticle(j + 1, seed.articles[j], now)
    {
      ArticleCreated(withAdmin, seed.articles, now, j);
    }
  }

  lemma SeededTools(seed: Seed, now: Timestamp)
    ensures var s := InitializeData(Empty(), seed, now);
      forall j :: 0 <= j < |seed.tools| ==>
        j + 1 in s.tools && s.tools[j + 1] == seed.tools[j].WithId(j + 1)
  {
    var withCategories := CreateCategories(Empty(), seed.categories);
    var withAdmin := Mutations.CreateUser(withCategories, seed.admin).0;
    var withArticles := CreateArticles(withAdmin, seed.articles, now);
    var withTools := CreateTools(withArticles, seed.tools);
    assert withArticles.toolIdCounter == 1;
    forall j | 0 <= j < |seed.tools|
      ensures j + 1 in withTools.tools
      ensures withTools.tools[j + 1] == seed.tools[j].WithId(j + 1)
    {
      ToolCreated(withArticles, seed.tools, j);
    }
  }

  lemma SeededNews(seed: Seed, now: Timestamp)
    ensures var s := InitializeData(Empty(), seed, now);
      forall j :: 0 <= j < |seed.news| ==>
        && j + 1 in s.news
        && s.news[j + 1] == News(j + 1, seed.news[j].title, seed.news[j].source, seed.news[j].content, now)
  {
    var withCategories := CreateCategories(Empty(), seed.categories);
    var withAdmin := Mutations.CreateUser(withCategories, seed.admin).0;
    var withArticles := CreateArticles(withAdmin, seed.articles, now);
    var withTools := CreateTools(withArticles, seed.tools);
    assert withTools.newsIdCounter == 1;
    forall j | 0 <= j < |seed.news|
      ensures j + 1 in InitializeData(Empty(), seed, now).news
      ensures InitializeData(Empty(), seed, now).news[j + 1] ==
              News(j + 1, seed.news[j].title, seed.news[j].source, seed.news[j].content, now)
    {
      NewsItemCreated(withTools, seed.news, now, j);
    }
  }

  /** Every seed article names author 1, the administrator, and one of the
      seed categories by its position in the list. */
  ghost predicate WellLinked(seed: Seed) {
    forall j :: 0 <= j < |seed.articles| ==>
      seed.articles[j].authorId == 1 && 1 <= seed.articles[j].categoryId <= |seed.categories|
  }

  /** Every stored article's author and category exist. */
  ghost predicate AllResolve(t: Tables) {
    forall k | k in t.articles :: Queries.Resolves(t, t.articles[k])
  }

  /** The seeded articles name author 1 and categories 1, 3, 1, 4, 6 and 4, so
      they are well linked beside any six categories, whatever their words. */
  lemma ArticlesOfWellLinked(categories: seq<CategoryInput>, admin: UserInput, x: ArticleTexts,
                             tools: seq<ToolInput>, news: seq<NewsInput>, now: Timestamp)
    requires |categories| == 6
    ensures WellLinked(Seed(categories, admin, ArticlesOf(x, now), tools, news))
  {
  }

  /** The store's own seed data is well linked. */
  lemma StoreSeedWellLinked(now: Timestamp)
    ensures WellLinked(StoreSeed(now))
  {
    SeedListsWellLinked(now);
  }

  /** The same, for the five lists `StoreSeed` bundles. */
  lemma SeedListsWellLinked(now: Timestamp)
    ensures WellLinked(Seed(CategorySeed(), AdminSeed(), ArticleSeed(now), ToolSeed(), NewsSeed()))
  {
    CategorySeedSize();
    ArticlesOfWellLinked(CategorySeed(), AdminSeed(), ArticleWords(), ToolSeed(), NewsSeed(), now);
  }

  lemma CategorySeedSize()
    ensures |CategorySeed()| == 6
  {
  }

  /** Seeding an empty store with a well-linked seed leaves no dangling author
      or category. */
  lemma SeededResolves(seed: Seed, now: Timestamp)
    requires WellLinked(seed)
    ensures AllResolve(InitializeData(Empty(), seed, now))
  {
    SeededCounters(seed, now);
    SeededArticles(seed, now);
    var s := InitializeData(Empty(), seed, now);
    forall k | k in s.articles ensures Queries.Resolves(s, s.articles[k]) {
      assert s.articles[k] == Mutations.NewArticle(k, seed.articles[k - 1], now);
    }
  }

  /** Hence the join over any page of a store seeded so never fails. */
  lemma SeededJoinsSucceed(seed: Seed, now: Timestamp, limit: nat, offset: nat)
    requires WellLinked(seed)
    ensures Valid(InitializeData(Empty(), seed, now))
    ensures Queries.GetArticlesWithRelations(InitializeData(Empty(), seed, now), limit, offset).Success?
  {
    SeededResolves(seed, now);
    JoinsSucceed(InitializeData(Empty(), seed, now), limit, offset);
  }

  /** In a store where every article resolves, `getArticlesWithRelations` never
      throws. */
  lemma JoinsSucceed(t: Tables, limit: nat, offset: nat)
    requires Valid(t) && AllResolve(t)
    ensures Queries.GetArticlesWithRelations(t, limit, offset).Success?
  {
    var page := Queries.GetArticles(t, limit, offset);
    forall i | 0 <= i < |page| ensures Queries.Resolves(t, page[i]) {
      assert Queries.StoredArticle(t, page[i]);
    }
  }

  /** A new store's articles all resolve. */
  lemma NewStoreResolves(now: Timestamp)
    ensures AllResolve(NewStore(now))
  {
    StoreSeedWellLinked(now);
    SeededResolves(StoreSeed(now), now);
  }

  /** On a new store, `getArticlesWithRelations` succeeds for every page. */
  lemma NewStoreJoinsSucceed(now: Timestamp, limit: nat, offset: nat)
    ensures Valid(NewStore(now))
    ensures Queries.GetArticlesWithRelations(NewStore(now), limit, offset).Success?
  {
    StoreSeedWellLinked(now);
    SeededJoinsSucceed(StoreSeed(now), now, limit, offset);
  }

  /** A new store satisfies the store invariant. */
  lemma NewStoreValid(now: Timestamp)
    ensures Valid(NewStore(now))
  {
    SeededValid(StoreSeed(now), now);
  }

  lemma SeededValid(seed: Seed, now: Timestamp)
    ensures Valid(InitializeData(Empty(), seed, now))
  {
  }

  /** No article has been viewed yet. */
  ghost predicate Unviewed(t: Tables) {
    forall k | k in t.articles :: t.articles[k].views == 0
  }

  /** A new store's articles all have 0 views: the view counts written in the
      seed never reach the store. */
  lemma NewStoreUnviewed(now: Timestamp)
    ensures Unviewed(NewStore(now))
  {
    SeededUnviewed(StoreSeed(now), now);
  }

  /** Every article of a seeded store starts with 0 views and is published at
      the seed's date or, without one, `now`. */
  lemma SeededUnviewed(seed: Seed, now: Timestamp)
    ensures Unviewed(InitializeData(Empty(), seed, now))
    ensures var s := InitializeData(Empty(), seed, now);
      forall k | k in s.articles :: s.articles[k].publishedAt == seed.articles[k - 1].publishedAt.GetOr(now)
  {
    SeededFromEmpty(seed, now);
    var s := InitializeData(Empty(), seed, now);
    forall k | k in s.articles
      ensures s.articles[k].views == 0 && s.articles[k].publishedAt == seed.articles[k - 1].publishedAt.GetOr(now)
    {
      assert s.articles[k] == Mutations.NewArticle(k, seed.articles[k - 1], now);
    }
  }

  /** With no article viewed, "most viewed first" is id order: the ranking
      falls back on the stable sort's tie order. */
  lemma PopularWhenUnviewed(t: Tables, limit: nat)
    requires Valid(t) && Unviewed(t)
    ensures Queries.GetPopularArticles(t, limit) == Window(ArticleRows(t), 0, limit)
  {
    var rows := ArticleRows(t);
    RowsOfDense(t.articles, t.articleIdCounter, ArticleId);
    FilterAll(rows, Queries.All);
    forall i | 0 <= i < |rows| ensures Views(rows[i]) == 0 {
      assert rows[i] == t.articles[i + 1];
    }
    SortConstantKey(rows, Views, 0);
  }

  /** With every article published at the same moment, "newest first" is id
      order. */
  lemma NewestWhenSameDate(t: Tables, date: Timestamp, limit: nat, offset: nat)
    requires Valid(t)
    requires forall k | k in t.articles :: t.articles[k].publishedAt == date
    ensures Queries.GetArticles(t, limit, offset) == Window(ArticleRows(t), offset, limit)
  {
    var rows := ArticleRows(t);
    RowsOfDense(t.articles, t.articleIdCounter, ArticleId);
    FilterAll(rows, Queries.All);
    forall i | 0 <= i < |rows| ensures PublishedAt(rows[i]) == date {
      assert rows[i] == t.articles[i + 1];
    }
    SortConstantKey(rows, PublishedAt, date);
  }

  /** On a seeded store the popular list is the seed articles in list order,
      whatever view counts the seed gives them. */
  lemma SeededPopular(seed: Seed, now: Timestamp, limit: nat)
    ensures Valid(InitializeData(Empty(), seed, now))
    ensures Queries.GetPopularArticles(InitializeData(Empty(), seed, now), limit) ==
            Window(ArticleRows(InitializeData(Empty(), seed, now)), 0, limit)
  {
    SeededUnviewed(seed, now);
    PopularWhenUnviewed(InitializeData(Empty(), seed, now), limit);
  }

  lemma NewStorePopular(now: Timestamp, limit: nat)
    ensures Valid(NewStore(now))
    ensures Queries.GetPopularArticles(NewStore(now), limit) == Window(ArticleRows(NewStore(now)), 0, limit)
  {
    SeededPopular(StoreSeed(now), now, limit);
  }
}
