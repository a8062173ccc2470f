/** Any sequence of the store's writes, and what every such history keeps:
    the store invariant, unique newsletter addresses, and records that are never
    removed, never renumbered and changed only in their counters and flags. */
module History {
  import opened Records
  import opened StoreState
  import Mutations

  /** One call of a writing operation, with the clock reading it takes. */
  datatype Op =
    | CreateUserOp(user: UserInput)
    | CreateCategoryOp(category: CategoryInput)
    | CreateArticleOp(article: ArticleInput, now: Timestamp)
    | IncrementViewsOp(articleId: int)
    | CreateCommentOp(comment: CommentInput, now: Timestamp)
    | CreateToolOp(tool: ToolInput)
    | SubscribeOp(subscription: NewsletterInput, now: Timestamp)
    | UnsubscribeOp(email: string)
    | CreateNewsOp(item: NewsInput, now: Timestamp)

  function Step(t: Tables, op: Op): (r: Tables)
    requires Valid(t)
    ensures Valid(r)
  {
    match op
    case CreateUserOp(u) => Mutations.CreateUser(t, u).0
    case CreateCategoryOp(c) => Mutations.CreateCategory(t, c).0
    case CreateArticleOp(a, now) => Mutations.CreateArticle(t, a, now).0
    case IncrementViewsOp(id) => Mutations.IncrementArticleViews(t, id)
    case CreateCommentOp(c, now) => Mutations.CreateComment(t, c, now).0
    case CreateToolOp(x) => Mutations.CreateTool(t, x).0
    case SubscribeOp(n, now) => Mutations.Subscribe(t, n, now).0
    case UnsubscribeOp(email) => Mutations.Unsubscribe(t, email).0
    case CreateNewsOp(n, now) => Mutations.CreateNews(t, n, now).0
  }

  /** The state after the calls of `ops`, in order. */
  function Run(t: Tables, ops: seq<Op>): (r: Tables)
    requires Valid(t)
    ensures Valid(r)
    decreases |ops|
  {
    if ops == [] then t else Step(Run(t, ops[..|ops| - 1]), ops[|ops| - 1])
  }

  lemma RunLast(t: Tables, ops: seq<Op>)
    requires Valid(t) && ops != []
    ensures Run(t, ops) == Step(Run(t, ops[..|ops| - 1]), ops[|ops| - 1])
  {
  }

  /** Running two histories one after the other is running their concatenation. */
  lemma {:induction false} RunAppend(t: Tables, a: seq<Op>, b: seq<Op>)
    requires Valid(t)
    ensures Run(t, a + b) == Run(Run(t, a), b)
    decreases |b|
  {
    if b == [] {
      assert a + b == a;
    } else {
      var c := a + b;
      var b' := b[..|b| - 1];
      assert c[..|c| - 1] == a + b';
      assert c[|c| - 1] == b[|b| - 1];
      RunAppend(t, a, b');
      RunLast(t, c);
      RunLast(Run(t, a), b);
    }
  }

  /** Every record of `m` is still in `m2`, unchanged. */
  ghost predicate Kept<T>(m: map<int, T>, m2: map<int, T>) {
    forall k | k in m :: k in m2 && m2[k] == m[k]
  }

  /** What may happen to the store between two moments: no counter goes down; no
      record goes away; users, categories, comments, tools and news never change;
      an article changes in its view count only, and that count never goes down;
      a subscription changes in its active flag only. */
  ghost predicate Evolves(t: Tables, t2: Tables) {
    && t.userIdCounter <= t2.userIdCounter
    && t.categoryIdCounter <= t2.categoryIdCounter
    && t.articleIdCounter <= t2.articleIdCounter
    && t.commentIdCounter <= t2.commentIdCounter
    && t.toolIdCounter <= t2.toolIdCounter
    && t.newsletterIdCounter <= t2.newsletterIdCounter
    && t.newsIdCounter <= t2.newsIdCounter
    && Kept(t.users, t2.users)
    && Kept(t.categories, t2.categories)
    && Kept(t.comments, t2.comments)
    && Kept(t.tools, t2.tools)
    && Kept(t.news, t2.news)
    && (forall k | k in t.articles ::
          && k in t2.articles
          && t2.articles[k].(views := t.articles[k].views) == t.articles[k]
          && t.articles[k].views <= t2.articles[k].views)
    && (forall k | k in t.newsletters ::
          && k in t2.newsletters
          && t2.newsletters[k].(isActive := t.newsletters[k].isActive) == t.newsletters[k])
  }

  lemma EvolvesTransitive(t1: Tables, t2: Tables, t3: Tables)
    requires Evolves(t1, t2) && Evolves(t2, t3)
    ensures Evolves(t1, t3)
  {
    forall k | k in t1.articles
      ensures t3.articles[k].(views := t1.articles[k].views) == t1.articles[k]
    {
      assert t2.articles[k].(views := t1.articles[k].views) == t1.articles[k];
    }
    forall k | k in t1.newsletters
      ensures t3.newsletters[k].(isActive := t1.newsletters[k].isActive) == t1.newsletters[k]
    {
      assert t2.newsletters[k].(isActive := t1.newsletters[k].isActive) == t1.newsletters[k];
    }
  }

  /** Each single write is an allowed evolution. */
  lemma StepEvolves(t: Tables, op: Op)
    requires Valid(t)
    ensures Evolves(t, Step(t, op))
  {
    match op
    case CreateUserOp(u) => CreateUserEvolves(t, u);
    case CreateCategoryOp(c) => CreateCategoryEvolves(t, c);
    case CreateArticleOp(a, now) => CreateArticleEvolves(t, a, now);
    case IncrementViewsOp(id) => IncrementEvolves(t, id);
    case CreateCommentOp(c, now) => CreateCommentEvolves(t, c, now);
    case CreateToolOp(x) => CreateToolEvolves(t, x);
    case SubscribeOp(n, now) => SubscribeEvolves(t, n, now);
    case UnsubscribeOp(email) => UnsubscribeEvolves(t, email);
    case CreateNewsOp(x, now) => CreateNewsEvolves(t, x, now);
  }

  lemma CreateUserEvolves(t: Tables, u: UserInput)
    requires Valid(t)
    ensures Evolves(t, Mutations.CreateUser(t, u).0)
  {
    var r := Mutations.CreateUser(t, u).0;
    assert r.(users := t.users, userIdCounter := t.userIdCounter) == t;
  }

  lemma CreateCategoryEvolves(t: Tables, c: CategoryInput)
    requires Valid(t)
    ensures Evolves(t, Mutations.CreateCategory(t, c).0)
  {
    var r := Mutations.CreateCategory(t, c).0;
    assert r.(categories := t.categories, categoryIdCounter := t.categoryIdCounter) == t;
  }

  lemma CreateArticleEvolves(t: Tables, a: ArticleInput, now: Timestamp)
    requires Valid(t)
    ensures Evolves(t, Mutations.CreateArticle(t, a, now).0)
  {
    var r := Mutations.CreateArticle(t, a, now).0;
    assert r.(articles := t.articles, articleIdCounter := t.articleIdCounter) == t;
  }

  lemma IncrementEvolves(t: Tables, id: int)
    requires Valid(t)
    ensures Evolves(t, Mutations.IncrementArticleViews(t, id))
  {
    var r := Mutations.IncrementArticleViews(t, id);
    assert r.(articles := t.articles) == t;
  }

  lemma CreateCommentEvolves(t: Tables, c: CommentInput, now: Timestamp)
    requires Valid(t)
    ensures Evolves(t, Mutations.CreateComment(t, c, now).0)
  {
    var r := Mutations.CreateComment(t, c, now).0;
    assert r.(comments := t.comments, commentIdCounter := t.commentIdCounter) == t;
  }

  lemma CreateToolEvolves(t: Tables, x: ToolInput)
    requires Valid(t)
    ensures Evolves(t, Mutations.CreateTool(t, x).0)
  {
    var r := Mutations.CreateTool(t, x).0;
    assert r.(tools := t.tools, toolIdCounter := t.toolIdCounter) == t;
  }

  lemma CreateNewsEvolves(t: Tables, x: NewsInput, now: Timestamp)
    requires Valid(t)
    ensures Evolves(t, Mutations.CreateNews(t, x, now).0)
  {
    var r := Mutations.CreateNews(t, x, now).0;
    assert r.(news := t.news, newsIdCounter := t.newsIdCounter) == t;
  }

  lemma SubscribeEvolves(t: Tables, n: NewsletterInput, now: Timestamp)
    requires Valid(t)
    ensures Evolves(t, Mutations.Subscribe(t, n, now).0)
  {
    var s := Mutations.Subscribe(t, n, now);
    assert s.1.id in t.newsletters ==> s.1.(isActive := t.newsletters[s.1.id].isActive) == t.newsletters[s.1.id];
  }

  lemma UnsubscribeEvolves(t: Tables, email: string)
    requires Valid(t)
    ensures Evolves(t, Mutations.Unsubscribe(t, email).0)
  {
  }

  /** Every history is an allowed evolution. */
  lemma {:induction false} RunEvolves(t: Tables, ops: seq<Op>)
    requires Valid(t)
    ensures Evolves(t, Run(t, ops))
    decreases |ops|
  {
    if ops == [] {
    } else {
      var before := Run(t, ops[..|ops| - 1]);
      RunEvolves(t, ops[..|ops| - 1]);
      StepEvolves(before, ops[|ops| - 1]);
      EvolvesTransitive(t, before, Run(t, ops));
    }
  }

  /** No single write makes two subscriptions share an address. */
  lemma StepKeepsUniqueEmails(t: Tables, op: Op)
    requires Valid(t) && UniqueEmails(t)
    ensures UniqueEmails(Step(t, op))
  {
    match op
    case SubscribeOp(n, now) => Mutations.SubscribeKeepsUniqueEmails(t, n, now);
    case UnsubscribeOp(email) => Mutations.UnsubscribeKeepsUniqueEmails(t, email);
    case _ => assert Step(t, op).newsletters == t.newsletters;
  }

  /** No history makes two subscriptions share an address. */
  lemma {:induction false} RunKeepsUniqueEmails(t: Tables, ops: seq<Op>)
    requires Valid(t) && UniqueEmails(t)
    ensures UniqueEmails(Run(t, ops))
    decreases |ops|
  {
    if ops != [] {
      RunKeepsUniqueEmails(t, ops[..|ops| - 1]);
      RunLast(t, ops);
      StepKeepsUniqueEmails(Run(t, ops[..|ops| - 1]), ops[|ops| - 1]);
    }
  }

  /** Ids are never reused: a comment created after any history of writes gets
      a larger id than one created before it, and the earlier one is still
      stored as it was created. */
  lemma CommentIdsIncrease(t: Tables, first: CommentInput, now1: Timestamp, ops: seq<Op>,
                           second: CommentInput, now2: Timestamp)
    requires Valid(t)
    ensures var (t1, c1) := Mutations.CreateComment(t, first, now1);
      var (t2, c2) := Mutations.CreateComment(Run(t1, ops), second, now2);
      c1.id < c2.id && c1.id in t2.comments && t2.comments[c1.id] == c1
  {
    var (t1, c1) := Mutations.CreateComment(t, first, now1);
    RunEvolves(t1, ops);
  }

  /** The same for articles, whose stored copy may meanwhile have gained views
      and nothing else. */
  lemma ArticleIdsIncrease(t: Tables, first: ArticleInput, now1: Timestamp, ops: seq<Op>,
                           second: ArticleInput, now2: Timestamp)
    requires Valid(t)
    ensures var (t1, a1) := Mutations.CreateArticle(t, first, now1);
      var (t2, a2) := Mutations.CreateArticle(Run(t1, ops), second, now2);
      && a1.id < a2.id && a1.id in t2.articles
      && t2.articles[a1.id].(views := 0) == a1
  {
    var (t1, a1) := Mutations.CreateArticle(t, first, now1);
    RunEvolves(t1, ops);
  }
}
