/** The store's writes, as functions from the old state to the new state and
    the record returned: the six creates, view counting, and newsletter
    subscribe and unsubscribe. */
module Mutations {
  import opened Wrappers
  import opened Records
  import opened StoreState

  // ---------------------------------------------------------------- creates
  // Each create takes its id from the kind's counter (post-increment), files
  // the record under that id and touches no other map or counter.

  function CreateUser(t: Tables, input: UserInput): (r: (Tables, User))
    ensures r.1 == input.WithId(t.userIdCounter)
    ensures r.0.users == t.users[r.1.id := r.1] && r.0.userIdCounter == t.userIdCounter + 1
    ensures r.0.(users := t.users, userIdCounter := t.userIdCounter) == t
    ensures Valid(t) ==> Valid(r.0) && forall k | k in t.users :: k < r.1.id
  {
    var id := t.userIdCounter;
    var user := input.WithId(id);
    (t.(users := t.users[id := user], userIdCounter := id + 1), user)
  }

  function CreateCategory(t: Tables, input: CategoryInput): (r: (Tables, Category))
    ensures r.1 == input.WithId(t.categoryIdCounter)
    ensures r.0.categories == t.categories[r.1.id := r.1] && r.0.categoryIdCounter == t.categoryIdCounter + 1
    ensures r.0.(categories := t.categories, categoryIdCounter := t.categoryIdCounter) == t
    ensures Valid(t) ==> Valid(r.0) && forall k | k in t.categories :: k < r.1.id
  {
    var id := t.categoryIdCounter;
    var category := input.WithId(id);
    (t.(categories := t.categories[id := category], categoryIdCounter := id + 1), category)
  }

  /** `createArticle`: the stored article starts with 0 views whatever the input
      says, and is published at the given time or, when none is given, `now`. */
  function CreateArticle(t: Tables, input: ArticleInput, now: Timestamp): (r: (Tables, Article))
    ensures r.1.id == t.articleIdCounter
    ensures r.1.views == 0
    ensures r.1.publishedAt == (if input.publishedAt.Some? then input.publishedAt.value else now)
    ensures r.1.(id := 0, views := 0, publishedAt := 0) ==
            Article(0, input.title, input.slug, input.excerpt, input.content, input.featuredImage,
                    input.authorId, input.categoryId, input.readingTime, 0, input.isFeatured, 0)
    ensures r.0.articles == t.articles[r.1.id := r.1] && r.0.articleIdCounter == t.articleIdCounter + 1
    ensures r.0.(articles := t.articles, articleIdCounter := t.articleIdCounter) == t
    ensures Valid(t) ==> Valid(r.0) && forall k | k in t.articles :: k < r.1.id
  {
    var id := t.articleIdCounter;
    var article := NewArticle(id, input, now);
    (t.(articles := t.articles[id := article], articleIdCounter := id + 1), article)
  }

  /** The record `createArticle` builds: the input's fields under the given id,
      with no views, published at the input's date or else at `now`. */
  function NewArticle(id: int, input: ArticleInput, now: Timestamp): (r: Article)
    ensures r.id == id && r.views == 0
    ensures r.publishedAt == (if input.publishedAt.Some? then input.publishedAt.value else now)
    ensures r.(id := 0, views := 0, publishedAt := 0) ==
            Article(0, input.title, input.slug, input.excerpt, input.content, input.featuredImage,
                    input.authorId, input.categoryId, input.readingTime, 0, input.isFeatured, 0)
  {
    Article(id, input.title, input.slug, input.excerpt, input.content,
            input.featuredImage, input.authorId, input.categoryId,
            input.readingTime, 0, input.isFeatured, input.publishedAt.GetOr(now))
  }

  /** `createComment`: stamped with `now`; the author and article ids are not checked. */
  function CreateComment(t: Tables, input: CommentInput, now: Timestamp): (r: (Tables, Comment))
    ensures r.1 == Comment(t.commentIdCounter, input.content, input.authorId, input.articleId, now)
    ensures r.0.comments == t.comments[r.1.id := r.1] && r.0.commentIdCounter == t.commentIdCounter + 1
    ensures r.0.(comments := t.comments, commentIdCounter := t.commentIdCounter) == t
    ensures Valid(t) ==> Valid(r.0) && forall k | k in t.comments :: k < r.1.id
  {
    var id := t.commentIdCounter;
    var comment := Comment(id, input.content, input.authorId, input.articleId, now);
    (t.(comments := t.comments[id := comment], commentIdCounter := id + 1), comment)
  }

  function CreateTool(t: Tables, input: ToolInput): (r: (Tables, Tool))
    ensures r.1 == input.WithId(t.toolIdCounter)
    ensures r.0.tools == t.tools[r.1.id := r.1] && r.0.toolIdCounter == t.toolIdCounter + 1
    ensures r.0.(tools := t.tools, toolIdCounter := t.toolIdCounter) == t
    ensures Valid(t) ==> Valid(r.0) && forall k | k in t.tools :: k < r.1.id
  {
    var id := t.toolIdCounter;
    var tool := input.WithId(id);
    (t.(tools := t.tools[id := tool], toolIdCounter := id + 1), tool)
  }

  /** `createNews`: always published at `now`. */
  function CreateNews(t: Tables, input: NewsInput, now: Timestamp): (r: (Tables, News))
    ensures r.1 == News(t.newsIdCounter, input.title, input.source, input.content, now)
    ensures r.0.news == t.news[r.1.id := r.1] && r.0.newsIdCounter == t.newsIdCounter + 1
    ensures r.0.(news := t.news, newsIdCounter := t.newsIdCounter) == t
    ensures Valid(t) ==> Valid(r.0) && forall k | k in t.news :: k < r.1.id
  {
    var id := t.newsIdCounter;
    var item := News(id, input.title, input.source, input.content, now);
    (t.(news := t.news[id := item], newsIdCounter := id + 1), item)
  }

  // ---------------------------------------------------------------- views

  /** `incrementArticleViews`: one more view on an existing article; an unknown
      id changes nothing and is not an error. */
  function IncrementArticleViews(t: Tables, id: int): (r: Tables)
    ensures id in t.articles ==> r.articles == t.articles[id := t.articles[id].(views := t.articles[id].views + 1)]
    ensures r.(articles := t.articles) == t
    ensures id !in t.articles ==> r == t
    ensures Valid(t) ==> Valid(r)
  {
    if id in t.articles then
      var a := t.articles[id];
      t.(articles := t.articles[id := a.(views := a.views + 1)])
    else t
  }

  /** `n` successive calls of `incrementArticleViews(id)`. */
  function IncrementArticleViewsTimes(t: Tables, id: int, n: nat): Tables
  {
    if n == 0 then t else IncrementArticleViews(IncrementArticleViewsTimes(t, id, n - 1), id)
  }

  /** N calls add exactly N views to that article and change nothing else; on an
      unknown id they change nothing at all. */
  lemma {:induction false} IncrementArticleViewsRepeated(t: Tables, id: int, n: nat)
    ensures id in t.articles ==>
      IncrementArticleViewsTimes(t, id, n) ==
        t.(articles := t.articles[id := t.articles[id].(views := t.articles[id].views + n)])
    ensures id !in t.articles ==> IncrementArticleViewsTimes(t, id, n) == t
  {
    if n > 0 {
      IncrementArticleViewsRepeated(t, id, n - 1);
      if id in t.articles {
        var a := t.articles[id];
        var before := t.(articles := t.articles[id := a.(views := a.views + (n - 1))]);
        assert before.articles[id] == a.(views := a.views + (n - 1));
        assert before.articles[id := before.articles[id].(views := a.views + n)] == t.articles[id := a.(views := a.views + n)];
      }
    }
  }

  // ---------------------------------------------------------------- newsletter

  /** `subscribeToNewsletter`. An address already on file gets its record back,
      reactivated if it was inactive (its name is not updated); a new address gets
      a fresh active record created at `now`. */
  function Subscribe(t: Tables, input: NewsletterInput, now: Timestamp): (r: (Tables, Newsletter))
    requires Valid(t)
    ensures Valid(r.0)
    ensures r.1.isActive && r.1.email == input.email
    ensures HasEmail(t, input.email) ==>
      && r.1.id in t.newsletters
      && r.1.id == NewsletterByEmail(t, input.email).value.id
      && r.1 == t.newsletters[r.1.id].(isActive := true)
      && r.0 == t.(newsletters := t.newsletters[r.1.id := r.1])
    ensures !HasEmail(t, input.email) ==>
      && r.1 == Newsletter(t.newsletterIdCounter, input.email, input.name, true, now)
      && r.0 == t.(newsletters := t.newsletters[r.1.id := r.1], newsletterIdCounter := t.newsletterIdCounter + 1)
  {
    match NewsletterByEmail(t, input.email)
    case Some(n) =>
      if !n.isActive then
        var reactivated := n.(isActive := true);
        (t.(newsletters := t.newsletters[n.id := reactivated]), reactivated)
      else
        assert t.newsletters[n.id := n] == t.newsletters;
        (t, n)
    case None =>
      var id := t.newsletterIdCounter;
      var created := Newsletter(id, input.email, input.name, true, now);
      (t.(newsletters := t.newsletters[id := created], newsletterIdCounter := id + 1), created)
  }

  /** `unsubscribeFromNewsletter`: false, with nothing changed, exactly when no
      record has the address; otherwise that record becomes inactive (also when
      it already was) and the answer is true. */
  function Unsubscribe(t: Tables, email: string): (r: (Tables, bool))
    requires Valid(t)
    ensures Valid(r.0)
    ensures r.1 <==> HasEmail(t, email)
    ensures !r.1 ==> r.0 == t
    ensures r.1 ==>
      var n := NewsletterByEmail(t, email).value;
      r.0 == t.(newsletters := t.newsletters[n.id := n.(isActive := false)])
  {
    match NewsletterByEmail(t, email)
    case None => (t, false)
    case Some(n) => (t.(newsletters := t.newsletters[n.id := n.(isActive := false)]), true)
  }

  /** Subscribing never creates a second record for an address already on file. */
  lemma SubscribeKeepsUniqueEmails(t: Tables, input: NewsletterInput, now: Timestamp)
    requires Valid(t) && UniqueEmails(t)
    ensures UniqueEmails(Subscribe(t, input, now).0)
  {
    var r := Subscribe(t, input, now);
    if HasEmail(t, input.email) {
      ReplaceKeepsUnique(t.newsletters, r.1.id, r.1);
    } else {
      AddKeepsUnique(t.newsletters, r.1.id, r.1);
    }
  }

  /** Replacing a record by one with the same address keeps addresses unique. */
  lemma ReplaceKeepsUnique(m: map<int, Newsletter>, id: int, n: Newsletter)
    requires forall j, k | j in m && k in m :: m[j].email == m[k].email ==> j == k
    requires id in m && n.email == m[id].email
    ensures var m2 := m[id := n];
      forall j, k | j in m2 && k in m2 :: m2[j].email == m2[k].email ==> j == k
  {
  }

  /** Adding a record under a fresh id with an address no record has keeps
      addresses unique. */
  lemma AddKeepsUnique(m: map<int, Newsletter>, id: int, n: Newsletter)
    requires forall j, k | j in m && k in m :: m[j].email == m[k].email ==> j == k
    requires id !in m && forall k | k in m :: m[k].email != n.email
    ensures var m2 := m[id := n];
      forall j, k | j in m2 && k in m2 :: m2[j].email == m2[k].email ==> j == k
  {
  }

  /** Unsubscribing changes no address. */
  lemma UnsubscribeKeepsUniqueEmails(t: Tables, email: string)
    requires Valid(t) && UniqueEmails(t)
    ensures UniqueEmails(Unsubscribe(t, email).0)
  {
    match NewsletterByEmail(t, email)
    case None =>
    case Some(n) => ReplaceKeepsUnique(t.newsletters, n.id, n.(isActive := false));
  }
}
