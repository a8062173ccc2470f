/** The state of the in-memory store: seven maps from id to record and one id
    counter per map, with the invariant every operation keeps. */
module StoreState {
  import opened Wrappers
  import opened Records
  import opened Listing

  datatype Tables = Tables(
    users: map<int, User>,
    categories: map<int, Category>,
    articles: map<int, Article>,
    comments: map<int, Comment>,
    tools: map<int, Tool>,
    newsletters: map<int, Newsletter>,
    news: map<int, News>,
    userIdCounter: int,
    categoryIdCounter: int,
    articleIdCounter: int,
    commentIdCounter: int,
    toolIdCounter: int,
    newsletterIdCounter: int,
    newsIdCounter: int)

  /** Every map starts empty and every counter at 1. */
  function Empty(): (t: Tables)
    ensures Valid(t)
  {
    Tables(map[], map[], map[], map[], map[], map[], map[], 1, 1, 1, 1, 1, 1, 1)
  }

  /** The keys of `m` are exactly the ids the counter has handed out: those
      from 1 up to, and not including, `next`. */
  ghost predicate Dense<T>(m: map<int, T>, next: int) {
    1 <= next && forall k :: k in m <==> 1 <= k < next
  }

  /** The store invariant: every map holds exactly the ids its counter has handed
      out, and every record is filed under its own id. */
  ghost predicate Valid(t: Tables) {
    && UsersFiled(t.users, t.userIdCounter)
    && CategoriesFiled(t.categories, t.categoryIdCounter)
    && ArticlesFiled(t.articles, t.articleIdCounter)
    && CommentsFiled(t.comments, t.commentIdCounter)
    && ToolsFiled(t.tools, t.toolIdCounter)
    && NewslettersFiled(t.newsletters, t.newsletterIdCounter)
    && NewsFiled(t.news, t.newsIdCounter)
  }

  ghost predicate UsersFiled(m: map<int, User>, next: int) {
    Dense(m, next) && forall k | k in m :: m[k].id == k
  }
  ghost predicate CategoriesFiled(m: map<int, Category>, next: int) {
    Dense(m, next) && forall k | k in m :: m[k].id == k
  }
  ghost predicate ArticlesFiled(m: map<int, Article>, next: int) {
    Dense(m, next) && forall k | k in m :: m[k].id == k
  }
  ghost predicate CommentsFiled(m: map<int, Comment>, next: int) {
    Dense(m, next) && forall k | k in m :: m[k].id == k
  }
  ghost predicate ToolsFiled(m: map<int, Tool>, next: int) {
    Dense(m, next) && forall k | k in m :: m[k].id == k
  }
  ghost predicate NewslettersFiled(m: map<int, Newsletter>, next: int) {
    Dense(m, next) && forall k | k in m :: m[k].id == k
  }
  ghost predicate NewsFiled(m: map<int, News>, next: int) {
    Dense(m, next) && forall k | k in m :: m[k].id == k
  }

  /** `Array.from(m.values())`: a JavaScript `Map` iterates in insertion order,
      and every key is inserted once, by the create that takes it from the
      counter, so this is ascending id order. */
  function Rows<T>(m: map<int, T>, next: int): seq<T>
    requires Dense(m, next)
  {
    seq(next - 1, i requires 0 <= i < next - 1 => m[i + 1])
  }

  function UserRows(t: Tables): seq<User> requires Valid(t) { Rows(t.users, t.userIdCounter) }
  function CategoryRows(t: Tables): seq<Category> requires Valid(t) { Rows(t.categories, t.categoryIdCounter) }
  function ArticleRows(t: Tables): seq<Article> requires Valid(t) { Rows(t.articles, t.articleIdCounter) }
  function CommentRows(t: Tables): seq<Comment> requires Valid(t) { Rows(t.comments, t.commentIdCounter) }
  function ToolRows(t: Tables): seq<Tool> requires Valid(t) { Rows(t.tools, t.toolIdCounter) }
  function NewsletterRows(t: Tables): seq<Newsletter> requires Valid(t) { Rows(t.newsletters, t.newsletterIdCounter) }
  function NewsRows(t: Tables): seq<News> requires Valid(t) { Rows(t.news, t.newsIdCounter) }

  /** The rows of a dense map are its records, in ascending id order. */
  lemma RowsOfDense<T>(m: map<int, T>, next: int, id: T -> int)
    requires Dense(m, next) && forall k | k in m :: id(m[k]) == k
    ensures |Rows(m, next)| == next - 1
    ensures Ascending(Rows(m, next), id)
    ensures forall i :: 0 <= i < next - 1 ==> Rows(m, next)[i] == m[i + 1]
    ensures forall x :: x in Rows(m, next) <==> id(x) in m && m[id(x)] == x
  {
    var r := Rows(m, next);
    forall x | id(x) in m && m[id(x)] == x ensures x in r {
      assert r[id(x) - 1] == x;
    }
  }

  /** `find` over the values of a dense map returns the matching record with the
      smallest id, and finds nothing exactly when no record matches. */
  lemma FindInRows<T>(m: map<int, T>, next: int, id: T -> int, p: T -> bool)
    requires Dense(m, next) && forall k | k in m :: id(m[k]) == k
    ensures var r := FindFirst(Rows(m, next), p);
      && (r.Some? ==> id(r.value) in m && m[id(r.value)] == r.value && p(r.value))
      && (r.Some? ==> forall k | k in m && p(m[k]) :: id(r.value) <= k)
      && (r.None? <==> forall k | k in m :: !p(m[k]))
  {
    var rows := Rows(m, next);
    RowsOfDense(m, next, id);
    match FindIndex(rows, p)
    case Some(i) =>
      forall k | k in m && p(m[k]) ensures i + 1 <= k {
        assert rows[k - 1] == m[k];
      }
    case None =>
      forall k | k in m ensures !p(m[k]) {
        assert rows[k - 1] == m[k];
      }
  }

  /** A filter-sort-slice listing over the values of a dense map holds stored
      records satisfying the filter only, stably ordered, with the clamped length. */
  lemma ListingOfDense<T>(m: map<int, T>, next: int, id: T -> int, p: T -> bool, key: T -> int,
                          offset: nat, limit: nat)
    requires Dense(m, next) && forall k | k in m :: id(m[k]) == k
    ensures var r := Window(SortDesc(Filter(Rows(m, next), p), key), offset, limit);
      && |r| == Min(limit, Max(0, |Filter(Rows(m, next), p)| - offset))
      && (forall i :: 0 <= i < |r| ==> id(r[i]) in m && m[id(r[i])] == r[i] && p(r[i]))
      && StablyOrdered(r, key, id)
  {
    var rows := Rows(m, next);
    var kept := Filter(rows, p);
    RowsOfDense(m, next, id);
    FilterAscending(rows, p, id);
    SortedWindow(kept, key, id, offset, limit);
    var r := Window(SortDesc(kept, key), offset, limit);
    forall i | 0 <= i < |r| ensures id(r[i]) in m && m[id(r[i])] == r[i] && p(r[i]) {
      assert r[i] in kept;
      var j :| 0 <= j < |kept| && kept[j] == r[i];
      assert r[i] in rows;
    }
  }

  /** A filter-then-sort over the values of a dense map holds exactly the
      stored records satisfying the filter, stably ordered. */
  lemma SortedFilterOfDense<T>(m: map<int, T>, next: int, id: T -> int, p: T -> bool, key: T -> int)
    requires Dense(m, next) && forall k | k in m :: id(m[k]) == k
    ensures var r := SortDesc(Filter(Rows(m, next), p), key);
      && (forall i :: 0 <= i < |r| ==> id(r[i]) in m && m[id(r[i])] == r[i] && p(r[i]))
      && (forall k | k in m && p(m[k]) :: m[k] in r)
      && StablyOrdered(r, key, id)
  {
    var rows := Rows(m, next);
    var kept := Filter(rows, p);
    RowsOfDense(m, next, id);
    FilterAscending(rows, p, id);
    FilterKeeps(rows, p);
    SortStable(kept, key, id);
    var r := SortDesc(kept, key);
    forall i | 0 <= i < |r| ensures id(r[i]) in m && m[id(r[i])] == r[i] && p(r[i]) {
      assert r[i] in multiset(r);
      assert r[i] in kept;
      var j :| 0 <= j < |kept| && kept[j] == r[i];
      assert r[i] in rows;
    }
    forall k | k in m && p(m[k]) ensures m[k] in r {
      assert rows[k - 1] == m[k];
      assert m[k] in kept;
      assert m[k] in multiset(kept);
    }
  }

  /** When at most `limit` records qualify, a listing from offset 0 holds them all. */
  lemma ListingOfDenseComplete<T>(m: map<int, T>, next: int, id: T -> int, p: T -> bool, key: T -> int, limit: nat)
    requires Dense(m, next) && forall k | k in m :: id(m[k]) == k
    requires |Filter(Rows(m, next), p)| <= limit
    ensures forall k | k in m && p(m[k]) :: m[k] in Window(SortDesc(Filter(Rows(m, next), p), key), 0, limit)
  {
    SortedFilterOfDense(m, next, id, p, key);
    WindowWhole(SortDesc(Filter(Rows(m, next), p), key), limit);
  }

  /** Replacing a stored subscription under its own id keeps the invariant. */
  lemma ReplaceNewsletter(t: Tables, n: Newsletter)
    requires Valid(t) && n.id in t.newsletters
    ensures Valid(t.(newsletters := t.newsletters[n.id := n]))
  {
  }

  /** Filing a new subscription under the next id, and advancing the counter,
      keeps the invariant. */
  lemma AddNewsletter(t: Tables, n: Newsletter)
    requires Valid(t) && n.id == t.newsletterIdCounter
    ensures Valid(t.(newsletters := t.newsletters[n.id := n], newsletterIdCounter := n.id + 1))
  {
  }

  /** Some newsletter record holds this e-mail address. */
  predicate HasEmail(t: Tables, email: string) {
    exists k | k in t.newsletters :: t.newsletters[k].email == email
  }

  /** No two newsletter records share an e-mail address. */
  ghost predicate UniqueEmails(t: Tables) {
    forall j, k | j in t.newsletters && k in t.newsletters ::
      t.newsletters[j].email == t.newsletters[k].email ==> j == k
  }

  /** The newsletter lookup both subscribe and unsubscribe start with:
      `find(n => n.email === email)` over the stored subscriptions. */
  function NewsletterByEmail(t: Tables, email: string): (r: Option<Newsletter>)
    requires Valid(t)
    ensures r.Some? ==> r.value.id in t.newsletters && t.newsletters[r.value.id] == r.value
    ensures r.Some? ==> r.value.email == email
    ensures r.Some? ==> forall k | k in t.newsletters && t.newsletters[k].email == email :: r.value.id <= k
    ensures r.None? <==> !HasEmail(t, email)
  {
    var p := (n: Newsletter) => n.email == email;
    FindInRows(t.newsletters, t.newsletterIdCounter, (n: Newsletter) => n.id, p);
    FindFirst(NewsletterRows(t), p)
  }
}
