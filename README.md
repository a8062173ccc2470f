# MemStorage: the in-memory store of the finance news site

This project models `MemStorage`, the in-memory data-access layer of a finance
news site. The store holds seven entity maps: users, categories, articles,
comments, financial tools, newsletter subscriptions and news items. Each map
has its own auto-increment id counter. The store is seeded when it is
constructed. It answers every query the site's API makes: lookups by id and by
slug, newest-first and most-viewed-first listings with limit/offset pages, a
case-insensitive search, related articles, and the author/category join. Its
writes are the creates, view counting, and newsletter subscribe and
unsubscribe.

The model is layered:

- `Records` holds the records and their insert shapes.
- `StoreState` holds the state as a value (`Tables`) and the invariant every
  operation keeps (`Valid`). Each map holds exactly the ids `1 .. counter-1`,
  and each record is filed under its own id.
- `Mutations` holds each write as a function from the old state to the new
  state and the record returned.
- `Queries` holds each read as a function of the state.
- `Listing` and `Text` hold the list and string pipelines (`filter`, `find`, a
  stable `sort`, `slice`, `toLowerCase`, `includes`) that those functions are
  built from.
- `History` holds arbitrary sequences of writes and what every such history
  keeps.
- `Seeding` holds the seed data and the seeded state.
- `Storage.MemStorage` is the class itself. It has the fourteen fields, and
  its methods update them in place. Each method is proved to leave the object
  in exactly the state its counterpart in `Mutations` or `Seeding` computes,
  or the state its own `ensures` give, so each property proved about the
  functions holds of the object.

A JavaScript `Map` iterates in insertion order. Every key is inserted once,
by the create that takes it from the counter. `Array.from(map.values())` is
therefore the records in ascending id order (`StoreState.Rows`).
`Array.prototype.sort` is stable, so a listing sorted by a key keeps equal
keys in ascending id order. `Listing.SortDesc` is a stable insertion sort.
`Listing.SortCharacterised` shows it is the only order that is both
descending by key and in ascending id order among equal keys.

The seed data gives its articles view counts (server/storage.ts:146, 159, 172,
185, 198, 211), but `createArticle` sets `views: 0` whatever its input says
(server/storage.ts:371). Every seeded article therefore starts unviewed
(`Seeding.NewStoreUnviewed`), and the seeded popular list is the articles in
creation order (`Seeding.NewStorePopular`), not the order of their seed counts.

The seeded articles all name the administrator (user 1) and categories 1, 3,
1, 4, 6 and 4 of the six seeded categories, so on a new store every
author/category join succeeds (`Seeding.NewStoreJoinsSucceed`). The seed
articles are written as their words (`Seeding.ArticleWords`) paired with
those links and counters (`Seeding.ArticlesOf`). The values are those of the
source; the split lets the proof about the links leave the long strings alone.

## Model

| member | source | states |
|---|---|---|
| Storage.MemStorage.constructor | server/storage.ts:89-108 | the object holds exactly the state that seeding an empty store (every map empty, every counter 1) with `seed` produces, and that state satisfies the store invariant |
| Storage.NewMemStorage | server/storage.ts:89-108 | a fresh store, constructed with its own seed data, is valid and equals `Seeding.NewStore(now)` |
| Storage.MemStorage.InitializeData | server/storage.ts:110-266 | the fields become the state of `Seeding.InitializeData` on the old state: categories, then the administrator, then articles, tools and news; the invariant is kept |
| Storage.MemStorage.CreateCategories | server/storage.ts:112-121 | the `forEach` loop leaves the state of creating the categories one by one in list order |
| Storage.MemStorage.CreateArticles | server/storage.ts:136-217 | the `forEach` loop leaves the state of creating the articles one by one in list order |
| Storage.MemStorage.CreateTools | server/storage.ts:220-244 | the `forEach` loop leaves the state of creating the tools one by one in list order |
| Storage.MemStorage.CreateNewsItems | server/storage.ts:247-265 | the `forEach` loop leaves the state of creating the news items one by one in list order |
| Storage.MemStorage.CreateUser | server/storage.ts:281-286 | the new state and the returned user are those of `Mutations.CreateUser` on the old state |
| Storage.MemStorage.CreateCategory | server/storage.ts:301-306 | the new state and the returned category are those of `Mutations.CreateCategory` |
| Storage.MemStorage.CreateArticle | server/storage.ts:365-377 | the new state and the returned article are those of `Mutations.CreateArticle` |
| Storage.MemStorage.IncrementArticleViews | server/storage.ts:379-385 | the new state is `Mutations.IncrementArticleViews` of the old one |
| Storage.MemStorage.CreateComment | server/storage.ts:445-451 | the new state and the returned comment are those of `Mutations.CreateComment` |
| Storage.MemStorage.CreateTool | server/storage.ts:462-467 | the new state and the returned tool are those of `Mutations.CreateTool` |
| Storage.MemStorage.CreateNews | server/storage.ts:513-519 | the new state and the returned news item are those of `Mutations.CreateNews` |
| Storage.MemStorage.SubscribeToNewsletter | server/storage.ts:470-493 | keeps the invariant; the new state and the returned subscription are those of `Mutations.Subscribe` |
| Storage.MemStorage.Reactivate | server/storage.ts:474-480 | the stored record for the address comes back active, and only that entry changes |
| Storage.MemStorage.AddSubscription | server/storage.ts:482-492 | a new active record under the next id, created at `now`; only that entry and the counter change; the invariant is kept |
| Storage.MemStorage.UnsubscribeFromNewsletter | server/storage.ts:495-503 | keeps the invariant; the new state and the answer are those of `Mutations.Unsubscribe` |
| Mutations.CreateUser | server/storage.ts:281-286 | the user gets the counter's id (post-increment) and is filed under it; it has a larger id than every stored user; no other map or counter changes; the invariant is kept |
| Mutations.CreateCategory | server/storage.ts:301-306 | the same for categories |
| Mutations.CreateArticle | server/storage.ts:365-377 | the article gets the next id; it starts with 0 views whatever the input says; it is published at the given date or else `now`; every other field is the input's; nothing else changes; the invariant is kept |
| Mutations.NewArticle | server/storage.ts:368-373 | the record `createArticle` builds: the given id, 0 views, the input's `publishedAt` or else `now`, and every other field copied from the input |
| Mutations.CreateComment | server/storage.ts:445-451 | the comment gets the next id and is stamped `now`; the author and article ids are not checked; nothing else changes |
| Mutations.CreateTool | server/storage.ts:462-467 | the same as `CreateUser`, for tools |
| Mutations.CreateNews | server/storage.ts:513-519 | the item gets the next id and is published at `now`; nothing else changes |
| Mutations.IncrementArticleViews | server/storage.ts:379-385 | an existing article gains exactly one view and nothing else changes; an unknown id changes nothing and is not an error |
| Mutations.IncrementArticleViewsRepeated | server/storage.ts:379-385 | N calls on an existing article add exactly N views to it and change nothing else; N calls on an unknown id change nothing |
| Mutations.Subscribe | server/storage.ts:470-493 | the result is active and has the input's address; an address on file gets back the record `find` returns, made active, with its name unchanged and nothing else changed; a new address gets a fresh record under the next id, created at `now`; the invariant is kept |
| Mutations.Unsubscribe | server/storage.ts:495-503 | the answer is true exactly when some record has the address; false changes nothing; true sets that record inactive, even when it already was, and changes nothing else |
| Mutations.SubscribeKeepsUniqueEmails | server/storage.ts:470-493 | subscribing never creates a second record for an address on file |
| Mutations.UnsubscribeKeepsUniqueEmails | server/storage.ts:495-503 | unsubscribing keeps addresses unique |
| StoreState.Empty | server/storage.ts:89-104 | empty maps with every counter at 1 satisfy the invariant |
| StoreState.Rows | server/storage.ts:289-291 | `Array.from(map.values())` of a dense map: its records by ascending id; what this gives is stated by `StoreState.RowsOfDense` |
| StoreState.NewsletterByEmail | server/storage.ts:472 | `find` by address returns a stored record with that address, and the one with the smallest id; it finds nothing exactly when no record has the address |
| StoreState.RowsOfDense | server/storage.ts:289-291 | `Array.from(map.values())` has one entry per id, is in ascending id order, and holds exactly the stored records |
| StoreState.FindInRows | server/storage.ts:273-275 | `find` over the values returns the matching stored record with the smallest id, and nothing exactly when no record matches |
| StoreState.ListingOfDense | server/storage.ts:309-313 | a filter-sort-slice listing has the clamped length and holds only stored records that pass the filter, ordered by key descending with ties in ascending id order |
| StoreState.SortedFilterOfDense | server/storage.ts:439-443 | a filter-then-sort holds exactly the stored records that pass the filter, stably ordered |
| StoreState.ListingOfDenseComplete | server/storage.ts:387-399 | when at most `limit` records qualify, the listing from offset 0 holds every one of them |
| Listing.Filter | server/storage.ts:325-326 | `filter` keeps only elements that satisfy the predicate, and is no longer than its input |
| Listing.FilterKeeps | server/storage.ts:325-326 | `filter` drops no element that satisfies the predicate |
| Listing.FilterAll | server/storage.ts:309-310 | when every element qualifies, `filter` returns its input unchanged |
| Listing.FilterSame | server/storage.ts:391-395 | two predicates that agree on every element filter a list alike |
| Listing.FilterAscending | server/storage.ts:309-310 | `filter` keeps a list in ascending id order |
| Listing.FindIndex | server/storage.ts:273-275 | the index found is that of the first element satisfying the predicate, and there is none exactly when no element does |
| Listing.FindFirst | server/storage.ts:273-275 | `find` returns an element satisfying the predicate, and nothing exactly when no element does |
| Listing.Insert | server/storage.ts:309-311 | one step of the insertion sort adds exactly the inserted element |
| Listing.SortDesc | server/storage.ts:309-311 | the sort is a permutation of its input |
| Listing.SortNonIncreasing | server/storage.ts:309-311 | the sort puts keys in non-increasing order |
| Listing.SortStable | server/storage.ts:309-311 | a list in ascending id order comes out stably ordered: key descending, ties in ascending id order |
| Listing.StablyOrderedUnique | server/storage.ts:309-311 | two stably ordered lists with the same elements are equal |
| Listing.SortCharacterised | server/storage.ts:309-311 | any stably ordered rearrangement of a list in ascending id order is exactly the sort's result |
| Listing.SortConstantKey | server/storage.ts:347-349 | sorting by a key that every element shares changes nothing |
| Listing.WindowConcat | server/storage.ts:313 | `slice(offset, offset + l1)` followed by `slice(offset + l1, offset + l1 + l2)` is `slice(offset, offset + l1 + l2)` |
| Listing.Window | server/storage.ts:313 | `slice(offset, offset + limit)`: `min(limit, max(0, length - offset))` elements, the `i`-th being the input's element at `offset + i` |
| Listing.SortedWindow | server/storage.ts:506-511 | a sort-then-slice has the clamped length, holds input elements only, and is stably ordered |
| Queries.GetUser | server/storage.ts:269-271 | found exactly when the id is stored, and then it is the stored user; in a valid store the user found has that id |
| Queries.GetCategory | server/storage.ts:293-295 | found exactly when the id is stored, and then it is the stored category; in a valid store the category found has that id |
| Queries.GetArticleById | server/storage.ts:316-318 | found exactly when the id is stored; the article found is the stored record with that id |
| Queries.GetUserByUsername | server/storage.ts:273-275 | the stored user with that username and the smallest id; none exactly when no user has it |
| Queries.GetUserByEmail | server/storage.ts:277-279 | the stored user with that address and the smallest id; none exactly when no user has it |
| Queries.GetCategoryBySlug | server/storage.ts:297-299 | the stored category with that slug and the smallest id; none exactly when no category has it |
| Queries.GetArticleBySlug | server/storage.ts:320-322 | the stored article with that slug and the smallest id; none exactly when no article has it |
| Queries.GetToolBySlug | server/storage.ts:458-460 | the stored tool with that slug and the smallest id; none exactly when no tool has it |
| Queries.GetCategories | server/storage.ts:289-291 | every category, position `i` holding id `i + 1` |
| Queries.GetTools | server/storage.ts:454-456 | every tool, position `i` holding id `i + 1` |
| Queries.ArticleQuery | server/storage.ts:309-313 | filter, stable sort descending and slice: the clamped length, stored articles passing the filter only, stably ordered |
| Queries.ArticleListing | server/storage.ts:309-313 | the listing pipeline over the article map has those three properties |
| Queries.ArticleQueryCharacterised | server/storage.ts:309-313 | reference definition: the listing is the `[offset, offset + limit)` slice of ANY stably ordered arrangement of the qualifying articles |
| Queries.GetArticles | server/storage.ts:309-314 | `min(limit, max(0, count - offset))` stored articles, newest first, with ties in id order |
| Queries.GetArticlesPages | server/storage.ts:309-314 | two consecutive pages read one after the other equal the combined page |
| Queries.GetArticlesByCategory | server/storage.ts:324-330 | at most `limit` stored articles of that category, newest first |
| Queries.ByCategoryCharacterised | server/storage.ts:324-330 | reference definition: the category listing is the `[offset, offset + limit)` slice of ANY newest-first arrangement of that category's articles, ties in id order |
| Queries.GetArticlesByCategoryPages | server/storage.ts:324-330 | consecutive pages of a category listing concatenate to the combined page |
| Queries.GetArticlesByCategorySlug | server/storage.ts:332-337 | empty for an unknown slug; otherwise exactly the `getArticlesByCategory` listing of the first category with that slug, so `ByCategoryCharacterised` describes it; at most `limit` stored articles whose category has that slug |
| Queries.GetFeaturedArticles | server/storage.ts:339-345 | at most `limit` stored featured articles, newest first |
| Queries.FeaturedCharacterised | server/storage.ts:339-345 | reference definition: the featured list is the first `limit` of ANY newest-first arrangement of the featured articles, ties in id order |
| Queries.GetPopularArticles | server/storage.ts:347-352 | `min(limit, count)` stored articles, most viewed first, with ties in id order |
| Queries.PopularCharacterised | server/storage.ts:347-352 | reference definition: the popular list is the first `limit` of ANY arrangement of all articles by views, ties in id order |
| Queries.GetRelatedArticles | server/storage.ts:354-363 | empty for an unknown id; otherwise at most `limit` other stored articles of the same category, most viewed first |
| Queries.RelatedCharacterised | server/storage.ts:354-363 | reference definition: for a stored article, the related list is the first `limit` of ANY arrangement by views, ties in id order, of the other articles of its category |
| Queries.SearchArticles | server/storage.ts:387-399 | at most `limit` stored articles whose lower-cased title, excerpt or content contains the lower-cased query, most viewed first; when at most `limit` articles match, every match is returned |
| Queries.SearchCharacterised | server/storage.ts:387-399 | reference definition: the search is the first `limit` of ANY arrangement by views, ties in id order, of the matching articles |
| Queries.Matches | server/storage.ts:391-395 | the search test: the lower-cased query occurs in the lower-cased title, excerpt or content; `Queries.SearchIgnoresQueryCase` and `Queries.SearchEmptyQuery` state what follows |
| Queries.SearchReturnsAllWhenFew | server/storage.ts:387-399 | when at most `limit` articles qualify, the listing from offset 0 holds each of them |
| Queries.SearchEmptyQuery | server/storage.ts:387-399 | the empty query matches everything, so the search returns exactly the popular list |
| Queries.SearchIgnoresQueryCase | server/storage.ts:387-399 | the search gives the same answer for a query and for its lower-cased form |
| Queries.GetCommentsByArticle | server/storage.ts:439-443 | exactly the stored comments of that article, none missing, newest first |
| Queries.GetLatestNews | server/storage.ts:506-511 | `min(limit, count)` stored news items, newest first |
| Queries.LatestNewsCharacterised | server/storage.ts:506-511 | reference definition: the latest news is the first `limit` items of ANY arrangement of all stored items that is newest first, ties in id order; so it holds the `limit` newest items |
| Queries.Enrich | server/storage.ts:404-416 | the join succeeds exactly when both the author and the category exist, and then attaches those records; otherwise it gives the integrity error for that article's id |
| Queries.GetArticleWithRelations | server/storage.ts:420-436 | no result for an unknown slug; for a known slug, the integrity error exactly when the article's author or category is missing; otherwise exactly that article joined with its stored author and stored category |
| Queries.EnrichAll | server/storage.ts:404-417 | succeeds exactly when every article resolves, and then joins each one in order; otherwise it gives the error of the first article that does not resolve |
| Queries.GetArticlesWithRelations | server/storage.ts:401-418 | the joins of the `getArticles` page, position by position: each page article with its stored author and stored category; the error exactly when some article on the page does not resolve |
| Text.LowerChar | server/storage.ts:388 | ASCII capitals are mapped 32 code points up, to lower case; every other character is unchanged |
| Text.Lower | server/storage.ts:388 | `toLowerCase` has the input's length and lower-cases every character |
| Text.LowerIdempotent | server/storage.ts:388 | lower-casing twice is lower-casing once |
| Text.ContainsEmpty | server/storage.ts:392-394 | the empty string occurs in every string |
| History.Step | server/storage.ts:281-519 | each write keeps the store invariant |
| History.Run | server/storage.ts:281-519 | every sequence of writes keeps the store invariant |
| History.RunAppend | server/storage.ts:281-519 | running two histories one after the other is running their concatenation |
| History.EvolvesTransitive | server/storage.ts:281-519 | the allowed-evolution relation is transitive |
| History.StepEvolves | server/storage.ts:281-519 | no write lowers a counter or removes a record; only article views, which never go down, and the subscription flag ever change |
| History.CreateUserEvolves | server/storage.ts:281-286 | a create only adds a record |
| History.CreateCategoryEvolves | server/storage.ts:301-306 | a create only adds a record |
| History.CreateArticleEvolves | server/storage.ts:365-377 | a create only adds a record |
| History.IncrementEvolves | server/storage.ts:379-385 | counting a view changes only a view count, upwards |
| History.CreateCommentEvolves | server/storage.ts:445-451 | a create only adds a record |
| History.CreateToolEvolves | server/storage.ts:462-467 | a create only adds a record |
| History.CreateNewsEvolves | server/storage.ts:513-519 | a create only adds a record |
| History.SubscribeEvolves | server/storage.ts:470-493 | subscribing changes at most one active flag, or adds a record |
| History.UnsubscribeEvolves | server/storage.ts:495-503 | unsubscribing changes at most one active flag and removes nothing |
| History.RunEvolves | server/storage.ts:281-519 | every history is an allowed evolution |
| History.StepKeepsUniqueEmails | server/storage.ts:470-503 | no single write makes two subscriptions share an address |
| History.RunKeepsUniqueEmails | server/storage.ts:470-503 | no history makes two subscriptions share an address |
| History.CommentIdsIncrease | server/storage.ts:445-451 | comment ids are never reused: a comment created after any history has a larger id than an earlier one, which is still stored unchanged |
| History.ArticleIdsIncrease | server/storage.ts:365-385 | the same for articles, whose stored copy can differ only in its view count |
| Seeding.StoreSeed | server/storage.ts:110-263 | the store's own seed data, list by list: six categories, the administrator, six articles, three tools and three news items |
| Seeding.CategorySeed | server/storage.ts:112-119 | the six seed categories, in source order |
| Seeding.CategorySeedSize | server/storage.ts:112-119 | there are six seed categories |
| Seeding.AdminSeed | server/storage.ts:124-131 | the administrator account |
| Seeding.SeedArticle | server/storage.ts:136-214 | one seed article: its words, author 1, its category, reading time, view count and featured flag, dated `now` |
| Seeding.ArticlesOf | server/storage.ts:136-214 | the six seed articles in source order, with categories 1, 3, 1, 4, 6 and 4 |
| Seeding.ArticleWords | server/storage.ts:136-214 | the titles, slugs, excerpts, contents and images of the six seed articles |
| Seeding.ArticleSeed | server/storage.ts:135-215 | the seed article list: `ArticlesOf` the seed words |
| Seeding.ToolSeed | server/storage.ts:220-242 | the three seed tools, in source order |
| Seeding.NewsSeed | server/storage.ts:247-263 | the three seed news items, in source order |
| Seeding.NewStore | server/storage.ts:89-108 | a constructed store: an empty store seeded with the store's own seed data |
| Seeding.CreateCategories | server/storage.ts:121 | the loop advances the counter by the list's length and touches nothing else; the invariant is kept |
| Seeding.CategoryCreated | server/storage.ts:121 | the `j`-th category of the list is filed under the `j`-th id handed out |
| Seeding.CreateArticles | server/storage.ts:217 | the same for articles |
| Seeding.CreateTools | server/storage.ts:244 | the same for tools |
| Seeding.ToolCreated | server/storage.ts:244 | the `j`-th tool of the list is filed under the `j`-th id handed out |
| Seeding.CreateNewsItems | server/storage.ts:265 | the same for news items |
| Seeding.NewsItemCreated | server/storage.ts:265 | the `j`-th news item of the list is filed under the `j`-th id handed out, published at `now` |
| Seeding.ArticleCreated | server/storage.ts:217 | the `j`-th article of the list is filed under the `j`-th id handed out, as `createArticle` builds it |
| Seeding.InitializeData | server/storage.ts:110-266 | seeding keeps the invariant |
| Seeding.SeededFromEmpty | server/storage.ts:89-266 | seeding an empty store keeps the invariant and numbers every list from 1 in list order: category `j + 1` is the `j`-th seed category, the administrator is user 1 and the only user, article `j + 1` is the `j`-th seed article as `createArticle` builds it, tool `j + 1` the `j`-th seed tool, news item `j + 1` the `j`-th seed item dated `now`; no comments and no subscriptions |
| Seeding.SeededCounters | server/storage.ts:110-266 | after seeding an empty store each counter is one past its list's length, the administrator is the only user, and there are no comments or subscriptions |
| Seeding.SeededCategories | server/storage.ts:112-121 | after seeding an empty store, category `j + 1` is the `j`-th seed category |
| Seeding.SeededArticles | server/storage.ts:135-217 | after seeding an empty store, article `j + 1` is the `j`-th seed article as `createArticle` builds it |
| Seeding.SeededTools | server/storage.ts:220-244 | after seeding an empty store, tool `j + 1` is the `j`-th seed tool |
| Seeding.SeededNews | server/storage.ts:247-265 | after seeding an empty store, news item `j + 1` is the `j`-th seed item, published at `now` |
| Seeding.NewStoreValid | server/storage.ts:89-108 | a new store satisfies the invariant |
| Seeding.NewStoreUnviewed | server/storage.ts:136-217 | no article of a new store has a view yet: the seeded view counts are discarded |
| Seeding.SeededUnviewed | server/storage.ts:365-377 | every seeded article starts with 0 views and is dated with its seed date or else `now` |
| Seeding.PopularWhenUnviewed | server/storage.ts:347-352 | with no article viewed, the popular list is the articles in id order |
| Seeding.NewestWhenSameDate | server/storage.ts:309-314 | with every article published at the same moment, the newest-first list is the articles in id order |
| Seeding.SeededPopular | server/storage.ts:347-352 | on any seeded store the popular list is the seed articles in list order |
| Seeding.ArticlesOfWellLinked | server/storage.ts:136-214 | the seed articles name author 1 and a category among six, whatever their words |
| Seeding.StoreSeedWellLinked | server/storage.ts:110-217 | the store's own seed data is well linked: each article names the administrator and one of the seeded categories |
| Seeding.SeedListsWellLinked | server/storage.ts:110-217 | the same, for the five seed lists |
| Seeding.SeededResolves | server/storage.ts:401-418 | seeding an empty store with a well-linked seed leaves every article with a stored author and category |
| Seeding.JoinsSucceed | server/storage.ts:401-418 | in a valid store where every article resolves, `getArticlesWithRelations` succeeds on every page |
| Seeding.SeededJoinsSucceed | server/storage.ts:401-418 | on a store seeded from empty with a well-linked seed, `getArticlesWithRelations` succeeds on every page |
| Seeding.NewStoreResolves | server/storage.ts:401-418 | every article of a new store has a stored author and category |
| Seeding.NewStoreJoinsSucceed | server/storage.ts:401-418 | on a new store `getArticlesWithRelations` never raises the integrity error |
| Seeding.NewStorePopular | server/storage.ts:136-217 | on a new store the popular list is the articles in creation order, not ranked by the seed's view counts |

## Left out

- The `async`/`Promise` plumbing is not modelled: every operation runs to completion, from the first operation to the last. This matters in `incrementArticleViews` (server/storage.ts:379-385), which awaits a lookup before it writes.
- Storage.MemStorage.IncrementArticleViews: does not model another write landing between the awaited lookup and the increment. The source increments the very object it looked up, and no operation replaces a stored article, so no view is lost that way.
- Object identity and aliasing are not modelled. The source hands out the stored objects themselves, so a caller that mutates a returned record mutates the store, and a later write shows through an earlier answer. Records are values here.
- The read operations are functions of `Queries`, applied to `MemStorage.Snapshot()`. They are not methods of the class, because they change nothing.
- Storage.MemStorage.constructor: takes the seed as a parameter. `Storage.NewMemStorage` passes the store's own seed data (`Seeding.StoreSeed`).
- `Seeding.NewStoreValid`, `Seeding.NewStoreUnviewed`, `Seeding.NewStorePopular`, `Seeding.NewStoreResolves` and `Seeding.NewStoreJoinsSucceed` are proved by instantiating the lemmas about any seed with the store's own seed data.
- The exported singleton (server/storage.ts:522) and the `IStorage` interface are not modelled; `Storage.NewMemStorage` is the construction it performs.
- Every `new Date()` reading is a `now` parameter. During seeding all the readings are the same `now`.
- Dates are integer timestamps. Invalid dates, whose `getTime()` is `NaN`, are left out.
- `limit` and `offset` are natural numbers. The source's default arguments (10, 5, 3) are the caller's choice here. Negative or fractional values, and `slice`'s handling of them, are left out.
- Text.Lower: lowers ASCII letters only. JavaScript's full Unicode `toLowerCase` is left out. The Arabic text of the seed data has no case, so it is unaffected.
- The schema defaults (`role`, `readingTime`, `isFeatured`, `views`) belong to the database schema and are not applied by this store. Optional fields are `Option` values. "Featured" is the truthiness the source tests: `isFeatured` present and true.
- A thrown `Error` is modelled as `StoreError.MissingRelations(articleId)`. Its message text is left out.
- Queries.EnrichAll: says which article's error `Promise.all` rejects with by list order. Each join awaits the same two lookups, so the first one to fail in the list is also the first to reject.
- Passwords are stored as given, as in the source. Hashing, the HTTP routes, the client pages and the financial calculators are outside this store and are not modelled.
