# Posts service: write paths and cached listing

This project models `PostsService` of a NestJS blog backend
(`src/posts/posts.service.ts`) and proves properties of the model in Dafny.

The service has two pieces of state:

- the **posts table**, a map from id to post row; each row has its author
  loaded, including the stored password hash;
- the **list cache**, a map from the exact `(page, limit, filters)` tuple of a
  list request to the `{data, total}` result returned for it.

It has four operations:

- **create**: looks up the author. A failed lookup throws
  InternalServerError. Otherwise it saves a new post and clears the whole
  cache.
- **update** and **delete**: a missing post gives NotFound. A post owned by
  another user gives Forbidden. Otherwise update merges in the fields present
  in the body (`Object.assign`) and delete removes the row. Both then clear the
  whole cache.
- **findAll**: answers from the cache on a hit. On a miss it builds a `where`
  object from the filters and calls `findAndCount`, which orders by
  `created_at` descending, skips `(page - 1) * limit` rows and takes `limit`.
  It then reduces each author to `{id, email}`, caches the result and returns
  it.

Files:

- `entities.dfy` (module `Entities`): posts, users, the two request bodies,
  the error outcomes, and `Merge`, the shallow merge update applies.
- `filters.dfy` (module `Filters`): the `where` object, how the repository
  evaluates it (`Matches`), and the filter semantics stated directly
  (`Selected`). `BuildWhere` builds the object the way `findAll` does and is
  proved to select exactly what `Selected` selects.
- `repository.dfy` (module `Repository`): a model of TypeORM's `findAndCount`
  with the options `findAll` passes. It covers the descending order, the
  skip/take window and the count. Rows with equal `created_at` come back in
  an order the database leaves open. This model puts the smaller id first so
  that a query is a function of the table. The proved properties of the
  ordering are only that it lists each matching row once and that
  `created_at` never increases along it.
- `posts_service.dfy` (module `Service`): the class `PostsService` with fields
  `posts` and `cache`, `Listing` (what a query for a window of the selected
  posts returns), `Fresh` (the listing a key asks for, on the current table),
  and two caller scenarios. The scenarios follow the service's tests:
  the same list request twice, and an author-only update.

The main invariant, `Valid()`, says that every cached entry equals `Fresh` of
the current table. It holds because each write empties the cache and a miss
stores only a fresh result. `FindAll` is therefore proved to return
`Fresh(posts, key)` on a hit and on a miss alike. Each operation is modelled
as one atomic step, so a list request that follows a completed create, update
or delete never sees the old table. Concurrent requests that interleave are
not covered (see "Left out").

Inputs that come from outside the service are parameters:

- the result of the author lookup (`usersService.findById`), as an optional
  user;
- the id and timestamps the database assigns on save.

Timestamps are integers.

A consequence of the filter code, proved as `OrderedDateBoundsFilterNothing`:
`dateFrom` and `dateTo` combine as `created_at >= dateFrom OR created_at <
dateTo`. So when both are given and `dateFrom <= dateTo`, the date filter
excludes nothing. The model keeps the disjunction as the code writes it.

## Model

| member | source | states |
|---|---|---|
| `Entities.Merge` | src/posts/posts.service.ts:70-71 | After `Object.assign` and save, title and description take the body's value when present and keep the old one when absent. Id, author and creation time are kept. The update timestamp becomes the save time when the title or the description changed, and is kept when the save changed no column. |
| `Entities.MergeComposes` | src/posts/posts.service.ts:70-71 | Two successive merges equal one merge of the overlaid bodies, in which the later body's present fields win, on every field but the update timestamp. That timestamp is the second save time whenever the second body changed a column. |
| `Entities.MergeIdempotent` | src/posts/posts.service.ts:70-71 | Repeating an update with the same body changes nothing at all, not even the update timestamp, because the second save changes no column. |
| `Entities.Project` | src/posts/posts.service.ts:145-152 | The listed post keeps id, title, description and both timestamps, and its author is exactly `{id, email}` of the loaded author. |
| `Filters.BuildWhere` | src/posts/posts.service.ts:114-133 | The built `where` selects a post if and only if the filter semantics select it. The author condition is set only for a truthy (non-zero) id and the title condition only for a non-empty title. The date disjunction gets one operand for each date given. |
| `Filters.OrderedDateBoundsFilterNothing` | src/posts/posts.service.ts:123-131 | With both dates given and `dateFrom <= dateTo`, a post is selected if and only if it is selected with no date filter at all. |
| `Repository.FirstExists` | src/posts/posts.service.ts:140 | Every non-empty set of rows has a first row in descending `created_at` order. |
| `Repository.OrderedIds` | src/posts/posts.service.ts:140 | The ordering lists each matching id exactly once and nothing else, and `created_at` never increases along it. |
| `Repository.Window` | src/posts/posts.service.ts:137-138 | The page has length `min(take, n - skip)`, or 0 when `skip >= n`. Its i-th entry is entry `skip + i` of the ordering. |
| `Repository.OrderedPage` | src/posts/posts.service.ts:137-140 | Every entry of a page is the stored row of a matching id at its position in the ordering. `created_at` does not increase along the page. |
| `Repository.FindAndCount` | src/posts/posts.service.ts:135-143 | The count is the number of rows matching `where`. The page has `min(take, count - skip)` rows, or none when `skip >= count`. Entry `i` of the page is the stored row at position `skip + i` of the descending `created_at` ordering of the matching rows, so the page starts at offset `skip` and holds no row twice. Every row of the page matches `where`, and `created_at` does not increase along the page. |
| `Service.ShapeAll` | src/posts/posts.service.ts:145-152 | Every row of the page is projected, in order, and the row count is unchanged. |
| `Service.Listing` | src/posts/posts.service.ts:135-153 | `total` is the number of selected posts, and `data` has at most `take` entries. |
| `Service.Fresh` | src/posts/posts.service.ts:135-153 | A list request's result has `total` equal to the number of selected posts and at most `limit` entries in `data`. |
| `Service.ListingSize` | src/posts/posts.service.ts:137-143 | `total` is the length of the whole ordering, and `data` has `min(take, total - skip)` entries, or none when `skip >= total`. |
| `Service.ListingContents` | src/posts/posts.service.ts:135-153 | Entry `i` of `data` is the projection of the selected post at position `skip + i` of the descending `created_at` ordering. `data` is in descending `created_at` order. |
| `Service.FindAndCountIsFresh` | src/posts/posts.service.ts:135-153 | When the `where` object matches exactly the selected posts, the shaped `findAndCount` page with its count is the fresh listing for the key. |
| `Service.FalsyFiltersSameListing` | src/posts/posts.service.ts:115-120 | Filters with a zero or absent author id, an empty or absent title and no dates give, for every page and limit, the same listing as no filters at all. |
| `Service.OnePostListing` | src/posts/posts.service.ts:135-153 | With one post stored, the first unfiltered page of 10 is that post projected, with total 1. |
| `Service.PostsService.constructor` | src/posts/posts.service.ts:29-35 | The service starts over a consistent table with an empty cache, so the cache invariant holds. |
| `Service.PostsService.Create` | src/posts/posts.service.ts:37-53 | A failed author lookup gives InternalServerError and changes neither table nor cache. Otherwise the table gains exactly the new post under its fresh id, with the body's title and description and the looked-up author. The cache becomes empty and the invariant is kept. |
| `Service.PostsService.Update` | src/posts/posts.service.ts:55-77 | A missing id gives NotFound and another author's post gives Forbidden, both changing nothing. Otherwise exactly that post is replaced by its merge with the body, that post is returned, the cache becomes empty and the invariant is kept. |
| `Service.PostsService.Delete` | src/posts/posts.service.ts:79-93 | A missing id gives NotFound and another author's post gives Forbidden, both changing nothing. Otherwise exactly that id is removed, all other posts stay, the cache becomes empty and the invariant is kept. |
| `Service.PostsService.FindAll` | src/posts/posts.service.ts:95-159 | On a hit it returns the cached value and changes nothing. On a miss it stores its result under the key and leaves all other entries. The table is never changed, and the result always equals a fresh query on the current table. |

## Left out

- HTTP routing, guards and the controllers' query-string coercion
  (`Number(...)`, `new Date(...)`) belong to the controllers, not to the
  service. So do the request validation decorators.
- Authentication (bcrypt comparison, token signing and checking) and password
  hashing are calls into libraries whose behaviour is not visible. The users
  service is reduced to the result of its `findById` lookup.
- The cache key is the `(page, limit, filters)` tuple itself, not its
  `JSON.stringify` string. `JSON.stringify` treats an absent field and an
  `undefined` one alike, which the optional fields already do. Keys from
  `NaN` numbers or invalid dates, which serialise to `null`, are not modelled.
- The 300-second TTL of cache entries is not modelled. Expiry only removes
  entries, so it cannot break the cache invariant.
- SQL `LIKE` wildcards (`%`, `_`) and its default escape character (`\`)
  inside the title filter are not modelled;
  the title filter is plain substring matching. The data source is PostgreSQL
  (`dataSource.ts:6`), whose `LIKE` is case-sensitive, as the model's
  matching is.
- Concurrency: every operation is one atomic step of the model. In the
  service, a `findAll` miss awaits `findAndCount` (line 143) and then
  `cacheManager.set` (line 156). A create, update or delete whose `reset()`
  lands between those two awaits leaves the cache holding a result from the
  old table, so `Valid()` does not hold across such an interleaving.
- Service.PostsService.FindAll: requires `page >= 1` and `limit >= 1`. The
  repository's behaviour for a negative skip or a zero take cannot be seen
  from the service.
- Repository.OrderedIds: the database's order for rows with equal
  `created_at` is open. The model picks the smaller id first. Its contract
  promises only the descending order and that each matching row appears once.
  `Fresh`, and with it the cache invariant, is stated for this one ordering.
- The posts table's `authorId` column is nullable. The model gives every post
  an author, because `create` always sets one. A null author, which the
  `?.` in the projection would tolerate, is not modelled.
- `async`/`await`, `console.log` and the database's failure modes are not
  modelled. Each repository and cache call is taken to succeed.
