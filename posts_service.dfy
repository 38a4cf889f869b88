// PostsService (src/posts/posts.service.ts): the post store behind the
// repository, the list-query cache, and the four operations over them.

module Service {
  import opened Entities
  import opened Filters
  import opened Repository

  /** The cache key: the exact `(page, limit, filters)` tuple of a list request. */
  datatype CacheKey = CacheKey(page: int, limit: int, filters: Option<ListFilters>)

  /** The value a list request returns and the cache holds. */
  datatype ListResult = ListResult(data: seq<PostView>, total: nat)

  predicate ValidKey(key: CacheKey) {
    key.page >= 1 && key.limit >= 1
  }

  function Skip(key: CacheKey): nat
    requires ValidKey(key)
  {
    (key.page - 1) * key.limit
  }

  /** Every post is stored under its own id. */
  ghost predicate StoreConsistent(store: map<int, Post>) {
    forall k :: k in store ==> store[k].id == k
  }

  /** The ids of the stored posts the filter semantics select. */
  function SelectedIds(store: map<int, Post>, filters: Option<ListFilters>): set<int> {
    set k | k in store && Selected(filters, store[k])
  }

  /** The author projection applied to every row of a page. */
  function ShapeAll(rows: seq<Post>): (data: seq<PostView>)
    ensures |data| == |rows|
    ensures forall i :: 0 <= i < |rows| ==> data[i] == Project(rows[i])
  {
    seq(|rows|, i requires 0 <= i < |rows| => Project(rows[i]))
  }

  /** What a query for the selected posts, ordered by created_at descending,
      returns for the window `skip .. skip + take`, each row shaped. */
  function Listing(store: map<int, Post>, filters: Option<ListFilters>, skip: nat, take: nat): (r: ListResult)
    ensures r.total == |SelectedIds(store, filters)|
    ensures |r.data| <= take
  {
    var ids := SelectedIds(store, filters);
    ListResult(ShapeAll(Window(Rows(store, OrderedIds(store, ids)), skip, take)), |ids|)
  }

  /** What a list request for `key` returns when it queries `store`: the page
      `page` of `limit` rows. */
  function Fresh(store: map<int, Post>, key: CacheKey): (r: ListResult)
    requires ValidKey(key)
    ensures r.total == |SelectedIds(store, key.filters)|
    ensures |r.data| <= key.limit
  {
    Listing(store, key.filters, Skip(key), key.limit)
  }

  /** Every cached result is what a query on the current store returns. */
  ghost predicate CacheCoherent(store: map<int, Post>, cache: map<CacheKey, ListResult>) {
    forall key :: key in cache ==> ValidKey(key) && cache[key] == Fresh(store, key)
  }

  /** The size of a listing: `total` counts the whole ordering and `data` is
      what remains of it after `skip` entries, cut to `take`. */
  lemma ListingSize(store: map<int, Post>, filters: Option<ListFilters>, skip: nat, take: nat)
    ensures var r := Listing(store, filters, skip, take);
            && |OrderedIds(store, SelectedIds(store, filters))| == r.total
            && |r.data| == (if skip >= r.total then 0 else Min(take, r.total - skip))
  {
    var ids := SelectedIds(store, filters);
    var rows := Rows(store, OrderedIds(store, ids));
    assert |rows| == |ids|;
    assert Listing(store, filters, skip, take).data == ShapeAll(Window(rows, skip, take));
  }

  /** The contents of a listing: `total` counts every selected post; `data`
      holds the positions `skip .. skip + take` of the selected posts in
      descending created_at order, each with its author reduced to
      `{id, email}`, so created_at does not increase along `data`. */
  lemma ListingContents(store: map<int, Post>, filters: Option<ListFilters>, skip: nat, take: nat)
    ensures var r := Listing(store, filters, skip, take);
            var order := OrderedIds(store, SelectedIds(store, filters));
            && |order| == r.total
            && |r.data| == (if skip >= r.total then 0 else Min(take, r.total - skip))
            && (forall i :: 0 <= i < |r.data| ==>
                  Selected(filters, store[order[skip + i]]) && r.data[i] == Project(store[order[skip + i]]))
            && (forall i, j :: 0 <= i < j < |r.data| ==> r.data[i].createdAt >= r.data[j].createdAt)
  {
    var ids := SelectedIds(store, filters);
    var order := OrderedIds(store, ids);
    var page := Window(Rows(store, order), skip, take);
    ListingSize(store, filters, skip, take);
    OrderedPage(store, ids, skip, take);
    var data := ShapeAll(page);
    assert Listing(store, filters, skip, take).data == data;
    forall i | 0 <= i < |data|
      ensures Selected(filters, store[order[skip + i]]) && data[i] == Project(store[order[skip + i]])
    {
      assert order[skip + i] in ids;
    }
    forall i, j | 0 <= i < j < |data|
      ensures data[i].createdAt >= data[j].createdAt
    {
      assert data[i] == Project(page[i]) && data[j] == Project(page[j]);
    }
  }

  /** A query whose `where` selects exactly the posts the filters select
      returns, once shaped, the fresh listing for the key. */
  lemma FindAndCountIsFresh(store: map<int, Post>, w: Where, key: CacheKey)
    requires ValidKey(key)
    requires MatchingIds(store, w) == SelectedIds(store, key.filters)
    ensures var found := FindAndCount(store, w, Skip(key), key.limit);
            Fresh(store, key) == ListResult(ShapeAll(found.0), found.1)
  {
  }

  /** Filters whose fields are all falsy give, for every page, the same
      listing as no filters at all. */
  lemma FalsyFiltersSameListing(store: map<int, Post>, f: ListFilters, page: int, limit: int)
    requires !NumberTruthy(f.authorId) && !StringTruthy(f.title)
    requires f.dateFrom.None? && f.dateTo.None?
    requires page >= 1 && limit >= 1
    ensures Fresh(store, CacheKey(page, limit, Some(f))) == Fresh(store, CacheKey(page, limit, None))
  {
    var filtered, unfiltered := CacheKey(page, limit, Some(f)), CacheKey(page, limit, None);
    forall k | k in store
      ensures k in SelectedIds(store, Some(f)) <==> k in SelectedIds(store, None)
    {
      assert Selected(Some(f), store[k]);
    }
    assert SelectedIds(store, Some(f)) == SelectedIds(store, None);
    assert Skip(filtered) == Skip(unfiltered);
  }

  class PostsService {
    /** The posts table, by id. */
    var posts: map<int, Post>
    /** The cache manager's entries for list requests. */
    var cache: map<CacheKey, ListResult>

    ghost predicate Valid()
      reads this
    {
      StoreConsistent(posts) && CacheCoherent(posts, cache)
    }

    /** A service over an existing posts table, with an empty cache. */
    constructor (store: map<int, Post>)
      requires StoreConsistent(store)
      ensures Valid()
      ensures posts == store && cache == map[]
    {
      posts := store;
      cache := map[];
    }

    /** Creates a post written by the user `author` that the lookup of
        `authorId` found; `freshId` and `now` are the id and timestamp the
        database assigns on save. A failed lookup is a server error that
        changes nothing; a save clears the whole cache. */
    method Create(dto: CreatePostDto, authorId: int, author: Option<User>, freshId: int, now: int)
      returns (r: Result<Post>)
      requires Valid()
      requires author.Some? ==> author.value.id == authorId
      requires freshId !in posts
      modifies this
      ensures Valid()
      ensures author.None? ==>
                && r == Err(InternalServerError)
                && posts == old(posts) && cache == old(cache)
      ensures author.Some? ==>
                && r == Ok(Post(freshId, dto.title, dto.description, author.value, now, now))
                && r.value.author.id == authorId
                && posts == old(posts)[freshId := r.value]
                && cache == map[]
    {
      if author.None? {
        return Err(InternalServerError);
      }
      var post := Post(freshId, dto.title, dto.description, author.value, now, now);
      posts := posts[freshId := post];
      cache := map[];
      r := Ok(post);
    }

    /** Updates post `id` on behalf of `userId` at time `now`. A missing post
        is NotFound and a post of another author Forbidden, both changing
        nothing; otherwise the present DTO fields are merged in, the post is
        saved and the whole cache is cleared. */
    method Update(id: int, dto: UpdatePostDto, userId: int, now: int) returns (r: Result<Post>)
      requires Valid()
      modifies this
      ensures Valid()
      ensures id !in old(posts) ==>
                && r == Err(NotFound)
                && posts == old(posts) && cache == old(cache)
      ensures id in old(posts) && old(posts)[id].author.id != userId ==>
                && r == Err(Forbidden)
                && posts == old(posts) && cache == old(cache)
      ensures id in old(posts) && old(posts)[id].author.id == userId ==>
                && r == Ok(Merge(old(posts)[id], dto, now))
                && posts == old(posts)[id := r.value]
                && cache == map[]
    {
      if id !in posts {
        return Err(NotFound);
      }
      var post := posts[id];
      if post.author.id != userId {
        return Err(Forbidden);
      }
      post := Merge(post, dto, now);
      posts := posts[id := post];
      cache := map[];
      r := Ok(post);
    }

    /** Deletes post `id` on behalf of `userId`, with the same NotFound and
        Forbidden outcomes as Update; otherwise removes exactly that post
        and clears the whole cache. */
    method Delete(id: int, userId: int) returns (r: Result<()>)
      requires Valid()
      modifies this
      ensures Valid()
      ensures id !in old(posts) ==>
                && r == Err(NotFound)
                && posts == old(posts) && cache == old(cache)
      ensures id in old(posts) && old(posts)[id].author.id != userId ==>
                && r == Err(Forbidden)
                && posts == old(posts) && cache == old(cache)
      ensures id in old(posts) && old(posts)[id].author.id == userId ==>
                && r == Ok(())
                && posts == old(posts) - {id}
                && cache == map[]
    {
      if id !in posts {
        return Err(NotFound);
      }
      if posts[id].author.id != userId {
        return Err(Forbidden);
      }
      posts := posts - {id};
      cache := map[];
      r := Ok(());
    }

    /** The list request. A cached key is answered from the cache without
        touching anything; otherwise the store is queried and the shaped
        result is cached under the key. Either way the answer is what a
        query on the current store returns. */
    method FindAll(page: int, limit: int, filters: Option<ListFilters>) returns (r: ListResult)
      requires Valid()
      requires page >= 1 && limit >= 1
      modifies this`cache
      ensures Valid()
      ensures posts == old(posts)
      ensures r == Fresh(posts, CacheKey(page, limit, filters))
      ensures CacheKey(page, limit, filters) in old(cache) ==>
                r == old(cache)[CacheKey(page, limit, filters)] && cache == old(cache)
      ensures CacheKey(page, limit, filters) !in old(cache) ==>
                cache == old(cache)[CacheKey(page, limit, filters) := r]
    {
      var key := CacheKey(page, limit, filters);
      if key in cache {
        return cache[key];
      }
      var w := BuildWhere(filters);
      assert MatchingIds(posts, w) == SelectedIds(posts, filters);
      FindAndCountIsFresh(posts, w, key);
      var found := FindAndCount(posts, w, (page - 1) * limit, limit);
      var data := ShapeAll(found.0);
      r := ListResult(data, found.1);
      cache := cache[key := r];
    }
  }

  /** The first page of an unfiltered listing of a store holding one post
      is that post, projected. */
  lemma OnePostListing(store: map<int, Post>, id: int)
    requires store.Keys == {id}
    ensures Fresh(store, CacheKey(1, 10, None)) == ListResult([Project(store[id])], 1)
  {
    var key := CacheKey(1, 10, None);
    assert SelectedIds(store, None) == {id};
    ListingContents(store, None, 0, 10);
    var r := Fresh(store, key);
    assert Skip(key) == 0;
    assert |r.data| == 1;
    assert OrderedIds(store, {id})[0] == id;
  }

  /** Two identical list requests with no write between them return the
      same result, the second one from the cache. */
  method RepeatedListScenario(author: User, id: int, dto: CreatePostDto, t0: int, page: int, limit: int)
    requires page >= 1 && limit >= 1
  {
    var service := new PostsService(map[]);
    var created := service.Create(dto, author.id, Some(author), id, t0);
    var listed := service.FindAll(page, limit, None);
    assert CacheKey(page, limit, None) in service.cache;
    var again := service.FindAll(page, limit, None);
    assert again == listed;
  }

  /** The service's update scenario, from the caller's side: `author`
      writes a post, another user may not change it, the author changes only
      its title, and the next listing shows the new title with the old
      description and the author reduced to `{id, email}`. */
  method AuthorOnlyUpdateScenario(author: User, other: int, id: int, dto: CreatePostDto, newTitle: string, t0: int, t1: int)
    requires other != author.id
  {
    var service := new PostsService(map[]);
    var created := service.Create(dto, author.id, Some(author), id, t0);
    assert created.Ok? && created.value.author == author;

    var edit := UpdatePostDto(Some(newTitle), None);
    var denied := service.Update(id, edit, other, t1);
    assert denied == Err(Forbidden);
    var updated := service.Update(id, edit, author.id, t1);
    assert updated.Ok? && updated.value.title == newTitle;
    assert updated.value.description == dto.description;
    assert service.cache == map[];

    var relisted := service.FindAll(1, 10, None);
    OnePostListing(service.posts, id);
    assert relisted.total == 1 && |relisted.data| == 1;
    assert relisted.data[0].title == newTitle;
    assert relisted.data[0].description == dto.description;
    assert relisted.data[0].author == AuthorSummary(author.id, author.email);

    var missing := service.Delete(id + 1, author.id);
    assert missing == Err(NotFound);
  }
}
