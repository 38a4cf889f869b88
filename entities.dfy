// Records and transfer objects of the posts service, and the shallow merge
// that `update` applies to a loaded post.

module Entities {

  datatype Option<+T> = None | Some(value: T)

  /** The exceptions the service throws, by the HTTP status they map to. */
  datatype HttpError = NotFound | Forbidden | InternalServerError

  /** Either the value an operation resolves to or the exception it throws. */
  datatype Result<+T> = Ok(value: T) | Err(error: HttpError)

  /** A row of the users table as the eager author relation loads it;
      `password` is the stored hash, which a listing must not expose. */
  datatype User = User(id: int, email: string, password: string)

  /** The author as a listing shows it: exactly `{id, email}`. */
  datatype AuthorSummary = AuthorSummary(id: int, email: string)

  /** A row of the posts table with its author loaded. Timestamps are
      instants as integers; the database sets both on insert, and refreshes
      `updatedAt` on a save that changes a column. */
  datatype Post = Post(
    id: int,
    title: string,
    description: string,
    author: User,
    createdAt: int,
    updatedAt: int)

  /** A post as a listing returns it: every field of the post, with the
      author reduced to its summary. */
  datatype PostView = PostView(
    id: int,
    title: string,
    description: string,
    author: AuthorSummary,
    createdAt: int,
    updatedAt: int)

  datatype CreatePostDto = CreatePostDto(title: string, description: string)

  /** Both fields are optional; an absent field is not an own property of
      the body object and so is not copied by `Object.assign`. */
  datatype UpdatePostDto = UpdatePostDto(title: Option<string>, description: Option<string>)

  /** The post after `Object.assign(post, dto)` and a save at time `now`:
      the present DTO fields overwrite, everything else is kept. A save that
      changes no column issues no UPDATE, so the database refreshes the
      update timestamp only when the title or the description changed. */
  function Merge(p: Post, dto: UpdatePostDto, now: int): (q: Post)
    ensures q.title == (if dto.title.Some? then dto.title.value else p.title)
    ensures q.description == (if dto.description.Some? then dto.description.value else p.description)
    ensures q.id == p.id && q.author == p.author && q.createdAt == p.createdAt
    ensures q.updatedAt == (if q.title == p.title && q.description == p.description then p.updatedAt else now)
  {
    var withTitle := if dto.title.Some? then p.(title := dto.title.value) else p;
    var withBoth := if dto.description.Some? then withTitle.(description := dto.description.value) else withTitle;
    if withBoth == p then p else withBoth.(updatedAt := now)
  }

  /** Applying `a` and then `b` is applying their overlay once, in which the
      fields present in `b` win. */
  function Overlay(a: UpdatePostDto, b: UpdatePostDto): UpdatePostDto {
    UpdatePostDto(
      if b.title.Some? then b.title else a.title,
      if b.description.Some? then b.description else a.description)
  }

  /** Two successive updates leave the post as one update with the overlaid
      body does, up to the update timestamp, which is the later save time
      when the second body changed something. */
  lemma MergeComposes(p: Post, a: UpdatePostDto, b: UpdatePostDto, t1: int, t2: int)
    ensures var twice := Merge(Merge(p, a, t1), b, t2);
            var once := Merge(p, Overlay(a, b), t2);
            && twice == once.(updatedAt := twice.updatedAt)
            && (twice.title != Merge(p, a, t1).title || twice.description != Merge(p, a, t1).description
                ==> twice.updatedAt == t2)
  {
  }

  /** Repeating an update with the same body changes nothing at all. */
  lemma MergeIdempotent(p: Post, dto: UpdatePostDto, t1: int, t2: int)
    ensures Merge(Merge(p, dto, t1), dto, t2) == Merge(p, dto, t1)
  {
    var q := Merge(p, dto, t1);
    assert q.title == (if dto.title.Some? then dto.title.value else p.title);
    assert Merge(q, dto, t2).title == q.title && Merge(q, dto, t2).description == q.description;
  }

  /** The listing's reduction of one post: `{...post, author: {id, email}}`. */
  function Project(p: Post): (v: PostView)
    ensures v.id == p.id && v.title == p.title && v.description == p.description
    ensures v.author == AuthorSummary(p.author.id, p.author.email)
    ensures v.createdAt == p.createdAt && v.updatedAt == p.updatedAt
  {
    PostView(p.id, p.title, p.description, AuthorSummary(p.author.id, p.author.email), p.createdAt, p.updatedAt)
  }
}
