// The list query's filters: the `where` object the service builds from them
// (posts.service.ts, findAll) and the filter semantics it is meant to have.

module Filters {
  import opened Entities

  /** The optional filters of a list request. Dates are instants as integers. */
  datatype ListFilters = ListFilters(
    authorId: Option<int>,
    dateFrom: Option<int>,
    dateTo: Option<int>,
    title: Option<string>)

  /** The two TypeORM operators the date filter uses. */
  datatype DateOp =
    | MoreThanOrEqual(bound: int)
    | LessThan(bound: int)

  /** The `where` object handed to the repository. `createdAt` holds the
      operands of `Or(...values)`; a field left unset places no condition. */
  datatype Where = Where(
    authorId: Option<int>,
    titleLike: Option<string>,
    createdAt: Option<seq<DateOp>>)

  const NoConditions := Where(None, None, None)

  /** `t` occurs in `s` at some position: `LIKE '%t%'` without wildcards in `t`. */
  predicate IsSubstring(t: string, s: string) {
    exists i :: 0 <= i <= |s| && t <= s[i..]
  }

  predicate Holds(op: DateOp, instant: int) {
    match op
    case MoreThanOrEqual(b) => instant >= b
    case LessThan(b) => instant < b
  }

  /** How the repository evaluates a `where` object on one row. */
  predicate Matches(w: Where, p: Post) {
    && (w.authorId.Some? ==> p.author.id == w.authorId.value)
    && (w.titleLike.Some? ==> IsSubstring(w.titleLike.value, p.title))
    && (w.createdAt.Some? ==> exists op :: op in w.createdAt.value && Holds(op, p.createdAt))
  }

  /** JavaScript truthiness of an optional number: present and not 0. */
  predicate NumberTruthy(n: Option<int>) {
    n.Some? && n.value != 0
  }

  /** JavaScript truthiness of an optional string: present and not empty. */
  predicate StringTruthy(s: Option<string>) {
    s.Some? && s.value != ""
  }

  /** The filter semantics stated directly: an author filter when the id is
      truthy, a substring filter when the title is non-empty, and, when either
      date is given, "at or after dateFrom" OR "before dateTo". */
  predicate Selected(filters: Option<ListFilters>, p: Post) {
    match filters
    case None => true
    case Some(f) =>
      && (NumberTruthy(f.authorId) ==> p.author.id == f.authorId.value)
      && (StringTruthy(f.title) ==> IsSubstring(f.title.value, p.title))
      && (f.dateFrom.Some? || f.dateTo.Some? ==>
            (f.dateFrom.Some? && p.createdAt >= f.dateFrom.value)
            || (f.dateTo.Some? && p.createdAt < f.dateTo.value))
  }

  /** Builds the `where` object field by field. The result selects exactly
      the posts the filter semantics select, sets the author condition only
      for a truthy id, the title condition only for a non-empty title, and
      gives the date disjunction one operand per date present. */
  method BuildWhere(filters: Option<ListFilters>) returns (w: Where)
    ensures forall p :: Matches(w, p) <==> Selected(filters, p)
    ensures w.authorId.Some? <==> filters.Some? && NumberTruthy(filters.value.authorId)
    ensures w.titleLike.Some? <==> filters.Some? && StringTruthy(filters.value.title)
    ensures w.createdAt.Some? ==>
              && filters.Some?
              && |w.createdAt.value| == (if filters.value.dateFrom.Some? then 1 else 0)
                                        + (if filters.value.dateTo.Some? then 1 else 0)
              && |w.createdAt.value| >= 1
  {
    w := NoConditions;
    if filters.Some? {
      var f := filters.value;
      if NumberTruthy(f.authorId) {
        w := w.(authorId := f.authorId);
      }
      if StringTruthy(f.title) {
        w := w.(titleLike := f.title);
      }
      if f.dateFrom.Some? || f.dateTo.Some? {
        var values: seq<DateOp> := [];
        if f.dateFrom.Some? {
          values := values + [MoreThanOrEqual(f.dateFrom.value)];
        }
        if f.dateTo.Some? {
          values := values + [LessThan(f.dateTo.value)];
        }
        w := w.(createdAt := Some(values));
        forall p: Post
          ensures (exists op :: op in values && Holds(op, p.createdAt))
                  <==> (f.dateFrom.Some? && p.createdAt >= f.dateFrom.value)
                       || (f.dateTo.Some? && p.createdAt < f.dateTo.value)
        {
          if f.dateFrom.Some? && p.createdAt >= f.dateFrom.value {
            assert Holds(values[0], p.createdAt);
          } else if f.dateTo.Some? && p.createdAt < f.dateTo.value {
            assert Holds(values[|values| - 1], p.createdAt);
          }
        }
      }
    }
  }

  /** With both dates given and dateFrom not after dateTo, the date filter
      lets every post through: the bounds combine by OR, not as a range. */
  lemma OrderedDateBoundsFilterNothing(f: ListFilters, p: Post)
    requires f.dateFrom.Some? && f.dateTo.Some? && f.dateFrom.value <= f.dateTo.value
    ensures Selected(Some(f), p) <==> Selected(Some(f.(dateFrom := None, dateTo := None)), p)
  {
  }
}
