// The posts repository's `findAndCount` with the options the service passes
// it: the rows matching `where`, ordered by created_at descending, cut to the
// window skip/take, and the count of all matching rows.
//
// The database leaves the order of rows with equal created_at open; this
// model breaks such ties by the smaller id so that a query is a function of
// the store. The lemmas about listings promise only the descending order.

module Repository {
  import opened Entities
  import opened Filters

  /** `k` comes first among `ks` in descending created_at order (smaller id on a tie). */
  predicate IsFirst(store: map<int, Post>, ks: set<int>, k: int)
    requires ks <= store.Keys
  {
    && k in ks
    && forall j :: j in ks ==>
         || store[j].createdAt < store[k].createdAt
         || (store[j].createdAt == store[k].createdAt && k <= j)
  }

  /** Every non-empty set of ids has a first element. */
  lemma {:induction false} FirstExists(store: map<int, Post>, ks: set<int>)
    requires ks <= store.Keys && ks != {}
    ensures exists k :: IsFirst(store, ks, k)
    decreases ks
  {
    if forall y :: y !in ks {
      assert false;  // ks is not empty
    }
    var x :| x in ks;
    if ks != {x} {
      var rest := ks - {x};
      FirstExists(store, rest);
      var k :| IsFirst(store, rest, k);
      if store[x].createdAt > store[k].createdAt
         || (store[x].createdAt == store[k].createdAt && x <= k) {
        assert IsFirst(store, ks, x);
      } else {
        assert IsFirst(store, ks, k);
      }
    } else {
      assert IsFirst(store, ks, x);
    }
  }

  lemma FirstUnique(store: map<int, Post>, ks: set<int>)
    requires ks <= store.Keys
    ensures forall k1, k2 :: IsFirst(store, ks, k1) && IsFirst(store, ks, k2) ==> k1 == k2
  {
  }

  /** The ids of `ks` in the order `ORDER BY created_at DESC` returns them:
      each id exactly once, created_at never increasing along the sequence. */
  function OrderedIds(store: map<int, Post>, ks: set<int>): (r: seq<int>)
    requires ks <= store.Keys
    ensures |r| == |ks|
    ensures forall i :: 0 <= i < |r| ==> r[i] in ks
    ensures forall k :: k in ks ==> k in r
    ensures forall i, j :: 0 <= i < j < |r| ==> r[i] != r[j]
    ensures forall i, j :: 0 <= i < j < |r| ==> store[r[i]].createdAt >= store[r[j]].createdAt
    decreases ks
  {
    if ks == {} then []
    else
      FirstExists(store, ks);
      FirstUnique(store, ks);
      var k :| IsFirst(store, ks, k);
      [k] + OrderedIds(store, ks - {k})
  }

  function Min(a: int, b: int): int {
    if a <= b then a else b
  }

  /** `OFFSET skip LIMIT take`: at most `take` elements of `s`, starting at
      position `skip`, in the order of `s`. */
  function Window<T>(s: seq<T>, skip: nat, take: nat): (r: seq<T>)
    ensures |r| == if skip >= |s| then 0 else Min(take, |s| - skip)
    ensures forall i :: 0 <= i < |r| ==> r[i] == s[skip + i]
  {
    if skip >= |s| then [] else s[skip..Min(skip + take, |s|)]
  }

  /** The rows stored under `ids`, in the order of `ids`. */
  function Rows(store: map<int, Post>, ids: seq<int>): seq<Post>
    requires forall i :: 0 <= i < |ids| ==> ids[i] in store
  {
    seq(|ids|, i requires 0 <= i < |ids| => store[ids[i]])
  }

  /** The page `skip .. skip + take` of the rows under `ids` in descending
      created_at order: each entry is the stored row at that position of the
      ordering, and created_at does not increase along the page. */
  lemma OrderedPage(store: map<int, Post>, ids: set<int>, skip: nat, take: nat)
    requires ids <= store.Keys
    ensures var order := OrderedIds(store, ids);
            var page := Window(Rows(store, order), skip, take);
            && (forall i :: 0 <= i < |page| ==> order[skip + i] in ids && page[i] == store[order[skip + i]])
            && (forall i, j :: 0 <= i < j < |page| ==> page[i].createdAt >= page[j].createdAt)
  {
    var order := OrderedIds(store, ids);
    var rows := Rows(store, order);
    var page := Window(rows, skip, take);
    forall i | 0 <= i < |page|
      ensures order[skip + i] in ids && page[i] == store[order[skip + i]]
    {
      assert page[i] == rows[skip + i];
    }
    forall i, j | 0 <= i < j < |page|
      ensures page[i].createdAt >= page[j].createdAt
    {
      assert page[i] == rows[skip + i] == store[order[skip + i]];
      assert page[j] == rows[skip + j] == store[order[skip + j]];
    }
  }

  function MatchingIds(store: map<int, Post>, w: Where): set<int> {
    set k | k in store && Matches(w, store[k])
  }

  /** `findAndCount({where, order: {created_at: 'DESC'}, skip, take})`: the
      count of all rows matching `where`, and at most `take` of those rows,
      the ones after the first `skip` in descending created_at order: entry
      `i` is the row at position `skip + i` of that order, so no row appears
      twice. */
  function FindAndCount(store: map<int, Post>, w: Where, skip: nat, take: nat): (res: (seq<Post>, nat))
    ensures res.1 == |MatchingIds(store, w)|
    ensures |res.0| == if skip >= res.1 then 0 else Min(take, res.1 - skip)
    ensures forall i :: 0 <= i < |res.0| ==> Matches(w, res.0[i])
    ensures forall i :: 0 <= i < |res.0| ==> exists k :: k in MatchingIds(store, w) && res.0[i] == store[k]
    ensures forall i, j :: 0 <= i < j < |res.0| ==> res.0[i].createdAt >= res.0[j].createdAt
    ensures var order := OrderedIds(store, MatchingIds(store, w));
            forall i :: 0 <= i < |res.0| ==> skip + i < |order| && res.0[i] == store[order[skip + i]]
    ensures var order := OrderedIds(store, MatchingIds(store, w));
            forall i, j {:trigger res.0[i], res.0[j]} :: 0 <= i < j < |res.0| ==> order[skip + i] != order[skip + j]
  {
    var ids := MatchingIds(store, w);
    OrderedPage(store, ids, skip, take);
    (Window(Rows(store, OrderedIds(store, ids)), skip, take), |ids|)
  }
}
