/** Keyset pagination over bare sort keys: the walk behind the ticket listing. */
module Keyset {
  import opened Prelude

  /** The sort key of a row: (created_at, id). */
  datatype Key = Key(at: int, id: nat)

  predicate Newer(a: Key, b: Key) {
    a.at > b.at || (a.at == b.at && a.id > b.id)
  }

  predicate Below(bound: Option<Key>, k: Key) {
    bound.Some? ==> Newer(bound.value, k)
  }

  function Cut(view: set<Key>, bound: Option<Key>): set<Key> {
    set k | k in view && Below(bound, k)
  }

  // ------------------------------------------------------------------
  // ORDER BY created_at DESC, id DESC
  // ------------------------------------------------------------------

  predicate IsNewest(s: set<Key>, k: Key) {
    k in s && forall x :: x in s && x != k ==> Newer(k, x)
  }

  lemma {:induction false} NewestExists(s: set<Key>)
    requires s != {}
    ensures exists k :: IsNewest(s, k)
  {
    var x :| x in s;
    if s == {x} {
      assert IsNewest(s, x);
    } else {
      NewestExists(s - {x});
      var y :| IsNewest(s - {x}, y);
      assert forall z :: z in s ==> z == x || z in s - {x};
      assert Newer(x, y) || Newer(y, x);
      assert IsNewest(s, if Newer(x, y) then x else y);
    }
  }

  function Newest(s: set<Key>): (k: Key)
    requires s != {}
    ensures IsNewest(s, k)
  {
    NewestExists(s);
    var k :| IsNewest(s, k);
    k
  }

  function SortDesc(s: set<Key>): (ks: seq<Key>)
    ensures |ks| == |s|
  {
    if s == {} then [] else [Newest(s)] + SortDesc(s - {Newest(s)})
  }

  predicate Descending(ks: seq<Key>) {
    forall i, j :: 0 <= i < j < |ks| ==> Newer(ks[i], ks[j])
  }

  lemma {:induction false} Sorts(s: set<Key>)
    ensures Descending(SortDesc(s))
    ensures forall k :: k in SortDesc(s) <==> k in s
  {
    if s != {} {
      Sorts(s - {Newest(s)});
    }
  }

  // The list is of the keys there are: by time the newest first, and by id the largest first among equal times.
  lemma NewestFirst(s: set<Key>)
    ensures var ks := SortDesc(s);
      forall i, j :: 0 <= i < j < |ks| ==> ks[i].at > ks[j].at || (ks[i].at == ks[j].at && ks[i].id > ks[j].id)
    ensures |SortDesc(s)| == |s| && forall k :: k in SortDesc(s) <==> k in s
  {
    Sorts(s);
  }

  // A descending sequence is the only one over its elements.
  lemma {:induction false} SortIsUnique(ks: seq<Key>, s: set<Key>)
    requires Descending(ks) && forall k :: k in ks <==> k in s
    ensures ks == SortDesc(s)
  {
    if ks == [] {
      assert s == {};
    } else {
      assert ks[0] in s;
      var top := Newest(s);
      assert top in ks;
      assert ks[0] == top;
      assert forall k :: k in ks[1..] <==> k in s - {top};
      SortIsUnique(ks[1..], s - {top});
    }
  }

  // ------------------------------------------------------------------
  // One page: the newest `limit` rows below the bound, found with a limit + 1 look-ahead
  // ------------------------------------------------------------------

  function PageKeys(view: set<Key>, bound: Option<Key>, limit: nat): seq<Key> {
    var sorted := SortDesc(Cut(view, bound));
    if |sorted| > limit then sorted[..limit] else sorted
  }

  function HasMore(view: set<Key>, bound: Option<Key>, limit: nat): bool {
    |Cut(view, bound)| > limit
  }

  /** The bound for the next request, if there is one. */
  function NextBound(view: set<Key>, bound: Option<Key>, limit: nat): Option<Key> {
    var ks := PageKeys(view, bound, limit);
    if HasMore(view, bound, limit) && ks != [] then Some(ks[|ks| - 1]) else None
  }

  /** Rows not among the first n of the sorted list come after those that are. */
  lemma FirstAreNewest(all: set<Key>, n: nat, x: Key, y: Key)
    requires n <= |all| && x in SortDesc(all)[..n] && y in all && y !in SortDesc(all)[..n]
    ensures Newer(x, y)
  {
    var sorted := SortDesc(all);
    Sorts(all);
    var i :| 0 <= i < n && sorted[i] == x;
    var j :| 0 <= j < |sorted| && sorted[j] == y;
  }

  lemma PageIsNewestRows(view: set<Key>, bound: Option<Key>, limit: nat)
    ensures var ks := PageKeys(view, bound, limit);
      && Descending(ks)
      && (forall k :: k in ks ==> k in view && Below(bound, k))
      && (forall x, y :: x in ks && y in Cut(view, bound) && y !in ks ==> Newer(x, y))
      && (HasMore(view, bound, limit) <==> exists y :: y in Cut(view, bound) && y !in ks)
  {
    var all := Cut(view, bound);
    var sorted := SortDesc(all);
    var ks := PageKeys(view, bound, limit);
    Sorts(all);
    assert forall i :: 0 <= i < |ks| ==> ks[i] == sorted[i] && sorted[i] in sorted;
    assert ks == sorted[..|ks|];
    forall x, y | x in ks && y in all && y !in ks
      ensures Newer(x, y)
    {
      FirstAreNewest(all, |ks|, x, y);
    }
    if HasMore(view, bound, limit) {
      var y := sorted[limit];
      assert y !in ks;
    }
  }

  // The page by the fields of its keys: in order, and full if it leaves a row out.
  lemma PageInOrder(view: set<Key>, bound: Option<Key>, limit: nat)
    ensures var ks := PageKeys(view, bound, limit);
      forall i, j :: 0 <= i < j < |ks| ==> ks[i].at > ks[j].at || (ks[i].at == ks[j].at && ks[i].id > ks[j].id)
    ensures |PageKeys(view, bound, limit)| <= limit
    ensures HasMore(view, bound, limit) ==> |PageKeys(view, bound, limit)| == limit
  {
    PageIsNewestRows(view, bound, limit);
  }

  // Each row is of the view and before the bound, an earlier time or the same time and a smaller id.
  lemma PageRow(view: set<Key>, bound: Option<Key>, limit: nat, k: Key)
    requires k in PageKeys(view, bound, limit)
    ensures k in view
    ensures bound.Some? ==> k.at < bound.value.at || (k.at == bound.value.at && k.id < bound.value.id)
  {
    PageIsNewestRows(view, bound, limit);
  }

  // Each row left out although before the bound comes after every row of the page.
  lemma PageLeavesOut(view: set<Key>, bound: Option<Key>, limit: nat, y: Key)
    requires y in view && y !in PageKeys(view, bound, limit)
    requires bound.Some? ==> y.at < bound.value.at || (y.at == bound.value.at && y.id < bound.value.id)
    ensures HasMore(view, bound, limit)
    ensures forall x :: x in PageKeys(view, bound, limit) ==> x.at > y.at || (x.at == y.at && x.id > y.id)
  {
    PageIsNewestRows(view, bound, limit);
    assert y in Cut(view, bound);
  }

  lemma AfterIffOlder(ks: seq<Key>, n: nat, j: nat)
    requires Descending(ks) && 1 <= n <= |ks| && j < |ks|
    ensures Newer(ks[n - 1], ks[j]) <==> j >= n
    ensures ks[j] in ks[n..] <==> j >= n
  {
    if j >= n {
      assert ks[n..][j - n] == ks[j];
    }
  }

  // The rows below the next bound are exactly those of this page's remainder.
  lemma RestBelowLast(view: set<Key>, bound: Option<Key>, n: nat, k: Key)
    requires 1 <= n <= |Cut(view, bound)|
    ensures var sorted := SortDesc(Cut(view, bound)); k in sorted[n..] <==> k in Cut(view, Some(sorted[n - 1]))
  {
    var sorted := SortDesc(Cut(view, bound));
    var last := sorted[n - 1];
    Sorts(Cut(view, bound));
    assert last in sorted && Below(bound, last);
    if k in Cut(view, bound) {
      var j :| 0 <= j < |sorted| && sorted[j] == k;
      AfterIffOlder(sorted, n, j);
      assert k in Cut(view, Some(last)) <==> Newer(last, k);
    } else {
      assert k in sorted[n..] ==> k in sorted;
    }
  }

  lemma Remainder(view: set<Key>, bound: Option<Key>, limit: nat)
    requires NextBound(view, bound, limit).Some?
    ensures SortDesc(Cut(view, NextBound(view, bound, limit))) == SortDesc(Cut(view, bound))[limit..]
  {
    var sorted := SortDesc(Cut(view, bound));
    forall k
      ensures k in sorted[limit..] <==> k in Cut(view, Some(sorted[limit - 1]))
    {
      RestBelowLast(view, bound, limit, k);
    }
    Sorts(Cut(view, bound));
    SortIsUnique(sorted[limit..], Cut(view, Some(sorted[limit - 1])));
  }

  // ------------------------------------------------------------------
  // The walk: request number i sees views[i], the keys of the rows that match at that moment
  // ------------------------------------------------------------------

  function Walk(views: seq<set<Key>>, bound: Option<Key>, limit: nat): seq<Key> {
    if views == [] then []
    else
      var next := NextBound(views[0], bound, limit);
      PageKeys(views[0], bound, limit) + if next.None? then [] else Walk(views[1..], next, limit)
  }

  /** The walk reached a page without a next cursor. */
  predicate Finished(views: seq<set<Key>>, bound: Option<Key>, limit: nat) {
    views != [] &&
    var next := NextBound(views[0], bound, limit);
    next.None? || Finished(views[1..], next, limit)
  }

  lemma LastIsOldest(ks: seq<Key>, k: Key)
    requires ks != [] && Descending(ks) && Newer(ks[|ks| - 1], k)
    ensures forall x :: x in ks ==> Newer(x, k)
  {
    forall x | x in ks
      ensures Newer(x, k)
    {
      var i :| 0 <= i < |ks| && ks[i] == x;
      assert i < |ks| - 1 ==> Newer(ks[i], ks[|ks| - 1]);
    }
  }

  lemma DescendingAppend(a: seq<Key>, b: seq<Key>)
    requires Descending(a) && Descending(b) && forall x, y :: x in a && y in b ==> Newer(x, y)
    ensures Descending(a + b)
  {
    forall i, j | 0 <= i < j < |a + b|
      ensures Newer((a + b)[i], (a + b)[j])
    {
      if i < |a| <= j {
        assert a[i] in a && b[j - |a|] in b;
      }
    }
  }

  // No assumption at all on how the rows change: returned keys strictly decrease.
  lemma {:induction false} WalkDescends(views: seq<set<Key>>, bound: Option<Key>, limit: nat)
    ensures Descending(Walk(views, bound, limit))
    ensures var w := Walk(views, bound, limit); forall i, j :: 0 <= i < j < |w| ==>
      w[i].at > w[j].at || (w[i].at == w[j].at && w[i].id > w[j].id)
    ensures forall k :: k in Walk(views, bound, limit) ==> Below(bound, k)
  {
    if views != [] {
      PageIsNewestRows(views[0], bound, limit);
      var ks := PageKeys(views[0], bound, limit);
      var next := NextBound(views[0], bound, limit);
      if next.Some? {
        WalkDescends(views[1..], next, limit);
        assert ks[|ks| - 1] in ks;
        forall k | k in Walk(views[1..], next, limit)
          ensures Below(bound, k) && forall x :: x in ks ==> Newer(x, k)
        {
          LastIsOldest(ks, k);
        }
        DescendingAppend(ks, Walk(views[1..], next, limit));
      }
    }
  }

  lemma {:induction false} WalkReturnsMatchingRows(views: seq<set<Key>>, bound: Option<Key>, limit: nat, k: Key)
    requires k in Walk(views, bound, limit)
    ensures exists i :: 0 <= i < |views| && k in views[i]
  {
    PageIsNewestRows(views[0], bound, limit);
    if k in PageKeys(views[0], bound, limit) {
      assert k in views[0];
    } else {
      WalkReturnsMatchingRows(views[1..], NextBound(views[0], bound, limit), limit, k);
      var i :| 0 <= i < |views| - 1 && k in views[1..][i];
      assert k in views[i + 1];
    }
  }

  // Whatever is inserted, deleted or changed around it, a row that matches at every request is returned.
  lemma {:induction false} WalkMissesNothing(views: seq<set<Key>>, bound: Option<Key>, limit: nat, k: Key)
    requires limit >= 1 && Finished(views, bound, limit) && Below(bound, k)
    requires forall i :: 0 <= i < |views| ==> k in views[i]
    ensures k in Walk(views, bound, limit)
  {
    PageIsNewestRows(views[0], bound, limit);
    var ks := PageKeys(views[0], bound, limit);
    if k !in ks {
      assert k in Cut(views[0], bound);
      var next := NextBound(views[0], bound, limit);
      assert ks[|ks| - 1] in ks;
      WalkMissesNothing(views[1..], next, limit, k);
    }
  }

  /** An id keeps its key: created_at is written once. */
  predicate StableKeys(views: seq<set<Key>>) {
    forall i, j, k, l :: 0 <= i < |views| && 0 <= j < |views| && k in views[i] && l in views[j] && k.id == l.id ==> k == l
  }

  lemma NoRowTwice(views: seq<set<Key>>, bound: Option<Key>, limit: nat)
    requires StableKeys(views)
    ensures var w := Walk(views, bound, limit);
      forall a, b :: 0 <= a < b < |w| ==> w[a].id != w[b].id
  {
    var w := Walk(views, bound, limit);
    WalkDescends(views, bound, limit);
    forall a, b | 0 <= a < b < |w|
      ensures w[a].id != w[b].id
    {
      WalkReturnsMatchingRows(views, bound, limit, w[a]);
      WalkReturnsMatchingRows(views, bound, limit, w[b]);
      assert Newer(w[a], w[b]);
    }
  }

  function PagesNeeded(rows: nat, limit: nat): nat
    requires limit >= 1
  {
    if rows <= limit then 1 else 1 + PagesNeeded(rows - limit, limit)
  }

  /** Each request's view agrees with the one before on the rows below the cursor it is given. */
  predicate SettledBelow(views: seq<set<Key>>, bound: Option<Key>, limit: nat) {
    |views| >= 2 ==>
      var next := NextBound(views[0], bound, limit);
      next.Some? ==> Cut(views[1], next) == Cut(views[0], next) && SettledBelow(views[1..], next, limit)
  }

  /** One page of a view: the first rows of the sorted list, and what the next bound leaves. */
  lemma PageOfList(view: set<Key>, bound: Option<Key>, limit: nat)
    requires limit >= 1
    ensures var all, next := Cut(view, bound), NextBound(view, bound, limit);
      && (next.Some? <==> |all| > limit)
      && (next.None? ==> PageKeys(view, bound, limit) == SortDesc(all))
      && (next.Some? ==>
            && |Cut(view, next)| == |all| - limit
            && PageKeys(view, bound, limit) + SortDesc(Cut(view, next)) == SortDesc(all))
  {
    var all, next := Cut(view, bound), NextBound(view, bound, limit);
    if next.Some? {
      Remainder(view, bound, limit);
      assert |SortDesc(Cut(view, next))| == |all| - limit;
      assert SortDesc(all) == SortDesc(all)[..limit] + SortDesc(all)[limit..];
    }
  }

  // If nothing changes below the cursor, the pages concatenate to the full sorted list of the
  // rows there were at the first request, in exactly the number of pages that takes.
  lemma {:induction false} SettledWalkIsSortedList(views: seq<set<Key>>, bound: Option<Key>, limit: nat)
    requires limit >= 1 && views != [] && SettledBelow(views, bound, limit)
    ensures var all := Cut(views[0], bound);
      && (Finished(views, bound, limit) <==> |views| >= PagesNeeded(|all|, limit))
      && (Finished(views, bound, limit) ==> Walk(views, bound, limit) == SortDesc(all))
  {
    var next := NextBound(views[0], bound, limit);
    PageOfList(views[0], bound, limit);
    if next.Some? {
      assert PagesNeeded(|Cut(views[0], bound)|, limit) == 1 + PagesNeeded(|Cut(views[0], next)|, limit);
      if |views| >= 2 {
        SettledWalkIsSortedList(views[1..], next, limit);
      } else {
        assert views[1..] == [];
      }
    }
  }
}
