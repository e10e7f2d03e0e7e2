/**
 The forwarding history of a CLN node: the listing call, its filter and the cursor it yields, and the loop that pages
 through a history and stores it.
 */
module ForwardHistory {
  const LIMIT := 10000

  /** The stored columns of a forward. */
  datatype Values = Values(inChannel: nat, outChannel: nat, inMsat: nat, outMsat: nat, resolved: int)

  /**
   A settled forward in a listing: the index the listing is ordered by, the created index that identifies it, and
   whether the optional fields are all present.
   */
  datatype Item = Item(index: nat, created: nat, complete: bool, values: Values)

  type Table = map<nat, Values>

  ghost predicate Ascending(h: seq<Item>) {
    forall a, b :: 0 <= a < b < |h| ==> h[a].index < h[b].index
  }

  /** The first position whose index is not below the offset. */
  function Position(h: seq<Item>, offset: nat): (k: nat)
    ensures k <= |h| && (forall a :: 0 <= a < k ==> h[a].index < offset)
    ensures k < |h| ==> h[k].index >= offset
  {
    PositionFrom(h, offset, 0)
  }

  function PositionFrom(h: seq<Item>, offset: nat, from: nat): (k: nat)
    requires from <= |h|
    ensures from <= k <= |h| && (forall a :: from <= a < k ==> h[a].index < offset)
    ensures k < |h| ==> h[k].index >= offset
    decreases |h| - from
  {
    if from == |h| || h[from].index >= offset then from else PositionFrom(h, offset, from + 1)
  }

  /** The node answers with at most twice the limit. */
  function PageEnd(h: seq<Item>, k: nat): (end: nat)
    requires k <= |h|
    ensures k <= end <= |h|
  {
    if |h| - k <= 2 * LIMIT then |h| else k + 2 * LIMIT
  }

  function Page(h: seq<Item>, k: nat): seq<Item>
    requires k <= |h|
  {
    h[k..PageEnd(h, k)]
  }

  /** The forwards of a page that have all fields. */
  function Complete(page: seq<Item>): seq<Item> {
    if page == [] then [] else
    var it := page[|page| - 1];
    if it.complete then Complete(page[..|page| - 1]) + [it] else Complete(page[..|page| - 1])
  }

  /** One past the last complete forward's index, or zero if there is none. */
  function NextOffset(page: seq<Item>): nat {
    var kept := Complete(page);
    if kept == [] then 0 else kept[|kept| - 1].index + 1
  }

  /** Insert, or leave alone what is there. */
  function Insert(t: Table, items: seq<Item>): Table {
    if items == [] then t else
    var before, it := Insert(t, items[..|items| - 1]), items[|items| - 1];
    if it.created in before then before else before[it.created := it.values]
  }

  /** Insert, or overwrite what is there. */
  function Upsert(t: Table, items: seq<Item>): Table {
    if items == [] then t else Upsert(t, items[..|items| - 1])[items[|items| - 1].created := items[|items| - 1].values]
  }

  // ----- what paging reaches

  /** Position after the last complete forward of `h[..k]`, or `from` if there is none at or after `from`. */
  function AfterLast(h: seq<Item>, from: nat, k: nat): (r: nat)
    requires from <= k <= |h|
    ensures from <= r <= k
    ensures forall a :: r <= a < k ==> !h[a].complete
    ensures r > from ==> h[r - 1].complete
  {
    if k == from then from else if h[k - 1].complete then k else AfterLast(h, from, k - 1)
  }

  /** Where the cursor stands after the page from `k`. */
  function PageNext(h: seq<Item>, k: nat): nat
    requires k <= |h|
  {
    AfterLast(h, k, PageEnd(h, k))
  }

  /** The position the loop stops at: a page without complete forwards, or a page shorter than the limit. */
  function Reach(h: seq<Item>, k: nat): (r: nat)
    requires k <= |h|
    ensures k <= r <= |h|
    decreases |h| - k
  {
    var next := PageNext(h, k);
    if next == k || |h| - k < LIMIT then next else Reach(h, next)
  }

  ghost predicate PageOfIncomplete(h: seq<Item>, p: nat) {
    p + 2 * LIMIT <= |h| && forall a :: p <= a < p + 2 * LIMIT ==> !h[a].complete
  }

  /** A complete forward behind a full page of incomplete ones. */
  ghost predicate Gap(h: seq<Item>, k: nat) {
    exists p, q :: k <= p && PageOfIncomplete(h, p) && p + 2 * LIMIT <= q < |h| && h[q].complete
  }

  /**
   Every complete forward from the start is reached, exactly unless one lies behind a full page of incomplete ones.
   */
  lemma {:induction false} ReachesAll(h: seq<Item>, k: nat)
    requires k <= |h|
    ensures (forall q :: k <= q < |h| && h[q].complete ==> q < Reach(h, k)) <==> !Gap(h, k)
    decreases |h| - k
  {
    var next := PageNext(h, k);
    if next == k {
      if q :| k <= q < |h| && h[q].complete {
        assert PageOfIncomplete(h, k);
      }
    } else if |h| - k >= LIMIT {
      ReachesAll(h, next);
      if Gap(h, k) {
        var p, q :| k <= p && PageOfIncomplete(h, p) && p + 2 * LIMIT <= q < |h| && h[q].complete;
        assert next - 1 < p;
      }
    }
  }

  /** A history of incomplete forwards with one complete forward at its end. */
  function LateHistory(n: nat, v: Values): (h: seq<Item>)
    ensures |h| == n + 1 && Ascending(h)
  {
    seq(n, i requires 0 <= i < n => Item(i, i, false, v)) + [Item(n, n, true, v)]
  }

  /** It happens: behind 20,000 forwards with missing fields a complete one is never reached, behind one less it is. */
  lemma IncompletePageHides(v: Values)
    ensures Reach(LateHistory(2 * LIMIT, v), 0) == 0
    ensures Reach(LateHistory(2 * LIMIT - 1, v), 0) == 2 * LIMIT
  {
    var h := LateHistory(2 * LIMIT, v);
    ReachesAll(h, 0);
    assert PageOfIncomplete(h, 0) && h[2 * LIMIT].complete;
    assert PageNext(h, 0) == 0;
    var g := LateHistory(2 * LIMIT - 1, v);
    ReachesAll(g, 0);
    assert g[2 * LIMIT - 1].complete;
  }

  // ----- pages as slices

  lemma {:induction false} CompleteSlices(a: seq<Item>, b: seq<Item>)
    ensures Complete(a + b) == Complete(a) + Complete(b)
  {
    if b == [] {
      assert a + b == a;
    } else {
      CompleteSlices(a, b[..|b| - 1]);
      assert (a + b)[..|a + b| - 1] == a + b[..|b| - 1];
    }
  }

  lemma {:induction false} NoneComplete(a: seq<Item>)
    requires forall i :: 0 <= i < |a| ==> !a[i].complete
    ensures Complete(a) == []
  {
    if a != [] { NoneComplete(a[..|a| - 1]); }
  }

  /** The page from `k` yields the complete forwards up to `PageNext`. */
  lemma PageYields(h: seq<Item>, k: nat)
    requires k <= |h|
    ensures Complete(Page(h, k)) == Complete(h[k..PageNext(h, k)])
    ensures Complete(Page(h, k)) == [] <==> PageNext(h, k) == k
    ensures PageNext(h, k) > k ==> NextOffset(Page(h, k)) == h[PageNext(h, k) - 1].index + 1
  {
    var next := PageNext(h, k);
    TrimIncomplete(h, k, next, PageEnd(h, k));
    if next > k {
      LastComplete(h, k, next);
    } else {
      assert h[k..next] == [];
    }
  }

  /** The cursor it yields resumes right there. */
  lemma PageCursor(h: seq<Item>, k: nat)
    requires Ascending(h) && k <= |h| && k < PageNext(h, k)
    ensures Position(h, NextOffset(Page(h, k))) == PageNext(h, k)
  {
    PageYields(h, k);
    PositionAfter(h, PageNext(h, k));
  }

  lemma TrimIncomplete(h: seq<Item>, k: nat, next: nat, end: nat)
    requires k <= next <= end <= |h| && forall a :: next <= a < end ==> !h[a].complete
    ensures Complete(h[k..end]) == Complete(h[k..next])
  {
    assert h[k..end] == h[k..next] + h[next..end];
    CompleteSlices(h[k..next], h[next..end]);
    NoneComplete(h[next..end]);
  }

  lemma LastComplete(h: seq<Item>, k: nat, next: nat)
    requires k < next <= |h| && h[next - 1].complete
    ensures var kept := Complete(h[k..next]); kept != [] && kept[|kept| - 1] == h[next - 1]
  {
    assert h[k..next][|h[k..next]| - 1] == h[next - 1];
  }

  lemma PositionAfter(h: seq<Item>, next: nat)
    requires Ascending(h) && 0 < next <= |h|
    ensures Position(h, h[next - 1].index + 1) == next
  {
    var k := Position(h, h[next - 1].index + 1);
    assert forall a :: 0 <= a < next - 1 ==> h[a].index < h[next - 1].index;
    assert next < |h| ==> h[next - 1].index < h[next].index;
  }

  ghost predicate DistinctIds(items: seq<Item>) {
    forall a, b :: 0 <= a < b < |items| ==> items[a].created != items[b].created
  }

  lemma {:induction false} UpsertElsewhere(t: Table, items: seq<Item>, id: nat)
    requires forall it :: it in items ==> it.created != id
    ensures id in Upsert(t, items) <==> id in t
    ensures id in t ==> Upsert(t, items)[id] == t[id]
  {
    if items != [] {
      assert items[|items| - 1] in items;
      UpsertElsewhere(t, items[..|items| - 1], id);
    }
  }

  lemma {:induction false} UpsertAt(t: Table, items: seq<Item>, i: nat)
    requires DistinctIds(items) && i < |items|
    ensures items[i].created in Upsert(t, items) && Upsert(t, items)[items[i].created] == items[i].values
  {
    if i < |items| - 1 {
      UpsertAt(t, items[..|items| - 1], i);
    }
  }

  lemma {:induction false} InsertTwice(t: Table, a: seq<Item>, b: seq<Item>)
    ensures Insert(Insert(t, a), b) == Insert(t, a + b)
  {
    if b == [] {
      assert a + b == a;
    } else {
      InsertTwice(t, a, b[..|b| - 1]);
      assert (a + b)[..|a + b| - 1] == a + b[..|b| - 1];
    }
  }

  /** Inserting stores every item under its identifier, once, and keeps every row that was there. */
  lemma {:induction false} InsertStores(t: Table, items: seq<Item>)
    requires DistinctIds(items)
    ensures forall c :: c in Insert(t, items) ==> c in t || exists i :: 0 <= i < |items| && items[i].created == c
    ensures forall c :: c in t ==> c in Insert(t, items) && Insert(t, items)[c] == t[c]
    ensures forall i :: 0 <= i < |items| ==>
              && items[i].created in Insert(t, items)
              && (items[i].created !in t ==> Insert(t, items)[items[i].created] == items[i].values)
  {
    if items != [] {
      var front := items[..|items| - 1];
      assert forall i :: 0 <= i < |front| ==> items[i] == front[i];
      InsertStores(t, front);
      forall c | c in Insert(t, items) && c !in t ensures exists i :: 0 <= i < |items| && items[i].created == c {
        if c in Insert(t, front) {
          var i :| 0 <= i < |front| && front[i].created == c;
          assert items[i].created == c;
        } else {
          assert items[|items| - 1].created == c;
        }
      }
    }
  }

  /** Filtering keeps complete items, and only them. */
  lemma {:induction false} CompleteFrom(page: seq<Item>)
    ensures forall it :: it in Complete(page) <==> it in page && it.complete
  {
    if page != [] {
      CompleteFrom(page[..|page| - 1]);
      assert page == page[..|page| - 1] + [page[|page| - 1]];
    }
  }

  lemma {:induction false} CompleteDistinct(page: seq<Item>)
    requires DistinctIds(page)
    ensures DistinctIds(Complete(page))
  {
    if page != [] {
      var front := page[..|page| - 1];
      CompleteDistinct(front);
      CompleteFrom(front);
      forall a | 0 <= a < |Complete(front)| ensures Complete(front)[a].created != page[|page| - 1].created {
        assert Complete(front)[a] in front;
        var i :| 0 <= i < |front| && front[i] == Complete(front)[a];
        assert page[i] == front[i];
      }
    }
  }

  /**
   What an error-free pass stores: every complete forward from the starting position is in the table under its
   identifier, with its values unless the row was there before, if none lies behind a full page of incomplete ones.
   */
  lemma EverythingStored(h: seq<Item>, from: nat, t: Table, q: nat)
    requires DistinctIds(h) && from <= q < |h| && h[q].complete && !Gap(h, from)
    ensures var stored := Insert(t, Complete(h[from..Reach(h, from)]));
            h[q].created in stored && stored[h[q].created] == if h[q].created in t then t[h[q].created] else h[q].values
  {
    ReachesAll(h, from);
    var page := h[from..Reach(h, from)];
    assert page[q - from] == h[q];
    CompleteFrom(page);
    CompleteDistinct(page);
    var items := Complete(page);
    InsertStores(t, items);
    assert h[q] in items;
    var i :| 0 <= i < |items| && items[i] == h[q];
  }

  /** With all fields present nothing is skipped: the pass ends at the end of the history. */
  lemma AllFieldsPresent(h: seq<Item>, from: nat)
    requires from <= |h| && forall a :: from <= a < |h| ==> h[a].complete
    ensures !Gap(h, from) && Reach(h, from) == |h|
  {
    ReachesAll(h, from);
    forall p | from <= p < |h| ensures !PageOfIncomplete(h, p) {
      assert h[p].complete;
    }
    assert from < |h| ==> h[|h| - 1].complete;
  }
}
