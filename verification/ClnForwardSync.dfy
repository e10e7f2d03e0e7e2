/**
 The CLN forward synchronizer: two cursors over one node's history, kept in memory and in the store.  Every call to the
 node or the store is one step of `ClnSyncSteps`; the loops are put together from these steps.
 */
module ClnForwardSync {
  import opened Base
  import opened ForwardHistory
  import opened ClnSyncSteps

  class ForwardSync {
    var createdOffset: nat
    var updatedOffset: nat
    var forwards: Table
    var storedCreated: nat
    var storedUpdated: nat

    // The node, and where the loops are.
    ghost var node: map<nat, Rec>
    ghost var unused: nat
    ghost var stage: Stage

    ghost function View(): State
      reads this
    {
      State(node, unused, forwards, storedCreated, storedUpdated, createdOffset, updatedOffset, stage)
    }

    ghost predicate Valid()
      reads this
    {
      Inv(View())
    }

    /** The method took exactly the step of the event. */
    twostate predicate Did(e: Event)
      reads this
    {
      Enabled(old(View()), e) && View() == Apply(old(View()), e) && Valid()
    }

    constructor ()
      ensures View() == INIT && Valid()
    {
      createdOffset, updatedOffset, storedCreated, storedUpdated := 0, 0, 0, 0;
      forwards := map[];
      node, unused, stage := map[], 0, Down;
    }

    // ----- the steps

    /** What happens on the node, at any moment. */
    ghost method NodeChanges(e: Event)
      requires Valid() && (e.Change? || e.Remove?)
      modifies `node, `unused
      ensures Did(e)
    {
      Step(View(), e);
      match e
      case Change(id, complete, values) => node, unused := node[id := Rec(unused, complete, values)], unused + 1;
      case Remove(id) => node := node - {id};
    }

    /** The offsets are fetched; an error leaves both at zero. */
    method Begin() returns (fetched: bool)
      requires Valid() && stage.Down?
      modifies `createdOffset, `updatedOffset, `stage
      ensures Did(Start(fetched))
    {
      fetched := *;
      Step(View(), Start(fetched));
      if fetched {
        createdOffset, updatedOffset := storedCreated, storedUpdated;
      } else {
        createdOffset, updatedOffset := 0, 0;
      }
      stage := CreatedHead;
    }

    /** The interval is over. */
    ghost method Awake()
      requires Valid() && stage.Resting?
      modifies `stage
      ensures Did(Wake)
    {
      Step(View(), Wake);
      stage := CreatedHead;
    }

    ghost method Stop()
      requires Valid()
      modifies `stage
      ensures Did(Crash)
    {
      Step(View(), Crash);
      stage := Down;
    }

    /** The filter over a response: its complete forwards, the cursor after them and whether the end is near. */
    method ListForwards(response: seq<Item>) returns (result: seq<Item>, newOffset: nat, endReached: bool)
      ensures Filtered(response, result, newOffset, endReached)
    {
      endReached := |response| < LIMIT;
      result, newOffset := [], 0;
      for i := 0 to |response|
        invariant result == Complete(response[..i])
        invariant newOffset == NextOffset(response[..i])
      {
        assert response[..i + 1][..i] == response[..i];
        if response[i].complete {
          result := result + [response[i]];
          newOffset := response[i].index + 1;
        }
      }
      assert response[..|response|] == response;
    }

    /** A listing by created index. */
    method RequestCreated(response: Option<seq<Item>>) returns (result: seq<Item>, newOffset: nat, endReached: bool)
      requires Valid() && Enabled(View(), ListCreated(response))
      modifies `stage
      ensures Did(ListCreated(response))
      ensures if response.None? then result == [] else Filtered(response.value, result, newOffset, endReached)
      ensures result != [] ==> stage == CreatedListed(result, newOffset, endReached)
    {
      Step(View(), ListCreated(response));
      result, newOffset, endReached := [], 0, false;
      if response.Some? {
        result, newOffset, endReached := ListForwards(response.value);
      }
      stage := if result == [] then UpdatedHead else CreatedListed(result, newOffset, endReached);
    }

    /** A transaction that inserts a page; when it reports an error it may or may not have been committed. */
    method InsertForwards(items: seq<Item>) returns (ok: bool, ghost applied: bool)
      requires Valid() && stage.CreatedListed? && items == stage.items
      modifies `forwards, `stage
      ensures Did(StoreCreated(ok, applied))
    {
      ok := *;
      var committed: bool := *;
      applied := ok || committed;
      Step(View(), StoreCreated(ok, applied));
      if ok || committed {
        forwards := Insert(forwards, items);
      }
      stage := if ok then CreatedStored(stage.next, stage.last) else UpdatedHead;
    }

    /** A transaction that writes both offsets. */
    method SetClnForwardOffsets(created: nat, updated: nat) returns (ok: bool, ghost applied: bool)
      modifies `storedCreated, `storedUpdated
      ensures ok ==> applied
      ensures if applied then storedCreated == created && storedUpdated == updated
              else unchanged(`storedCreated, `storedUpdated)
    {
      ok := *;
      var committed: bool := *;
      applied := ok || committed;
      if ok || committed {
        storedCreated, storedUpdated := created, updated;
      }
    }

    /** The cursor is persisted, then moved. */
    method MoveCreated(newOffset: nat) returns (ok: bool, ghost applied: bool)
      requires Valid() && stage.CreatedStored? && newOffset == stage.next
      modifies `storedCreated, `storedUpdated, `createdOffset, `stage
      ensures Did(PersistCreated(ok, applied))
    {
      ghost var before := View();
      ok, applied := SetClnForwardOffsets(newOffset, updatedOffset);
      Step(before, PersistCreated(ok, applied));
      if ok {
        createdOffset := newOffset;
      }
      stage := if ok && !stage.last then CreatedHead else UpdatedHead;
    }

    /** A listing by updated index. */
    method RequestUpdated(response: Option<seq<Item>>) returns (result: seq<Item>, newOffset: nat, endReached: bool)
      requires Valid() && Enabled(View(), ListUpdated(response))
      modifies `stage
      ensures Did(ListUpdated(response))
      ensures if response.None? then result == [] else Filtered(response.value, result, newOffset, endReached)
      ensures result != [] ==> stage == UpdatedListed(result, newOffset, endReached, unused)
    {
      Step(View(), ListUpdated(response));
      result, newOffset, endReached := [], 0, false;
      if response.Some? {
        result, newOffset, endReached := ListForwards(response.value);
      }
      stage := if result == [] then Resting else UpdatedListed(result, newOffset, endReached, unused);
    }

    /** A transaction that overwrites with a page. */
    method UpdateForwards(items: seq<Item>) returns (ok: bool, ghost applied: bool)
      requires Valid() && stage.UpdatedListed? && items == stage.items
      modifies `forwards, `stage
      ensures Did(StoreUpdated(ok, applied))
    {
      ok := *;
      var committed: bool := *;
      applied := ok || committed;
      Step(View(), StoreUpdated(ok, applied));
      if ok || committed {
        forwards := Upsert(forwards, items);
      }
      stage := if ok then UpdatedStored(stage.next, stage.last) else Resting;
    }

    method MoveUpdated(newOffset: nat) returns (ok: bool, ghost applied: bool)
      requires Valid() && stage.UpdatedStored? && newOffset == stage.next
      modifies `storedCreated, `storedUpdated, `updatedOffset, `stage
      ensures Did(PersistUpdated(ok, applied))
    {
      ghost var before := View();
      ok, applied := SetClnForwardOffsets(createdOffset, newOffset);
      Step(before, PersistUpdated(ok, applied));
      if ok {
        updatedOffset := newOffset;
      }
      stage := if ok && !stage.last then UpdatedHead else Resting;
    }

    // ----- the loops, over a history that stays the same meanwhile

    /** The history is stored from `from` up to the cursor, on top of `t`. */
    ghost predicate StoredUpTo(h: seq<Item>, from: nat, t: Table, k: nat)
      reads this
    {
      from <= k <= |h| && k == Position(h, createdOffset) && forwards == Insert(t, Complete(h[from..k]))
    }

    /** The page of a history from the created cursor, unless the call fails. */
    method ListCreatedPage(h: seq<Item>)
      returns (answered: bool, items: seq<Item>, newOffset: nat, endReached: bool)
      requires Valid() && stage.CreatedHead? && Listing(node, h, false)
      modifies `stage
      ensures Valid() && (!answered ==> items == [])
      ensures stage == if items == [] then UpdatedHead else CreatedListed(items, newOffset, endReached)
      ensures answered ==> Yields(h, Position(h, createdOffset), items, newOffset, endReached)
    {
      answered := *;
      if answered {
        PageLists(node, h, createdOffset, false);
        items, newOffset, endReached := RequestCreated(Some(Page(h, Position(h, createdOffset))));
        PageYields(h, Position(h, createdOffset));
      } else {
        items, newOffset, endReached := RequestCreated(None);
      }
    }

    /** Insert a page, persist the cursor after it, then move the cursor. */
    method StoreCreatedPage(items: seq<Item>, newOffset: nat, ghost last: bool) returns (ok: bool)
      requires Valid() && stage == CreatedListed(items, newOffset, last)
      modifies this
      ensures Valid() && unchanged(`node, `unused, `updatedOffset)
      ensures forwards == Insert(old(forwards), items) || (!ok && forwards == old(forwards))
      ensures createdOffset == if ok then newOffset else old(createdOffset)
      ensures ok ==> storedCreated == newOffset && storedUpdated == updatedOffset
      ensures stage == if ok && !last then CreatedHead else UpdatedHead
    {
      var inserted, _ := InsertForwards(items);
      if !inserted {
        return false;
      }
      var persisted, _ := MoveCreated(newOffset);
      return persisted;
    }

    /** One round of the created loop: list, insert, persist the cursor, then move it; any call may fail. */
    method CreatedRound(h: seq<Item>, ghost from: nat, ghost t: Table) returns (outcome: Outcome)
      requires Valid() && stage.CreatedHead? && Listing(node, h, false)
      requires StoredUpTo(h, from, t, Position(h, createdOffset))
      modifies this
      ensures Valid() && unchanged(`node, `unused, `updatedOffset)
      ensures stage == if outcome == Stored(false) then CreatedHead else UpdatedHead
      ensures var k := Position(h, old(createdOffset));
              match outcome
              case Failed =>
                && createdOffset == old(createdOffset)
                && (forwards == old(forwards)
                    || (k < PageNext(h, k) && forwards == Insert(t, Complete(h[from..PageNext(h, k)]))))
              case Empty => createdOffset == old(createdOffset) && forwards == old(forwards) && PageNext(h, k) == k
              case Stored(last) =>
                && createdOffset > old(createdOffset) && k < PageNext(h, k) && StoredUpTo(h, from, t, PageNext(h, k))
                && storedCreated == createdOffset && storedUpdated == updatedOffset && (last <==> |h| - k < LIMIT)
    {
      ghost var k := Position(h, createdOffset);
      var answered, items, newOffset, endReached := ListCreatedPage(h);
      if |items| == 0 {
        return if answered then Empty else Failed;
      }
      PageCursor(h, k);
      RoundStores(h, from, k, t);
      NextAbove(h, createdOffset);
      var stored := StoreCreatedPage(items, newOffset, endReached);
      return if stored then Stored(endReached) else Failed;
    }

    /**
     Pages through the created index of a history.  Without an error it stores everything up to `Reach`; after an error
     everything before the cursor it leaves is stored, so the next call resumes without loss.
     */
    method CreatedSynchronizeOnce(h: seq<Item>) returns (ok: bool, ghost to: nat)
      requires Valid() && stage.CreatedHead? && Listing(node, h, false)
      modifies this
      ensures Valid() && stage.UpdatedHead? && unchanged(`node, `unused, `updatedOffset)
      ensures createdOffset >= old(createdOffset)
      ensures var from := Position(h, old(createdOffset));
              && from <= Position(h, createdOffset) <= to <= Reach(h, from)
              && forwards == Insert(old(forwards), Complete(h[from..to]))
              && (ok ==> to == Position(h, createdOffset) == Reach(h, from))
    {
      ghost var from, t := Position(h, createdOffset), forwards;
      assert h[from..from] == [];
      to := from;
      var endReached := false;
      while !endReached
        invariant Valid() && unchanged(`node, `unused, `updatedOffset)
        invariant stage == if endReached then UpdatedHead else CreatedHead
        invariant StoredUpTo(h, from, t, to) && createdOffset >= old(createdOffset)
        invariant if endReached then to == Reach(h, from) else Reach(h, to) == Reach(h, from)
        decreases !endReached, |h| - to
      {
        var outcome := CreatedRound(h, from, t);
        match outcome
        case Failed =>
          if forwards != Insert(t, Complete(h[from..to])) {
            to := PageNext(h, to);
          }
          return false, to;
        case Empty =>
          return true, to;
        case Stored(last) =>
          endReached, to := last, PageNext(h, to);
      }
      return true, to;
    }

    /** What is below either updated offset is stored with its values. */
    ghost predicate UpToDate(h: seq<Item>)
      reads this
    {
      Holds(h, forwards, updatedOffset) && Holds(h, forwards, storedUpdated)
    }

    /** The page of a history from the updated cursor, unless the call fails. */
    method ListUpdatedPage(h: seq<Item>)
      returns (answered: bool, items: seq<Item>, newOffset: nat, endReached: bool)
      requires Valid() && stage.UpdatedHead? && Listing(node, h, true)
      modifies `stage
      ensures Valid() && (!answered ==> items == [])
      ensures stage == if items == [] then Resting else UpdatedListed(items, newOffset, endReached, unused)
      ensures answered ==> Yields(h, Position(h, updatedOffset), items, newOffset, endReached)
    {
      answered := *;
      if answered {
        PageLists(node, h, updatedOffset, true);
        items, newOffset, endReached := RequestUpdated(Some(Page(h, Position(h, updatedOffset))));
        PageYields(h, Position(h, updatedOffset));
      } else {
        items, newOffset, endReached := RequestUpdated(None);
      }
    }

    /** Overwrite with a page, persist the cursor after it, then move the cursor. */
    method StoreUpdatedPage(items: seq<Item>, newOffset: nat, ghost last: bool) returns (ok: bool)
      requires Valid() && stage == UpdatedListed(items, newOffset, last, unused)
      modifies this
      ensures Valid() && unchanged(`node, `unused, `createdOffset)
      ensures forwards == Upsert(old(forwards), items) || (!ok && forwards == old(forwards))
      ensures updatedOffset == if ok then newOffset else old(updatedOffset)
      ensures ok ==> storedCreated == createdOffset && storedUpdated == newOffset
      ensures stage == if ok && !last then UpdatedHead else Resting
    {
      var written, _ := UpdateForwards(items);
      if !written {
        return false;
      }
      var persisted, _ := MoveUpdated(newOffset);
      return persisted;
    }

    /** One round of the updated loop; both offsets stay truthful whatever fails. */
    method UpdatedRound(h: seq<Item>) returns (outcome: Outcome)
      requires Valid() && stage.UpdatedHead? && Listing(node, h, true)
      modifies this
      ensures Valid() && unchanged(`node, `unused, `createdOffset) && UpToDate(h)
      ensures stage == if outcome == Stored(false) then UpdatedHead else Resting
      ensures var k := Position(h, old(updatedOffset));
              match outcome
              case Failed => updatedOffset == old(updatedOffset)
              case Empty => updatedOffset == old(updatedOffset) && PageNext(h, k) == k
              case Stored(last) =>
                && updatedOffset > old(updatedOffset) && k < PageNext(h, k) == Position(h, updatedOffset)
                && storedCreated == createdOffset && storedUpdated == updatedOffset && (last <==> |h| - k < LIMIT)
    {
      ghost var k := Position(h, updatedOffset);
      var answered, items, newOffset, endReached := ListUpdatedPage(h);
      if |items| == 0 {
        TruthfulOffsets(View(), h);
        return if answered then Empty else Failed;
      }
      PageCursor(h, k);
      NextAbove(h, updatedOffset);
      var stored := StoreUpdatedPage(items, newOffset, endReached);
      TruthfulOffsets(View(), h);
      return if stored then Stored(endReached) else Failed;
    }

    /** Pages through the updated index of a history; however it ends, both offsets are truthful. */
    method UpdatedSynchronizeOnce(h: seq<Item>) returns (ok: bool)
      requires Valid() && stage.UpdatedHead? && Listing(node, h, true)
      modifies this
      ensures Valid() && stage.Resting? && unchanged(`node, `unused, `createdOffset)
      ensures updatedOffset >= old(updatedOffset) && UpToDate(h)
      ensures ok ==> Position(h, updatedOffset) == Reach(h, Position(h, old(updatedOffset)))
    {
      ghost var from := Position(h, updatedOffset);
      var endReached := false;
      while !endReached
        invariant Valid() && unchanged(`node, `unused, `createdOffset) && updatedOffset >= old(updatedOffset)
        invariant stage == (if endReached then Resting else UpdatedHead) && (endReached ==> UpToDate(h))
        invariant var k := Position(h, updatedOffset);
                  if endReached then k == Reach(h, from) else Reach(h, k) == Reach(h, from)
        decreases !endReached, |h| - Position(h, updatedOffset)
      {
        var outcome := UpdatedRound(h);
        match outcome
        case Failed =>
          return false;
        case Empty =>
          return true;
        case Stored(last) =>
          endReached := last;
      }
      return true;
    }

    /** A pass over one node by both indexes. */
    method SynchronizeOnce(byCreated: seq<Item>, byUpdated: seq<Item>) returns (created: bool, updated: bool)
      requires Valid() && stage.CreatedHead? && Listing(node, byCreated, false) && Listing(node, byUpdated, true)
      modifies this
      ensures Valid() && stage.Resting? && unchanged(`node, `unused) && UpToDate(byUpdated)
      ensures created ==>
              Position(byCreated, createdOffset) == Reach(byCreated, Position(byCreated, old(createdOffset)))
      ensures updated ==>
              Position(byUpdated, updatedOffset) == Reach(byUpdated, Position(byUpdated, old(updatedOffset)))
    {
      ghost var to;
      created, to := CreatedSynchronizeOnce(byCreated);
      updated := UpdatedSynchronizeOnce(byUpdated);
    }
  }

  datatype Outcome = Failed | Empty | Stored(last: bool)

  /** The whole of a node's settled forwards in the order of one of its indexes. */
  ghost predicate Listing(node: map<nat, Rec>, h: seq<Item>, byUpdated: bool) {
    && Ascending(h) && DistinctIds(h)
    && (forall it :: it in h ==> it.created in node && it == ItemOf(it.created, node[it.created], byUpdated))
    && (forall id :: id in node ==> ItemOf(id, node[id], byUpdated) in h)
  }

  /** What is made of a response. */
  ghost predicate Filtered(page: seq<Item>, items: seq<Item>, newOffset: nat, endReached: bool) {
    items == Complete(page) && newOffset == NextOffset(page) && (endReached <==> |page| < LIMIT)
  }

  /** What a listing from position `k` of a history gives. */
  ghost predicate Yields(h: seq<Item>, k: nat, items: seq<Item>, newOffset: nat, endReached: bool)
    requires k <= |h|
  {
    && items == Complete(Page(h, k)) && newOffset == NextOffset(Page(h, k)) && (endReached <==> |h| - k < LIMIT)
    && (items == [] <==> PageNext(h, k) == k)
  }

  /** A page holds the part of the history from an offset up to its own last index. */
  lemma PageReaches(h: seq<Item>, offset: nat, a: nat)
    requires Ascending(h) && a < |h| && h[a].index >= offset && Within(Page(h, Position(h, offset)), h[a])
    ensures h[a] in Page(h, Position(h, offset))
  {
    var k := Position(h, offset);
    assert a >= k;
    assert Page(h, k)[a - k] == h[a];
  }

  lemma PageFrom(h: seq<Item>, offset: nat)
    requires Ascending(h)
    ensures forall it :: it in Page(h, Position(h, offset)) ==> it in h && it.index >= offset
  {
    var k := Position(h, offset);
    var page := Page(h, k);
    forall i | 0 <= i < |page| ensures page[i] == h[k + i] && page[i].index >= offset {
      assert i > 0 ==> h[k].index < h[k + i].index;
    }
  }

  /** The page cut from a listing at an offset is a response the node may give. */
  lemma PageLists(node: map<nat, Rec>, h: seq<Item>, offset: nat, byUpdated: bool)
    requires Listing(node, h, byUpdated)
    ensures Lists(node, Page(h, Position(h, offset)), offset, byUpdated)
  {
    PageFrom(h, offset);
    PageOrder(h, Position(h, offset));
    var page := Page(h, Position(h, offset));
    forall id | id in node && ItemOf(id, node[id], byUpdated).index >= offset
                && Within(page, ItemOf(id, node[id], byUpdated))
      ensures ItemOf(id, node[id], byUpdated) in page
    {
      var a :| 0 <= a < |h| && h[a] == ItemOf(id, node[id], byUpdated);
      PageReaches(h, offset, a);
    }
  }

  lemma PageOrder(h: seq<Item>, k: nat)
    requires Ascending(h) && DistinctIds(h) && k <= |h|
    ensures Ascending(Page(h, k)) && DistinctIds(Page(h, k))
  {
    var page := Page(h, k);
    assert forall i :: 0 <= i < |page| ==> page[i] == h[k + i];
  }

  /** Complete forwards below an offset are stored with their values. */
  ghost predicate Holds(h: seq<Item>, t: Table, offset: nat) {
    forall a :: 0 <= a < |h| && h[a].complete && h[a].index < offset ==>
      h[a].created in t && t[h[a].created] == h[a].values
  }

  lemma TruthfulOffsets(s: State, h: seq<Item>)
    requires Inv(s) && !s.stage.Down? && Listing(s.node, h, true)
    ensures Holds(h, s.table, s.updated) && Holds(h, s.table, s.storedUpdated)
  {
    forall a | 0 <= a < |h| && h[a].complete && (h[a].index < s.updated || h[a].index < s.storedUpdated)
      ensures Fresh(s.table, h[a].created, s.node[h[a].created]) && s.node[h[a].created].values == h[a].values
    {
      assert h[a] in h;
    }
  }

  lemma RoundStores(h: seq<Item>, from: nat, k: nat, t: Table)
    requires Ascending(h) && from <= k <= |h|
    ensures Insert(Insert(t, Complete(h[from..k])), Complete(Page(h, k)))
            == Insert(t, Complete(h[from..PageNext(h, k)]))
  {
    var next := PageNext(h, k);
    PageYields(h, k);
    assert h[from..next] == h[from..k] + h[k..next];
    CompleteSlices(h[from..k], h[k..next]);
    InsertTwice(t, Complete(h[from..k]), Complete(h[k..next]));
  }

  /** A page with complete forwards raises the cursor. */
  lemma NextAbove(h: seq<Item>, offset: nat)
    requires Ascending(h) && PageNext(h, Position(h, offset)) > Position(h, offset)
    ensures NextOffset(Page(h, Position(h, offset))) > offset
  {
    var k := Position(h, offset);
    PageCursor(h, k);
    assert offset <= h[k].index < NextOffset(Page(h, k));
  }
}
