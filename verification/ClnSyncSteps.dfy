/**
 The CLN synchronizer against a node that keeps changing: every call to the node or the store is a step, may fail, and a
 failed write may still have been applied; the process may crash and restart between any two steps.
 */
module ClnSyncSteps {
  import opened Base
  import opened ForwardHistory

  /** A settled forward on the node; every change gives it a fresh updated index. */
  datatype Rec = Rec(updated: nat, complete: bool, values: Values)

  /** Where the synchronizer is; `asOf` remembers how far indexes had been given out when a page was listed. */
  datatype Stage =
    | Down | Resting
    | CreatedHead | CreatedListed(items: seq<Item>, next: nat, last: bool) | CreatedStored(next: nat, last: bool)
    | UpdatedHead | UpdatedListed(items: seq<Item>, next: nat, last: bool, asOf: nat)
    | UpdatedStored(next: nat, last: bool)

  datatype State = State(node: map<nat, Rec>, unused: nat, table: Table, storedCreated: nat, storedUpdated: nat,
                         created: nat, updated: nat, stage: Stage)

  datatype Event =
    | Change(id: nat, complete: bool, values: Values) | Remove(id: nat)
    | Start(fetched: bool) | Crash | Wake
    | ListCreated(page: Option<seq<Item>>) | StoreCreated(ok: bool, applied: bool)
    | PersistCreated(ok: bool, applied: bool)
    | ListUpdated(page: Option<seq<Item>>) | StoreUpdated(ok: bool, applied: bool)
    | PersistUpdated(ok: bool, applied: bool)

  const INIT := State(map[], 0, map[], 0, 0, 0, 0, Down)

  function ItemOf(id: nat, r: Rec, byUpdated: bool): Item {
    Item(if byUpdated then r.updated else id, id, r.complete, r.values)
  }

  /** Not behind the end of a full page. */
  ghost predicate Within(page: seq<Item>, it: Item) {
    |page| == 2 * LIMIT ==> it.index <= page[|page| - 1].index
  }

  /**
   A response of the node: settled forwards from the offset on, in index order, without holes, cut at twice the limit.
   */
  ghost predicate Lists(node: map<nat, Rec>, page: seq<Item>, offset: nat, byUpdated: bool) {
    && Ascending(page) && DistinctIds(page) && |page| <= 2 * LIMIT
    && (forall it :: it in page ==>
          it.created in node && it == ItemOf(it.created, node[it.created], byUpdated) && it.index >= offset)
    && (forall id :: id in node ==>
          var it := ItemOf(id, node[id], byUpdated);
          it.index >= offset && Within(page, it) ==> it in page)
  }

  ghost predicate Enabled(s: State, e: Event) {
    match e
    case Change(id, complete, values) => true
    case Remove(id) => true
    case Start(fetched) => s.stage.Down?
    case Crash => true
    case Wake => s.stage.Resting?
    case ListCreated(page) => s.stage.CreatedHead? && (page.Some? ==> Lists(s.node, page.value, s.created, false))
    case StoreCreated(ok, applied) => s.stage.CreatedListed? && (ok ==> applied)
    case PersistCreated(ok, applied) => s.stage.CreatedStored? && (ok ==> applied)
    case ListUpdated(page) => s.stage.UpdatedHead? && (page.Some? ==> Lists(s.node, page.value, s.updated, true))
    case StoreUpdated(ok, applied) => s.stage.UpdatedListed? && (ok ==> applied)
    case PersistUpdated(ok, applied) => s.stage.UpdatedStored? && (ok ==> applied)
  }

  ghost function Apply(s: State, e: Event): State
    requires Enabled(s, e)
  {
    match e
    case Change(id, complete, values) =>
      s.(node := s.node[id := Rec(s.unused, complete, values)], unused := s.unused + 1)
    case Remove(id) => s.(node := s.node - {id})
    case Start(fetched) =>
      s.(stage := CreatedHead,
         created := if fetched then s.storedCreated else 0, updated := if fetched then s.storedUpdated else 0)
    case Crash => s.(stage := Down)
    case Wake => s.(stage := CreatedHead)
    case ListCreated(page) =>
      if page.None? || Complete(page.value) == [] then s.(stage := UpdatedHead)
      else s.(stage := CreatedListed(Complete(page.value), NextOffset(page.value), |page.value| < LIMIT))
    case StoreCreated(ok, applied) =>
      var t := if applied then s.(table := Insert(s.table, s.stage.items)) else s;
      t.(stage := if ok then CreatedStored(s.stage.next, s.stage.last) else UpdatedHead)
    case PersistCreated(ok, applied) =>
      var t := if applied then s.(storedCreated := s.stage.next, storedUpdated := s.updated) else s;
      if ok then t.(created := s.stage.next, stage := if s.stage.last then UpdatedHead else CreatedHead)
      else t.(stage := UpdatedHead)
    case ListUpdated(page) =>
      if page.None? || Complete(page.value) == [] then s.(stage := Resting)
      else s.(stage := UpdatedListed(Complete(page.value), NextOffset(page.value), |page.value| < LIMIT, s.unused))
    case StoreUpdated(ok, applied) =>
      var t := if applied then s.(table := Upsert(s.table, s.stage.items)) else s;
      t.(stage := if ok then UpdatedStored(s.stage.next, s.stage.last) else Resting)
    case PersistUpdated(ok, applied) =>
      var t := if applied then s.(storedCreated := s.created, storedUpdated := s.stage.next) else s;
      if ok then t.(updated := s.stage.next, stage := if s.stage.last then Resting else UpdatedHead)
      else t.(stage := Resting)
  }

  ghost function Exec(es: seq<Event>): Option<State> {
    if es == [] then Some(INIT) else
    var before := Exec(es[..|es| - 1]);
    var e := es[|es| - 1];
    if before.Some? && Enabled(before.value, e) then Some(Apply(before.value, e)) else None
  }

  // ----- the invariant

  ghost predicate Fresh(table: Table, id: nat, r: Rec) { id in table && table[id] == r.values }

  /** Every complete settled forward below the offset is stored with its current values. */
  ghost predicate Safe(node: map<nat, Rec>, table: Table, offset: nat) {
    forall id :: id in node && node[id].complete && node[id].updated < offset ==> Fresh(table, id, node[id])
  }

  /**
   A listed page covers everything below `next` that is not stored yet, and what changed since is at `asOf` or later.
   */
  ghost predicate Covers(node: map<nat, Rec>, table: Table, items: seq<Item>, next: nat, asOf: nat) {
    && DistinctIds(items)
    && (forall it :: it in items && it.created in node ==>
          it == ItemOf(it.created, node[it.created], true) || node[it.created].updated >= asOf)
    && (forall id :: id in node && node[id].complete && node[id].updated < next ==>
          Fresh(table, id, node[id]) || ItemOf(id, node[id], true) in items)
  }

  ghost predicate StageOk(s: State) {
    match s.stage
    case UpdatedListed(items, next, last, asOf) =>
      next <= asOf <= s.unused && s.storedUpdated <= asOf && s.updated <= asOf
        && Covers(s.node, s.table, items, next, asOf)
    case UpdatedStored(next, last) => next <= s.unused && Safe(s.node, s.table, next)
    case _ => true
  }

  ghost predicate Inv(s: State) {
    && (forall id :: id in s.node ==> s.node[id].updated < s.unused)
    && s.storedUpdated <= s.unused && Safe(s.node, s.table, s.storedUpdated)
    && (!s.stage.Down? ==> s.updated <= s.unused && Safe(s.node, s.table, s.updated))
    && StageOk(s)
  }

  lemma {:induction false} InsertKeeps(t: Table, items: seq<Item>)
    ensures forall id :: id in t ==> id in Insert(t, items) && Insert(t, items)[id] == t[id]
  {
    if items != [] { InsertKeeps(t, items[..|items| - 1]); }
  }

  /**
   Writing a listed page never makes a stored row stale below `asOf`, and brings everything below `next` up to date.
   */
  lemma PageWritten(node: map<nat, Rec>, table: Table, items: seq<Item>, next: nat, asOf: nat, offset: nat)
    requires Covers(node, table, items, next, asOf) && next <= asOf && offset <= asOf && Safe(node, table, offset)
    ensures Safe(node, Upsert(table, items), offset) && Safe(node, Upsert(table, items), next)
  {
    forall id | id in node && node[id].complete && (node[id].updated < offset || node[id].updated < next)
      ensures Fresh(Upsert(table, items), id, node[id])
    {
      if i :| 0 <= i < |items| && items[i].created == id {
        assert items[i] in items;
        UpsertAt(table, items, i);
      } else {
        forall it | it in items ensures it.created != id {
          var i :| 0 <= i < |items| && items[i] == it;
        }
        UpsertElsewhere(table, items, id);
        assert ItemOf(id, node[id], true) !in items;
      }
    }
  }

  lemma PageCovers(s: State, page: seq<Item>)
    requires Inv(s) && s.stage.UpdatedHead? && Lists(s.node, page, s.updated, true) && Complete(page) != []
    ensures NextOffset(page) <= s.unused && Covers(s.node, s.table, Complete(page), NextOffset(page), s.unused)
  {
    CompleteFrom(page);
    CompleteDistinct(page);
    var items := Complete(page);
    var last := items[|items| - 1];
    assert last in items && last in page;
    var i :| 0 <= i < |page| && page[i] == last;
    assert last.index <= page[|page| - 1].index;
  }

  /** A change on the node takes an unused index, which is above every offset in use. */
  lemma ChangeStep(s: State, id: nat, complete: bool, values: Values)
    requires Inv(s)
    ensures Inv(Apply(s, Change(id, complete, values)))
  {
  }

  lemma Step(s: State, e: Event)
    requires Inv(s) && Enabled(s, e)
    ensures Inv(Apply(s, e))
  {
    match e
    case Change(id, complete, values) =>
      ChangeStep(s, id, complete, values);
    case StoreCreated(ok, applied) =>
      InsertKeeps(s.table, s.stage.items);
    case ListUpdated(page) =>
      if page.Some? && Complete(page.value) != [] { PageCovers(s, page.value); }
    case StoreUpdated(ok, applied) =>
      var st := s.stage;
      PageWritten(s.node, s.table, st.items, st.next, st.asOf, s.storedUpdated);
      PageWritten(s.node, s.table, st.items, st.next, st.asOf, s.updated);
    case _ =>
  }

  lemma {:induction false} Safety(es: seq<Event>)
    ensures Exec(es).Some? ==> Inv(Exec(es).value)
  {
    if es != [] {
      var before := Exec(es[..|es| - 1]);
      Safety(es[..|es| - 1]);
      if before.Some? && Enabled(before.value, es[|es| - 1]) {
        Step(before.value, es[|es| - 1]);
      }
    }
  }

  // ----- the created cursor

  /** A listing by created index takes the cursor past a forward. */
  ghost predicate Passes(s: State, e: Event, id: nat) {
    e.ListCreated? && e.page.Some? && s.created <= id < NextOffset(e.page.value)
  }

  ghost predicate CompleteOn(s: State, id: nat) { id in s.node && s.node[id].complete }

  /** Whenever a listing takes the cursor past the forward, the node has it with all fields. */
  ghost predicate PassedComplete(es: seq<Event>, id: nat) {
    forall k :: 0 <= k < |es| ==> PassedCompleteAt(es, k, id)
  }

  ghost predicate PassedCompleteAt(es: seq<Event>, k: nat, id: nat)
    requires k < |es|
  {
    Exec(es[..k]).Some? && Passes(Exec(es[..k]).value, es[k], id) ==> CompleteOn(Exec(es[..k]).value, id)
  }

  ghost predicate Holding(items: seq<Item>, id: nat) { exists i :: 0 <= i < |items| && items[i].created == id }

  /** The forward is stored if a created offset in use is past it, or on the page that is about to be stored. */
  ghost predicate CreatedOk(s: State, id: nat) {
    && (id < s.storedCreated ==> id in s.table)
    && (!s.stage.Down? && id < s.created ==> id in s.table)
    && match s.stage
       case CreatedListed(items, next, _) => id < next ==> id in s.table || Holding(items, id)
       case CreatedStored(next, _) => id < next ==> id in s.table
       case _ => true
  }

  lemma {:induction false} InsertHas(t: Table, items: seq<Item>, id: nat)
    ensures id in t || Holding(items, id) ==> id in Insert(t, items)
  {
    if items != [] {
      var front := items[..|items| - 1];
      InsertHas(t, front, id);
      if Holding(items, id) {
        var i :| 0 <= i < |items| && items[i].created == id;
        if i < |front| { assert front[i].created == id; }
      }
    }
  }

  lemma {:induction false} UpsertHas(t: Table, items: seq<Item>, id: nat)
    requires id in t
    ensures id in Upsert(t, items)
  {
    if items != [] { UpsertHas(t, items[..|items| - 1], id); }
  }

  /** A listing that takes the cursor past a complete forward has it. */
  lemma PassedIsListed(s: State, page: seq<Item>, id: nat)
    requires Lists(s.node, page, s.created, false) && CompleteOn(s, id) && s.created <= id < NextOffset(page)
    ensures Holding(Complete(page), id)
  {
    CompleteFrom(page);
    var items, it := Complete(page), ItemOf(id, s.node[id], false);
    var last := items[|items| - 1];
    assert last in items && last in page;
    var i :| 0 <= i < |page| && page[i] == last;
    assert last.index <= page[|page| - 1].index;
    assert it in items;
    var k :| 0 <= k < |items| && items[k] == it;
  }

  lemma CreatedStep(s: State, e: Event, id: nat)
    requires CreatedOk(s, id) && Enabled(s, e) && (Passes(s, e, id) ==> CompleteOn(s, id))
    ensures CreatedOk(Apply(s, e), id)
  {
    if e.ListCreated? && Passes(s, e, id) { PassedIsListed(s, e.page.value, id); }
    if e.StoreCreated? { InsertHas(s.table, s.stage.items, id); }
    if e.StoreUpdated? && id in s.table { UpsertHas(s.table, s.stage.items, id); }
  }

  lemma {:induction false} CreatedSafe(es: seq<Event>, id: nat)
    requires Exec(es).Some? && PassedComplete(es, id)
    ensures CreatedOk(Exec(es).value, id)
  {
    if es != [] {
      var front := es[..|es| - 1];
      forall k | 0 <= k < |front| ensures PassedCompleteAt(front, k, id) {
        assert front[..k] == es[..k] && PassedCompleteAt(es, k, id);
      }
      CreatedSafe(front, id);
      assert PassedCompleteAt(es, |front|, id);
      CreatedStep(Exec(front).value, es[|es| - 1], id);
    }
  }

  /**
   At every point of every run, restarts included, a forward below the persisted created offset is stored, if the node
   had it with all fields whenever a listing took the cursor past it.
   */
  lemma StoredBelowCreated(es: seq<Event>, id: nat)
    requires Exec(es).Some? && PassedComplete(es, id) && id < Exec(es).value.storedCreated
    ensures id in Exec(es).value.table
  {
    CreatedSafe(es, id);
  }

  /**
   At every point of every run, whatever is below the persisted updated offset is stored with the node's current values.
   */
  lemma StoredBelowOffset(es: seq<Event>, id: nat)
    requires Exec(es).Some? && id in Exec(es).value.node
    requires var r := Exec(es).value.node[id]; r.complete && r.updated < Exec(es).value.storedUpdated
    ensures var s := Exec(es).value; id in s.table && s.table[id] == s.node[id].values
  {
    Safety(es);
  }
}
