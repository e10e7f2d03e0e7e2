/**
 The LND synchronizer. Its only cursor is the newest stored timestamp, cut to whole seconds when it is sent to the node;
 the same second is therefore listed again, and late events of that second are picked up.
 */
module LndSync {
  import opened Base

  const MAX_EVENTS := 10_000
  const SECOND := 1_000_000_000

  /** A forwarding event; the node gives every event its own nanosecond. */
  datatype Fwd = Fwd(ts: nat, amtIn: nat, amtOut: nat, chanIn: nat, chanOut: nat)

  function Sec(ts: nat): nat { ts / SECOND }

  lemma SecMono(a: nat, b: nat)
    requires a <= b
    ensures Sec(a) <= Sec(b)
  {
  }

  // ----- any run

  datatype Stage = Idle | Head(start: nat) | Listed(page: seq<Fwd>)

  datatype State = State(node: set<Fwd>, table: set<Fwd>, stage: Stage)

  datatype Event =
    | Forwarded(e: Fwd)
    | Start(newest: Option<nat>)
    | List(page: Option<seq<Fwd>>)
    | Store(ok: bool, applied: bool)
    | Crash

  const INIT := State({}, {}, Idle)

  function Stored(table: set<Fwd>, page: seq<Fwd>): set<Fwd> { table + set e | e in page }

  ghost predicate Ascending(page: seq<Fwd>) { forall a, b :: 0 <= a < b < |page| ==> page[a].ts < page[b].ts }

  /** Not behind the end of a full page. */
  ghost predicate Within(page: seq<Fwd>, e: Fwd) {
    |page| == MAX_EVENTS ==> e.ts <= page[|page| - 1].ts
  }

  /** A response of the node: events from a second on, oldest first, without holes, cut at the maximum. */
  ghost predicate Lists(node: set<Fwd>, page: seq<Fwd>, sec: nat) {
    && Ascending(page) && |page| <= MAX_EVENTS
    && (forall e :: e in page ==> e in node && Sec(e.ts) >= sec)
    && (forall e :: e in node && Sec(e.ts) >= sec && Within(page, e) ==> e in page)
  }

  ghost predicate Newest(table: set<Fwd>, newest: Option<nat>) {
    if newest.None? then table == {}
    else (exists e :: e in table && e.ts == newest.value) && forall e :: e in table ==> e.ts <= newest.value
  }

  ghost predicate Enabled(s: State, ev: Event) {
    match ev
    case Forwarded(e) => forall x :: x in s.node ==> x.ts != e.ts && Sec(x.ts) <= Sec(e.ts)
    case Start(newest) => s.stage.Idle? && Newest(s.table, newest)
    case List(page) => s.stage.Head? && (page.Some? ==> Lists(s.node, page.value, Sec(s.stage.start)))
    case Store(ok, applied) => s.stage.Listed? && s.stage.page != [] && (ok ==> applied)
    case Crash => true
  }

  ghost function Apply(s: State, ev: Event): State
    requires Enabled(s, ev)
  {
    match ev
    case Forwarded(e) => s.(node := s.node + {e})
    case Start(newest) => s.(stage := Head(if newest.None? then 0 else newest.value))
    case List(page) => s.(stage := if page.None? || page.value == [] then Idle else Listed(page.value))
    case Store(ok, applied) =>
      var page := s.stage.page;
      var t := if applied then s.(table := Stored(s.table, page)) else s;
      t.(stage := if !ok || |page| < MAX_EVENTS then Idle else Head(page[|page| - 1].ts))
    case Crash => s.(stage := Idle)
  }

  ghost function Exec(es: seq<Event>): Option<State> {
    if es == [] then Some(INIT) else
    var before := Exec(es[..|es| - 1]);
    var e := es[|es| - 1];
    if before.Some? && Enabled(before.value, e) then Some(Apply(before.value, e)) else None
  }

  /** Every event before the given second is stored, or on a page about to be stored. */
  ghost predicate Covered(node: set<Fwd>, stored: set<Fwd>, page: seq<Fwd>, sec: nat) {
    forall e :: e in node && Sec(e.ts) < sec ==> e in stored || e in page
  }

  ghost predicate Inv(s: State) {
    && s.table <= s.node
    && (forall e :: e in s.table ==> Covered(s.node, s.table, [], Sec(e.ts)))
    && match s.stage
       case Idle => true
       case Head(start) =>
         (start == 0 || exists e :: e in s.node && e.ts == start) && Covered(s.node, s.table, [], Sec(start))
       case Listed(page) =>
         page != [] && Ascending(page) && (forall e :: e in page ==> e in s.node)
           && Covered(s.node, s.table, page, Sec(page[|page| - 1].ts))
  }

  lemma ListStep(s: State, page: seq<Fwd>)
    requires Inv(s) && s.stage.Head? && Lists(s.node, page, Sec(s.stage.start)) && page != []
    ensures Covered(s.node, s.table, page, Sec(page[|page| - 1].ts))
  {
    var last := page[|page| - 1];
    forall e | e in s.node && Sec(e.ts) < Sec(last.ts) ensures e in s.table || e in page {
      if Sec(e.ts) >= Sec(s.stage.start) && e.ts > last.ts { SecMono(last.ts, e.ts); }
    }
  }

  lemma StoreStep(s: State, ok: bool, applied: bool)
    requires Inv(s) && Enabled(s, Store(ok, applied))
    ensures Inv(Apply(s, Store(ok, applied)))
  {
    var page := s.stage.page;
    var last := page[|page| - 1];
    var t := Apply(s, Store(ok, applied));
    assert last in page;
    if applied {
      forall e | e in page ensures Sec(e.ts) <= Sec(last.ts) {
        var i :| 0 <= i < |page| && page[i] == e;
        SecMono(e.ts, last.ts);
      }
      assert Covered(s.node, t.table, [], Sec(last.ts));
    }
  }

  lemma Step(s: State, ev: Event)
    requires Inv(s) && Enabled(s, ev)
    ensures Inv(Apply(s, ev))
  {
    match ev
    case List(page) => if page.Some? && page.value != [] { ListStep(s, page.value); }
    case Store(ok, applied) => StoreStep(s, ok, applied);
    case _ =>
  }

  lemma {:induction false} Safety(es: seq<Event>)
    ensures Exec(es).Some? ==> Inv(Exec(es).value)
  {
    if es != [] {
      var before := Exec(es[..|es| - 1]);
      Safety(es[..|es| - 1]);
      if before.Some? && Enabled(before.value, es[|es| - 1]) {
        Step(before.value, es[|es| - 1]);
      }
    }
  }

  /** After any run, no event from a second before that of a stored event is missing. */
  lemma NoGap(es: seq<Event>, stored: Fwd, e: Fwd)
    requires Exec(es).Some? && stored in Exec(es).value.table && e in Exec(es).value.node && Sec(e.ts) < Sec(stored.ts)
    ensures e in Exec(es).value.table
  {
    Safety(es);
  }

  // ----- when the loop ends

  function Position(h: seq<Fwd>, sec: nat, from: nat): (k: nat)
    requires from <= |h|
    ensures from <= k <= |h| && (forall a :: from <= a < k ==> Sec(h[a].ts) < sec)
    ensures k < |h| ==> Sec(h[k].ts) >= sec
    decreases |h| - from
  {
    if from == |h| || Sec(h[from].ts) >= sec then from else Position(h, sec, from + 1)
  }

  /** The events listed from a second on. */
  function Page(h: seq<Fwd>, sec: nat): seq<Fwd> {
    var k := Position(h, sec, 0);
    h[k..if |h| - k < MAX_EVENTS then |h| else k + MAX_EVENTS]
  }

  /** The second the next round starts from, or `None` if the page was not full. */
  function NextSec(h: seq<Fwd>, sec: nat): Option<nat> {
    var k := Position(h, sec, 0);
    if |h| - k < MAX_EVENTS then None else Some(Sec(h[k + MAX_EVENTS - 1].ts))
  }

  /** The loop is done after at most `n` rounds over a fixed history. */
  predicate Stops(h: seq<Fwd>, sec: nat, n: nat)
    decreases n
  {
    n > 0 && (NextSec(h, sec).None? || Stops(h, NextSec(h, sec).value, n - 1))
  }

  ghost predicate DoneWithin(h: seq<Fwd>, sec: nat, n: nat) { Stops(h, sec, n) }

  /** A single second that fills a page by itself. */
  ghost predicate CrowdedAt(h: seq<Fwd>, p: nat) {
    p + MAX_EVENTS <= |h| && Sec(h[p].ts) == Sec(h[p + MAX_EVENTS - 1].ts)
  }

  ghost predicate Crowded(h: seq<Fwd>, sec: nat) { exists p: nat :: CrowdedAt(h, p) && Sec(h[p].ts) >= sec }

  lemma PageMono(h: seq<Fwd>, a: nat, b: nat)
    requires Ascending(h) && a <= b < |h|
    ensures Sec(h[a].ts) <= Sec(h[b].ts)
  {
    SecMono(h[a].ts, h[b].ts);
  }

  /** Unless a second is crowded, the next round starts later in the history. */
  lemma RoundAdvances(h: seq<Fwd>, sec: nat)
    requires Ascending(h) && !Crowded(h, sec) && NextSec(h, sec).Some?
    ensures sec <= NextSec(h, sec).value && !Crowded(h, NextSec(h, sec).value)
    ensures Position(h, NextSec(h, sec).value, 0) > Position(h, sec, 0)
  {
    var k := Position(h, sec, 0);
    PageMono(h, k, k + MAX_EVENTS - 1);
    assert !CrowdedAt(h, k);
    var k' := Position(h, NextSec(h, sec).value, 0);
    if k' <= k {
      PageMono(h, k', k);
    }
  }

  lemma {:induction false} UncrowdedStops(h: seq<Fwd>, sec: nat) returns (n: nat)
    requires Ascending(h) && !Crowded(h, sec)
    ensures Stops(h, sec, n)
    decreases |h| - Position(h, sec, 0)
  {
    if NextSec(h, sec).None? {
      n := 1;
    } else {
      RoundAdvances(h, sec);
      var m := UncrowdedStops(h, NextSec(h, sec).value);
      n := m + 1;
    }
  }

  lemma {:induction false} CrowdedLoops(h: seq<Fwd>, sec: nat, n: nat)
    requires Ascending(h) && Crowded(h, sec)
    ensures !Stops(h, sec, n)
    decreases n
  {
    if n > 0 {
      var p: nat :| CrowdedAt(h, p) && Sec(h[p].ts) >= sec;
      var k := Position(h, sec, 0);
      assert k <= p;
      PageMono(h, k + MAX_EVENTS - 1, p + MAX_EVENTS - 1);
      CrowdedLoops(h, NextSec(h, sec).value, n - 1);
    }
  }

  /** The loop ends if and only if no second from the starting one on holds a full page of events. */
  lemma StopsIffUncrowded(h: seq<Fwd>, sec: nat)
    requires Ascending(h)
    ensures (exists n: nat :: DoneWithin(h, sec, n)) <==> !Crowded(h, sec)
  {
    if Crowded(h, sec) {
      forall n: nat ensures !DoneWithin(h, sec, n) { CrowdedLoops(h, sec, n); }
    } else {
      var n := UncrowdedStops(h, sec);
      assert DoneWithin(h, sec, n);
    }
  }

  /** It happens: 10,000 events in one second keep the loop busy for any number of rounds, and one less does not. */
  lemma FullSecondLoops(n: nat)
    ensures !Stops(OneSecond(MAX_EVENTS), 0, n) && Stops(OneSecond(MAX_EVENTS - 1), 0, 1)
  {
    var h := OneSecond(MAX_EVENTS);
    assert CrowdedAt(h, 0);
    CrowdedLoops(h, 0, n);
  }

  /** Events of the first second, a nanosecond apart. */
  function OneSecond(n: nat): (h: seq<Fwd>)
    requires n <= SECOND
    ensures |h| == n && Ascending(h) && forall a :: 0 <= a < n ==> Sec(h[a].ts) == 0
  {
    seq(n, i requires 0 <= i < n => Fwd(i, 0, 0, 0, 0))
  }

  // ----- the loop

  /** The events of a history are stored in the order of their seconds, the last one possibly in part. */
  ghost predicate GapFree(h: seq<Fwd>, table: set<Fwd>) {
    && (forall e :: e in table ==> e in h)
    && (forall e, x :: e in table && x in h && Sec(x.ts) < Sec(e.ts) ==> x in table)
  }

  ghost predicate StoredBefore(h: seq<Fwd>, table: set<Fwd>, sec: nat) {
    forall a :: 0 <= a < |h| && Sec(h[a].ts) < sec ==> h[a] in table
  }

  /** The second a pass starts from. */
  function StartSec(newest: Option<nat>): nat { if newest.None? then 0 else Sec(newest.value) }

  /** All events of a node, oldest first. */
  ghost predicate Listing(node: set<Fwd>, h: seq<Fwd>) {
    Ascending(h) && (forall e :: e in h ==> e in node) && (forall e :: e in node ==> e in h)
  }

  class ForwardSync {
    var table: set<Fwd>

    // The node, and where the loop is.
    ghost var node: set<Fwd>
    ghost var stage: Stage

    ghost function View(): State
      reads this
    {
      State(node, table, stage)
    }

    ghost predicate Valid()
      reads this
    {
      Inv(View())
    }

    /** The method took exactly the step of the event. */
    twostate predicate Did(ev: Event)
      reads this
    {
      Enabled(old(View()), ev) && View() == Apply(old(View()), ev) && Valid()
    }

    constructor ()
      ensures View() == INIT && Valid()
    {
      table, node, stage := {}, {}, Idle;
    }

    // ----- the steps

    /** The node forwards, at any moment. */
    ghost method NodeForwards(e: Fwd)
      requires Valid() && Enabled(View(), Forwarded(e))
      modifies `node
      ensures Did(Forwarded(e))
    {
      Step(View(), Forwarded(e));
      node := node + {e};
    }

    ghost method Stop()
      requires Valid()
      modifies `stage
      ensures Did(Crash)
    {
      Step(View(), Crash);
      stage := Idle;
    }

    /** The newest stored timestamp; `h` holds everything that can be stored. */
    method FetchLndForwardOffset(h: seq<Fwd>) returns (newest: Option<nat>)
      requires Ascending(h) && forall e :: e in table ==> e in h
      ensures Newest(table, newest)
    {
      var i := |h|;
      while i > 0
        invariant 0 <= i <= |h|
        invariant forall a :: i <= a < |h| ==> h[a] !in table
      {
        i := i - 1;
        if h[i] in table {
          newest := Some(h[i].ts);
          assert forall e :: e in table ==> exists a :: 0 <= a <= i && h[a] == e;
          return;
        }
      }
      assert table == {};
      newest := None;
    }

    /** A pass begins from the newest stored timestamp. */
    method Begin(newest: Option<nat>) returns (startTime: nat)
      requires Valid() && stage.Idle? && Newest(table, newest)
      modifies `stage
      ensures Did(Start(newest)) && stage == Head(startTime) && Sec(startTime) == StartSec(newest)
    {
      Step(View(), Start(newest));
      startTime := if newest.None? then 0 else newest.value;
      stage := Head(startTime);
    }

    /** A listing; the next one is to start from its last event. */
    method Request(response: Option<seq<Fwd>>, startTime: nat) returns (page: seq<Fwd>, newStart: nat)
      requires Valid() && stage == Head(startTime) && Enabled(View(), List(response))
      modifies `stage
      ensures Did(List(response))
      ensures page == if response.None? then [] else response.value
      ensures newStart == if page == [] then startTime else page[|page| - 1].ts
    {
      Step(View(), List(response));
      page, newStart := if response.None? then [] else response.value, startTime;
      for i := 0 to |page|
        invariant newStart == if i == 0 then startTime else page[i - 1].ts
      {
        newStart := page[i].ts;
      }
      stage := if page == [] then Idle else Listed(page);
    }

    /** A transaction that inserts what is new; an error leaves open whether it was applied. */
    method InsertForwards(page: seq<Fwd>) returns (ok: bool, ghost applied: bool)
      requires Valid() && stage == Listed(page)
      modifies `table, `stage
      ensures Did(Store(ok, applied))
    {
      ok := *;
      var committed: bool := *;
      applied := ok || committed;
      Step(View(), Store(ok, applied));
      if ok || committed {
        table := Stored(table, page);
      }
      stage := if !ok || |page| < MAX_EVENTS then Idle else Head(page[|page| - 1].ts);
    }

    // ----- the loop, over a history that stays the same meanwhile

    /** The page of a history from the second of `startTime`, unless the call fails. */
    method ListPage(h: seq<Fwd>, startTime: nat) returns (ok: bool, page: seq<Fwd>, newStart: nat)
      requires Valid() && stage == Head(startTime) && Listing(node, h)
      modifies `stage
      ensures Valid() && stage == if page == [] then Idle else Listed(page)
      ensures page == if ok then Page(h, Sec(startTime)) else []
      ensures newStart == if page == [] then startTime else page[|page| - 1].ts
    {
      ok := *;
      if ok {
        PageLists(node, h, Sec(startTime));
        page, newStart := Request(Some(Page(h, Sec(startTime))), startTime);
      } else {
        page, newStart := Request(None, startTime);
      }
    }

    /** List a page and store it. */
    method ListAndStore(h: seq<Fwd>, startTime: nat) returns (ok: bool, page: seq<Fwd>, newStart: nat)
      requires Valid() && stage == Head(startTime) && Listing(node, h)
      modifies `table, `stage
      ensures Valid() && stage == if ok && |page| == MAX_EVENTS then Head(newStart) else Idle
      ensures Took(h, startTime, ok, page, newStart) && (ok || table == old(table) || table == Stored(old(table), page))
      ensures ok ==> table == Stored(old(table), page)
    {
      ok, page, newStart := ListPage(h, startTime);
      PageSize(h, Sec(startTime));
      if page != [] {
        ghost var applied;
        ok, applied := InsertForwards(page);
      }
    }

    /** One page from the second of `startTime`. */
    method Round(h: seq<Fwd>, startTime: nat) returns (ok: bool, full: bool, newStart: nat)
      requires Valid() && stage == Head(startTime) && Listing(node, h)
      modifies this
      ensures Valid() && node == old(node) && stage == if ok && full then Head(newStart) else Idle
      ensures old(table) <= table && GapFree(h, table)
      ensures ok ==> (full <==> NextSec(h, Sec(startTime)).Some?)
      ensures ok && full ==>
                Sec(newStart) == NextSec(h, Sec(startTime)).value && StoredBefore(h, table, Sec(newStart))
      ensures ok && !full ==> forall e :: e in h ==> e in table
    {
      HistoryStored(View(), h);
      ghost var before := table;
      var page;
      ok, page, newStart := ListAndStore(h, startTime);
      full := |page| == MAX_EVENTS;
      PageStored(h, before, startTime, ok, page, newStart);
    }

    /** Pages until a page is not full; whatever fails, no second before a stored event is left with a hole. */
    method ForwardsSynchronizeOnce(h: seq<Fwd>) returns (ok: bool)
      requires Valid() && stage.Idle? && Listing(node, h)
      requires forall newest :: Newest(table, newest) ==> !Crowded(h, StartSec(newest))
      modifies this
      ensures Valid() && node == old(node) && stage.Idle?
      ensures old(table) <= table && GapFree(h, table)
      ensures ok ==> forall e :: e in h ==> e in table
    {
      HistoryStored(View(), h);
      var fetched: bool := *;
      if !fetched {
        return false;
      }
      var newest := FetchLndForwardOffset(h);
      var startTime := Begin(newest);
      var full := true;
      while full
        invariant Valid() && node == old(node) && stage == if full then Head(startTime) else Idle
        invariant old(table) <= table && GapFree(h, table)
        invariant if full then !Crowded(h, Sec(startTime)) else forall e :: e in h ==> e in table
        decreases full, |h| - Position(h, Sec(startTime), 0)
      {
        ghost var sec := Sec(startTime);
        if NextSec(h, sec).Some? {
          RoundAdvances(h, sec);
        }
        ok, full, startTime := Round(h, startTime);
        if !ok {
          return;
        }
      }
      ok := true;
    }
  }

  /** What the invariant says of a history. */
  lemma HistoryStored(s: State, h: seq<Fwd>)
    requires Inv(s) && Listing(s.node, h)
    ensures GapFree(h, s.table) && (s.stage.Head? ==> StoredBefore(h, s.table, Sec(s.stage.start)))
  {
  }

  lemma PageSize(h: seq<Fwd>, sec: nat)
    ensures |Page(h, sec)| <= MAX_EVENTS && (|Page(h, sec)| == MAX_EVENTS <==> NextSec(h, sec).Some?)
  {
  }

  lemma PageFrom(h: seq<Fwd>, sec: nat)
    requires Ascending(h)
    ensures Ascending(Page(h, sec)) && forall e :: e in Page(h, sec) ==> e in h && Sec(e.ts) >= sec
  {
    var k := Position(h, sec, 0);
    var page := Page(h, sec);
    forall i | 0 <= i < |page| ensures page[i] == h[k + i] && Sec(page[i].ts) >= sec {
      PageMono(h, k, k + i);
    }
  }

  /** A page holds the events from a second up to its own last event. */
  lemma PageReaches(h: seq<Fwd>, sec: nat, a: nat)
    requires Ascending(h) && a < |h| && Sec(h[a].ts) >= sec && Within(Page(h, sec), h[a])
    ensures h[a] in Page(h, sec)
  {
    var k := Position(h, sec, 0);
    assert a >= k;
    assert Page(h, sec)[a - k] == h[a];
  }

  /** The page cut from a history at a second is a response the node may give. */
  lemma PageLists(node: set<Fwd>, h: seq<Fwd>, sec: nat)
    requires Listing(node, h)
    ensures Lists(node, Page(h, sec), sec)
  {
    PageSize(h, sec);
    PageFrom(h, sec);
    var page := Page(h, sec);
    forall e | e in node && Sec(e.ts) >= sec && Within(page, e) ensures e in page {
      var a :| 0 <= a < |h| && h[a] == e;
      PageReaches(h, sec, a);
    }
  }

  lemma Remaining(h: seq<Fwd>, table: set<Fwd>, startTime: nat)
    requires StoredBefore(h, table, Sec(startTime)) && Page(h, Sec(startTime)) == []
    ensures NextSec(h, Sec(startTime)).None? && forall e :: e in h ==> e in table
  {
  }

  /** Storing `h[k..m]` on top of everything before `k` closes the history up to the second of its last event. */
  lemma SliceStored(h: seq<Fwd>, table: set<Fwd>, k: nat, m: nat)
    requires Ascending(h) && k < m <= |h| && forall a :: 0 <= a < k ==> h[a] in table
    ensures var t := Stored(table, h[k..m]);
            && StoredBefore(h, t, Sec(h[m - 1].ts)) && (forall a :: 0 <= a < m ==> h[a] in t)
            && forall e :: e in h[k..m] ==> Sec(e.ts) <= Sec(h[m - 1].ts)
  {
    var t := Stored(table, h[k..m]);
    forall a | k <= a < m ensures h[a] in t && Sec(h[a].ts) <= Sec(h[m - 1].ts) {
      assert h[k..m][a - k] == h[a];
      PageMono(h, a, m - 1);
    }
    forall a | m <= a < |h| ensures Sec(h[a].ts) >= Sec(h[m - 1].ts) {
      PageMono(h, m - 1, a);
    }
  }

  lemma SliceGapFree(h: seq<Fwd>, table: set<Fwd>, k: nat, m: nat)
    requires Ascending(h) && k < m <= |h| && (forall a :: 0 <= a < k ==> h[a] in table) && GapFree(h, table)
    ensures GapFree(h, Stored(table, h[k..m]))
  {
    SliceStored(h, table, k, m);
    var t := Stored(table, h[k..m]);
    forall e, x | e in t && x in h && Sec(x.ts) < Sec(e.ts) ensures x in t {
      var a :| 0 <= a < |h| && h[a] == x;
      if e !in table { assert Sec(x.ts) < Sec(h[m - 1].ts); }
    }
  }

  lemma SliceCloses(h: seq<Fwd>, table: set<Fwd>, k: nat, m: nat)
    requires Ascending(h) && GapFree(h, table) && k < m <= |h| && forall a :: 0 <= a < k ==> h[a] in table
    ensures var t := Stored(table, h[k..m]);
            GapFree(h, t) && StoredBefore(h, t, Sec(h[m - 1].ts)) && (m == |h| ==> forall e :: e in h ==> e in t)
  {
    SliceStored(h, table, k, m);
    SliceGapFree(h, table, k, m);
  }

  lemma PageSlice(h: seq<Fwd>, sec: nat)
    requires Page(h, sec) != []
    ensures var page, m := Page(h, sec), Position(h, sec, 0) + |Page(h, sec)|;
            && m <= |h| && page == h[Position(h, sec, 0)..m] && page[|page| - 1] == h[m - 1]
            && if |page| == MAX_EVENTS then NextSec(h, sec) == Some(Sec(h[m - 1].ts)) else m == |h|
  {
  }

  lemma NonEmptyStored(h: seq<Fwd>, table: set<Fwd>, sec: nat)
    requires Ascending(h) && GapFree(h, table) && StoredBefore(h, table, sec) && Page(h, sec) != []
    ensures var page := Page(h, sec);
            var t := Stored(table, page);
            && GapFree(h, t) && StoredBefore(h, t, Sec(page[|page| - 1].ts))
            && if |page| == MAX_EVENTS then NextSec(h, sec) == Some(Sec(page[|page| - 1].ts))
               else forall e :: e in h ==> e in t
  {
    PageSlice(h, sec);
    var k := Position(h, sec, 0);
    SliceCloses(h, table, k, k + |Page(h, sec)|);
  }

  /** What listing and storing from `startTime` took from a history; `ok` if neither call failed. */
  ghost predicate Took(h: seq<Fwd>, startTime: nat, ok: bool, page: seq<Fwd>, newStart: nat) {
    && (page == Page(h, Sec(startTime)) || (!ok && page == []))
    && newStart == if page == [] then startTime else page[|page| - 1].ts
  }

  /** Storing the page closes the history up to the second of its last event, and wholly unless it was full. */
  lemma PageStored(h: seq<Fwd>, table: set<Fwd>, startTime: nat, ok: bool, page: seq<Fwd>, newStart: nat)
    requires Ascending(h) && GapFree(h, table) && StoredBefore(h, table, Sec(startTime))
    requires Took(h, startTime, ok, page, newStart)
    ensures var t := Stored(table, page);
            && GapFree(h, t) && StoredBefore(h, t, Sec(newStart))
            && (ok ==> (|page| == MAX_EVENTS <==> NextSec(h, Sec(startTime)).Some?))
            && (ok ==> if |page| == MAX_EVENTS then NextSec(h, Sec(startTime)).value == Sec(newStart)
                       else forall e :: e in h ==> e in t)
  {
    PageSize(h, Sec(startTime));
    if page == [] {
      assert Stored(table, page) == table;
      if ok { Remaining(h, table, startTime); }
    } else {
      NonEmptyStored(h, table, Sec(startTime));
    }
  }
}
