/**
 Waiters for LND peers and channels as a step system.  A waiter subscribes under the lock, then asks the node, then
 blocks; on its way out it removes each subscription under the lock before it closes the channel behind it.  A listener
 holds the read lock while it sends on one subscribed channel after the other, and a full channel makes it wait.
 */
module Waiters {
  import opened Base

  /** Buffer size of every signal channel. */
  const CAPACITY := 10

  /** The two subscription maps in one, keyed by what is waited for. */
  datatype Key = Peer(pubkey: string) | Channel(point: string)

  datatype Stage = Checking | Blocked | Leaving | Done

  /**
   One `WaitOnline` or `WaitChannelActive` call. Its subscriptions took `count` consecutive ids under one lock; the
   first `left` of them are still in the map, and `closing` says the channel of the last one removed is still open.
   */
  datatype Waiter = Waiter(first: nat, count: nat, left: nat, closing: bool, stage: Stage)

  /** What a subscription id was given out for: the call that took it and the key it stands under. */
  datatype Slot = Slot(call: nat, key: Key)

  /** `subs` holds subscription ids, each naming its own channel; the next id is the number of slots given out. */
  datatype Core = Core(subs: map<Key, set<nat>>, slots: seq<Slot>, closed: set<nat>, waiters: map<nat, Waiter>)

  /**
   The subscriptions, and the signals on their way. `signals` are buffered in the subscribed channels. A call for
   channels receives from one channel that gathers the signals of all: `held` names the subscriptions whose forwarding
   goroutine has a signal in hand, `gathered` the calls whose gathering channel has signals. `peerRest` and `chanRest`
   are the channels that the listeners for peers and for channels still have to send on; while there are any, the read
   lock is held.
   */
  datatype State = State(core: Core, signals: multiset<nat>, held: set<nat>, gathered: multiset<nat>,
                         peerRest: set<nat>, chanRest: set<nat>)

  datatype Event =
    | Subscribe(w: nat, keys: seq<Key>)
    | Check(w: nat, active: bool)
    | Notify(key: Key)
    | Send(id: nat)
    | Pull(id: nat)
    | Push(id: nat)
    | Wake(w: nat)
    | Deadline(w: nat)
    | Unsubscribe(w: nat)
    | Close(w: nat)
    | Return(w: nat)

  const INIT := State(Core(map[], [], {}, map[]), multiset{}, {}, multiset{}, {}, {})

  /** The map after the subscriptions `first`, `first + 1`, ... for the keys. */
  function AddAll(subs: map<Key, set<nat>>, keys: seq<Key>, first: nat): map<Key, set<nat>> {
    if keys == [] then subs else
    var n := |keys| - 1;
    Add(AddAll(subs, keys[..n], first), keys[n], first + n)
  }

  /** The map after one subscription, with a new inner map when the key has none. */
  function Add(subs: map<Key, set<nat>>, key: Key, id: nat): map<Key, set<nat>> {
    subs[key := (if key in subs then subs[key] else {}) + {id}]
  }

  /** The map after one subscription is deleted, and its inner map too when it was the last. */
  function Delete(subs: map<Key, set<nat>>, key: Key, id: nat): map<Key, set<nat>> {
    if key !in subs then subs
    else if subs[key] - {id} == {} then subs - {key}
    else subs[key := subs[key] - {id}]
  }

  predicate Is(c: Core, w: nat, stage: Stage) { w in c.waiters && c.waiters[w].stage == stage }

  /** No listener holds the lock. */
  predicate Unlocked(s: State) { s.peerRest == {} && s.chanRest == {} }

  predicate Sending(s: State, id: nat) { id in s.peerRest || id in s.chanRest }

  /** A call waits for one peer, or for at least one channel. */
  predicate Sensible(keys: seq<Key>) {
    (|keys| == 1 && keys[0].Peer?) || (|keys| > 0 && forall i :: 0 <= i < |keys| ==> keys[i].Channel?)
  }

  predicate IsPeer(c: Core, id: nat) { id < |c.slots| && c.slots[id].key.Peer? }

  predicate IsChannel(c: Core, id: nat) { id < |c.slots| && c.slots[id].key.Channel? }

  /** What the call receives from has a signal: for a peer the subscribed channel itself. */
  predicate Signalled(s: State, w: nat)
    requires w in s.core.waiters
  {
    var id := s.core.waiters[w].first;
    if IsPeer(s.core, id) then id in s.signals else w in s.gathered
  }

  predicate Enabled(s: State, e: Event) {
    var c := s.core;
    match e
    case Subscribe(w, keys) => w !in c.waiters && Unlocked(s) && Sensible(keys)
    case Check(w, active) => Is(c, w, Checking)
    case Notify(key) => (if key.Peer? then s.peerRest else s.chanRest) == {}
    case Send(id) => Sending(s, id) && s.signals[id] < CAPACITY
    case Pull(id) => IsChannel(c, id) && id in s.signals && id !in s.held
    case Push(id) =>
      id in s.held && id < |c.slots| && s.gathered[c.slots[id].call] < CAPACITY && !Is(c, c.slots[id].call, Done)
    case Wake(w) => Is(c, w, Blocked) && Signalled(s, w)
    case Deadline(w) => Is(c, w, Blocked)
    case Unsubscribe(w) => Is(c, w, Leaving) && !c.waiters[w].closing && c.waiters[w].left > 0 && Unlocked(s)
    case Close(w) => Is(c, w, Leaving) && c.waiters[w].closing
    case Return(w) => Is(c, w, Leaving) && !c.waiters[w].closing && c.waiters[w].left == 0
  }

  function Move(c: Core, w: nat, stage: Stage): Core
    requires w in c.waiters
  {
    c.(waiters := c.waiters[w := c.waiters[w].(stage := stage)])
  }

  function Subscribed(c: Core, w: nat, keys: seq<Key>): Core {
    c.(subs := AddAll(c.subs, keys, |c.slots|),
       slots := c.slots + seq(|keys|, i requires 0 <= i < |keys| => Slot(w, keys[i])),
       waiters := c.waiters[w := Waiter(|c.slots|, |keys|, |keys|, false, Checking)])
  }

  function Unsubscribed(c: Core, w: nat): Core
    requires w in c.waiters && c.waiters[w].left > 0
  {
    var x := c.waiters[w];
    var id := x.first + x.left - 1;
    c.(subs := if id < |c.slots| then Delete(c.subs, c.slots[id].key, id) else c.subs,
       waiters := c.waiters[w := x.(left := x.left - 1, closing := true)])
  }

  function Closed(c: Core, w: nat): Core
    requires w in c.waiters
  {
    var x := c.waiters[w];
    c.(closed := c.closed + {x.first + x.left}, waiters := c.waiters[w := x.(closing := false)])
  }

  function Apply(s: State, e: Event): State
    requires Enabled(s, e)
  {
    var c := s.core;
    match e
    case Subscribe(w, keys) => s.(core := Subscribed(c, w, keys))
    case Check(w, active) => s.(core := Move(c, w, if active then Leaving else Blocked))
    case Notify(key) =>
      var found := if key in c.subs then c.subs[key] else {};
      if key.Peer? then s.(peerRest := found) else s.(chanRest := found)
    case Send(id) =>
      s.(signals := s.signals + multiset{id}, peerRest := s.peerRest - {id}, chanRest := s.chanRest - {id})
    case Pull(id) => s.(signals := s.signals - multiset{id}, held := s.held + {id})
    case Push(id) => s.(held := s.held - {id}, gathered := s.gathered + multiset{c.slots[id].call})
    case Wake(w) =>
      var id := c.waiters[w].first;
      var t := if IsPeer(c, id) then s.(signals := s.signals - multiset{id})
        else s.(gathered := s.gathered - multiset{w});
      t.(core := Move(c, w, Leaving))
    case Deadline(w) => s.(core := Move(c, w, Leaving))
    case Unsubscribe(w) => s.(core := Unsubscribed(c, w))
    case Close(w) => s.(core := Closed(c, w))
    case Return(w) => s.(core := Move(c, w, Done))
  }

  /** The state after some events, or `None` if one was not possible when it was due. */
  function Run(s: State, es: seq<Event>): Option<State> {
    if es == [] then Some(s) else Next(Run(s, es[..|es| - 1]), es[|es| - 1])
  }

  function Next(before: Option<State>, e: Event): Option<State> {
    if before.Some? && Enabled(before.value, e) then Some(Apply(before.value, e)) else None
  }

  function Resume(before: Option<State>, es: seq<Event>): Option<State> {
    if before.Some? then Run(before.value, es) else None
  }

  lemma {:induction false} RunAppend(s: State, a: seq<Event>, b: seq<Event>)
    ensures Run(s, a + b) == Resume(Run(s, a), b)
  {
    if b == [] {
      assert a + b == a;
    } else {
      var n := |b| - 1;
      assert (a + b)[..|a + b| - 1] == a + b[..n] && (a + b)[|a + b| - 1] == b[n];
      RunAppend(s, a, b[..n]);
    }
  }

  lemma RunFirst(s: State, e: Event, es: seq<Event>)
    requires Enabled(s, e)
    ensures Run(s, [e] + es) == Run(Apply(s, e), es)
  {
    assert [e][..0] == [];
    RunAppend(s, [e], es);
  }

  // ----- the invariant

  ghost predicate Has(subs: map<Key, set<nat>>, key: Key, id: nat) { key in subs && id in subs[key] }

  /** The ids of a call are its own, and the channel it is about to close is open. */
  ghost predicate WaiterOk(c: Core, w: nat, x: Waiter) {
    && x.left <= x.count && 0 < x.count && x.first + x.count <= |c.slots|
    && (forall id :: x.first <= id < x.first + x.count ==> c.slots[id].call == w)
    && (x.closing ==> x.left < x.count && x.first + x.left !in c.closed)
    && (x.stage in {Checking, Blocked} ==> x.left == x.count && !x.closing) && (x.stage == Done ==> x.left == 0)
  }

  ghost predicate Live(c: Core, id: nat)
    requires id < |c.slots|
  {
    var w := c.slots[id].call;
    w in c.waiters && c.waiters[w].first <= id < c.waiters[w].first + c.waiters[w].left
  }

  /** An id stands in the map while its call has not removed it, under its own key and with an open channel. */
  ghost predicate SlotOk(c: Core, id: nat)
    requires id < |c.slots|
  {
    Live(c, id) ==> Has(c.subs, c.slots[id].key, id) && id !in c.closed
  }

  ghost predicate EntryOk(c: Core, key: Key, id: nat) {
    id < |c.slots| && c.slots[id].key == key && Live(c, id)
  }

  ghost predicate CoreInv(c: Core) {
    && (forall id :: id in c.closed ==> id < |c.slots|)
    && (forall w :: w in c.waiters ==> WaiterOk(c, w, c.waiters[w]))
    && (forall id :: 0 <= id < |c.slots| ==> SlotOk(c, id))
    && (forall key, id :: Has(c.subs, key, id) ==> EntryOk(c, key, id))
    && (forall key :: key in c.subs ==> c.subs[key] != {})
  }

  /** A slot is within its call's ids, and a call for a peer has one. */
  ghost predicate SlotIn(c: Core, id: nat)
    requires id < |c.slots|
  {
    var w := c.slots[id].call;
    && w in c.waiters && c.waiters[w].first <= id < c.waiters[w].first + c.waiters[w].count
    && (c.slots[id].key.Peer? ==> c.waiters[w].first == id && c.waiters[w].count == 1)
  }

  ghost predicate SlotsIn(c: Core) { forall id :: 0 <= id < |c.slots| ==> SlotIn(c, id) }

  /** The channels of a call that are behind the one it removed last are closed. */
  ghost predicate Behind(c: Core, x: Waiter) {
    forall id :: x.first + x.left <= id < x.first + x.count && !(x.closing && id == x.first + x.left) ==> id in c.closed
  }

  ghost predicate BehindOk(c: Core) { forall w :: w in c.waiters ==> Behind(c, c.waiters[w]) }

  ghost predicate RestOk(s: State, id: nat) {
    id < |s.core.slots| && Live(s.core, id) && (id in s.peerRest <==> IsPeer(s.core, id))
  }

  /** What a listener still has to send on is in the map. */
  ghost predicate RestsOk(s: State) { forall id: nat :: Sending(s, id) ==> RestOk(s, id) }

  /** Only channels are forwarded, and buffers do not overflow. */
  ghost predicate SignalsOk(s: State) {
    && (forall id :: id in s.held ==> IsChannel(s.core, id))
    && (forall id :: id in s.signals ==> id < |s.core.slots|)
    && (forall id :: s.signals[id] <= CAPACITY) && (forall w :: s.gathered[w] <= CAPACITY)
    && (forall w :: w in s.gathered ==> ForChannels(s.core, w))
  }

  predicate ForChannels(c: Core, w: nat) { w in c.waiters && IsChannel(c, c.waiters[w].first) }

  ghost predicate Inv(s: State) { CoreInv(s.core) && SlotsIn(s.core) && BehindOk(s.core) && RestsOk(s) && SignalsOk(s) }

  lemma {:induction false} AddAllHas(subs: map<Key, set<nat>>, keys: seq<Key>, first: nat, key: Key, id: nat)
    ensures Has(AddAll(subs, keys, first), key, id) <==>
            Has(subs, key, id) || (first <= id < first + |keys| && keys[id - first] == key)
  {
    if keys != [] {
      AddAllHas(subs, keys[..|keys| - 1], first, key, id);
    }
  }

  lemma {:induction false} AddAllFilled(subs: map<Key, set<nat>>, keys: seq<Key>, first: nat)
    requires forall key :: key in subs ==> subs[key] != {}
    ensures forall key :: key in AddAll(subs, keys, first) ==> AddAll(subs, keys, first)[key] != {}
  {
    if keys != [] {
      AddAllFilled(subs, keys[..|keys| - 1], first);
    }
  }

  lemma DeleteHas(subs: map<Key, set<nat>>, key: Key, id: nat, k: Key, i: nat)
    ensures Has(Delete(subs, key, id), k, i) <==> Has(subs, k, i) && !(k == key && i == id)
  {
    assert key in subs ==> (i in subs[key] - {id} <==> i in subs[key] && i != id);
  }

  lemma DeleteFilled(subs: map<Key, set<nat>>, key: Key, id: nat)
    requires forall k :: k in subs ==> subs[k] != {}
    ensures forall k :: k in Delete(subs, key, id) ==> Delete(subs, key, id)[k] != {}
  {
  }

  // ----- every step keeps it

  lemma SubscribeStep(c: Core, w: nat, keys: seq<Key>)
    requires CoreInv(c) && w !in c.waiters && keys != []
    ensures CoreInv(Subscribed(c, w, keys))
  {
    var d := Subscribed(c, w, keys);
    AddAllFilled(c.subs, keys, |c.slots|);
    forall key, id: nat
      ensures Has(d.subs, key, id) <==> Has(c.subs, key, id) || (|c.slots| <= id < |d.slots| && d.slots[id].key == key)
    {
      AddAllHas(c.subs, keys, |c.slots|, key, id);
    }
    forall id | 0 <= id < |d.slots| ensures SlotOk(d, id) {
      if id < |c.slots| { assert SlotOk(c, id); }
    }
  }

  lemma UnsubscribeStep(c: Core, w: nat)
    requires CoreInv(c) && Is(c, w, Leaving) && !c.waiters[w].closing && c.waiters[w].left > 0
    ensures CoreInv(Unsubscribed(c, w))
  {
    var d, x := Unsubscribed(c, w), c.waiters[w];
    assert WaiterOk(c, w, x);
    var id := x.first + x.left - 1;
    assert SlotOk(c, id);
    DeleteFilled(c.subs, c.slots[id].key, id);
    forall k, i: nat ensures Has(d.subs, k, i) <==> Has(c.subs, k, i) && !(k == c.slots[id].key && i == id) {
      DeleteHas(c.subs, c.slots[id].key, id, k, i);
    }
    forall i | 0 <= i < |d.slots| ensures SlotOk(d, i) { assert SlotOk(c, i); }
  }

  lemma CloseStep(c: Core, w: nat)
    requires CoreInv(c) && Is(c, w, Leaving) && c.waiters[w].closing
    ensures CoreInv(Closed(c, w))
  {
    var d, x := Closed(c, w), c.waiters[w];
    assert WaiterOk(c, w, x) && c.slots[x.first + x.left].call == w;
    forall v | v in d.waiters ensures WaiterOk(d, v, d.waiters[v]) {
      assert WaiterOk(c, v, c.waiters[v]);
      assert c.waiters[v].closing ==> c.slots[c.waiters[v].first + c.waiters[v].left].call == v;
    }
    forall key, id: nat | Has(d.subs, key, id) ensures EntryOk(d, key, id) { assert EntryOk(c, key, id); }
    forall id | 0 <= id < |d.slots| ensures SlotOk(d, id) { assert SlotOk(c, id); }
  }

  lemma MoveStep(c: Core, w: nat, stage: Stage)
    requires CoreInv(c) && w in c.waiters && stage != Checking
    requires stage == Blocked ==> c.waiters[w].stage == Checking
    requires stage == Done ==> c.waiters[w].left == 0
    ensures CoreInv(Move(c, w, stage))
  {
    var d := Move(c, w, stage);
    forall v | v in d.waiters ensures WaiterOk(d, v, d.waiters[v]) { assert WaiterOk(c, v, c.waiters[v]); }
    forall key, id: nat | Has(d.subs, key, id) ensures EntryOk(d, key, id) { assert EntryOk(c, key, id); }
    forall id | 0 <= id < |d.slots| ensures SlotOk(d, id) { assert SlotOk(c, id); }
  }

  lemma CoreStep(s: State, e: Event)
    requires Inv(s) && Enabled(s, e)
    ensures CoreInv(Apply(s, e).core)
  {
    match e
    case Subscribe(w, keys) => SubscribeStep(s.core, w, keys);
    case Check(w, active) => MoveStep(s.core, w, if active then Leaving else Blocked);
    case Wake(w) => MoveStep(s.core, w, Leaving);
    case Deadline(w) => MoveStep(s.core, w, Leaving);
    case Unsubscribe(w) => UnsubscribeStep(s.core, w);
    case Close(w) => CloseStep(s.core, w);
    case Return(w) => MoveStep(s.core, w, Done);
    case _ =>
  }

  lemma KeepsSlot(s: State, e: Event, id: nat, w: nat)
    requires Enabled(s, e) && id < |s.core.slots| && w in s.core.waiters
    ensures var c := Apply(s, e).core;
            && id < |c.slots| && c.slots[id] == s.core.slots[id] && w in c.waiters
            && c.waiters[w].first == s.core.waiters[w].first && c.waiters[w].count == s.core.waiters[w].count
  {
  }

  lemma NewSlots(c: Core, w: nat, keys: seq<Key>, id: nat)
    requires Sensible(keys) && |c.slots| <= id < |c.slots| + |keys|
    ensures SlotIn(Subscribed(c, w, keys), id)
  {
  }

  lemma SlotsStep(s: State, e: Event)
    requires Inv(s) && Enabled(s, e)
    ensures SlotsIn(Apply(s, e).core)
  {
    var c, d := s.core, Apply(s, e).core;
    forall id | 0 <= id < |d.slots| ensures SlotIn(d, id) {
      if id < |c.slots| {
        assert SlotIn(c, id);
        KeepsSlot(s, e, id, c.slots[id].call);
      } else {
        NewSlots(c, e.w, e.keys, id);
      }
    }
  }

  lemma BehindStep(s: State, e: Event)
    requires BehindOk(s.core) && Enabled(s, e)
    ensures BehindOk(Apply(s, e).core)
  {
    var c, d := s.core, Apply(s, e).core;
    forall w | w in d.waiters ensures Behind(d, d.waiters[w]) {
      if w in c.waiters { assert Behind(c, c.waiters[w]); }
    }
  }

  lemma RestsStep(s: State, e: Event)
    requires Inv(s) && Enabled(s, e)
    ensures RestsOk(Apply(s, e))
  {
    var t := Apply(s, e);
    if e.Notify? {
      NotifyRests(s, e.key);
    } else if !e.Subscribe? && !e.Unsubscribe? {
      forall id: nat | Sending(t, id) ensures RestOk(t, id) {
        assert Sending(s, id) && RestOk(s, id);
        SameLive(s, e, id);
      }
    }
  }

  lemma SameLive(s: State, e: Event, id: nat)
    requires Enabled(s, e) && !e.Subscribe? && !e.Unsubscribe? && id < |s.core.slots|
    ensures Apply(s, e).core.slots == s.core.slots && (Live(Apply(s, e).core, id) <==> Live(s.core, id))
  {
  }

  lemma NotifyRests(s: State, key: Key)
    requires Inv(s) && Enabled(s, Notify(key))
    ensures RestsOk(Apply(s, Notify(key)))
  {
    var t := Apply(s, Notify(key));
    forall id: nat | Sending(t, id) ensures RestOk(t, id) {
      if Sending(s, id) { assert RestOk(s, id); }
      if Has(s.core.subs, key, id) { assert EntryOk(s.core, key, id); }
    }
  }

  /** What the signals' owners are does not change. */
  lemma OwnersStay(s: State, e: Event)
    requires Enabled(s, e)
    ensures forall id: nat :: IsChannel(s.core, id) ==> IsChannel(Apply(s, e).core, id)
    ensures forall w: nat :: ForChannels(s.core, w) ==> ForChannels(Apply(s, e).core, w)
  {
    forall w: nat | ForChannels(s.core, w) ensures ForChannels(Apply(s, e).core, w) {
      KeepsSlot(s, e, s.core.waiters[w].first, w);
    }
    var c, d := s.core, Apply(s, e).core;
    assert c.slots <= d.slots;
  }

  lemma SendOk(s: State, id: nat)
    requires Inv(s) && Enabled(s, Send(id))
    ensures SignalsOk(Apply(s, Send(id)))
  {
    assert RestOk(s, id);
  }

  lemma PullOk(s: State, id: nat)
    requires SignalsOk(s) && Enabled(s, Pull(id))
    ensures SignalsOk(Apply(s, Pull(id)))
  {
    var t := Apply(s, Pull(id));
    assert forall i :: t.signals[i] <= s.signals[i];
  }

  lemma GathersChannels(c: Core, id: nat)
    requires CoreInv(c) && SlotsIn(c) && IsChannel(c, id)
    ensures ForChannels(c, c.slots[id].call)
  {
    var w := c.slots[id].call;
    assert SlotIn(c, id) && WaiterOk(c, w, c.waiters[w]);
    assert SlotIn(c, c.waiters[w].first) && c.slots[c.waiters[w].first].call == w;
  }

  lemma PushOk(s: State, id: nat)
    requires Inv(s) && Enabled(s, Push(id))
    ensures SignalsOk(Apply(s, Push(id)))
  {
    GathersChannels(s.core, id);
    var t, w := Apply(s, Push(id)), s.core.slots[id].call;
    assert forall v :: t.gathered[v] == s.gathered[v] + if v == w then 1 else 0;
  }

  lemma WakeOk(s: State, w: nat)
    requires SignalsOk(s) && Enabled(s, Wake(w))
    ensures SignalsOk(Apply(s, Wake(w)))
  {
    var t := Apply(s, Wake(w));
    assert forall i :: t.signals[i] <= s.signals[i];
    assert forall v :: t.gathered[v] <= s.gathered[v];
    OwnersStay(s, Wake(w));
  }

  lemma SignalsStep(s: State, e: Event)
    requires Inv(s) && Enabled(s, e)
    ensures SignalsOk(Apply(s, e))
  {
    if e.Send? {
      SendOk(s, e.id);
    } else if e.Pull? {
      PullOk(s, e.id);
    } else if e.Push? {
      PushOk(s, e.id);
    } else if e.Wake? {
      WakeOk(s, e.w);
    } else {
      OtherOk(s, e);
    }
  }

  lemma OtherOk(s: State, e: Event)
    requires SignalsOk(s) && Enabled(s, e) && !e.Send? && !e.Pull? && !e.Push? && !e.Wake?
    ensures SignalsOk(Apply(s, e))
  {
    OwnersStay(s, e);
    var t := Apply(s, e);
    assert t.signals == s.signals && t.held == s.held && t.gathered == s.gathered && |s.core.slots| <= |t.core.slots|;
  }

  lemma Step(s: State, e: Event)
    requires Inv(s) && Enabled(s, e)
    ensures Inv(Apply(s, e))
  {
    CoreStep(s, e);
    SlotsStep(s, e);
    BehindStep(s, e);
    RestsStep(s, e);
    SignalsStep(s, e);
  }

  lemma {:induction false} Steps(s: State, es: seq<Event>)
    requires Inv(s)
    ensures Run(s, es).Some? ==> Inv(Run(s, es).value)
  {
    if es != [] {
      var before := Run(s, es[..|es| - 1]);
      Steps(s, es[..|es| - 1]);
      if before.Some? && Enabled(before.value, es[|es| - 1]) {
        Step(before.value, es[|es| - 1]);
      }
    }
  }

  lemma Safety(es: seq<Event>)
    ensures Run(INIT, es).Some? ==> Inv(Run(INIT, es).value)
  {
    Steps(INIT, es);
  }

  // ----- what holds after every run

  /** Listeners only ever find non-empty inner maps with open channels, and every id stands under one key. */
  lemma OnlyOpenChannels(es: seq<Event>, key: Key, id: nat)
    requires Run(INIT, es).Some? && Has(Run(INIT, es).value.core.subs, key, id)
    ensures var c := Run(INIT, es).value.core;
            && id !in c.closed && (forall k :: k in c.subs ==> c.subs[k] != {})
            && forall k :: Has(c.subs, k, id) ==> k == key
  {
    Safety(es);
    var c := Run(INIT, es).value.core;
    assert EntryOk(c, key, id) && SlotOk(c, id);
  }

  /** A listener that waits on a full channel, however long, still waits on an open one. */
  lemma SendsAreOpen(es: seq<Event>, id: nat)
    requires Run(INIT, es).Some? && Sending(Run(INIT, es).value, id)
    ensures id !in Run(INIT, es).value.core.closed
  {
    Safety(es);
    var s := Run(INIT, es).value;
    assert RestOk(s, id) && SlotOk(s.core, id);
  }

  /** A channel is closed once, after its subscription is gone and nobody is about to send on it. */
  lemma ClosedOnce(es: seq<Event>, w: nat)
    requires Run(INIT, es).Some? && Enabled(Run(INIT, es).value, Close(w))
    ensures var s := Run(INIT, es).value;
            var id := s.core.waiters[w].first + s.core.waiters[w].left;
            id !in s.core.closed && !Sending(s, id) && forall k :: !Has(s.core.subs, k, id)
  {
    Safety(es);
    var s := Run(INIT, es).value;
    var c := s.core;
    var id := c.waiters[w].first + c.waiters[w].left;
    assert WaiterOk(c, w, c.waiters[w]) && c.slots[id].call == w;
    assert forall k :: Has(c.subs, k, id) ==> EntryOk(c, k, id);
    assert Sending(s, id) ==> RestOk(s, id);
  }

  /** The call has subscribed and still waits, or asks before it waits. */
  predicate Waits(c: Core, w: nat) { Is(c, w, Checking) || Is(c, w, Blocked) }

  predicate IdOf(c: Core, w: nat, id: nat) {
    w in c.waiters && c.waiters[w].first <= id < c.waiters[w].first + c.waiters[w].count
  }

  lemma WaitsSubscribed(c: Core, w: nat, id: nat)
    requires CoreInv(c) && Waits(c, w) && IdOf(c, w, id)
    ensures id < |c.slots| && c.slots[id].call == w && Has(c.subs, c.slots[id].key, id)
  {
    assert WaiterOk(c, w, c.waiters[w]);
    assert SlotOk(c, id);
  }

  /**
   Whoever asks or waits is subscribed, so the listener finds it when the next event for one of its keys is processed.
   */
  lemma NextEventReaches(es: seq<Event>, w: nat, id: nat)
    requires Run(INIT, es).Some? && Waits(Run(INIT, es).value.core, w) && IdOf(Run(INIT, es).value.core, w, id)
    ensures var s := Run(INIT, es).value;
            && id < |s.core.slots| && s.core.slots[id].call == w && Has(s.core.subs, s.core.slots[id].key, id)
            && (Enabled(s, Notify(s.core.slots[id].key)) ==> Sending(Apply(s, Notify(s.core.slots[id].key)), id))
  {
    assert CoreInv(Run(INIT, es).value.core) by { Safety(es); }
    WaitsSubscribed(Run(INIT, es).value.core, w, id);
  }

  // ----- no event is missed

  /** A signal is on its way to the call: buffered in a channel of it, in hand, or gathered. */
  ghost predicate OnItsWay(s: State, w: nat) {
    w in s.gathered || exists id: nat :: IdOf(s.core, w, id) && (id in s.signals || id in s.held)
  }

  /** Calls do not share ids. */
  lemma OthersFirst(c: Core, v: nat, w: nat, id: nat)
    requires CoreInv(c) && v in c.waiters && v != w && IdOf(c, w, id)
    ensures c.waiters[v].first != id
  {
    assert WaiterOk(c, v, c.waiters[v]) && WaiterOk(c, w, c.waiters[w]);
    assert c.slots[c.waiters[v].first].call == v && c.slots[id].call == w;
  }

  lemma SameIds(s: State, e: Event, w: nat, id: nat)
    requires Inv(s) && Enabled(s, e) && IdOf(s.core, w, id)
    ensures IdOf(Apply(s, e).core, w, id)
  {
  }

  lemma SignalRests(s: State, e: Event, id: nat)
    requires Enabled(s, e) && e != Push(id) && e != Pull(id) && (e.Wake? ==> s.core.waiters[e.w].first != id)
    ensures (id in s.signals ==> id in Apply(s, e).signals) && (id in s.held ==> id in Apply(s, e).held)
  {
  }

  /** Where a signal is after a step that does not end the wait. */
  lemma SignalMoves(s: State, e: Event, w: nat, id: nat)
    requires Inv(s) && Enabled(s, e) && e != Wake(w) && IdOf(s.core, w, id) && (id in s.signals || id in s.held)
    ensures OnItsWay(Apply(s, e), w)
  {
    var t := Apply(s, e);
    SameIds(s, e, w, id);
    if e == Push(id) {
      assert WaiterOk(s.core, w, s.core.waiters[w]) && s.core.slots[id].call == w;
      assert w in t.gathered;
    } else if e == Pull(id) {
      assert id in t.held;
    } else {
      if e.Wake? { OthersFirst(s.core, e.w, w, id); }
      SignalRests(s, e, id);
    }
  }

  lemma StaysOnItsWay(s: State, e: Event, w: nat)
    requires Inv(s) && Enabled(s, e) && e != Wake(w) && OnItsWay(s, w)
    ensures OnItsWay(Apply(s, e), w)
  {
    if w in s.gathered {
      assert w in Apply(s, e).gathered;
    } else {
      var id: nat :| IdOf(s.core, w, id) && (id in s.signals || id in s.held);
      SignalMoves(s, e, w, id);
    }
  }

  /** A call that has been woken does not wait again. */
  lemma WaitsOnce(s: State, e: Event, w: nat)
    requires Enabled(s, e) && w in s.core.waiters && Waits(Apply(s, e).core, w)
    ensures Waits(s.core, w) && e != Wake(w)
  {
  }

  lemma {:induction false} StillOnItsWay(s: State, more: seq<Event>, w: nat)
    requires Inv(s) && w in s.core.waiters && OnItsWay(s, w) && Run(s, more).Some? && Waits(Run(s, more).value.core, w)
    ensures OnItsWay(Run(s, more).value, w) && Waits(s.core, w)
  {
    if more != [] {
      var n := |more| - 1;
      Steps(s, more[..n]);
      KeepsCall(s, more[..n], w);
      WaitsOnce(Run(s, more[..n]).value, more[n], w);
      StillOnItsWay(s, more[..n], w);
      StaysOnItsWay(Run(s, more[..n]).value, more[n], w);
    }
  }

  lemma {:induction false} KeepsCall(s: State, es: seq<Event>, w: nat)
    requires w in s.core.waiters && Run(s, es).Some?
    ensures w in Run(s, es).value.core.waiters
  {
    if es != [] { KeepsCall(s, es[..|es| - 1], w); }
  }

  /** At most two steps of the forwarding goroutine bring a signal to a blocked call. */
  lemma WakesSoon(s: State, w: nat) returns (es: seq<Event>)
    requires Inv(s) && Is(s.core, w, Blocked) && OnItsWay(s, w) && !IsPeer(s.core, s.core.waiters[w].first)
    ensures |es| <= 2 && Run(s, es).Some? && Enabled(Run(s, es).value, Wake(w))
  {
    if w in s.gathered {
      es := [];
    } else {
      var id: nat :| IdOf(s.core, w, id) && (id in s.signals || id in s.held);
      assert WaiterOk(s.core, w, s.core.waiters[w]) && s.core.slots[id].call == w && SlotIn(s.core, id);
      if id in s.held {
        RunFirst(s, Push(id), []);
        es := [Push(id)] + [];
      } else {
        RunFirst(Apply(s, Pull(id)), Push(id), []);
        RunFirst(s, Pull(id), [Push(id)] + []);
        es := [Pull(id)] + ([Push(id)] + []);
      }
    }
  }

  /**
   An event that a listener has processed for a call, at any time between its subscription and its blocking receive, is
   not missed: as long as the call waits, a signal is on its way to it, and a call for a peer can receive it at once.
   */
  lemma NoEventMissed(es: seq<Event>, id: nat, more: seq<Event>)
    requires Run(INIT, es).Some? && Enabled(Run(INIT, es).value, Send(id))
    requires Run(Apply(Run(INIT, es).value, Send(id)), more).Some?
    ensures var c := Run(INIT, es).value.core;
            var t := Run(Apply(Run(INIT, es).value, Send(id)), more).value;
            id < |c.slots| && var w := c.slots[id].call;
            Waits(t.core, w) ==>
              OnItsWay(t, w) && (Is(t.core, w, Blocked) && c.slots[id].key.Peer? ==> Enabled(t, Wake(w)))
  {
    Safety(es);
    var s := Run(INIT, es).value;
    assert RestOk(s, id) && SlotIn(s.core, id);
    var w, t := s.core.slots[id].call, Apply(s, Send(id));
    Step(s, Send(id));
    assert IdOf(t.core, w, id) && id in t.signals;
    Steps(t, more);
    if Waits(Run(t, more).value.core, w) {
      StillOnItsWay(t, more, w);
      if s.core.slots[id].key.Peer? {
        KeepsSlots(t, more, id, w);
        PeerSignal(Run(t, more).value, w);
      }
    }
  }

  lemma {:induction false} KeepsSlots(s: State, es: seq<Event>, id: nat, w: nat)
    requires Run(s, es).Some? && id < |s.core.slots| && w in s.core.waiters
    ensures var c := Run(s, es).value.core;
            && id < |c.slots| && c.slots[id] == s.core.slots[id] && w in c.waiters
            && c.waiters[w].first == s.core.waiters[w].first && c.waiters[w].count == s.core.waiters[w].count
  {
    if es != [] {
      KeepsSlots(s, es[..|es| - 1], id, w);
      KeepsSlot(Run(s, es[..|es| - 1]).value, es[|es| - 1], id, w);
    }
  }

  /** Signals for a peer are not gathered: they stay in the channel the call receives from. */
  lemma PeerSignal(s: State, w: nat)
    requires Inv(s) && OnItsWay(s, w) && w in s.core.waiters && IsPeer(s.core, s.core.waiters[w].first)
    ensures s.core.waiters[w].first in s.signals
  {
    var first := s.core.waiters[w].first;
    assert SlotIn(s.core, first);
  }
}
