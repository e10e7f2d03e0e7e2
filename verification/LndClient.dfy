/**
 The subscription maps of the LND client and the regions that its waiters, listeners and forwarding goroutines run.
 */
module LndClient {
  import opened Waiters

  class Client {
    var subs: map<Key, set<nat>>
    var index: nat
    var closed: set<nat>
    var waiters: map<nat, Waiter>
    var calls: nat
    var signals: multiset<nat>
    var held: set<nat>
    var gathered: multiset<nat>
    var peerRest: set<nat>
    var chanRest: set<nat>
    ghost var slots: seq<Slot>

    ghost function View(): State
      reads this
    {
      State(Core(subs, slots, closed, waiters), signals, held, gathered, peerRest, chanRest)
    }

    ghost predicate Counts()
      reads this
    {
      index == |slots| && forall w :: w in waiters ==> w < calls
    }

    ghost predicate Valid()
      reads this
    {
      Inv(View()) && Counts()
    }

    /** The fields changed as in one step of the model. */
    twostate predicate Moved(e: Event)
      reads this
    {
      Enabled(old(View()), e) && View() == Apply(old(View()), e) && Counts()
    }

    /** The object took exactly one step of the model. */
    twostate predicate Did(e: Event)
      reads this
    {
      Enabled(old(View()), e) && View() == Apply(old(View()), e) && Valid()
    }

    constructor ()
      ensures View() == INIT && Valid()
    {
      subs, index, closed, waiters, calls, slots := map[], 0, {}, map[], 0, [];
      signals, held, gathered, peerRest, chanRest := multiset{}, {}, multiset{}, {}, {};
    }

    /** The loop over the keys: each takes the next id, and a new inner map where the key has none. */
    method Register(keys: seq<Key>)
      modifies this`subs, this`index
      ensures subs == AddAll(old(subs), keys, old(index)) && index == old(index) + |keys|
    {
      var first := index;
      for n := 0 to |keys|
        invariant subs == AddAll(old(subs), keys[..n], first) && index == first + n
      {
        assert keys[..n + 1][..n] == keys[..n];
        var inner := if keys[n] in subs then subs[keys[n]] else {};
        subs := subs[keys[n] := inner + {index}];
        index := index + 1;
      }
      assert keys[..|keys|] == keys;
    }

    method Enroll(w: nat, keys: seq<Key>)
      requires index == |slots|
      modifies this`subs, this`index, this`waiters, this`slots
      ensures Core(subs, slots, closed, waiters) == Subscribed(old(View().core), w, keys) && index == |slots|
    {
      waiters := waiters[w := Waiter(index, |keys|, |keys|, false, Checking)];
      Register(keys);
      slots := slots + seq(|keys|, i requires 0 <= i < |keys| => Slot(w, keys[i]));
    }

    /** The locked region that registers a call for every key it waits for. */
    method Subscribe(keys: seq<Key>) returns (w: nat)
      requires Valid() && Unlocked(View()) && Sensible(keys)
      modifies this
      ensures Did(Event.Subscribe(w, keys)) && w == old(calls) && AllHas(subs, keys, old(index))
    {
      w := calls;
      Step(View(), Event.Subscribe(w, keys));
      AllAdded(subs, keys, index);
      calls := calls + 1;
      Enroll(w, keys);
    }

    /** The node's answer to the question asked after subscribing. */
    method Check(w: nat, active: bool)
      requires Valid() && Enabled(View(), Event.Check(w, active))
      modifies this`waiters
      ensures Did(Event.Check(w, active))
    {
      ghost var t := Apply(View(), Event.Check(w, active));
      Step(View(), Event.Check(w, active));
      waiters := waiters[w := waiters[w].(stage := if active then Leaving else Blocked)];
      assert View() == t;
    }

    /** A listener takes the read lock and ranges over the channels subscribed for the key, all of them open. */
    method BeginNotify(key: Key)
      requires Valid() && Enabled(View(), Event.Notify(key))
      modifies this`peerRest, this`chanRest
      ensures Did(Event.Notify(key))
      ensures forall id :: Has(subs, key, id) ==> Sending(View(), id) && id !in closed
    {
      ghost var t := Apply(View(), Event.Notify(key));
      Step(View(), Event.Notify(key));
      FoundOpen(View(), key);
      var found := if key in subs then subs[key] else {};
      if key.Peer? {
        peerRest := found;
      } else {
        chanRest := found;
      }
      assert View() == t;
    }

    /** One send of the range, when the channel has room; the channel is open. */
    method SendSignal(id: nat)
      requires Valid() && Enabled(View(), Event.Send(id))
      modifies this`signals, this`peerRest, this`chanRest
      ensures Did(Event.Send(id)) && id !in closed && id in signals
    {
      ghost var t := Apply(View(), Event.Send(id));
      Step(View(), Event.Send(id));
      SentOpen(View(), id);
      signals := signals + multiset{id};
      peerRest, chanRest := peerRest - {id}, chanRest - {id};
      assert View() == t;
    }

    /** A forwarding goroutine receives a signal of its channel. */
    method PullSignal(id: nat)
      requires Valid() && Enabled(View(), Pull(id))
      modifies this`signals, this`held
      ensures Did(Pull(id)) && id in held
    {
      ghost var t := Apply(View(), Pull(id));
      Step(View(), Pull(id));
      signals, held := signals - multiset{id}, held + {id};
      assert View() == t;
    }

    /** It sends the signal on to the call. */
    method PushSignal(id: nat, w: nat)
      requires Valid() && Enabled(View(), Push(id)) && slots[id].call == w
      modifies this`held, this`gathered
      ensures Did(Push(id)) && w in gathered
    {
      ghost var t := Apply(View(), Push(id));
      Step(View(), Push(id));
      held, gathered := held - {id}, gathered + multiset{w};
      assert View() == t;
    }

    method TakeOnline(w: nat)
      requires Counts() && Enabled(View(), Wake(w)) && IsPeer(View().core, waiters[w].first)
      modifies this`waiters, this`signals
      ensures Moved(Wake(w)) && Is(View().core, w, Leaving)
    {
      signals, waiters := signals - multiset{waiters[w].first}, waiters[w := waiters[w].(stage := Leaving)];
    }

    /** The blocking receive of a call for a peer gets a signal from the subscribed channel. */
    method ReceiveOnline(w: nat)
      requires Valid() && Enabled(View(), Wake(w)) && IsPeer(View().core, waiters[w].first)
      modifies this`waiters, this`signals
      ensures Did(Wake(w)) && Is(View().core, w, Leaving)
    {
      Step(View(), Wake(w));
      TakeOnline(w);
    }

    method TakeActive(w: nat)
      requires Counts() && Enabled(View(), Wake(w)) && !IsPeer(View().core, waiters[w].first)
      modifies this`waiters, this`gathered
      ensures Moved(Wake(w)) && Is(View().core, w, Leaving)
    {
      gathered, waiters := gathered - multiset{w}, waiters[w := waiters[w].(stage := Leaving)];
    }

    /** The blocking receive of a call for channels gets one from the gathering channel. */
    method ReceiveActive(w: nat)
      requires Valid() && Enabled(View(), Wake(w)) && !IsPeer(View().core, waiters[w].first)
      modifies this`waiters, this`gathered
      ensures Did(Wake(w)) && Is(View().core, w, Leaving)
    {
      Step(View(), Wake(w));
      TakeActive(w);
    }

    /** Or the deadline comes first. */
    method Expire(w: nat)
      requires Valid() && Enabled(View(), Deadline(w))
      modifies this`waiters
      ensures Did(Deadline(w)) && Is(View().core, w, Leaving)
    {
      ghost var t := Apply(View(), Deadline(w));
      Step(View(), Deadline(w));
      waiters := waiters[w := waiters[w].(stage := Leaving)];
      assert View() == t;
    }

    /** One subscription goes, and its inner map if that was the last. */
    method Remove(key: Key, id: nat)
      modifies this`subs
      ensures subs == Delete(old(subs), key, id)
    {
      if key in subs {
        var inner := subs[key] - {id};
        subs := if inner == {} then subs - {key} else subs[key := inner];
      }
    }

    method Leave(w: nat, key: Key)
      requires Counts() && Enabled(View(), Event.Unsubscribe(w)) && waiters[w].first + waiters[w].left <= |slots|
      requires slots[waiters[w].first + waiters[w].left - 1].key == key
      modifies this`subs, this`waiters
      ensures Moved(Event.Unsubscribe(w))
    {
      var x := waiters[w];
      waiters := waiters[w := x.(left := x.left - 1, closing := true)];
      Remove(key, x.first + x.left - 1);
    }

    /** The locked region of a deferred call: the last subscription that is left goes, and no other. */
    method Unsubscribe(w: nat, key: Key)
      requires Valid() && Enabled(View(), Event.Unsubscribe(w)) && waiters[w].first + waiters[w].left <= |slots|
      requires slots[waiters[w].first + waiters[w].left - 1].key == key
      modifies this`subs, this`waiters
      ensures Did(Event.Unsubscribe(w))
      ensures Without(old(subs), subs, old(waiters[w].first + waiters[w].left - 1))
    {
      Removed(View(), w);
      Step(View(), Event.Unsubscribe(w));
      Leave(w, key);
    }

    method Shut(w: nat)
      requires Counts() && Enabled(View(), Event.Close(w))
      modifies this`closed, this`waiters
      ensures Moved(Event.Close(w))
    {
      var x := waiters[w];
      closed, waiters := closed + {x.first + x.left}, waiters[w := x.(closing := false)];
    }

    /** The deferred close that follows: the channel is open and in no map. */
    method Close(w: nat)
      requires Valid() && Enabled(View(), Event.Close(w))
      modifies this`closed, this`waiters
      ensures Did(Event.Close(w)) && Gone(old(View()).core, old(waiters[w].first + waiters[w].left))
    {
      OutOfTheMap(View(), w);
      Step(View(), Event.Close(w));
      Shut(w);
    }

    /** The last deferred close, of the gathering channel: nothing of the call is left open or in a map. */
    method Return(w: nat)
      requires Valid() && Enabled(View(), Event.Return(w))
      modifies this`waiters
      ensures Did(Event.Return(w)) && NothingLeft(old(View()).core, w)
    {
      AllClosed(View(), w);
      Step(View(), Event.Return(w));
      waiters := waiters[w := waiters[w].(stage := Done)];
    }
  }

  ghost predicate AllHas(subs: map<Key, set<nat>>, keys: seq<Key>, first: nat) {
    forall i :: 0 <= i < |keys| ==> Has(subs, keys[i], first + i)
  }

  lemma AllAdded(subs: map<Key, set<nat>>, keys: seq<Key>, first: nat)
    ensures AllHas(AddAll(subs, keys, first), keys, first)
  {
    forall i | 0 <= i < |keys| ensures Has(AddAll(subs, keys, first), keys[i], first + i) {
      AddAllHas(subs, keys, first, keys[i], first + i);
    }
  }

  /** The same subscriptions but one. */
  ghost predicate Without(before: map<Key, set<nat>>, after: map<Key, set<nat>>, id: nat) {
    forall k, i :: Has(after, k, i) <==> Has(before, k, i) && i != id
  }

  // ----- what is known of a valid state

  lemma FoundOpen(s: State, key: Key)
    requires Inv(s)
    ensures forall id :: Has(s.core.subs, key, id) ==> id !in s.core.closed
  {
    forall id: nat | Has(s.core.subs, key, id) ensures id !in s.core.closed {
      assert EntryOk(s.core, key, id) && SlotOk(s.core, id);
    }
  }

  lemma SentOpen(s: State, id: nat)
    requires Inv(s) && Sending(s, id)
    ensures id !in s.core.closed
  {
    assert RestOk(s, id) && SlotOk(s.core, id);
  }

  /** Only the last subscription of the call leaves the map. */
  lemma Removed(s: State, w: nat)
    requires Inv(s) && Enabled(s, Event.Unsubscribe(w))
    ensures Without(s.core.subs, Unsubscribed(s.core, w).subs, s.core.waiters[w].first + s.core.waiters[w].left - 1)
  {
    CoreRemoved(s.core, w);
  }

  lemma CoreRemoved(c: Core, w: nat)
    requires CoreInv(c) && w in c.waiters && c.waiters[w].left > 0
    ensures Without(c.subs, Unsubscribed(c, w).subs, c.waiters[w].first + c.waiters[w].left - 1)
  {
    var id := c.waiters[w].first + c.waiters[w].left - 1;
    assert WaiterOk(c, w, c.waiters[w]);
    forall k, i: nat ensures Has(Unsubscribed(c, w).subs, k, i) <==> Has(c.subs, k, i) && i != id {
      DeleteHas(c.subs, c.slots[id].key, id, k, i);
      if Has(c.subs, k, i) { assert EntryOk(c, k, i); }
    }
  }

  /** The channel is open and its subscription in no map. */
  ghost predicate Gone(c: Core, id: nat) { id !in c.closed && forall k :: !Has(c.subs, k, id) }

  lemma OutOfTheMap(s: State, w: nat)
    requires Inv(s) && Enabled(s, Event.Close(w))
    ensures Gone(s.core, s.core.waiters[w].first + s.core.waiters[w].left)
  {
    var c := s.core;
    var id := c.waiters[w].first + c.waiters[w].left;
    assert WaiterOk(c, w, c.waiters[w]) && c.slots[id].call == w;
    assert forall k :: Has(c.subs, k, id) ==> EntryOk(c, k, id);
  }

  /** Every channel of the call is closed and out of the map. */
  ghost predicate NothingLeft(c: Core, w: nat) {
    forall id: nat :: IdOf(c, w, id) ==> id in c.closed && forall k :: !Has(c.subs, k, id)
  }

  lemma AllClosed(s: State, w: nat)
    requires Inv(s) && Enabled(s, Event.Return(w))
    ensures NothingLeft(s.core, w)
  {
    var c := s.core;
    assert WaiterOk(c, w, c.waiters[w]) && Behind(c, c.waiters[w]);
    forall id: nat | IdOf(c, w, id) ensures id in c.closed && forall k :: !Has(c.subs, k, id) {
      assert c.slots[id].call == w;
      assert forall k :: Has(c.subs, k, id) ==> EntryOk(c, k, id);
    }
  }
}
