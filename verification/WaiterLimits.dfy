/**
 What the buffer sizes and the goroutines between them mean for waiters and listeners: when a listener is stuck on a
 full channel for good, and when a signal is sent on a channel that is closed already.
 */
module WaiterLimits {
  import opened Base
  import opened Waiters

  // ----- a listener on a full channel

  /** Some continuation lets the listener send on the channel. */
  ghost predicate CanSend(s: State, id: nat) { exists es: seq<Event> :: Lets(s, es, id) }

  predicate Lets(s: State, es: seq<Event>, id: nat) { Run(s, es).Some? && Enabled(Run(s, es).value, Send(id)) }

  lemma After(s: State, e: Event, id: nat)
    requires Enabled(s, e) && CanSend(Apply(s, e), id)
    ensures CanSend(s, id)
  {
    var es :| Lets(Apply(s, e), es, id);
    RunFirst(s, e, es);
    assert Lets(s, [e] + es, id);
  }

  /**
   The channel is full, its call is on the way out and waits for the lock, and no goroutine takes anything from it.
   */
  ghost predicate Jammed(s: State, id: nat) {
    && Sending(s, id) && s.signals[id] == CAPACITY && id < |s.core.slots| && Is(s.core, s.core.slots[id].call, Leaving)
    && (IsChannel(s.core, id) ==> id in s.held && s.gathered[s.core.slots[id].call] == CAPACITY)
  }

  lemma Now(s: State, id: nat)
    requires Sending(s, id) && s.signals[id] < CAPACITY
    ensures CanSend(s, id)
  {
    assert Lets(s, [], id);
  }

  /** A forwarding goroutine that is free makes room. */
  lemma PullMakesRoom(s: State, id: nat)
    requires Inv(s) && Sending(s, id) && IsChannel(s.core, id) && id in s.signals && id !in s.held
    ensures CanSend(s, id)
  {
    Now(Apply(s, Pull(id)), id);
    After(s, Pull(id), id);
  }

  lemma PushMakesRoom(s: State, id: nat)
    requires Inv(s) && Sending(s, id) && IsChannel(s.core, id) && id in s.signals
    requires id in s.held && s.gathered[s.core.slots[id].call] < CAPACITY && !Is(s.core, s.core.slots[id].call, Done)
    ensures CanSend(s, id)
  {
    Step(s, Push(id));
    PullMakesRoom(Apply(s, Push(id)), id);
    After(s, Push(id), id);
  }

  /** A call that blocks takes a signal. */
  lemma WakeMakesRoom(s: State, id: nat)
    requires Inv(s) && Sending(s, id) && s.signals[id] == CAPACITY && Is(s.core, s.core.slots[id].call, Blocked)
    requires IsChannel(s.core, id) ==> id in s.held && s.gathered[s.core.slots[id].call] == CAPACITY
    ensures CanSend(s, id)
  {
    var w := s.core.slots[id].call;
    assert SlotIn(s.core, id);
    if IsChannel(s.core, id) {
      GathersChannels(s.core, id);
      Step(s, Wake(w));
      PushMakesRoom(Apply(s, Wake(w)), id);
    } else {
      Now(Apply(s, Wake(w)), id);
    }
    After(s, Wake(w), id);
  }

  lemma NotJammed(s: State, id: nat)
    requires Inv(s) && Sending(s, id) && !Jammed(s, id)
    ensures CanSend(s, id)
  {
    assert RestOk(s, id) && SlotIn(s.core, id);
    var w := s.core.slots[id].call;
    assert WaiterOk(s.core, w, s.core.waiters[w]);
    if s.signals[id] < CAPACITY {
      Now(s, id);
    } else if IsChannel(s.core, id) && id !in s.held {
      PullMakesRoom(s, id);
    } else if IsChannel(s.core, id) && s.gathered[w] < CAPACITY {
      PushMakesRoom(s, id);
    } else if Is(s.core, w, Blocked) {
      WakeMakesRoom(s, id);
    } else {
      Step(s, Check(w, false));
      WakeMakesRoom(Apply(s, Check(w, false)), id);
      After(s, Check(w, false), id);
    }
  }

  /** The listener holds the lock, and the call has subscriptions left, so it can only close what it has removed. */
  lemma JamCall(s: State, e: Event, id: nat)
    requires Inv(s) && Jammed(s, id) && Enabled(s, e)
    ensures !e.Subscribe? && !e.Unsubscribe? && e != Return(s.core.slots[id].call)
    ensures Apply(s, e).core.slots == s.core.slots && Apply(s, e).core.subs == s.core.subs
    ensures Is(Apply(s, e).core, s.core.slots[id].call, Leaving)
  {
    assert RestOk(s, id);
  }

  lemma JamSignals(s: State, e: Event, id: nat)
    requires Inv(s) && Jammed(s, id) && Enabled(s, e)
    ensures Sending(Apply(s, e), id) && Apply(s, e).signals[id] == s.signals[id]
  {
    assert RestOk(s, id) && SlotIn(s.core, id);
    if e.Wake? { OthersFirst(s.core, e.w, s.core.slots[id].call, id); }
  }

  lemma JamGathered(s: State, e: Event, id: nat)
    requires Jammed(s, id) && Enabled(s, e) && IsChannel(s.core, id)
    ensures id in Apply(s, e).held && Apply(s, e).gathered[s.core.slots[id].call] == CAPACITY
  {
  }

  /** Whatever happens elsewhere, a jam stays, and as long as it does nobody can subscribe or unsubscribe. */
  lemma JamStays(s: State, e: Event, id: nat)
    requires Inv(s) && Jammed(s, id) && Enabled(s, e)
    ensures Jammed(Apply(s, e), id) && Apply(s, e).core.subs == s.core.subs
  {
    JamCall(s, e, id);
    JamSignals(s, e, id);
    if IsChannel(s.core, id) { JamGathered(s, e, id); }
  }

  lemma {:induction false} JamsForever(s: State, es: seq<Event>, id: nat)
    requires Inv(s) && Jammed(s, id) && Run(s, es).Some?
    ensures Jammed(Run(s, es).value, id) && Run(s, es).value.core.subs == s.core.subs
  {
    if es != [] {
      JamsForever(s, es[..|es| - 1], id);
      Steps(s, es[..|es| - 1]);
      JamStays(Run(s, es[..|es| - 1]).value, es[|es| - 1], id);
    }
  }

  /**
   After any run, a listener that has to send on a channel can get there, if and only if the channel is not jammed:
   full, with its call on the way out. The call then waits for the lock that the listener holds.
   */
  lemma SendsIffNotJammed(es: seq<Event>, id: nat)
    requires Run(INIT, es).Some? && Sending(Run(INIT, es).value, id)
    ensures CanSend(Run(INIT, es).value, id) <==> !Jammed(Run(INIT, es).value, id)
  {
    Safety(es);
    var s := Run(INIT, es).value;
    if Jammed(s, id) {
      forall more: seq<Event> ensures !Lets(s, more, id) {
        if Run(s, more).Some? { JamsForever(s, more, id); }
      }
    } else {
      NotJammed(s, id);
    }
  }

  // ----- when no jam comes

  /** The step makes a listener range over the subscription, or sends on it. */
  predicate Begins(s: State, e: Event, id: nat) {
    e.Notify? && e.key in s.core.subs && id in s.core.subs[e.key]
  }

  /** How many events have been processed for a subscription. */
  function Processed(es: seq<Event>, id: nat): nat {
    if es == [] then 0 else
    var before := Run(INIT, es[..|es| - 1]);
    Processed(es[..|es| - 1], id) + if before.Some? && Begins(before.value, es[|es| - 1], id) then 1 else 0
  }

  /** Signals of a subscription that are buffered or in hand, and the one a listener is about to send. */
  function Load(s: State, id: nat): nat {
    s.signals[id] + (if id in s.held then 1 else 0) + if Sending(s, id) then 1 else 0
  }

  lemma SendLoad(s: State, e: Event, id: nat)
    requires Enabled(s, e) && e.Send?
    ensures Load(Apply(s, e), id) <= Load(s, id)
  {
    var t := Apply(s, e);
    assert t.signals[id] == s.signals[id] + if id == e.id then 1 else 0;
  }

  lemma PassLoad(s: State, e: Event, id: nat)
    requires Enabled(s, e) && (e.Pull? || e.Push?)
    ensures Load(Apply(s, e), id) <= Load(s, id)
  {
    var t := Apply(s, e);
    assert t.signals[id] == s.signals[id] - if e == Pull(id) then 1 else 0;
  }

  lemma NotifyLoad(s: State, e: Event, id: nat)
    requires Enabled(s, e) && e.Notify?
    ensures Load(Apply(s, e), id) <= Load(s, id) + if Begins(s, e, id) then 1 else 0
  {
  }

  lemma WakeLoad(s: State, e: Event, id: nat)
    requires Enabled(s, e) && e.Wake?
    ensures Load(Apply(s, e), id) <= Load(s, id)
  {
    var t := Apply(s, e);
    assert t.signals[id] <= s.signals[id];
  }

  lemma LoadStep(s: State, e: Event, id: nat)
    requires Enabled(s, e)
    ensures Load(Apply(s, e), id) <= Load(s, id) + if Begins(s, e, id) then 1 else 0
  {
    match e
    case Send(_) => SendLoad(s, e, id);
    case Pull(_) => PassLoad(s, e, id);
    case Push(_) => PassLoad(s, e, id);
    case Notify(_) => NotifyLoad(s, e, id);
    case Wake(_) => WakeLoad(s, e, id);
    case _ =>
  }

  lemma {:induction false} LoadProcessed(es: seq<Event>, id: nat)
    requires Run(INIT, es).Some?
    ensures Load(Run(INIT, es).value, id) <= Processed(es, id)
  {
    if es != [] {
      var front := es[..|es| - 1];
      LoadProcessed(front, id);
      LoadStep(Run(INIT, front).value, es[|es| - 1], id);
    }
  }

  /** Up to ten events for its key while a call is subscribed never jam it; for a channel not even eleven. */
  lemma FewEventsNeverJam(es: seq<Event>, id: nat)
    requires Run(INIT, es).Some?
    requires Processed(es, id) <= CAPACITY + if IsChannel(Run(INIT, es).value.core, id) then 1 else 0
    ensures !Jammed(Run(INIT, es).value, id)
    ensures Sending(Run(INIT, es).value, id) ==> CanSend(Run(INIT, es).value, id)
  {
    LoadProcessed(es, id);
    if Sending(Run(INIT, es).value, id) { SendsIffNotJammed(es, id); }
  }

  // ----- a run into the jam

  /** The first call still asks the node; so many signals for it are buffered. */
  ghost predicate Asking(s: State, key: Key, n: nat) {
    && s.core.subs == map[key := {0}] && s.core.slots == [Slot(0, key)]
    && s.core.waiters == map[0 := Waiter(0, 1, 1, false, Checking)]
    && s.signals == multiset{}[0 := n] && Unlocked(s)
  }

  lemma ThenRun(es: seq<Event>, s: State, e: Event)
    requires Run(INIT, es) == Some(s) && Enabled(s, e)
    ensures Run(INIT, es + [e]) == Some(Apply(s, e))
  {
    assert (es + [e])[..|es|] == es;
  }

  lemma {:induction false} Asks(key: Key, n: nat) returns (es: seq<Event>, s: State)
    requires n <= CAPACITY
    ensures Run(INIT, es) == Some(s) && Asking(s, key, n)
  {
    if n == 0 {
      assert Run(INIT, []) == Some(INIT);
      ThenRun([], INIT, Subscribe(0, [key]));
      es, s := [] + [Subscribe(0, [key])], Apply(INIT, Subscribe(0, [key]));
      FirstCall(key);
    } else {
      es, s := Asks(key, n - 1);
      ThenRun(es, s, Notify(key));
      es, s := es + [Notify(key)], Apply(s, Notify(key));
      ThenRun(es, s, Send(0));
      es, s := es + [Send(0)], Apply(s, Send(0));
    }
  }

  lemma FirstCall(key: Key)
    ensures Asking(Apply(INIT, Subscribe(0, [key])), key, 0)
  {
    assert [key][..0] == [];
    assert AddAll(map[], [key][..0], 0) == map[];
    var none: set<nat> := {};
    assert none + {0} == {0};
  }

  /**
   It happens: ten online events while a call asks the node, and an eleventh just before the answer "online".
   */
  lemma JamRun(key: Key) returns (es: seq<Event>)
    requires key.Peer?
    ensures Run(INIT, es).Some? && Jammed(Run(INIT, es).value, 0)
  {
    var s: State;
    es, s := Asks(key, CAPACITY);
    ThenRun(es, s, Notify(key));
    es, s := es + [Notify(key)], Apply(s, Notify(key));
    ThenRun(es, s, Check(0, true));
    es, s := es + [Check(0, true)], Apply(s, Check(0, true));
  }

  // ----- a signal for a call that has returned

  /** A forwarding goroutine is about to send on the gathering channel of a call that has closed it. */
  predicate Panics(s: State, id: nat) { id in s.held && id < |s.core.slots| && Is(s.core, s.core.slots[id].call, Done) }

  /** A signal for a channel has not been gathered yet. */
  predicate Loose(s: State, id: nat) { IsChannel(s.core, id) && (id in s.signals || id in s.held) }

  ghost predicate CanPanic(s: State, w: nat) { exists es: seq<Event>, id: nat :: PanicsFor(s, es, id, w) }

  predicate PanicsFor(s: State, es: seq<Event>, id: nat, w: nat) {
    Run(s, es).Some? && Panics(Run(s, es).value, id) && Run(s, es).value.core.slots[id].call == w
  }

  /** The call has returned and none of its signals is left. */
  ghost predicate Over(s: State, w: nat) {
    Is(s.core, w, Done) && forall id: nat :: IdOf(s.core, w, id) ==> !Loose(s, id)
  }

  /** Nothing is sent to a call that has returned, since none of its ids is in the map. */
  lemma NotLoose(s: State, e: Event, w: nat, id: nat)
    requires Inv(s) && Is(s.core, w, Done) && IdOf(s.core, w, id) && !Loose(s, id) && Enabled(s, e)
    ensures !Loose(Apply(s, e), id)
  {
    assert WaiterOk(s.core, w, s.core.waiters[w]) && s.core.slots[id].call == w;
    if e.Send? { assert RestOk(s, e.id); }
    KeepsSlot(s, e, id, w);
  }

  lemma StaysDone(s: State, e: Event, w: nat)
    requires Is(s.core, w, Done) && Enabled(s, e)
    ensures Is(Apply(s, e).core, w, Done)
  {
  }

  lemma StaysOver(s: State, e: Event, w: nat)
    requires Inv(s) && Over(s, w) && Enabled(s, e)
    ensures Over(Apply(s, e), w)
  {
    var t := Apply(s, e);
    StaysDone(s, e, w);
    forall id: nat | IdOf(t.core, w, id) ensures !Loose(t, id) {
      BackIds(s, e, w, id);
      NotLoose(s, e, w, id);
    }
  }

  lemma BackIds(s: State, e: Event, w: nat, id: nat)
    requires Enabled(s, e) && w in s.core.waiters && IdOf(Apply(s, e).core, w, id)
    ensures IdOf(s.core, w, id)
  {
  }

  lemma {:induction false} OverForGood(s: State, es: seq<Event>, w: nat)
    requires Inv(s) && Over(s, w) && Run(s, es).Some?
    ensures Over(Run(s, es).value, w)
  {
    if es != [] {
      OverForGood(s, es[..|es| - 1], w);
      Steps(s, es[..|es| - 1]);
      StaysOver(Run(s, es[..|es| - 1]).value, es[|es| - 1], w);
    }
  }

  lemma LooseEnd(s: State, w: nat, id: nat)
    requires Inv(s) && Is(s.core, w, Done) && IdOf(s.core, w, id) && Loose(s, id)
    ensures CanPanic(s, w)
  {
    assert WaiterOk(s.core, w, s.core.waiters[w]) && s.core.slots[id].call == w;
    if id in s.held {
      assert PanicsFor(s, [], id, w);
    } else {
      RunFirst(s, Pull(id), []);
      assert [Pull(id)] + [] == [Pull(id)];
      assert PanicsFor(s, [Pull(id)], id, w);
    }
  }

  /**
   After any run, when a call for channels is about to close its gathering channel, a later send on the closed channel
   is possible if and only if a signal for it is still in one of its channels or in a forwarding goroutine's hand.
   */
  lemma PanicsIffLoose(es: seq<Event>, w: nat)
    requires Run(INIT, es).Some? && Enabled(Run(INIT, es).value, Return(w))
    ensures var s := Run(INIT, es).value;
            CanPanic(Apply(s, Return(w)), w) <==> exists id: nat :: IdOf(s.core, w, id) && Loose(s, id)
  {
    Safety(es);
    ReturnPanics(Run(INIT, es).value, w);
  }

  lemma ReturnKeeps(s: State, w: nat, id: nat)
    requires Enabled(s, Return(w))
    ensures Loose(Apply(s, Return(w)), id) <==> Loose(s, id)
    ensures IdOf(Apply(s, Return(w)).core, w, id) <==> IdOf(s.core, w, id)
  {
  }

  lemma ReturnPanics(s: State, w: nat)
    requires Inv(s) && Enabled(s, Return(w))
    ensures CanPanic(Apply(s, Return(w)), w) <==> exists id: nat :: IdOf(s.core, w, id) && Loose(s, id)
  {
    var t := Apply(s, Return(w));
    Step(s, Return(w));
    if id: nat :| IdOf(s.core, w, id) && Loose(s, id) {
      ReturnKeeps(s, w, id);
      LooseEnd(t, w, id);
    } else {
      forall id: nat | IdOf(t.core, w, id) ensures !Loose(t, id) { ReturnKeeps(s, w, id); }
      NeverPanics(t, w);
    }
  }

  lemma NeverPanics(s: State, w: nat)
    requires Inv(s) && Over(s, w)
    ensures !CanPanic(s, w)
  {
    forall es: seq<Event>, id: nat ensures !PanicsFor(s, es, id, w) {
      if Run(s, es).Some? {
        OverForGood(s, es, w);
        Steps(s, es);
        NoPanic(Run(s, es).value, w, id);
      }
    }
  }

  lemma NoPanic(s: State, w: nat, id: nat)
    requires Inv(s) && Over(s, w)
    ensures !(Panics(s, id) && s.core.slots[id].call == w)
  {
    if id < |s.core.slots| && s.core.slots[id].call == w {
      assert SlotIn(s.core, id) && !Loose(s, id);
    }
  }

  /** It happens: a channel becomes active while a call asks the node, and the answer is that it is active. */
  lemma LooseRun(key: Key) returns (es: seq<Event>)
    requires key.Channel?
    ensures Run(INIT, es).Some? && Enabled(Run(INIT, es).value, Return(0))
    ensures IdOf(Run(INIT, es).value.core, 0, 0) && Loose(Run(INIT, es).value, 0)
  {
    var s: State;
    es, s := Asks(key, 1);
    ThenRun(es, s, Check(0, true));
    es, s := es + [Check(0, true)], Apply(s, Check(0, true));
    ThenRun(es, s, Unsubscribe(0));
    es, s := es + [Unsubscribe(0)], Apply(s, Unsubscribe(0));
    ThenRun(es, s, Close(0));
    es, s := es + [Close(0)], Apply(s, Close(0));
  }
}
