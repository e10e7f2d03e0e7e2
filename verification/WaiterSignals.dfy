/**
 Where signals go: every signal that a listener sends is buffered, in the hand of a forwarding goroutine, gathered or
 received, and none comes from elsewhere.
 */
module WaiterSignals {
  import opened Base
  import opened Waiters

  /** How often the event occurs. */
  function Times(es: seq<Event>, e: Event): nat {
    if es == [] then 0 else Times(es[..|es| - 1], e) + if es[|es| - 1] == e then 1 else 0
  }

  /** How many signals forwarding goroutines have passed on to a call. */
  function PassedOn(es: seq<Event>, w: nat): nat {
    if es == [] then 0 else
    var front, e := es[..|es| - 1], es[|es| - 1];
    PassedOn(front, w) + if e.Push? && CallOf(front, e.id) == Some(w) then 1 else 0
  }

  /** The call that a subscription belongs to. */
  function CallOf(es: seq<Event>, id: nat): Option<nat> {
    var s := Run(INIT, es);
    if s.Some? && id < |s.value.core.slots| then Some(s.value.core.slots[id].call) else None
  }

  /** A call that waits for a peer. */
  predicate ForPeer(s: State, w: nat) { w in s.core.waiters && IsPeer(s.core, s.core.waiters[w].first) }

  /** How many signals a call has received from what it gathers. */
  function Received(es: seq<Event>, w: nat): nat {
    if es == [] then 0 else
    var front, e := es[..|es| - 1], es[|es| - 1];
    var s := Run(INIT, front);
    Received(front, w) + if e == Wake(w) && s.Some? && !ForPeer(s.value, w) then 1 else 0
  }

  /** How many signals calls have received from a subscribed channel itself. */
  function Taken(es: seq<Event>, id: nat): nat {
    if es == [] then 0 else
    var front, e := es[..|es| - 1], es[|es| - 1];
    var s := Run(INIT, front);
    Taken(front, id) + if s.Some? && Takes(s.value, e, id) then 1 else 0
  }

  predicate Takes(s: State, e: Event, id: nat) {
    e.Wake? && ForPeer(s, e.w) && s.core.waiters[e.w].first == id
  }

  function One(b: bool): nat { if b then 1 else 0 }

  lemma SignalsStep(s: State, e: Event, id: nat)
    requires Enabled(s, e)
    ensures Apply(s, e).signals[id] + One(e == Pull(id)) + One(Takes(s, e, id)) == s.signals[id] + One(e == Send(id))
  {
    match e
    case Send(x) => assert Apply(s, e).signals[id] == s.signals[id] + One(x == id);
    case Pull(x) => assert Apply(s, e).signals[id] == s.signals[id] - One(x == id);
    case _ =>
  }

  lemma HeldStep(s: State, e: Event, id: nat)
    requires Enabled(s, e)
    ensures One(id in Apply(s, e).held) + One(e == Push(id)) == One(id in s.held) + One(e == Pull(id))
  {
  }

  lemma TimesNext(es: seq<Event>, e: Event, x: Event)
    ensures Times(es + [e], x) == Times(es, x) + if e == x then 1 else 0
  {
    assert (es + [e])[..|es|] == es;
  }

  ghost predicate Accounted(s: State, es: seq<Event>, id: nat) {
    && s.signals[id] + Times(es, Pull(id)) + Taken(es, id) == Times(es, Send(id))
    && Times(es, Pull(id)) == Times(es, Push(id)) + if id in s.held then 1 else 0
  }

  lemma ChannelNext(s: State, es: seq<Event>, e: Event, id: nat)
    requires Run(INIT, es) == Some(s) && Enabled(s, e) && Accounted(s, es, id)
    ensures Accounted(Apply(s, e), es + [e], id)
  {
    assert (es + [e])[..|es|] == es;
    TimesNext(es, e, Pull(id));
    TimesNext(es, e, Push(id));
    TimesNext(es, e, Send(id));
    SignalsStep(s, e, id);
    HeldStep(s, e, id);
  }

  lemma GatheredNext(s: State, es: seq<Event>, e: Event, w: nat)
    requires Run(INIT, es) == Some(s) && Enabled(s, e) && s.gathered[w] + Received(es, w) == PassedOn(es, w)
    ensures Apply(s, e).gathered[w] + Received(es + [e], w) == PassedOn(es + [e], w)
  {
    assert (es + [e])[..|es|] == es;
  }

  /**
   In every run, what was sent on a subscribed channel is still in it, was taken by its forwarding goroutine or was
   received by the call; and the goroutine has passed on all that it took, but for one it may have in hand.
   */
  lemma {:induction false} ChannelAccount(es: seq<Event>, id: nat)
    requires Run(INIT, es).Some?
    ensures Accounted(Run(INIT, es).value, es, id)
  {
    if es != [] {
      var front, e := es[..|es| - 1], es[|es| - 1];
      ChannelAccount(front, id);
      assert es == front + [e];
      ChannelNext(Run(INIT, front).value, front, e, id);
    }
  }

  /** In every run, what was passed on to a call is gathered or was received by it, one signal each time it woke up. */
  lemma {:induction false} GatheredAccount(es: seq<Event>, w: nat)
    requires Run(INIT, es).Some?
    ensures Run(INIT, es).value.gathered[w] + Received(es, w) == PassedOn(es, w)
  {
    if es != [] {
      var front, e := es[..|es| - 1], es[|es| - 1];
      GatheredAccount(front, w);
      assert es == front + [e];
      GatheredNext(Run(INIT, front).value, front, e, w);
    }
  }
}
