/**
 Where answers come from and when: what is put on the receive queue, in which order, and how long an HTLC is kept for a
 subscriber before it is answered by default.  Everything is said on the events of a run and their positions.
 */
module RelayAnswers {
  import opened Base
  import opened HtlcRelay

  // ----- what the events say

  function Number(es: seq<Event>, e: Event): nat {
    if es == [] then 0 else Number(es[..|es| - 1], e) + if es[|es| - 1] == e then 1 else 0
  }

  /** The ids in the order CLN handed them in. */
  function Arrivals(es: seq<Event>): seq<Id> {
    if es == [] then [] else
    var front, e := Arrivals(es[..|es| - 1]), es[|es| - 1];
    if e.Arrive? then front + [e.id] else front
  }

  /** The id that was taken from the send queue last: the n-th one taken is the n-th that arrived. */
  function LastTaken(es: seq<Event>): seq<Id> {
    var n := Number(es, HandlerTake);
    if 0 < n <= |Arrivals(es)| then [Arrivals(es)[n - 1]] else []
  }

  /** The id at the head of the in-flight map when the listener looked last. */
  function LastOldest(s: State, es: seq<Event>): seq<Id> {
    if es == [] then [] else
    var front, e := es[..|es| - 1], es[|es| - 1];
    if !e.ListenerLook? then LastOldest(s, front)
    else if Exec(s, front).Some? && Exec(s, front).value.inflight != [] then [Exec(s, front).value.inflight[0].id]
    else []
  }

  /** The ids that timed out in the handler's hand, in order. */
  function Expirations(es: seq<Event>): seq<Id> {
    if es == [] then [] else
    var front, e := es[..|es| - 1], es[|es| - 1];
    Expirations(front) + if e.HandlerTimeout? then LastTaken(front) else []
  }

  /** The ids that clients answered and those that timed out in flight, in order. */
  function Resolutions(s: State, es: seq<Event>): seq<Id> {
    if es == [] then [] else
    var front, e := es[..|es| - 1], es[|es| - 1];
    Resolutions(s, front) +
    match e
    case ListenerRecv(Some(id)) => [id]
    case ListenerTimeout => LastOldest(s, front)
    case _ => []
  }

  /**
   What is put on the receive queue: the n-th delivery of the listener is the n-th resolution, the n-th of the handler
   the n-th expiration.
   */
  function Queued(s: State, es: seq<Event>): seq<Id> {
    if es == [] then [] else
    var front, e := es[..|es| - 1], es[|es| - 1];
    Queued(s, front) +
    match e
    case ListenerDeliver => At(Resolutions(s, front), Number(front, e))
    case HandlerDefault => At(Expirations(front), Number(front, e))
    case _ => []
  }

  function At(ids: seq<Id>, n: nat): seq<Id> { if n < |ids| then [ids[n]] else [] }

  // ----- and what the relay does

  ghost predicate HandlerFlow(es: seq<Event>, t: State) {
    var n, a := Number(es, HandlerTake), Arrivals(es);
    && n <= |a| && Ids(t.sendQueue) == a[n..]
    && (!t.handler.Ready? ==> LastTaken(es) == [t.handler.msg.id])
    && |Expirations(es)| == Number(es, HandlerDefault) + (if t.handler.Expired? then 1 else 0)
    && (t.handler.Expired? ==> At(Expirations(es), Number(es, HandlerDefault)) == [t.handler.msg.id])
  }

  ghost predicate ListenerFlow(s: State, es: seq<Event>, t: State) {
    var n, r := Number(es, ListenerDeliver), Resolutions(s, es);
    && (t.listener.Awaiting? ==>
          LastOldest(s, es) == if t.listener.oldest.None? then [] else [t.listener.oldest.value.id])
    && |r| == n + (if t.listener.Delivering? then 1 else 0)
    && (t.listener.Delivering? ==> At(r, n) == [t.listener.id])
  }

  function Elements(ids: seq<Id>): set<Id> { set id | id in ids }

  /** A queue through which `q` went: `done` were taken and returned, one may be in hand, the rest is still there. */
  ghost predicate Fifo(q: seq<Id>, taken: nat, done: nat, queue: seq<Id>, hand: Consumer, returned: set<Id>) {
    && taken <= |q| && queue == q[taken..]
    && taken == done + (if hand.Deleting? then 1 else 0)
    && (hand.Deleting? ==> hand.id == q[done])
    && returned == Elements(q[..done])
  }

  lemma FifoPut(q: seq<Id>, x: seq<Id>, taken: nat, done: nat, queue: seq<Id>, hand: Consumer, returned: set<Id>)
    requires Fifo(q, taken, done, queue, hand, returned)
    ensures Fifo(q + x, taken, done, queue + x, hand, returned)
  {
    assert (q + x)[..done] == q[..done];
  }

  lemma FifoTake(q: seq<Id>, taken: nat, done: nat, queue: seq<Id>, returned: set<Id>)
    requires Fifo(q, taken, done, queue, Blocked, returned) && queue != []
    ensures Fifo(q, taken + 1, done, queue[1..], Deleting(queue[0]), returned)
  {
  }

  lemma FifoReturn(q: seq<Id>, taken: nat, done: nat, queue: seq<Id>, id: Id, returned: set<Id>)
    requires Fifo(q, taken, done, queue, Deleting(id), returned)
    ensures Fifo(q, taken, done + 1, queue, Blocked, returned + {id})
  {
    assert q[..done + 1] == q[..done] + [id];
  }

  /** The receive queue is first in, first out, and what is returned is what was taken from it. */
  ghost predicate QueueFlow(s: State, es: seq<Event>, t: State) {
    Fifo(Queued(s, es), Number(es, ConsumerTake), Number(es, ConsumerReturn), t.recvQueue, t.consumer, t.returned)
  }

  lemma NumberStep(es: seq<Event>, e: Event, x: Event)
    ensures Number(es + [e], x) == Number(es, x) + if x == e then 1 else 0
  {
    assert (es + [e])[..|es|] == es;
  }

  lemma HandlerFlowStep(es: seq<Event>, e: Event, t: State)
    requires HandlerFlow(es, t) && Enabled(t, e)
    ensures HandlerFlow(es + [e], Apply(t, e))
  {
    assert (es + [e])[..|es|] == es;
    var u := Apply(t, e);
    if e.Arrive? {
      assert Ids(u.sendQueue) == Ids(t.sendQueue) + [e.id];
    }
    if e.HandlerTake? {
      assert Ids(u.sendQueue) == Ids(t.sendQueue)[1..];
      assert t.sendQueue[0].id == Ids(t.sendQueue)[0];
    }
  }

  lemma ListenerFlowStep(s: State, es: seq<Event>, e: Event, t: State)
    requires Exec(s, es) == Some(t) && ListenerFlow(s, es, t) && Enabled(t, e)
    ensures ListenerFlow(s, es + [e], Apply(t, e))
  {
    assert (es + [e])[..|es|] == es;
  }

  /** What a step puts on the receive queue. */
  function Put(t: State, e: Event): seq<Id>
    requires Enabled(t, e)
  {
    if e.ListenerDeliver? then [t.listener.id] else if e.HandlerDefault? then [t.handler.msg.id] else []
  }

  lemma QueuedStep(s: State, es: seq<Event>, e: Event, t: State)
    requires HandlerFlow(es, t) && ListenerFlow(s, es, t) && Enabled(t, e)
    ensures Queued(s, es + [e]) == Queued(s, es) + Put(t, e)
  {
    assert (es + [e])[..|es|] == es;
  }

  lemma QueueFlowStep(s: State, es: seq<Event>, e: Event, t: State)
    requires QueueFlow(s, es, t) && Enabled(t, e) && Queued(s, es + [e]) == Queued(s, es) + Put(t, e)
    ensures QueueFlow(s, es + [e], Apply(t, e))
  {
    var q, taken, done := Queued(s, es), Number(es, ConsumerTake), Number(es, ConsumerReturn);
    NumberStep(es, e, ConsumerTake);
    NumberStep(es, e, ConsumerReturn);
    assert Put(t, e) == [] ==> q + Put(t, e) == q;
    if e.ConsumerTake? {
      FifoTake(q, taken, done, t.recvQueue, t.returned);
    } else if e.ConsumerReturn? {
      FifoReturn(q, taken, done, t.recvQueue, t.consumer.id, t.returned);
    } else {
      FifoPut(q, Put(t, e), taken, done, t.recvQueue, t.consumer, t.returned);
    }
  }

  /**
   After any run: what was put on the receive queue is, delivery by delivery, what clients answered and what timed out;
   what was taken from it is returned in that order, and what is not there yet is in the hand of the listener or
   handler.
   */
  lemma {:induction false} AnswersFlow(timeout: int, now: int, es: seq<Event>)
    requires Exec(Init(timeout, now), es).Some?
    ensures var s, t := Init(timeout, now), Exec(Init(timeout, now), es).value;
            HandlerFlow(es, t) && ListenerFlow(s, es, t) && QueueFlow(s, es, t)
  {
    if es != [] {
      var front, e := es[..|es| - 1], es[|es| - 1];
      var s, t := Init(timeout, now), Exec(Init(timeout, now), front).value;
      AnswersFlow(timeout, now, front);
      assert es == front + [e];
      HandlerFlowStep(front, e, t);
      ListenerFlowStep(s, front, e, t);
      QueuedStep(s, front, e, t);
      QueueFlowStep(s, front, e, t);
    }
  }

  // ----- every answer arrives, and no other

  /** `q` is made of `a` and `b`, each in its order. */
  ghost predicate Interleaved(q: seq<Id>, a: seq<Id>, b: seq<Id>) {
    if q == [] then a == [] && b == [] else
    var front, x := q[..|q| - 1], q[|q| - 1];
    || (a != [] && a[|a| - 1] == x && Interleaved(front, a[..|a| - 1], b))
    || (b != [] && b[|b| - 1] == x && Interleaved(front, a, b[..|b| - 1]))
  }

  lemma {:induction false} InterleavedMembers(q: seq<Id>, a: seq<Id>, b: seq<Id>, id: Id)
    requires Interleaved(q, a, b)
    ensures id in q <==> id in a || id in b
  {
    if q != [] {
      var front := q[..|q| - 1];
      assert q == front + [q[|q| - 1]];
      if a != [] && a[|a| - 1] == q[|q| - 1] && Interleaved(front, a[..|a| - 1], b) {
        InterleavedMembers(front, a[..|a| - 1], b, id);
        assert a == a[..|a| - 1] + [a[|a| - 1]];
      } else {
        InterleavedMembers(front, a, b[..|b| - 1], id);
        assert b == b[..|b| - 1] + [b[|b| - 1]];
      }
    }
  }

  lemma InterleavedPut(q: seq<Id>, a: seq<Id>, b: seq<Id>, x: seq<Id>, y: seq<Id>, q': seq<Id>, a': seq<Id>,
                       b': seq<Id>)
    requires Interleaved(q, a, b) && |x + y| <= 1 && q' == q + (x + y) && a' == a + x && b' == b + y
    ensures Interleaved(q', a', b')
  {
    assert q'[..|q|] == q && a'[..|a|] == a && b'[..|b|] == b;
    assert x + y == [] ==> q' == q;
    assert (x == [] ==> a' == a) && (y == [] ==> b' == b);
  }

  /** The resolutions and the expirations that were delivered. */
  function FromListener(s: State, es: seq<Event>): seq<Id> {
    var n, r := Number(es, ListenerDeliver), Resolutions(s, es);
    if n <= |r| then r[..n] else r
  }

  function FromHandler(es: seq<Event>): seq<Id> {
    var n, r := Number(es, HandlerDefault), Expirations(es);
    if n <= |r| then r[..n] else r
  }

  lemma ListenerPart(s: State, es: seq<Event>, e: Event, t: State)
    requires ListenerFlow(s, es, t) && Enabled(t, e)
    ensures FromListener(s, es + [e]) == FromListener(s, es) + if e.ListenerDeliver? then [t.listener.id] else []
  {
    assert (es + [e])[..|es|] == es;
  }

  lemma HandlerPart(es: seq<Event>, e: Event, t: State)
    requires HandlerFlow(es, t) && Enabled(t, e)
    ensures FromHandler(es + [e]) == FromHandler(es) + if e.HandlerDefault? then [t.handler.msg.id] else []
  {
    assert (es + [e])[..|es|] == es;
  }

  lemma InterleavesStep(s: State, es: seq<Event>, e: Event, t: State)
    requires HandlerFlow(es, t) && ListenerFlow(s, es, t) && Enabled(t, e)
    requires Interleaved(Queued(s, es), FromListener(s, es), FromHandler(es))
    ensures Interleaved(Queued(s, es + [e]), FromListener(s, es + [e]), FromHandler(es + [e]))
  {
    var x: seq<Id> := if e.ListenerDeliver? then [t.listener.id] else [];
    var y: seq<Id> := if e.HandlerDefault? then [t.handler.msg.id] else [];
    assert Queued(s, es + [e]) == Queued(s, es) + (x + y) by { QueuedStep(s, es, e, t); }
    assert FromListener(s, es + [e]) == FromListener(s, es) + x by { ListenerPart(s, es, e, t); }
    assert FromHandler(es + [e]) == FromHandler(es) + y by { HandlerPart(es, e, t); }
    InterleavedPut(Queued(s, es), FromListener(s, es), FromHandler(es), x, y,
                   Queued(s, es + [e]), FromListener(s, es + [e]), FromHandler(es + [e]));
  }

  /** What is put on the receive queue is what listener and handler deliver, each in its order. */
  lemma {:induction false} QueuedInterleaves(timeout: int, now: int, es: seq<Event>)
    requires Exec(Init(timeout, now), es).Some?
    ensures Interleaved(Queued(Init(timeout, now), es), FromListener(Init(timeout, now), es), FromHandler(es))
  {
    if es != [] {
      var front, e := es[..|es| - 1], es[|es| - 1];
      var s, t := Init(timeout, now), Exec(Init(timeout, now), front).value;
      QueuedInterleaves(timeout, now, front);
      AnswersFlow(timeout, now, front);
      assert es == front + [e];
      InterleavesStep(s, front, e, t);
    }
  }

  /** The event at `k` settles the answer for an id: a client sent it, or the id timed out in flight or in hand. */
  ghost predicate SettledAt(s: State, es: seq<Event>, k: nat, id: Id)
    requires k < |es|
  {
    match es[k]
    case ListenerRecv(answer) => answer == Some(id)
    case ListenerTimeout => LastOldest(s, es[..k]) == [id]
    case HandlerTimeout => LastTaken(es[..k]) == [id]
    case _ => false
  }

  ghost predicate Settled(s: State, es: seq<Event>, id: Id) { exists k :: 0 <= k < |es| && SettledAt(s, es, k, id) }

  lemma SettledStep(s: State, es: seq<Event>, e: Event, id: Id)
    ensures Settled(s, es + [e], id) <==> Settled(s, es, id) || SettledAt(s, es + [e], |es|, id)
  {
    forall k | 0 <= k < |es| ensures SettledAt(s, es + [e], k, id) <==> SettledAt(s, es, k, id) {
      assert (es + [e])[..k] == es[..k];
    }
  }

  lemma {:induction false} LastOldestOne(s: State, es: seq<Event>)
    ensures |LastOldest(s, es)| <= 1
  {
    if es != [] { LastOldestOne(s, es[..|es| - 1]); }
  }

  lemma ListedStep(s: State, es: seq<Event>, e: Event, id: Id)
    ensures var a := es + [e];
            id in Resolutions(s, a) || id in Expirations(a) <==>
            id in Resolutions(s, es) || id in Expirations(es) || SettledAt(s, a, |es|, id)
  {
    assert (es + [e])[..|es|] == es;
    LastOldestOne(s, es);
  }

  lemma {:induction false} SettledIsListed(s: State, es: seq<Event>, id: Id)
    ensures Settled(s, es, id) <==> id in Resolutions(s, es) || id in Expirations(es)
  {
    if es != [] {
      var front, e := es[..|es| - 1], es[|es| - 1];
      assert es == front + [e];
      SettledIsListed(s, front, id);
      SettledStep(s, front, e, id);
      ListedStep(s, front, e, id);
    }
  }

  /** The answer for the id is known and on its way to CLN, or CLN has it. */
  ghost predicate OnItsWay(t: State, id: Id) {
    || t.listener == Delivering(id) || (t.handler.Expired? && t.handler.msg.id == id)
    || id in t.recvQueue || t.consumer == Deleting(id) || id in t.returned
  }

  lemma FifoMembers(q: seq<Id>, taken: nat, done: nat, queue: seq<Id>, hand: Consumer, returned: set<Id>, id: Id)
    requires Fifo(q, taken, done, queue, hand, returned)
    ensures id in q <==> id in queue || hand == Deleting(id) || id in returned
  {
    assert q == q[..done] + q[done..taken] + q[taken..];
    assert q[done..taken] == if hand.Deleting? then [hand.id] else [];
  }

  lemma LastOne(ids: seq<Id>, n: nat, id: Id)
    requires n <= |ids| <= n + 1
    ensures id in ids <==> id in ids[..n] || At(ids, n) == [id]
  {
    assert ids == ids[..n] + ids[n..];
  }

  /**
   After any run, the answer for an id is on its way or with CLN if and only if a client has sent one or the id has
   timed out: no client's answer is dropped, and nothing is returned that nobody answered.
   */
  lemma AnsweredIff(timeout: int, now: int, es: seq<Event>, id: Id)
    requires Exec(Init(timeout, now), es).Some?
    ensures OnItsWay(Exec(Init(timeout, now), es).value, id) <==> Settled(Init(timeout, now), es, id)
  {
    var s, t := Init(timeout, now), Exec(Init(timeout, now), es).value;
    AnswersFlow(timeout, now, es);
    QueuedInterleaves(timeout, now, es);
    InterleavedMembers(Queued(s, es), FromListener(s, es), FromHandler(es), id);
    FifoMembers(Queued(s, es), Number(es, ConsumerTake), Number(es, ConsumerReturn), t.recvQueue, t.consumer,
                t.returned, id);
    LastOne(Resolutions(s, es), Number(es, ListenerDeliver), id);
    LastOne(Expirations(es), Number(es, HandlerDefault), id);
    SettledIsListed(s, es, id);
  }

  /** In particular every answer that a client sends reaches CLN, or is on its way there. */
  lemma ClientAnswered(timeout: int, now: int, es: seq<Event>, id: Id)
    requires Exec(Init(timeout, now), es).Some? && ListenerRecv(Some(id)) in es
    ensures OnItsWay(Exec(Init(timeout, now), es).value, id)
  {
    var k :| 0 <= k < |es| && es[k] == ListenerRecv(Some(id));
    assert SettledAt(Init(timeout, now), es, k, id);
    AnsweredIff(timeout, now, es, id);
  }
}
