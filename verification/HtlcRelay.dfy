/**
 The HTLC relay of the CLN plugin as a step system.  Every mutex-protected region, channel operation and
 timer of the goroutines in the gRPC server is one event; the environment decides which `Send` and `Recv`
 calls fail, when streams end, what clients answer and how the (monotone) clock advances.
 */
module HtlcRelay {
  import opened Base

  type Id = string
  type StreamId = nat
  type ChanId = nat

  /** Capacity of both queues. */
  const QUEUE_SIZE := 10000

  datatype Msg = Msg(id: Id, deadline: int)

  /** Where the goroutine that reads the send queue is. */
  datatype Handler =
    | Ready
    | Looking(msg: Msg)
    | Waiting(msg: Msg, ns: ChanId)
    | Expired(msg: Msg)
    | Sending(msg: Msg, stream: StreamId)

  /** Where the goroutine that collects the client's answers is. */
  datatype Listener =
    | Polling
    | Awaiting(ns: ChanId, oldest: Option<Msg>)
    | Receiving(stream: StreamId)
    | Delivering(id: Id)

  /** Where the caller of `ReceiveHtlcResolution` is. */
  datatype Consumer = Blocked | Deleting(id: Id)

  /**
   The first three rows are the server's fields, the next one the goroutines' positions and clock; the last
   row is history: arrival numbers, ids handed back to CLN, `HtlcStream` calls between registration and
   removal, and what was sent successfully on every stream ever opened.
   */
  datatype State = State(
    timeout: int, sendQueue: seq<Msg>, recvQueue: seq<Id>,
    inflight: seq<Msg>,
    stream: Option<StreamId>, newSubscriber: ChanId, closed: set<ChanId>,
    handler: Handler, listener: Listener, consumer: Consumer, now: int,
    arrived: map<Id, nat>, count: nat, returned: set<Id>, serving: set<StreamId>, sent: map<StreamId, seq<Id>>)

  datatype Event =
    | Tick(to: int)
    | Arrive(id: Id)
    | HandlerTake | HandlerLook | HandlerWake | HandlerTimeout | HandlerDefault | HandlerSend(ok: bool)
    | Subscribe(stream: StreamId, delivered: nat)
    | EndStream(stream: StreamId)
    | ListenerLook | ListenerWake | ListenerTimeout | ListenerRecv(answer: Option<Id>) | ListenerDeliver
    | ConsumerTake | ConsumerReturn

  function Init(timeout: int, now: int): State {
    State(timeout, [], [], [], None, 0, {}, Ready, Polling, Blocked, now, map[], 0, {}, {}, map[])
  }

  function Ids(ms: seq<Msg>): (ids: seq<Id>)
    ensures |ids| == |ms|
  {
    seq(|ms|, i requires 0 <= i < |ms| => ms[i].id)
  }

  /** `Set` of the ordered map: an existing key keeps its place, a new one goes to the back. */
  function MapSet(q: seq<Msg>, m: Msg): seq<Msg> {
    if q == [] then [m] else if q[0].id == m.id then [m] + q[1..] else [q[0]] + MapSet(q[1..], m)
  }

  /** `Delete` of the ordered map. */
  function MapDelete(q: seq<Msg>, id: Id): seq<Msg> {
    if q == [] then [] else if q[0].id == id then q[1..] else [q[0]] + MapDelete(q[1..], id)
  }

  /** The deadlines of the first `k` in-flight messages are moved to `deadline`. */
  function Extend(q: seq<Msg>, k: nat, deadline: int): seq<Msg>
    requires k <= |q|
  {
    seq(|q|, i requires 0 <= i < |q| => if i < k then q[i].(deadline := deadline) else q[i])
  }

  predicate Enabled(s: State, e: Event) {
    match e
    case Tick(to) => s.now <= to
    case Arrive(id) => id !in s.arrived && |s.sendQueue| < QUEUE_SIZE
    case HandlerTake => s.handler.Ready? && s.sendQueue != []
    case HandlerLook => s.handler.Looking?
    case HandlerWake => s.handler.Waiting? && s.handler.ns in s.closed
    case HandlerTimeout => s.handler.Waiting? && s.handler.msg.deadline <= s.now
    case HandlerDefault => s.handler.Expired? && |s.recvQueue| < QUEUE_SIZE
    case HandlerSend(ok) => s.handler.Sending? && s.handler.stream in s.sent
    case Subscribe(st, delivered) =>
      st !in s.sent && delivered <= (if s.stream.None? then |s.inflight| else 0)
    case EndStream(st) => st in s.serving
    case ListenerLook => s.listener.Polling?
    case ListenerWake => s.listener.Awaiting? && s.listener.ns in s.closed
    case ListenerTimeout => s.listener.Awaiting? && s.listener.oldest.Some? && s.listener.oldest.value.deadline <= s.now
    case ListenerRecv(answer) => s.listener.Receiving?
    case ListenerDeliver => s.listener.Delivering? && |s.recvQueue| < QUEUE_SIZE
    case ConsumerTake => s.consumer.Blocked? && s.recvQueue != []
    case ConsumerReturn => s.consumer.Deleting?
  }

  /** A subscription request of which `k` replayed messages got through. */
  function Subscribed(s: State, st: StreamId, k: nat): State
    requires k <= |s.inflight|
  {
    var log := s.sent[st := Ids(s.inflight[..k])];
    if s.stream.Some? then s.(sent := log)
    else
      var replayed := s.(sent := log, inflight := Extend(s.inflight, k, s.now + s.timeout));
      if k < |s.inflight| then replayed
      else replayed.(stream := Some(st), serving := s.serving + {st},
                     closed := s.closed + {s.newSubscriber}, newSubscriber := s.newSubscriber + 1)
  }

  function Apply(s: State, e: Event): State
    requires Enabled(s, e)
  {
    match e
    case Tick(to) => s.(now := to)
    case Arrive(id) =>
      s.(sendQueue := s.sendQueue + [Msg(id, s.now + s.timeout)], arrived := s.arrived[id := s.count],
         count := s.count + 1)
    case HandlerTake => s.(handler := Looking(s.sendQueue[0]), sendQueue := s.sendQueue[1..])
    case HandlerLook =>
      s.(handler := if s.stream.None? then Waiting(s.handler.msg, s.newSubscriber)
                    else Sending(s.handler.msg, s.stream.value))
    case HandlerWake => s.(handler := Looking(s.handler.msg))
    case HandlerTimeout => s.(handler := Expired(s.handler.msg))
    case HandlerDefault => s.(handler := Ready, recvQueue := s.recvQueue + [s.handler.msg.id])
    case HandlerSend(ok) =>
      var m, st := s.handler.msg, s.handler.stream;
      var added := MapSet(s.inflight, m);
      if ok then s.(handler := Ready, inflight := added, sent := s.sent[st := s.sent[st] + [m.id]])
      else s.(handler := Looking(m), inflight := MapDelete(added, m.id))
    case Subscribe(st, k) => Subscribed(s, st, k)
    case EndStream(st) => s.(stream := None, serving := s.serving - {st})
    case ListenerLook =>
      s.(listener := if s.stream.Some? then Receiving(s.stream.value)
                     else Awaiting(s.newSubscriber, if s.inflight == [] then None else Some(s.inflight[0])))
    case ListenerWake => s.(listener := Polling)
    case ListenerTimeout => s.(listener := Delivering(s.listener.oldest.value.id))
    case ListenerRecv(answer) => s.(listener := if answer.None? then Polling else Delivering(answer.value))
    case ListenerDeliver => s.(listener := Polling, recvQueue := s.recvQueue + [s.listener.id])
    case ConsumerTake => s.(consumer := Deleting(s.recvQueue[0]), recvQueue := s.recvQueue[1..])
    case ConsumerReturn =>
      s.(consumer := Blocked, inflight := MapDelete(s.inflight, s.consumer.id),
         returned := s.returned + {s.consumer.id})
  }

  /** The state after a run of events, or `None` if some event was not possible when it was due. */
  function Exec(s: State, es: seq<Event>): Option<State> {
    if es == [] then Some(s) else
    var before := Exec(s, es[..|es| - 1]);
    var e := es[|es| - 1];
    if before.Some? && Enabled(before.value, e) then Some(Apply(before.value, e)) else None
  }

  // ----- the invariant

  function Held(h: Handler): seq<Id> {
    if h.Ready? then [] else [h.msg.id]
  }

  /** What has arrived and was never offered to a client. */
  function Pending(s: State): seq<Id> { Held(s.handler) + Ids(s.sendQueue) }

  ghost predicate Ordered(arrived: map<Id, nat>, ids: seq<Id>) {
    && (forall i :: 0 <= i < |ids| ==> ids[i] in arrived)
    && (forall i, j :: 0 <= i < j < |ids| ==> arrived[ids[i]] < arrived[ids[j]])
  }

  ghost predicate AllBefore(arrived: map<Id, nat>, a: seq<Id>, b: seq<Id>) {
    forall x, y :: x in a && y in b && x in arrived && y in arrived ==> arrived[x] < arrived[y]
  }

  /** The order part of the invariant over what it depends on: in-flight ids, pending ids and the streams' logs. */
  ghost predicate Lined(arrived: map<Id, nat>, count: nat, inflight: seq<Id>, pending: seq<Id>,
                        sent: map<StreamId, seq<Id>>)
  {
    && (forall id :: id in arrived ==> arrived[id] < count)
    && Ordered(arrived, inflight) && Ordered(arrived, pending) && AllBefore(arrived, inflight, pending)
    && (forall st :: st in sent ==> Ordered(arrived, sent[st]) && AllBefore(arrived, sent[st], pending))
  }

  ghost predicate InOrder(s: State) {
    Lined(s.arrived, s.count, Ids(s.inflight), Pending(s), s.sent)
  }

  ghost predicate Somewhere(s: State, id: Id) {
    || id in s.returned
    || id in Pending(s)
    || id in Ids(s.inflight)
    || id in s.recvQueue
    || s.consumer == Deleting(id)
  }

  ghost predicate NothingLost(s: State) {
    forall id :: id in s.arrived ==> Somewhere(s, id)
  }

  ghost predicate OneSubscriber(s: State) {
    && s.serving == (if s.stream.Some? then {s.stream.value} else {})
    && (forall st :: st in s.serving ==> st in s.sent)
    && (s.handler.Sending? ==> s.handler.stream in s.sent)
  }

  ghost predicate Captured(s: State, ns: ChanId) {
    && (ns == s.newSubscriber || ns in s.closed)
    && (s.stream.Some? ==> ns in s.closed)
  }

  ghost predicate Wakeups(s: State) {
    && (forall c :: c in s.closed ==> c < s.newSubscriber)
    && (s.handler.Waiting? ==> Captured(s, s.handler.ns))
    && (s.listener.Awaiting? ==> Captured(s, s.listener.ns))
  }

  ghost predicate Inv(s: State) {
    InOrder(s) && NothingLost(s) && OneSubscriber(s) && Wakeups(s)
  }

  // ----- ordered map facts

  lemma {:induction false} SetNew(q: seq<Msg>, m: Msg)
    requires m.id !in Ids(q)
    ensures MapSet(q, m) == q + [m]
  {
    if q != [] {
      assert Ids(q)[0] == q[0].id;
      assert forall i :: 0 <= i < |q[1..]| ==> Ids(q[1..])[i] == Ids(q)[i + 1];
      SetNew(q[1..], m);
    }
  }

  /** `MapDelete` removes one position, the first that holds the key, or nothing. */
  lemma {:induction false} DeleteAt(q: seq<Msg>, id: Id) returns (k: nat)
    ensures k <= |q| && (forall i :: 0 <= i < k ==> q[i].id != id)
    ensures if k == |q| then MapDelete(q, id) == q else q[k].id == id && MapDelete(q, id) == q[..k] + q[k + 1..]
  {
    if q == [] || q[0].id == id {
      k := 0;
    } else {
      var k' := DeleteAt(q[1..], id);
      k := k' + 1;
      assert q == [q[0]] + q[1..];
    }
  }

  lemma DropOrdered(arrived: map<Id, nat>, ids: seq<Id>, k: nat)
    requires Ordered(arrived, ids) && k < |ids|
    ensures Ordered(arrived, ids[..k] + ids[k + 1..])
    ensures forall x :: x in ids && x != ids[k] ==> x in ids[..k] + ids[k + 1..]
  {
    var rest := ids[..k] + ids[k + 1..];
    assert ids == ids[..k] + [ids[k]] + ids[k + 1..];
    assert forall i :: k <= i < |rest| ==> rest[i] == ids[i + 1];
  }

  /** Deleting keeps the order of the rest and loses nothing but the key. */
  lemma DeleteKeeps(arrived: map<Id, nat>, q: seq<Msg>, id: Id)
    requires Ordered(arrived, Ids(q))
    ensures Ordered(arrived, Ids(MapDelete(q, id)))
    ensures forall x :: x in Ids(MapDelete(q, id)) ==> x in Ids(q)
    ensures forall x :: x in Ids(q) && x != id ==> x in Ids(MapDelete(q, id))
  {
    var k := DeleteAt(q, id);
    if k < |q| {
      DropOrdered(arrived, Ids(q), k);
      assert Ids(MapDelete(q, id)) == Ids(q)[..k] + Ids(q)[k + 1..];
    }
  }

  /** A deleted key is gone: arrival order leaves no second copy. */
  lemma DeleteGone(arrived: map<Id, nat>, q: seq<Msg>, id: Id)
    requires Ordered(arrived, Ids(q))
    ensures id !in Ids(MapDelete(q, id))
  {
    var k := DeleteAt(q, id);
    if k < |q| {
      var ids := Ids(q);
      assert forall i :: 0 <= i < |q| && i != k ==> ids[i] != ids[k];
      assert Ids(MapDelete(q, id)) == ids[..k] + ids[k + 1..];
    } else {
      assert forall i :: 0 <= i < |q| ==> Ids(q)[i] == q[i].id;
    }
  }

  lemma DeleteLast(q: seq<Msg>, m: Msg)
    requires m.id !in Ids(q)
    ensures MapDelete(q + [m], m.id) == q
  {
    var k := DeleteAt(q + [m], m.id);
    assert forall i :: 0 <= i < |q| ==> (q + [m])[i].id == Ids(q)[i];
    assert (q + [m])[|q|] == m;
    assert q + [m][1..] == q == (q + [m])[..|q|];
  }

  // ----- every step keeps the invariant

  lemma LinedArrive(arrived: map<Id, nat>, count: nat, inflight: seq<Id>, pending: seq<Id>,
                    sent: map<StreamId, seq<Id>>, id: Id)
    requires Lined(arrived, count, inflight, pending, sent) && id !in arrived
    ensures Lined(arrived[id := count], count + 1, inflight, pending + [id], sent)
  {
  }

  lemma HeadFirst(arrived: map<Id, nat>, pending: seq<Id>)
    requires Ordered(arrived, pending) && pending != []
    ensures Ordered(arrived, pending[1..]) && AllBefore(arrived, [pending[0]], pending[1..])
  {
    forall y | y in pending[1..] ensures arrived[pending[0]] < arrived[y] {
      var j :| 0 <= j < |pending[1..]| && pending[1..][j] == y;
      assert pending[j + 1] == y;
    }
  }

  lemma LinedDrop(arrived: map<Id, nat>, count: nat, inflight: seq<Id>, pending: seq<Id>, sent: map<StreamId, seq<Id>>)
    requires Lined(arrived, count, inflight, pending, sent) && pending != []
    ensures Lined(arrived, count, inflight, pending[1..], sent)
  {
    HeadFirst(arrived, pending);
    assert forall y :: y in pending[1..] ==> y in pending;
  }

  lemma LinedHandOff(arrived: map<Id, nat>, count: nat, inflight: seq<Id>, pending: seq<Id>,
                     sent: map<StreamId, seq<Id>>, st: StreamId)
    requires Lined(arrived, count, inflight, pending, sent) && pending != [] && st in sent
    ensures Lined(arrived, count, inflight + [pending[0]], pending[1..], sent[st := sent[st] + [pending[0]]])
  {
    LinedDrop(arrived, count, inflight, pending, sent);
    HeadFirst(arrived, pending);
    assert pending[0] in pending;
  }

  lemma LinedReplay(arrived: map<Id, nat>, count: nat, inflight: seq<Id>, pending: seq<Id>,
                    sent: map<StreamId, seq<Id>>, st: StreamId, k: nat)
    requires Lined(arrived, count, inflight, pending, sent) && k <= |inflight|
    ensures Lined(arrived, count, inflight, pending, sent[st := inflight[..k]])
  {
    assert forall x :: x in inflight[..k] ==> x in inflight;
    assert AllBefore(arrived, inflight[..k], pending);
  }

  lemma ReturnOrder(s: State)
    requires InOrder(s) && s.consumer.Deleting?
    ensures InOrder(Apply(s, ConsumerReturn))
  {
    DeleteKeeps(s.arrived, s.inflight, s.consumer.id);
    assert Pending(Apply(s, ConsumerReturn)) == Pending(s);
  }

  /** The held message is new to the in-flight map, so sending it appends and a failed send is undone. */
  lemma SendEffect(s: State)
    requires InOrder(s) && s.handler.Sending?
    ensures MapSet(s.inflight, s.handler.msg) == s.inflight + [s.handler.msg]
    ensures MapDelete(MapSet(s.inflight, s.handler.msg), s.handler.msg.id) == s.inflight
  {
    var m := s.handler.msg;
    assert Pending(s)[0] == m.id;
    SetNew(s.inflight, m);
    DeleteLast(s.inflight, m);
  }

  /** What is pending is not in flight. */
  lemma PendingNotOpen(s: State, id: Id)
    requires InOrder(s) && id in Pending(s)
    ensures id !in Ids(s.inflight)
  {
    assert id in s.arrived;
  }

  lemma SendOrder(s: State, ok: bool)
    requires InOrder(s) && Enabled(s, HandlerSend(ok))
    ensures InOrder(Apply(s, HandlerSend(ok)))
  {
    SendEffect(s);
    var t := Apply(s, HandlerSend(ok));
    if ok {
      LinedHandOff(s.arrived, s.count, Ids(s.inflight), Pending(s), s.sent, s.handler.stream);
      assert Pending(t) == Pending(s)[1..];
      assert Ids(t.inflight) == Ids(s.inflight) + [Pending(s)[0]];
    } else {
      assert Pending(t) == Pending(s);
    }
  }

  lemma OrderStep(s: State, e: Event)
    requires InOrder(s) && Enabled(s, e)
    ensures InOrder(Apply(s, e))
  {
    var t := Apply(s, e);
    match e
    case Arrive(id) =>
      LinedArrive(s.arrived, s.count, Ids(s.inflight), Pending(s), s.sent, id);
      assert Pending(t) == Pending(s) + [id];
    case HandlerDefault =>
      LinedDrop(s.arrived, s.count, Ids(s.inflight), Pending(s), s.sent);
      assert Pending(t) == Pending(s)[1..];
    case HandlerSend(ok) =>
      SendOrder(s, ok);
    case Subscribe(st, k) =>
      LinedReplay(s.arrived, s.count, Ids(s.inflight), Pending(s), s.sent, st, k);
      assert Ids(t.inflight) == Ids(s.inflight);
      assert Ids(s.inflight[..k]) == Ids(s.inflight)[..k];
    case ConsumerReturn =>
      ReturnOrder(s);
    case _ =>
      assert Pending(t) == Pending(s);
  }

  lemma LostSend(s: State, ok: bool, id: Id)
    requires InOrder(s) && Enabled(s, HandlerSend(ok)) && Somewhere(s, id)
    ensures Somewhere(Apply(s, HandlerSend(ok)), id)
  {
    SendEffect(s);
    var t := Apply(s, HandlerSend(ok));
    assert Pending(s) == [s.handler.msg.id] + Ids(s.sendQueue);
    assert ok ==> Ids(t.inflight) == Ids(s.inflight) + [s.handler.msg.id];
  }

  lemma LostReturn(s: State, id: Id)
    requires InOrder(s) && s.consumer.Deleting? && Somewhere(s, id)
    ensures Somewhere(Apply(s, ConsumerReturn), id)
  {
    DeleteKeeps(s.arrived, s.inflight, s.consumer.id);
  }

  lemma LostOne(s: State, e: Event, id: Id)
    requires InOrder(s) && Enabled(s, e) && Somewhere(s, id)
    ensures Somewhere(Apply(s, e), id)
  {
    var t := Apply(s, e);
    match e
    case Arrive(added) =>
      assert Pending(t) == Pending(s) + [added];
    case HandlerDefault =>
      assert Pending(s) == [s.handler.msg.id] + Pending(t);
    case HandlerSend(ok) =>
      LostSend(s, ok, id);
    case Subscribe(st, k) =>
      assert Ids(t.inflight) == Ids(s.inflight);
    case ConsumerReturn =>
      LostReturn(s, id);
    case _ =>
      assert Pending(t) == Pending(s);
  }

  lemma LostStep(s: State, e: Event)
    requires InOrder(s) && NothingLost(s) && Enabled(s, e)
    ensures NothingLost(Apply(s, e))
  {
    forall id | id in Apply(s, e).arrived ensures Somewhere(Apply(s, e), id) {
      if id in s.arrived {
        LostOne(s, e, id);
      } else {
        assert Pending(Apply(s, e)) == Pending(s) + [id];
      }
    }
  }

  lemma Step(s: State, e: Event)
    requires Inv(s) && Enabled(s, e)
    ensures Inv(Apply(s, e))
  {
    OrderStep(s, e);
    LostStep(s, e);
    assert OneSubscriber(Apply(s, e));
    assert Wakeups(Apply(s, e));
  }

  lemma {:induction false} Safety(timeout: int, now: int, es: seq<Event>)
    ensures var r := Exec(Init(timeout, now), es); r.Some? ==> Inv(r.value)
  {
    if es != [] {
      Safety(timeout, now, es[..|es| - 1]);
      var before := Exec(Init(timeout, now), es[..|es| - 1]);
      if before.Some? && Enabled(before.value, es[|es| - 1]) {
        Step(before.value, es[|es| - 1]);
      }
    }
  }

  // ----- what holds after every run

  lemma NumbersBelowCount(timeout: int, now: int, es: seq<Event>)
    requires Exec(Init(timeout, now), es).Some?
    ensures var s := Exec(Init(timeout, now), es).value; forall id :: id in s.arrived ==> s.arrived[id] < s.count
  {
    Safety(timeout, now, es);
  }

  /** Arrival numbers are the order of the `SendHtlcAccepted` calls. */
  lemma {:induction false} ArrivalOrder(timeout: int, now: int, es: seq<Event>, i: nat, j: nat)
    requires Exec(Init(timeout, now), es).Some?
    requires i < j < |es| && es[i].Arrive? && es[j].Arrive?
    ensures var s := Exec(Init(timeout, now), es).value;
            es[i].id in s.arrived && es[j].id in s.arrived && s.arrived[es[i].id] < s.arrived[es[j].id]
  {
    var es' := es[..|es| - 1];
    if j < |es| - 1 {
      ArrivalOrder(timeout, now, es', i, j);
    } else {
      ArrivedOnce(timeout, now, es', es[i].id);
      NumbersBelowCount(timeout, now, es');
    }
  }

  lemma {:induction false} ArrivedOnce(timeout: int, now: int, es: seq<Event>, id: Id)
    requires Exec(Init(timeout, now), es).Some?
    ensures id in Exec(Init(timeout, now), es).value.arrived <==> Arrive(id) in es
  {
    if es != [] {
      ArrivedOnce(timeout, now, es[..|es| - 1], id);
      assert es == es[..|es| - 1] + [es[|es| - 1]];
    }
  }

  /**
   Every HTLC taken from CLN is answered or still held somewhere, and held in one place before its answer is known.
   */
  lemma NoHtlcLost(timeout: int, now: int, es: seq<Event>, id: Id)
    requires Exec(Init(timeout, now), es).Some? && Arrive(id) in es
    ensures var s := Exec(Init(timeout, now), es).value;
            || id in s.returned || s.consumer == Deleting(id) || id in s.recvQueue
            || id in Ids(s.sendQueue) || id in Held(s.handler) || id in Ids(s.inflight)
    ensures var s := Exec(Init(timeout, now), es).value;
            var line := Ids(s.inflight) + Held(s.handler) + Ids(s.sendQueue);
            forall i, j :: 0 <= i < j < |line| ==> line[i] != line[j]
  {
    Safety(timeout, now, es);
    ArrivedOnce(timeout, now, es, id);
    var s := Exec(Init(timeout, now), es).value;
    assert Somewhere(s, id);
    InOrderLine(s);
  }

  /** In-flight map, held message and send queue together list arrivals in their order. */
  lemma InOrderLine(s: State)
    requires InOrder(s)
    ensures Ordered(s.arrived, Ids(s.inflight) + Held(s.handler) + Ids(s.sendQueue))
  {
    var a, b := Ids(s.inflight), Pending(s);
    assert a + Held(s.handler) + Ids(s.sendQueue) == a + b;
  }

  /** On every stream ever opened, replay and live sends reach the client in arrival order, each id once. */
  lemma StreamsInOrder(timeout: int, now: int, es: seq<Event>, st: StreamId)
    requires Exec(Init(timeout, now), es).Some? && st in Exec(Init(timeout, now), es).value.sent
    ensures var s := Exec(Init(timeout, now), es).value; Ordered(s.arrived, s.sent[st])
  {
    Safety(timeout, now, es);
  }

  /** The end of a registered stream removes that stream and no other; a second one is never registered. */
  lemma StreamEndsItself(timeout: int, now: int, es: seq<Event>, st: StreamId)
    requires Exec(Init(timeout, now), es).Some? && st in Exec(Init(timeout, now), es).value.serving
    ensures var s := Exec(Init(timeout, now), es).value;
            s.stream == Some(st) && s.serving == {st} && Apply(s, EndStream(st)).serving == {}
  {
    Safety(timeout, now, es);
  }

  /** No waiter sleeps through a registered subscriber, and no channel is closed twice. */
  lemma NoMissedSubscriber(timeout: int, now: int, es: seq<Event>)
    requires Exec(Init(timeout, now), es).Some?
    ensures var s := Exec(Init(timeout, now), es).value;
            && s.newSubscriber !in s.closed
            && (s.stream.Some? && s.handler.Waiting? ==> Enabled(s, HandlerWake))
            && (s.stream.Some? && s.listener.Awaiting? ==> Enabled(s, ListenerWake))
            && (s.handler.Waiting? ==> s.handler.ns == s.newSubscriber || s.handler.ns in s.closed)
            && (s.listener.Awaiting? ==> s.listener.ns == s.newSubscriber || s.listener.ns in s.closed)
  {
    Safety(timeout, now, es);
  }
}
