/**
 The gRPC server object of the CLN plugin.  Each method is one atomic region of a goroutine and is proved to
 take the relay from its old state to the state that the corresponding event of `HtlcRelay` gives.
 */
module RelayServer {
  import opened Base
  import opened HtlcRelay

  class Server {
    const subscriberTimeout: int
    var sendQueue: seq<Msg>
    var recvQueue: seq<Id>
    var inflight: seq<Msg>
    var stream: Option<StreamId>
    var newSubscriber: ChanId
    var closed: set<ChanId>
    var handler: Handler
    var listener: Listener
    var consumer: Consumer
    var now: int
    ghost var arrived: map<Id, nat>
    ghost var count: nat
    ghost var returned: set<Id>
    ghost var serving: set<StreamId>
    ghost var sent: map<StreamId, seq<Id>>

    ghost function View(): State
      reads this
    {
      State(subscriberTimeout, sendQueue, recvQueue, inflight, stream, newSubscriber, closed,
            handler, listener, consumer, now, arrived, count, returned, serving, sent)
    }

    ghost predicate Valid()
      reads this
    {
      Inv(View())
    }

    /** The one-step contract shared by all methods. */
    twostate predicate Did(e: Event)
      reads this
    {
      Enabled(old(View()), e) && View() == Apply(old(View()), e) && Valid()
    }

    constructor (timeout: int, start: int)
      ensures View() == Init(timeout, start) && Valid()
    {
      subscriberTimeout := timeout;
      sendQueue, recvQueue, inflight := [], [], [];
      stream, newSubscriber, closed := None, 0, {};
      handler, listener, consumer, now := Ready, Polling, Blocked, start;
      arrived, count, returned, serving, sent := map[], 0, {}, {}, map[];
    }

    /** Queues a request; CLN's request ids are unique and a full queue blocks the caller. */
    method SendHtlcAccepted(id: Id)
      requires Valid() && id !in arrived && |sendQueue| < QUEUE_SIZE
      modifies this
      ensures Did(Arrive(id)) && sendQueue == old(sendQueue) + [Msg(id, now + subscriberTimeout)]
    {
      Step(View(), Arrive(id));
      sendQueue := sendQueue + [Msg(id, now + subscriberTimeout)];
      arrived, count := arrived[id := count], count + 1;
    }

    /** Sends the in-flight messages oldest first and renews the deadline of each one that got through. */
    method Replay(st: StreamId) returns (delivered: nat)
      modifies `inflight, `sent
      ensures delivered <= |old(inflight)|
      ensures inflight == Extend(old(inflight), delivered, now + subscriberTimeout)
      ensures sent == old(sent)[st := Ids(old(inflight)[..delivered])]
    {
      var newTimeout := now + subscriberTimeout;
      delivered := 0;
      sent := sent[st := []];
      while delivered < |inflight|
        invariant 0 <= delivered <= |inflight| == |old(inflight)|
        invariant inflight == Extend(old(inflight), delivered, newTimeout)
        invariant sent == old(sent)[st := Ids(old(inflight)[..delivered])]
      {
        var sendOk: bool := *;
        if !sendOk {
          return;
        }
        assert Ids(old(inflight)[..delivered + 1]) == Ids(old(inflight)[..delivered]) + [inflight[delivered].id];
        sent := sent[st := sent[st] + [inflight[delivered].id]];
        inflight := inflight[delivered := inflight[delivered].(deadline := newTimeout)];
        delivered := delivered + 1;
      }
    }

    /**
     Stores the stream; the channel that is closed was open, whoever waits holds a closed one, and the new one is open.
     */
    method Register(st: StreamId)
      requires Wakeups(View())
      modifies `stream, `serving, `closed, `newSubscriber
      ensures old(newSubscriber) !in old(closed) && newSubscriber !in closed
      ensures (handler.Waiting? ==> handler.ns in closed) && (listener.Awaiting? ==> listener.ns in closed)
      ensures stream == Some(st) && serving == old(serving) + {st}
      ensures closed == old(closed) + {old(newSubscriber)} && newSubscriber == old(newSubscriber) + 1
    {
      stream, serving := Some(st), serving + {st};
      closed := closed + {newSubscriber};
      newSubscriber := newSubscriber + 1;
    }

    method Admit(st: StreamId) returns (delivered: nat)
      requires stream.None? && Wakeups(View())
      modifies this
      ensures delivered <= |old(inflight)| && View() == Subscribed(old(View()), st, delivered)
    {
      delivered := Replay(st);
      if delivered == |inflight| {
        Register(st);
      }
    }

    /** Registers a subscriber unless one is active, replaying the in-flight messages to it first. */
    method NewHtlcStream(st: StreamId) returns (ok: bool, delivered: nat)
      requires Valid() && st !in sent
      modifies this
      ensures Did(Subscribe(st, delivered))
      ensures ok <==> old(stream).None? && delivered == |old(inflight)|
    {
      ghost var s := View();
      if stream.Some? {
        sent := sent[st := []];
        ok, delivered := false, 0;
        assert Ids(s.inflight[..0]) == [];
      } else {
        delivered := Admit(st);
        ok := delivered == |inflight|;
      }
      Step(s, Subscribe(st, delivered));
    }

    /** The tail of `HtlcStream`, after the stream's context is done. */
    method RemoveSubscriber(st: StreamId)
      requires Valid() && st in serving
      modifies this
      ensures Did(EndStream(st)) && old(stream) == Some(st) && stream.None?
    {
      Step(View(), EndStream(st));
      stream, serving := None, serving - {st};
    }

    /** Takes the message that arrived before all others in the queue. */
    method TakeRequest()
      requires Valid() && handler.Ready? && sendQueue != []
      modifies this
      ensures Did(HandlerTake) && handler.Looking? && old(sendQueue) == [handler.msg] + sendQueue
      ensures Ordered(arrived, [handler.msg.id] + Ids(sendQueue))
    {
      Step(View(), HandlerTake);
      handler, sendQueue := Looking(sendQueue[0]), sendQueue[1..];
    }

    /** Copies the subscriber and the channel that announces the next one. */
    method LookForSubscriber()
      requires Valid() && handler.Looking?
      modifies this
      ensures Did(HandlerLook)
      ensures if handler.Waiting? then handler.ns !in closed && stream.None?
              else handler.Sending? && serving == {handler.stream}
    {
      Step(View(), HandlerLook);
      if stream.None? {
        handler := Waiting(handler.msg, newSubscriber);
      } else {
        handler := Sending(handler.msg, stream.value);
      }
    }

    /** The wait for a subscriber: both branches may be ready, then either is taken. */
    method AwaitSubscriber() returns (e: Event)
      requires Valid() && (Enabled(View(), HandlerWake) || Enabled(View(), HandlerTimeout))
      modifies this
      ensures e in {HandlerWake, HandlerTimeout} && Did(e) && handler.msg == old(handler.msg)
      ensures e == HandlerTimeout ==> handler.msg.deadline <= now
    {
      var announced := handler.ns in closed;
      var expired := handler.msg.deadline <= now;
      var first: bool := *;
      if announced && (first || !expired) {
        e := HandlerWake;
        Step(View(), e);
        handler := Looking(handler.msg);
      } else {
        e := HandlerTimeout;
        Step(View(), e);
        handler := Expired(handler.msg);
      }
    }

    /** Answers a message that was never offered to a client. */
    method AnswerExpired()
      requires Valid() && handler.Expired? && |recvQueue| < QUEUE_SIZE
      modifies this
      ensures Did(HandlerDefault) && recvQueue == old(recvQueue) + [old(handler.msg.id)]
      ensures old(handler.msg.id) !in Ids(inflight) && forall st :: st in sent ==> old(handler.msg.id) !in sent[st]
    {
      Step(View(), HandlerDefault);
      assert Pending(View())[0] == handler.msg.id && handler.msg.id in arrived;
      PendingNotOpen(View(), handler.msg.id);
      recvQueue := recvQueue + [handler.msg.id];
      handler := Ready;
    }

    /** Adds the message to the in-flight map, sends it, and takes it out again if sending failed. */
    method SendHeld() returns (ok: bool)
      requires Valid() && handler.Sending?
      modifies this
      ensures Did(HandlerSend(ok)) && inflight == if ok then old(inflight) + [old(handler.msg)] else old(inflight)
    {
      ghost var s := View();
      SendEffect(s);
      var msg, target := handler.msg, handler.stream;
      inflight := MapSet(inflight, msg);
      ok := *;
      Step(s, HandlerSend(ok));
      if ok {
        sent := sent[target := sent[target] + [msg.id]];
        handler := Ready;
      } else {
        inflight := MapDelete(inflight, msg.id);
        handler := Looking(msg);
      }
    }

    /** Copies the subscriber, the channel that announces the next one and the oldest message in flight. */
    method LookForAnswers()
      requires Valid() && listener.Polling?
      modifies this
      ensures Did(ListenerLook)
              && (listener.Awaiting? ==> listener.ns !in closed && (listener.oldest.None? <==> inflight == []))
      ensures listener.Awaiting? && listener.oldest.Some? ==>
                inflight != [] && inflight[0] == listener.oldest.value && Ordered(arrived, Ids(inflight))
    {
      Step(View(), ListenerLook);
      var oldest := if inflight == [] then None else Some(inflight[0]);
      listener := if stream.None? then Awaiting(newSubscriber, oldest) else Receiving(stream.value);
    }

    method AwaitAnswers() returns (e: Event)
      requires Valid() && (Enabled(View(), ListenerWake) || Enabled(View(), ListenerTimeout))
      modifies this
      ensures e in {ListenerWake, ListenerTimeout} && Did(e)
      ensures e == ListenerTimeout ==>
                listener == Delivering(old(listener.oldest.value.id)) && old(listener.oldest.value.deadline) <= now
    {
      var announced := listener.ns in closed;
      var expired := listener.oldest.Some? && listener.oldest.value.deadline <= now;
      var first: bool := *;
      if announced && (first || !expired) {
        e := ListenerWake;
        Step(View(), e);
        listener := Polling;
      } else {
        e := ListenerTimeout;
        Step(View(), e);
        listener := Delivering(listener.oldest.value.id);
      }
    }

    /** `Recv` on the captured stream: the client may answer any id, or the call fails. */
    method ReceiveAnswer(answer: Option<Id>)
      requires Valid() && listener.Receiving?
      modifies this
      ensures Did(ListenerRecv(answer))
      ensures if answer.Some? then listener == Delivering(answer.value) else listener.Polling?
    {
      Step(View(), ListenerRecv(answer));
      listener := if answer.None? then Polling else Delivering(answer.value);
    }

    method QueueAnswer()
      requires Valid() && listener.Delivering? && |recvQueue| < QUEUE_SIZE
      modifies this
      ensures Did(ListenerDeliver) && recvQueue == old(recvQueue) + [old(listener.id)]
    {
      Step(View(), ListenerDeliver);
      recvQueue := recvQueue + [listener.id];
      listener := Polling;
    }

    method TakeAnswer()
      requires Valid() && consumer.Blocked? && recvQueue != []
      modifies this
      ensures Did(ConsumerTake) && old(recvQueue) == [consumer.id] + recvQueue
    {
      Step(View(), ConsumerTake);
      consumer, recvQueue := Deleting(recvQueue[0]), recvQueue[1..];
    }

    /** The rest of `ReceiveHtlcResolution`: only here is an HTLC taken out of the in-flight map for good. */
    method ReturnAnswer() returns (id: Id)
      requires Valid() && consumer.Deleting?
      modifies this
      ensures Did(ConsumerReturn) && id in returned && id !in Ids(inflight)
    {
      Step(View(), ConsumerReturn);
      id := consumer.id;
      DeleteGone(arrived, inflight, id);
      inflight := MapDelete(inflight, id);
      consumer, returned := Blocked, returned + {id};
    }
  }
}
