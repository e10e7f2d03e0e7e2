/**
 The subscriber timeout.  Safety says where an HTLC is; here, for every state without a subscriber that a run can reach,
 it is decided whether the relay answers an HTLC by itself, and a continuation that does so is built: drain the receive
 queue, then let the handler work off what is pending, then the listener.
 */
module RelayProgress {
  import opened Base
  import opened HtlcRelay

  predicate Answers(s: State, es: seq<Event>, id: Id) { Exec(s, es).Some? && id in Exec(s, es).value.returned }

  /** Some continuation of the run answers the HTLC. */
  ghost predicate CanReturn(s: State, id: Id) { exists es: seq<Event> :: Answers(s, es, id) }

  /** A step the relay takes without help: no subscriber comes, no send succeeds and no client answers. */
  predicate Alone(e: Event) {
    match e
    case Arrive(_) => false
    case HandlerSend(ok) => !ok
    case Subscribe(_, _) => false
    case EndStream(_) => false
    case ListenerRecv(answer) => answer.None?
    case _ => true
  }

  predicate AllAlone(es: seq<Event>) { forall i :: 0 <= i < |es| ==> Alone(es[i]) }

  /** The clock and the relay alone answer the HTLC. */
  ghost predicate TimesOut(s: State, id: Id) { exists es: seq<Event> :: AllAlone(es) && Answers(s, es, id) }

  lemma {:induction false} ExecFirst(s: State, e: Event, es: seq<Event>)
    requires Enabled(s, e)
    ensures Exec(s, [e] + es) == Exec(Apply(s, e), es)
  {
    if es == [] {
      assert ([e] + es)[..0] == [] && ([e] + es)[0] == e;
    } else {
      assert ([e] + es)[..|es|] == [e] + es[..|es| - 1];
      ExecFirst(s, e, es[..|es| - 1]);
    }
  }

  lemma Earlier(s: State, e: Event, id: Id)
    requires Enabled(s, e) && CanReturn(Apply(s, e), id)
    ensures CanReturn(s, id)
  {
    var es :| Answers(Apply(s, e), es, id);
    ExecFirst(s, e, es);
    assert Answers(s, [e] + es, id);
  }

  lemma EarlierAlone(s: State, e: Event, id: Id)
    requires Enabled(s, e) && Alone(e) && TimesOut(Apply(s, e), id)
    ensures TimesOut(s, id)
  {
    var es :| AllAlone(es) && Answers(Apply(s, e), es, id);
    ExecFirst(s, e, es);
    assert AllAlone([e] + es) && Answers(s, [e] + es, id);
  }

  // ----- how far there is to go

  /** In flight and not on its way back. */
  ghost function Open(s: State): set<Id> {
    set x | x in Ids(s.inflight) && x !in s.recvQueue && s.consumer != Deleting(x)
  }

  /**
   The listener waits for a subscriber without a timer: nothing was in flight when it looked, and now the HTLC is.
   */
  ghost predicate Timerless(s: State, id: Id) {
    id in Open(s) && s.listener.Awaiting? && s.listener.oldest.None? && s.listener.ns !in s.closed
  }

  /** Answers in a queue to HTLCs that are not in flight. */
  ghost function Stale(q: seq<Id>, inflight: seq<Id>): nat {
    if q == [] then 0 else Stale(q[..|q| - 1], inflight) + if q[|q| - 1] in inflight then 0 else 1
  }

  /** The HTLC the listener is about to answer. */
  ghost function Carried(l: Listener): Option<Id> {
    match l
    case Awaiting(_, Some(m)) => Some(m.id)
    case Delivering(x) => Some(x)
    case _ => None
  }

  /** Answers that will change nothing any more, weighted by how far they are from being returned. */
  ghost function Junk(s: State): nat {
    var ids := Ids(s.inflight);
    2 * Stale(s.recvQueue, ids)
    + (if s.consumer.Deleting? && s.consumer.id !in ids then 1 else 0)
    + (if Carried(s.listener).Some? && Carried(s.listener).value !in ids then 3 else 0)
  }

  ghost function ConsumerRank(s: State): nat {
    if s.consumer.Deleting? && s.consumer.id in Ids(s.inflight) then 0 else 1
  }

  ghost function Space(s: State): nat { if |s.recvQueue| < QUEUE_SIZE then QUEUE_SIZE - |s.recvQueue| else 0 }

  ghost function ListenerRank(s: State): nat {
    match s.listener
    case Receiving(_) => 4
    case Awaiting(ns, _) => if ns in s.closed then 4 else 2
    case Polling => 3
    case Delivering(_) => 1
  }

  ghost function HandlerRank(s: State): nat {
    match s.handler
    case Sending(_, _) => 6
    case Waiting(_, ns) => if ns in s.closed then 6 else 2
    case Ready => 5
    case Looking(_) => 4
    case Expired(_) => 1
  }

  /** A measure of what the relay can still do by itself, most significant part first. */
  datatype Rank = Rank(pending: nat, inflight: nat, junk: nat, consumer: nat, space: nat, listener: nat, handler: nat)

  ghost function RankOf(s: State): Rank {
    Rank(|Pending(s)|, |s.inflight|, Junk(s), ConsumerRank(s), Space(s), ListenerRank(s), HandlerRank(s))
  }

  predicate Below(a: Rank, b: Rank) {
    a.pending < b.pending || (a.pending == b.pending && (
    a.inflight < b.inflight || (a.inflight == b.inflight && (
    a.junk < b.junk || (a.junk == b.junk && (
    a.consumer < b.consumer || (a.consumer == b.consumer && (
    a.space < b.space || (a.space == b.space && (
    a.listener < b.listener || (a.listener == b.listener && a.handler < b.handler)))))))))))
  }

  // ----- every step of its own brings it closer to rest

  lemma {:induction false} StaleFirst(q: seq<Id>, inflight: seq<Id>)
    requires q != []
    ensures Stale(q, inflight) == Stale(q[1..], inflight) + if q[0] in inflight then 0 else 1
  {
    if |q| > 1 {
      StaleFirst(q[..|q| - 1], inflight);
      assert q[1..][..|q| - 2] == q[..|q| - 1][1..];
    } else {
      assert q[..0] == [] && q[1..] == [];
    }
  }

  /** Deleting an HTLC that is in flight shortens the map; deleting any other leaves it alone. */
  lemma DeleteLength(q: seq<Msg>, id: Id)
    ensures if id in Ids(q) then |MapDelete(q, id)| == |q| - 1 else MapDelete(q, id) == q
  {
    var k := DeleteAt(q, id);
    assert k < |q| ==> Ids(q)[k] == id;
    assert forall i :: 0 <= i < |q| ==> Ids(q)[i] == q[i].id;
  }

  lemma ConsumerLowers(s: State, e: Event)
    requires Enabled(s, e) && (e.ConsumerTake? || e.ConsumerReturn?)
    ensures Below(RankOf(Apply(s, e)), RankOf(s))
  {
    assert Pending(Apply(s, e)) == Pending(s);
    if e.ConsumerTake? {
      StaleFirst(s.recvQueue, Ids(s.inflight));
    } else {
      DeleteLength(s.inflight, s.consumer.id);
    }
  }

  lemma DeliverLowers(s: State)
    requires Enabled(s, ListenerDeliver)
    ensures Below(RankOf(Apply(s, ListenerDeliver)), RankOf(s))
  {
    var t := Apply(s, ListenerDeliver);
    assert t.recvQueue[..|s.recvQueue|] == s.recvQueue;
    assert Pending(t) == Pending(s);
    assert Junk(t) <= Junk(s);
  }

  lemma ListenerLowers(s: State, e: Event)
    requires Wakeups(s) && s.stream.None? && Enabled(s, e) && Alone(e)
    requires e.ListenerLook? || e.ListenerWake? || e.ListenerTimeout? || e.ListenerRecv?
    ensures Below(RankOf(Apply(s, e)), RankOf(s))
  {
    var t := Apply(s, e);
    assert Pending(t) == Pending(s);
    if e.ListenerLook? && s.inflight != [] {
      assert Ids(s.inflight)[0] == s.inflight[0].id;
    }
    assert Junk(t) <= Junk(s);
  }

  lemma HandlerLowers(s: State, e: Event)
    requires InOrder(s) && Wakeups(s) && s.stream.None? && Enabled(s, e) && Alone(e)
    requires e.HandlerTake? || e.HandlerLook? || e.HandlerWake? || e.HandlerTimeout? || e.HandlerDefault?
             || e.HandlerSend?
    ensures Below(RankOf(Apply(s, e)), RankOf(s))
  {
    if e.HandlerSend? {
      SendEffect(s);
    }
    if !e.HandlerDefault? {
      assert Pending(Apply(s, e)) == Pending(s);
    }
  }

  /** A choice of the scheduler: let time pass, then take a step. */
  datatype Choice = Choice(to: int, e: Event)

  predicate Possible(s: State, c: Choice) { s.now <= c.to && Alone(c.e) && !c.e.Tick? && Enabled(s.(now := c.to), c.e) }

  function Take(s: State, c: Choice): State
    requires Possible(s, c)
  {
    Apply(s.(now := c.to), c.e)
  }

  /** No subscriber, and the HTLC is not waited for without a timer. */
  ghost predicate Due(s: State, id: Id) { Inv(s) && s.stream.None? && id in s.arrived && !Timerless(s, id) }

  lemma Later(s: State, to: int, id: Id)
    requires Inv(s) && s.now <= to
    ensures Inv(s.(now := to)) && RankOf(s.(now := to)) == RankOf(s) && Pending(s.(now := to)) == Pending(s)
    ensures Timerless(s.(now := to), id) <==> Timerless(s, id)
  {
    Step(s, Tick(to));
    assert Apply(s, Tick(to)) == s.(now := to);
  }

  lemma Lowers(s: State, e: Event)
    requires Inv(s) && s.stream.None? && Enabled(s, e) && Alone(e) && !e.Tick?
    ensures Below(RankOf(Apply(s, e)), RankOf(s))
  {
    if e.ConsumerTake? || e.ConsumerReturn? {
      ConsumerLowers(s, e);
    } else if e.HandlerTake? || e.HandlerLook? || e.HandlerWake? || e.HandlerTimeout? || e.HandlerDefault?
      || e.HandlerSend? {
      HandlerLowers(s, e);
    } else if e.ListenerDeliver? {
      DeliverLowers(s);
    } else {
      ListenerLowers(s, e);
    }
  }

  // ----- an HTLC that is due stays due

  lemma OpenShrinks(s: State, e: Event)
    requires Inv(s) && Enabled(s, e) && Alone(e)
    ensures Open(Apply(s, e)) <= Open(s)
  {
    match e
    case HandlerSend(_) => SendEffect(s);
    case ConsumerReturn =>
      DeleteKeeps(s.arrived, s.inflight, s.consumer.id);
      DeleteGone(s.arrived, s.inflight, s.consumer.id);
    case ConsumerTake => assert s.recvQueue == [s.recvQueue[0]] + s.recvQueue[1..];
    case _ =>
  }

  lemma StaysDue(s: State, e: Event, id: Id)
    requires Due(s, id) && Enabled(s, e) && Alone(e)
    ensures Due(Apply(s, e), id)
  {
    OpenShrinks(s, e);
    Step(s, e);
  }

  // ----- until it is answered there is something to do

  lemma HandlerMoves(s: State) returns (c: Choice)
    requires Inv(s) && s.recvQueue == [] && Pending(s) != []
    ensures Possible(s, c)
  {
    match s.handler
    case Ready => c := Choice(s.now, HandlerTake);
    case Looking(_) => c := Choice(s.now, HandlerLook);
    case Waiting(m, _) => c := Choice(if m.deadline <= s.now then s.now else m.deadline, HandlerTimeout);
    case Expired(_) => c := Choice(s.now, HandlerDefault);
    case Sending(_, _) => c := Choice(s.now, HandlerSend(false));
  }

  lemma ListenerMoves(s: State, id: Id) returns (c: Choice)
    requires s.recvQueue == [] && id in Open(s) && !Timerless(s, id)
    ensures Possible(s, c)
  {
    match s.listener
    case Awaiting(_, None) => c := Choice(s.now, ListenerWake);
    case Awaiting(_, Some(m)) => c := Choice(if m.deadline <= s.now then s.now else m.deadline, ListenerTimeout);
    case Polling => c := Choice(s.now, ListenerLook);
    case Receiving(_) => c := Choice(s.now, ListenerRecv(None));
    case Delivering(_) => c := Choice(s.now, ListenerDeliver);
  }

  lemma SomethingToDo(s: State, id: Id) returns (c: Choice)
    requires Due(s, id) && id !in s.returned
    ensures Possible(s, c)
  {
    if s.consumer.Deleting? {
      c := Choice(s.now, ConsumerReturn);
    } else if s.recvQueue != [] {
      c := Choice(s.now, ConsumerTake);
    } else if id in Pending(s) {
      c := HandlerMoves(s);
    } else {
      assert Somewhere(s, id);
      c := ListenerMoves(s, id);
    }
  }

  lemma TakeLowers(s: State, c: Choice, id: Id)
    requires Due(s, id) && Possible(s, c)
    ensures Due(Take(s, c), id) && Below(RankOf(Take(s, c)), RankOf(s))
  {
    Later(s, c.to, id);
    StaysDue(s.(now := c.to), c.e, id);
    Lowers(s.(now := c.to), c.e);
  }

  lemma {:induction false} Continue(s: State, id: Id)
    requires Due(s, id)
    ensures TimesOut(s, id)
    decreases RankOf(s).pending, RankOf(s).inflight, RankOf(s).junk, RankOf(s).consumer, RankOf(s).space,
              RankOf(s).listener, RankOf(s).handler
  {
    if id in s.returned {
      assert AllAlone([]) && Answers(s, [], id);
    } else {
      var c := SomethingToDo(s, id);
      TakeLowers(s, c, id);
      Continue(Take(s, c), id);
      EarlierAlone(s.(now := c.to), c.e, id);
      EarlierAlone(s, Tick(c.to), id);
    }
  }

  // ----- whatever the scheduler does

  /** The state after `i` choices of a plan; an impossible choice is passed over. */
  function At(s: State, plan: nat -> Choice, i: nat): State {
    if i == 0 then s else After(At(s, plan, i - 1), plan(i - 1))
  }

  function After(s: State, c: Choice): State { if Possible(s, c) then Take(s, c) else s }

  /** The plan goes on as long as the relay can do anything by itself; it need not be fair. */
  ghost predicate Diligent(s: State, plan: nat -> Choice) { forall i: nat :: DiligentAt(s, plan, i) }

  ghost predicate DiligentAt(s: State, plan: nat -> Choice, i: nat) {
    (exists c :: Possible(At(s, plan, i), c)) ==> Possible(At(s, plan, i), plan(i))
  }

  ghost function Pick(s: State): Choice {
    if c :| Possible(s, c) then c else Choice(s.now, ConsumerTake)
  }

  ghost function Picked(s: State, i: nat): State {
    if i == 0 then s else After(Picked(s, i - 1), Pick(Picked(s, i - 1)))
  }

  ghost predicate Picks(s: State, plan: nat -> Choice, i: nat) { plan(i) == Pick(Picked(s, i)) }

  lemma {:induction false} PickedIsAt(s: State, plan: nat -> Choice, i: nat)
    requires forall k: nat :: Picks(s, plan, k)
    ensures At(s, plan, i) == Picked(s, i)
  {
    if i > 0 {
      PickedIsAt(s, plan, i - 1);
      assert Picks(s, plan, i - 1);
    }
  }

  /** There is such a plan from every state. */
  lemma DiligentPlan(s: State) returns (plan: nat -> Choice)
    ensures Diligent(s, plan)
  {
    plan := (k: nat) => Pick(Picked(s, k));
    forall i: nat ensures Picks(s, plan, i) {}
    forall i: nat ensures DiligentAt(s, plan, i) {
      PickedIsAt(s, plan, i);
      assert Picks(s, plan, i);
    }
  }

  lemma {:induction false} PlanAnswers(s: State, plan: nat -> Choice, id: Id, i: nat) returns (j: nat)
    requires Diligent(s, plan) && Due(At(s, plan, i), id)
    ensures id in At(s, plan, j).returned
    decreases RankOf(At(s, plan, i)).pending, RankOf(At(s, plan, i)).inflight, RankOf(At(s, plan, i)).junk,
              RankOf(At(s, plan, i)).consumer, RankOf(At(s, plan, i)).space, RankOf(At(s, plan, i)).listener,
              RankOf(At(s, plan, i)).handler
  {
    var t := At(s, plan, i);
    if id in t.returned {
      j := i;
    } else {
      var c := SomethingToDo(t, id);
      assert DiligentAt(s, plan, i);
      TakeLowers(t, plan(i), id);
      j := PlanAnswers(s, plan, id, i + 1);
    }
  }

  // ----- when the timeout does not come

  lemma TimerlessStays(s: State, e: Event, id: Id)
    requires Inv(s) && s.stream.None? && Timerless(s, id) && id !in s.returned && Enabled(s, e) && Alone(e)
    ensures var t := Apply(s, e); t.stream.None? && Timerless(t, id) && id !in t.returned
  {
    if id in Pending(s) { PendingNotOpen(s, id); }
    match e
    case HandlerDefault => assert s.handler.msg.id == Pending(s)[0];
    case HandlerSend(ok) => SendEffect(s);
    case ConsumerReturn => DeleteKeeps(s.arrived, s.inflight, s.consumer.id);
    case ConsumerTake => assert s.recvQueue[0] in s.recvQueue;
    case _ =>
  }

  lemma {:induction false} NoTimeout(s: State, es: seq<Event>, id: Id)
    requires Inv(s) && s.stream.None? && Timerless(s, id) && id !in s.returned && AllAlone(es) && Exec(s, es).Some?
    ensures var t := Exec(s, es).value; Inv(t) && t.stream.None? && Timerless(t, id) && id !in t.returned
  {
    if es != [] {
      NoTimeout(s, es[..|es| - 1], id);
      var before := Exec(s, es[..|es| - 1]).value;
      TimerlessStays(before, es[|es| - 1], id);
      Step(before, es[|es| - 1]);
    }
  }

  lemma {:induction false} NeverAnswered(s: State, plan: nat -> Choice, id: Id, i: nat)
    requires Inv(s) && s.stream.None? && Timerless(s, id) && id !in s.returned
    ensures var t := At(s, plan, i); Inv(t) && t.stream.None? && Timerless(t, id) && id !in t.returned
  {
    if i > 0 {
      NeverAnswered(s, plan, id, i - 1);
      var t := At(s, plan, i - 1);
      if Possible(t, plan(i - 1)) {
        Later(t, plan(i - 1).to, id);
        TimerlessStays(t.(now := plan(i - 1).to), plan(i - 1).e, id);
        Step(t.(now := plan(i - 1).to), plan(i - 1).e);
      }
    }
  }

  // ----- what holds after every run

  /**
   Without a subscriber, the relay answers an HTLC by itself, exactly unless the listener waits for it without a timer:
   otherwise every schedule that goes on as long as it can comes to the answer, and in that case none does.
   */
  lemma EveryPlanAnswersIff(timeout: int, now: int, es: seq<Event>, id: Id, plan: nat -> Choice)
    requires Exec(Init(timeout, now), es).Some? && Arrive(id) in es
    requires var s := Exec(Init(timeout, now), es).value; s.stream.None? && id !in s.returned && Diligent(s, plan)
    ensures var s := Exec(Init(timeout, now), es).value;
            (exists i: nat :: id in At(s, plan, i).returned) <==> !Timerless(s, id)
  {
    Safety(timeout, now, es);
    ArrivedOnce(timeout, now, es, id);
    var s := Exec(Init(timeout, now), es).value;
    if Timerless(s, id) {
      forall i: nat ensures id !in At(s, plan, i).returned { NeverAnswered(s, plan, id, i); }
    } else {
      assert At(s, plan, 0) == s;
      var j := PlanAnswers(s, plan, id, 0);
    }
  }

  /** The same for the existence of an answering run of its own steps. */
  lemma TimesOutIff(timeout: int, now: int, es: seq<Event>, id: Id)
    requires Exec(Init(timeout, now), es).Some? && Arrive(id) in es
    requires var s := Exec(Init(timeout, now), es).value; s.stream.None? && id !in s.returned
    ensures var s := Exec(Init(timeout, now), es).value; TimesOut(s, id) <==> !Timerless(s, id)
  {
    Safety(timeout, now, es);
    ArrivedOnce(timeout, now, es, id);
    var s := Exec(Init(timeout, now), es).value;
    if Timerless(s, id) {
      forall more: seq<Event> | AllAlone(more) ensures !Answers(s, more, id) {
        if Exec(s, more).Some? { NoTimeout(s, more, id); }
      }
    } else {
      Continue(s, id);
    }
  }

  /**
   After any run, every HTLC taken from CLN has been answered or can still be; a subscriber that comes and goes will do.
   */
  lemma NeverStuck(timeout: int, now: int, es: seq<Event>, id: Id)
    requires Exec(Init(timeout, now), es).Some? && Arrive(id) in es
    ensures CanReturn(Exec(Init(timeout, now), es).value, id)
  {
    Safety(timeout, now, es);
    ArrivedOnce(timeout, now, es, id);
    var s := Exec(Init(timeout, now), es).value;
    if s.stream.Some? {
      var end := EndStream(s.stream.value);
      Step(s, end);
      AfterVisit(Apply(s, end), id);
      Earlier(s, end, id);
    } else {
      AfterVisit(s, id);
    }
  }

  lemma {:induction false} Unused(streams: set<StreamId>) returns (st: StreamId)
    ensures forall x :: x in streams ==> x < st
  {
    if streams == {} {
      st := 0;
    } else {
      var y :| y in streams;
      var below := Unused(streams - {y});
      st := if below <= y then y + 1 else below;
      assert forall x :: x in streams ==> x == y || x in streams - {y};
    }
  }

  lemma AfterVisit(s: State, id: Id)
    requires Inv(s) && id in s.arrived && s.stream.None?
    ensures CanReturn(s, id)
  {
    if Timerless(s, id) {
      var st := Unused(s.sent.Keys);
      var come, go := Subscribe(st, |s.inflight|), EndStream(st);
      var t := Apply(s, come);
      Step(s, come);
      Step(t, go);
      assert s.listener.ns == s.newSubscriber;
      Continue(Apply(t, go), id);
      Earlier(t, go, id);
      Earlier(s, come, id);
    } else {
      Continue(s, id);
    }
  }

  const HAND_OFF := [HandlerTake, HandlerLook]
  const END_AND_LOOK := [EndStream(0), ListenerLook, HandlerSend(true)]

  ghost predicate Drained(s: State) { s.consumer.Blocked? && s.recvQueue == [] }

  ghost predicate Quiet(s: State, id: Id) {
    && s.inflight == [] && Drained(s) && s.listener.Polling? && s.stream == Some(0) && 0 in s.serving && 0 in s.sent
    && id !in s.returned && forall c :: c in s.closed ==> c < s.newSubscriber
  }

  lemma SentLate(s: State, id: Id)
    requires s.inflight == [] && Drained(s) && s.stream.None? && id !in s.returned && s.handler.Sending?
             && s.handler.msg.id == id
    requires s.handler.stream in s.sent && s.listener.Awaiting? && s.listener.oldest.None? && s.listener.ns !in s.closed
    ensures var r := Exec(s, [HandlerSend(true)]);
            r.Some? && r.value.stream.None? && id !in r.value.returned && Timerless(r.value, id)
  {
    var t := Apply(s, HandlerSend(true));
    assert [HandlerSend(true)] + [] == [HandlerSend(true)];
    ExecFirst(s, HandlerSend(true), []);
    assert Exec(t, []) == Some(t);
    assert t.inflight == [s.handler.msg] && Ids(t.inflight)[0] == id;
  }

  lemma LateSend(s: State, id: Id)
    requires Quiet(s, id) && s.handler.Sending? && s.handler.msg.id == id && s.handler.stream == 0
    ensures var r := Exec(s, END_AND_LOOK);
            r.Some? && r.value.stream.None? && id !in r.value.returned && Timerless(r.value, id)
  {
    var s1 := Apply(s, EndStream(0));
    SentLate(Apply(s1, ListenerLook), id);
    ExecFirst(s1, ListenerLook, [HandlerSend(true)]);
    ExecFirst(s, EndStream(0), [ListenerLook] + [HandlerSend(true)]);
    assert END_AND_LOOK == [EndStream(0)] + ([ListenerLook] + [HandlerSend(true)]);
  }

  lemma HandedOff(s: State, id: Id)
    requires Quiet(s, id) && s.handler.Ready? && |s.sendQueue| == 1 && s.sendQueue[0].id == id
    ensures var r := Exec(s, HAND_OFF + END_AND_LOOK);
            r.Some? && r.value.stream.None? && id !in r.value.returned && Timerless(r.value, id)
  {
    var s1 := Apply(s, HandlerTake);
    ExecFirst(s1, HandlerLook, END_AND_LOOK);
    ExecFirst(s, HandlerTake, [HandlerLook] + END_AND_LOOK);
    assert HAND_OFF + END_AND_LOOK == [HandlerTake] + ([HandlerLook] + END_AND_LOOK);
    LateSend(Apply(s1, HandlerLook), id);
  }

  /**
   It takes a send that succeeds on a stream that has ended: the listener looked in between and saw nothing in flight.
   */
  lemma TimerlessRun(timeout: int, now: int, id: Id)
    ensures var r := Exec(Init(timeout, now), [Subscribe(0, 0), Arrive(id)] + (HAND_OFF + END_AND_LOOK));
            r.Some? && r.value.stream.None? && id !in r.value.returned && Timerless(r.value, id)
  {
    var s0 := Init(timeout, now);
    var s1 := Apply(s0, Subscribe(0, 0));
    var more := HAND_OFF + END_AND_LOOK;
    ExecFirst(s1, Arrive(id), more);
    ExecFirst(s0, Subscribe(0, 0), [Arrive(id)] + more);
    assert [Subscribe(0, 0), Arrive(id)] + more == [Subscribe(0, 0)] + ([Arrive(id)] + more);
    HandedOff(Apply(s1, Arrive(id)), id);
  }

  // ----- streams that refuse sends once they have ended

  /** Every successful send of the run goes to a stream that is still registered. */
  ghost predicate LiveSends(s: State, es: seq<Event>) {
    forall k :: 0 <= k < |es| && es[k] == HandlerSend(true) ==>
      Exec(s, es[..k]).Some? && Exec(s, es[..k]).value.handler.Sending? &&
      Exec(s, es[..k]).value.handler.stream in Exec(s, es[..k]).value.serving
  }

  /** A listener without a timer has nothing to time out. */
  ghost predicate TimersSet(s: State) {
    s.stream.None? && s.listener.Awaiting? && s.listener.oldest.None? && s.listener.ns !in s.closed ==> s.inflight == []
  }

  lemma TimersStep(s: State, e: Event)
    requires Inv(s) && TimersSet(s) && Enabled(s, e)
    requires e == HandlerSend(true) ==> s.handler.Sending? && s.handler.stream in s.serving
    ensures TimersSet(Apply(s, e))
  {
    if e == HandlerSend(false) { SendEffect(s); }
  }

  /** If ended streams refuse sends, the timeout answers every HTLC whenever there is no subscriber. */
  lemma {:induction false} TimersAlwaysSet(timeout: int, now: int, es: seq<Event>)
    requires Exec(Init(timeout, now), es).Some? && LiveSends(Init(timeout, now), es)
    ensures TimersSet(Exec(Init(timeout, now), es).value)
  {
    var s0 := Init(timeout, now);
    if es != [] {
      var n := |es| - 1;
      assert forall k :: 0 <= k <= n ==> es[..n][..k] == es[..k];
      TimersAlwaysSet(timeout, now, es[..n]);
      Safety(timeout, now, es[..n]);
      TimersStep(Exec(s0, es[..n]).value, es[n]);
    }
  }

  /** Then the timeout leads every schedule to the answer of every HTLC, whenever there is no subscriber. */
  lemma AlwaysTimesOut(timeout: int, now: int, es: seq<Event>, id: Id, plan: nat -> Choice) returns (i: nat)
    requires Exec(Init(timeout, now), es).Some? && LiveSends(Init(timeout, now), es) && Arrive(id) in es
    requires Exec(Init(timeout, now), es).value.stream.None? && Diligent(Exec(Init(timeout, now), es).value, plan)
    ensures id in At(Exec(Init(timeout, now), es).value, plan, i).returned
  {
    var s := Exec(Init(timeout, now), es).value;
    Safety(timeout, now, es);
    ArrivedOnce(timeout, now, es, id);
    TimersAlwaysSet(timeout, now, es);
    assert At(s, plan, 0) == s;
    i := PlanAnswers(s, plan, id, 0);
  }

  // ----- what the replay is for

  /** The registered subscriber has been sent every HTLC that is in flight. */
  ghost predicate Offered(s: State) {
    s.stream.Some? ==> s.stream.value in s.sent && forall x :: x in Ids(s.inflight) ==> x in s.sent[s.stream.value]
  }

  /** The send goes out on another stream than the one registered now. */
  predicate Late(s: State, e: Event) {
    e == HandlerSend(true) && s.stream.Some? && s.handler.Sending? && s.handler.stream != s.stream.value
  }

  lemma OfferedSend(s: State, ok: bool)
    requires Inv(s) && Offered(s) && Enabled(s, HandlerSend(ok))
    ensures Offered(Apply(s, HandlerSend(ok))) <==> !Late(s, HandlerSend(ok))
  {
    SendEffect(s);
    if ok && s.stream.Some? {
      var t, id, st := Apply(s, HandlerSend(ok)), s.handler.msg.id, s.stream.value;
      assert Ids(t.inflight) == Ids(s.inflight) + [id];
      assert id in Ids(t.inflight);
      if s.handler.stream == st {
        assert t.sent[st] == s.sent[st] + [id];
      } else {
        assert t.sent[st] == s.sent[st];
        assert Pending(s)[0] == id && id in Pending(s) && AllBefore(s.arrived, s.sent[st], Pending(s));
      }
    }
  }

  lemma OfferedSubscribe(s: State, st: StreamId, k: nat)
    requires Inv(s) && Offered(s) && Enabled(s, Subscribe(st, k))
    ensures Offered(Apply(s, Subscribe(st, k)))
  {
    var t := Apply(s, Subscribe(st, k));
    assert Ids(t.inflight) == Ids(s.inflight) && s.inflight[..|s.inflight|] == s.inflight;
  }

  /** Each step keeps it, exactly unless a send succeeds on another stream than the registered one. */
  lemma OfferedStepIff(s: State, e: Event)
    requires Inv(s) && Offered(s) && Enabled(s, e)
    ensures Offered(Apply(s, e)) <==> !Late(s, e)
  {
    match e
    case HandlerSend(ok) => OfferedSend(s, ok);
    case Subscribe(st, k) => OfferedSubscribe(s, st, k);
    case ConsumerReturn => DeleteKeeps(s.arrived, s.inflight, s.consumer.id);
    case _ =>
  }

  /** It holds after the first `k` steps. */
  ghost predicate OfferedAfter(s: State, es: seq<Event>, k: nat)
    requires k <= |es|
  {
    Exec(s, es[..k]).Some? ==> Offered(Exec(s, es[..k]).value)
  }

  ghost predicate LateAt(s: State, es: seq<Event>, k: nat)
    requires k < |es|
  {
    Exec(s, es[..k]).Some? && Late(Exec(s, es[..k]).value, es[k])
  }

  ghost predicate AlwaysOffer(s: State, es: seq<Event>) { forall k :: 0 <= k <= |es| ==> OfferedAfter(s, es, k) }

  ghost predicate NeverLate(s: State, es: seq<Event>) { forall k :: 0 <= k < |es| ==> !LateAt(s, es, k) }

  lemma OneMore(s: State, front: seq<Event>, e: Event)
    ensures AlwaysOffer(s, front + [e]) <==> AlwaysOffer(s, front) && OfferedAfter(s, front + [e], |front| + 1)
    ensures NeverLate(s, front + [e]) <==> NeverLate(s, front) && !LateAt(s, front + [e], |front|)
  {
    var es := front + [e];
    forall k | 0 <= k <= |front| ensures OfferedAfter(s, es, k) <==> OfferedAfter(s, front, k) {
      assert front[..k] == es[..k];
    }
    forall k | 0 <= k < |front| ensures LateAt(s, es, k) <==> LateAt(s, front, k) { assert front[..k] == es[..k]; }
  }

  /** Throughout a run the subscriber has been sent everything in flight, if and only if no send of the run was late. */
  lemma {:induction false} OfferedIffNeverLate(timeout: int, now: int, es: seq<Event>)
    requires Exec(Init(timeout, now), es).Some?
    ensures AlwaysOffer(Init(timeout, now), es) <==> NeverLate(Init(timeout, now), es)
  {
    var s := Init(timeout, now);
    if es == [] {
      assert es[..0] == [];
    } else {
      var n := |es| - 1;
      var front := es[..n];
      assert es == front + [es[n]] && es[..|es|] == es && front[..n] == front;
      OfferedIffNeverLate(timeout, now, front);
      OneMore(s, front, es[n]);
      Safety(timeout, now, front);
      if AlwaysOffer(s, front) {
        assert OfferedAfter(s, front, n);
        OfferedStepIff(Exec(s, front).value, es[n]);
      }
    }
  }

  /** If ended streams refuse sends, the subscriber has always been sent everything in flight. */
  lemma {:induction false} AlwaysOffered(timeout: int, now: int, es: seq<Event>)
    requires Exec(Init(timeout, now), es).Some? && LiveSends(Init(timeout, now), es)
    ensures Offered(Exec(Init(timeout, now), es).value)
  {
    if es != [] {
      var n := |es| - 1;
      assert forall k :: 0 <= k <= n ==> es[..n][..k] == es[..k];
      AlwaysOffered(timeout, now, es[..n]);
      Safety(timeout, now, es[..n]);
      OfferedStepIff(Exec(Init(timeout, now), es[..n]).value, es[n]);
    }
  }

  /**
   It happens: a send on the old stream succeeds after the next subscriber has registered, which never gets the HTLC.
   */
  lemma NotOfferedRun(timeout: int, now: int, id: Id)
    ensures var late := [EndStream(0), Subscribe(1, 0), HandlerSend(true)];
            var r := Exec(Init(timeout, now), [Subscribe(0, 0), Arrive(id)] + (HAND_OFF + late));
            r.Some? && r.value.stream == Some(1) && !Offered(r.value)
  {
    var s0 := Init(timeout, now);
    var s1 := Apply(s0, Subscribe(0, 0));
    var late := [EndStream(0), Subscribe(1, 0), HandlerSend(true)];
    var more := HAND_OFF + late;
    ExecFirst(s1, Arrive(id), more);
    ExecFirst(s0, Subscribe(0, 0), [Arrive(id)] + more);
    assert [Subscribe(0, 0), Arrive(id)] + more == [Subscribe(0, 0)] + ([Arrive(id)] + more);
    var s2 := Apply(s1, Arrive(id));
    var s3 := Apply(s2, HandlerTake);
    ExecFirst(s3, HandlerLook, late);
    ExecFirst(s2, HandlerTake, [HandlerLook] + late);
    assert more == [HandlerTake] + ([HandlerLook] + late);
    LateOffer(Apply(s3, HandlerLook), id);
  }

  lemma LateOffer(s: State, id: Id)
    requires Quiet(s, id) && 1 !in s.sent && s.handler.Sending? && s.handler.msg.id == id && s.handler.stream == 0
    ensures var r := Exec(s, [EndStream(0), Subscribe(1, 0), HandlerSend(true)]);
            r.Some? && r.value.stream == Some(1) && !Offered(r.value)
  {
    var s1 := Apply(s, EndStream(0));
    var s2 := Apply(s1, Subscribe(1, 0));
    var t := Apply(s2, HandlerSend(true));
    assert [HandlerSend(true)] + [] == [HandlerSend(true)];
    ExecFirst(s2, HandlerSend(true), []);
    ExecFirst(s1, Subscribe(1, 0), [HandlerSend(true)]);
    ExecFirst(s, EndStream(0), [Subscribe(1, 0)] + [HandlerSend(true)]);
    assert [EndStream(0), Subscribe(1, 0), HandlerSend(true)]
      == [EndStream(0)] + ([Subscribe(1, 0)] + [HandlerSend(true)]);
    assert t.inflight == [s.handler.msg] && Ids(t.inflight)[0] == id && t.sent[1] == [];
    assert id in Ids(t.inflight);
  }
}
