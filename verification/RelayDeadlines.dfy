/**
 How long the relay keeps an HTLC for a subscriber: exactly the subscriber timeout, counted from its arrival, or from
 the last replay of it that got through.
 */
module RelayDeadlines {
  import opened Base
  import opened HtlcRelay
  import opened RelayAnswers

  /** The time after a run. */
  function Clock(now: int, es: seq<Event>): int {
    if es == [] then now else
    var e := es[|es| - 1];
    if e.Tick? then e.to else Clock(now, es[..|es| - 1])
  }

  /** The step starts the HTLC's time anew: it arrives, or it is replayed and the send got through. */
  predicate Renews(s: State, e: Event, id: Id) {
    e == Arrive(id) || (e.Subscribe? && e.delivered <= |s.inflight| && id in Ids(s.inflight[..e.delivered]))
  }

  /** When the time of an HTLC was started last. */
  function Renewed(s: State, es: seq<Event>, id: Id): Option<int> {
    if es == [] then None else
    var front, e := es[..|es| - 1], es[|es| - 1];
    if Exec(s, front).Some? && Renews(Exec(s, front).value, e, id) then Some(Clock(s.now, front))
    else Renewed(s, front, id)
  }

  /** When it arrived. */
  function Arrived(now: int, es: seq<Event>, id: Id): Option<int> {
    if es == [] then None else
    var front, e := es[..|es| - 1], es[|es| - 1];
    if e == Arrive(id) then Some(Clock(now, front)) else Arrived(now, front, id)
  }

  /** For the HTLC at the head of the in-flight map when the listener looked last: when its time was started by then. */
  function OldestRenewed(s: State, es: seq<Event>): Option<int> {
    if es == [] then None else
    var front, e := es[..|es| - 1], es[|es| - 1];
    if !e.ListenerLook? then OldestRenewed(s, front)
    else if Exec(s, front).Some? && Exec(s, front).value.inflight != [] then
      Renewed(s, front, Exec(s, front).value.inflight[0].id)
    else None
  }

  predicate Due(s: State, es: seq<Event>, m: Msg) { Renewed(s, es, m.id) == Some(m.deadline - s.timeout) }

  predicate DueSinceArrival(s: State, es: seq<Event>, m: Msg) {
    Due(s, es, m) && Arrived(s.now, es, m.id) == Some(m.deadline - s.timeout)
  }

  ghost predicate Deadlines(s: State, es: seq<Event>, t: State) {
    && t.now == Clock(s.now, es) && t.timeout == s.timeout
    && AllDue(s, es, t.inflight) && PendingDue(s, es, t) && OldestDue(s, es, t)
  }

  ghost predicate AllDue(s: State, es: seq<Event>, q: seq<Msg>) { forall m :: m in q ==> Due(s, es, m) }

  ghost predicate PendingDue(s: State, es: seq<Event>, t: State) {
    && (forall m :: m in t.sendQueue ==> DueSinceArrival(s, es, m))
    && (!t.handler.Ready? ==> DueSinceArrival(s, es, t.handler.msg))
  }

  ghost predicate OldestDue(s: State, es: seq<Event>, t: State) {
    t.listener.Awaiting? && t.listener.oldest.Some? ==>
      OldestRenewed(s, es) == Some(t.listener.oldest.value.deadline - s.timeout)
  }

  /** A step that does not renew an HTLC leaves its deadline due. */
  lemma DueStays(s: State, es: seq<Event>, e: Event, t: State, m: Msg)
    requires Exec(s, es) == Some(t) && !Renews(t, e, m.id)
    ensures Due(s, es, m) ==> Due(s, es + [e], m)
    ensures DueSinceArrival(s, es, m) ==> DueSinceArrival(s, es + [e], m)
  {
    assert (es + [e])[..|es|] == es;
  }

  lemma DueNow(s: State, es: seq<Event>, e: Event, t: State, m: Msg)
    requires Exec(s, es) == Some(t) && Renews(t, e, m.id) && m.deadline == Clock(s.now, es) + s.timeout
    ensures Due(s, es + [e], m)
    ensures e == Arrive(m.id) ==> DueSinceArrival(s, es + [e], m)
  {
    assert (es + [e])[..|es|] == es;
  }

  /** What is pending is renewed by nothing but its arrival, which is over. */
  lemma PendingNotRenewed(t: State, e: Event, id: Id)
    requires InOrder(t) && Enabled(t, e) && id in Pending(t)
    ensures !Renews(t, e, id)
  {
    assert id in t.arrived;
    PendingNotOpen(t, id);
    if e.Subscribe? {
      assert forall x :: x in Ids(t.inflight[..e.delivered]) ==> x in Ids(t.inflight) by {
        assert Ids(t.inflight[..e.delivered]) == Ids(t.inflight)[..e.delivered];
      }
    }
  }

  lemma PendingStep(s: State, es: seq<Event>, e: Event, t: State, m: Msg)
    requires Exec(s, es) == Some(t) && InOrder(t) && Enabled(t, e) && m.id in Pending(t) && DueSinceArrival(s, es, m)
    ensures DueSinceArrival(s, es + [e], m)
  {
    PendingNotRenewed(t, e, m.id);
    DueStays(s, es, e, t, m);
  }

  /** The i-th message in flight is renewed by a replay exactly if the replay got that far. */
  lemma ReplayRenews(t: State, e: Event, i: nat)
    requires InOrder(t) && Enabled(t, e) && i < |t.inflight|
    ensures Renews(t, e, t.inflight[i].id) <==> e.Subscribe? && i < e.delivered
  {
    var ids := Ids(t.inflight);
    assert ids[i] in t.arrived;
    if e.Subscribe? {
      assert Ids(t.inflight[..e.delivered]) == ids[..e.delivered];
      if ids[i] in ids[..e.delivered] {
        var j :| 0 <= j < e.delivered && ids[j] == ids[i];
        assert j == i;
      }
    }
  }

  lemma InflightStays(s: State, es: seq<Event>, e: Event, t: State)
    requires Exec(s, es) == Some(t) && InOrder(t) && Enabled(t, e) && !e.Subscribe? && AllDue(s, es, t.inflight)
    ensures AllDue(s, es + [e], t.inflight)
  {
    forall m | m in t.inflight ensures Due(s, es + [e], m) {
      var i :| 0 <= i < |t.inflight| && t.inflight[i] == m;
      ReplayRenews(t, e, i);
      DueStays(s, es, e, t, m);
    }
  }

  lemma ReplayDue(s: State, es: seq<Event>, e: Event, t: State)
    requires Exec(s, es) == Some(t) && InOrder(t) && Enabled(t, e) && e.Subscribe? && AllDue(s, es, t.inflight)
    requires t.now == Clock(s.now, es) && t.timeout == s.timeout
    ensures AllDue(s, es + [e], Extend(t.inflight, e.delivered, t.now + t.timeout))
  {
    var q := Extend(t.inflight, e.delivered, t.now + t.timeout);
    forall m | m in q ensures Due(s, es + [e], m) {
      var i :| 0 <= i < |q| && q[i] == m;
      ReplayRenews(t, e, i);
      if i < e.delivered {
        DueNow(s, es, e, t, m);
      } else {
        assert m in t.inflight;
        DueStays(s, es, e, t, m);
      }
    }
  }

  lemma DeleteSubset(q: seq<Msg>, id: Id)
    ensures forall m :: m in MapDelete(q, id) ==> m in q
  {
    var k := DeleteAt(q, id);
  }

  lemma SendDue(s: State, es: seq<Event>, ok: bool, t: State)
    requires Exec(s, es) == Some(t) && InOrder(t) && Enabled(t, HandlerSend(ok))
    requires AllDue(s, es, t.inflight) && DueSinceArrival(s, es, t.handler.msg)
    ensures AllDue(s, es + [HandlerSend(ok)], Apply(t, HandlerSend(ok)).inflight)
  {
    InflightStays(s, es, HandlerSend(ok), t);
    SendEffect(t);
    assert Pending(t)[0] == t.handler.msg.id;
    PendingStep(s, es, HandlerSend(ok), t, t.handler.msg);
  }

  lemma SubscribeDue(s: State, es: seq<Event>, e: Event, t: State)
    requires Exec(s, es) == Some(t) && InOrder(t) && Enabled(t, e) && e.Subscribe? && AllDue(s, es, t.inflight)
    requires t.now == Clock(s.now, es) && t.timeout == s.timeout
    ensures AllDue(s, es + [e], Apply(t, e).inflight)
  {
    ReplayDue(s, es, e, t);
    assert e.delivered == 0 ==> Extend(t.inflight, e.delivered, t.now + t.timeout) == t.inflight;
  }

  lemma InflightStep(s: State, es: seq<Event>, e: Event, t: State)
    requires Exec(s, es) == Some(t) && InOrder(t) && Enabled(t, e) && Deadlines(s, es, t)
    ensures AllDue(s, es + [e], Apply(t, e).inflight)
  {
    if e.Subscribe? {
      SubscribeDue(s, es, e, t);
    } else if e.HandlerSend? {
      SendDue(s, es, e.ok, t);
    } else {
      InflightStays(s, es, e, t);
      if e.ConsumerReturn? { DeleteSubset(t.inflight, t.consumer.id); }
    }
  }

  lemma QueueStays(s: State, es: seq<Event>, e: Event, t: State)
    requires Exec(s, es) == Some(t) && InOrder(t) && Enabled(t, e) && PendingDue(s, es, t)
    ensures PendingDue(s, es + [e], t)
  {
    forall m | m in t.sendQueue ensures DueSinceArrival(s, es + [e], m) {
      var i :| 0 <= i < |t.sendQueue| && t.sendQueue[i] == m;
      assert Ids(t.sendQueue)[i] == m.id && m.id in Pending(t);
      PendingStep(s, es, e, t, m);
    }
    if !t.handler.Ready? {
      assert Pending(t)[0] == t.handler.msg.id;
      PendingStep(s, es, e, t, t.handler.msg);
    }
  }

  lemma PendingDueStep(s: State, es: seq<Event>, e: Event, t: State)
    requires Exec(s, es) == Some(t) && InOrder(t) && Enabled(t, e) && Deadlines(s, es, t)
    ensures PendingDue(s, es + [e], Apply(t, e))
  {
    QueueStays(s, es, e, t);
    if e.Arrive? {
      DueNow(s, es, e, t, Msg(e.id, t.now + t.timeout));
    }
  }

  lemma OldestStep(s: State, es: seq<Event>, e: Event, t: State)
    requires Exec(s, es) == Some(t) && Enabled(t, e) && Deadlines(s, es, t)
    ensures OldestDue(s, es + [e], Apply(t, e))
  {
    assert (es + [e])[..|es|] == es;
    if e.ListenerLook? && t.inflight != [] {
      assert Due(s, es, t.inflight[0]);
    }
  }

  /** After any run, deadlines are one timeout after the arrival, or after the last replay that got through. */
  lemma {:induction false} DeadlinesSafe(timeout: int, now: int, es: seq<Event>)
    requires Exec(Init(timeout, now), es).Some?
    ensures Deadlines(Init(timeout, now), es, Exec(Init(timeout, now), es).value)
  {
    if es != [] {
      var s, front, e := Init(timeout, now), es[..|es| - 1], es[|es| - 1];
      var t := Exec(s, front).value;
      assert es == front + [e];
      DeadlinesSafe(timeout, now, front);
      Safety(timeout, now, front);
      InflightStep(s, front, e, t);
      PendingDueStep(s, front, e, t);
      OldestStep(s, front, e, t);
    }
  }

  // ----- on positions

  /** Every prefix of a run is a run, and its clock is not later. */
  lemma {:induction false} PrefixRuns(s: State, es: seq<Event>, k: nat)
    requires Exec(s, es).Some? && k <= |es|
    ensures Exec(s, es[..k]).Some? && (k < |es| ==> Enabled(Exec(s, es[..k]).value, es[k]))
    decreases |es|
  {
    var front := es[..|es| - if es == [] then 0 else 1];
    if k == |es| {
      assert es[..k] == es;
    } else if k == |es| - 1 {
      assert es[..k] == front;
    } else {
      PrefixRuns(s, front, k);
      assert front[..k] == es[..k];
    }
  }

  lemma {:induction false} ClockIsNow(s: State, es: seq<Event>)
    requires Exec(s, es).Some?
    ensures Exec(s, es).value.now == Clock(s.now, es)
  {
    if es != [] { ClockIsNow(s, es[..|es| - 1]); }
  }

  lemma {:induction false} ClockMonotone(s: State, es: seq<Event>, k: nat)
    requires Exec(s, es).Some? && k <= |es|
    ensures Clock(s.now, es[..k]) <= Clock(s.now, es)
    decreases |es|
  {
    if k == |es| {
      assert es[..k] == es;
    } else {
      var front := es[..|es| - 1];
      ClockMonotone(s, front, k);
      ClockIsNow(s, front);
      assert front[..k] == es[..k];
    }
  }

  lemma {:induction false} ArrivedAt(now: int, es: seq<Event>, id: Id) returns (a: nat)
    requires Arrived(now, es, id).Some?
    ensures a < |es| && es[a] == Arrive(id) && Arrived(now, es, id) == Some(Clock(now, es[..a]))
  {
    var front := es[..|es| - 1];
    if es[|es| - 1] == Arrive(id) {
      a := |es| - 1;
    } else {
      a := ArrivedAt(now, front, id);
      assert front[..a] == es[..a];
    }
  }

  ghost predicate RenewsAt(s: State, es: seq<Event>, r: nat, id: Id)
    requires r < |es|
  {
    Exec(s, es[..r]).Some? && Renews(Exec(s, es[..r]).value, es[r], id)
  }

  /** Nothing renews the HTLC at or behind a position. */
  ghost predicate LastRenewal(s: State, es: seq<Event>, r: nat, id: Id)
    requires r < |es|
  {
    RenewsAt(s, es, r, id) && forall q :: r < q < |es| ==> !RenewsAt(s, es, q, id)
  }

  lemma {:induction false} RenewedAt(s: State, es: seq<Event>, id: Id) returns (r: nat)
    requires Renewed(s, es, id).Some?
    ensures r < |es| && LastRenewal(s, es, r, id) && Renewed(s, es, id) == Some(Clock(s.now, es[..r]))
  {
    var n := |es| - 1;
    var front := es[..n];
    if RenewsAt(s, es, n, id) {
      r := n;
    } else {
      r := RenewedAt(s, front, id);
      assert front[..r] == es[..r];
      forall q | r < q < |es| ensures !RenewsAt(s, es, q, id) {
        if q < n { assert front[..q] == es[..q] && !RenewsAt(s, front, q, id); }
      }
    }
  }

  /** The listener looked last at a position. */
  ghost predicate LastLook(es: seq<Event>, c: nat) {
    c < |es| && es[c].ListenerLook? && forall q :: c < q < |es| ==> !es[q].ListenerLook?
  }

  lemma {:induction false} LookedAt(s: State, es: seq<Event>) returns (c: nat, id: Id)
    requires OldestRenewed(s, es).Some?
    ensures LastLook(es, c) && Exec(s, es[..c]).Some? && Exec(s, es[..c]).value.inflight != []
    ensures Exec(s, es[..c]).value.inflight[0].id == id && LastOldest(s, es) == [id]
    ensures OldestRenewed(s, es) == Renewed(s, es[..c], id)
  {
    var n := |es| - 1;
    var front := es[..n];
    if es[n].ListenerLook? {
      c, id := n, Exec(s, front).value.inflight[0].id;
    } else {
      c, id := LookedAt(s, front);
      assert front[..c] == es[..c];
    }
  }

  /**
   After any run, a message that waits for a subscriber may be given up exactly from one timeout after its arrival on.
   */
  lemma WaitsItsTimeout(timeout: int, now: int, es: seq<Event>) returns (a: nat)
    requires Exec(Init(timeout, now), es).Some? && Exec(Init(timeout, now), es).value.handler.Waiting?
    ensures var t := Exec(Init(timeout, now), es).value;
            && a < |es| && es[a] == Arrive(t.handler.msg.id) && LastTaken(es) == [t.handler.msg.id]
            && (Enabled(t, HandlerTimeout) <==> Clock(now, es[..a]) + timeout <= Clock(now, es))
  {
    var t := Exec(Init(timeout, now), es).value;
    var m := t.handler.msg;
    assert t.now == Clock(now, es) && Arrived(now, es, m.id) == Some(m.deadline - timeout) by {
      DeadlinesSafe(timeout, now, es);
    }
    assert LastTaken(es) == [m.id] by { AnswersFlow(timeout, now, es); }
    a := ArrivedAt(now, es, m.id);
  }

  /**
   After any run, the oldest message in flight that the listener captured may be given up exactly from one timeout after
   the last event that had started its time when the listener looked: its arrival or a replay that got through.
   */
  lemma OldestWaitsItsTimeout(timeout: int, now: int, es: seq<Event>) returns (c: nat, r: nat)
    requires Exec(Init(timeout, now), es).Some?
    requires var l := Exec(Init(timeout, now), es).value.listener; l.Awaiting? && l.oldest.Some?
    ensures var s, t := Init(timeout, now), Exec(Init(timeout, now), es).value;
            var id := t.listener.oldest.value.id;
            && LastLook(es, c) && LastOldest(s, es) == [id] && r < c && LastRenewal(s, es[..c], r, id)
            && (Enabled(t, ListenerTimeout) <==> Clock(now, es[..r]) + timeout <= Clock(now, es))
  {
    var s, t := Init(timeout, now), Exec(Init(timeout, now), es).value;
    var oldest := t.listener.oldest.value;
    assert t.now == Clock(now, es) && OldestRenewed(s, es) == Some(oldest.deadline - timeout) by {
      DeadlinesSafe(timeout, now, es);
    }
    assert LastOldest(s, es) == [oldest.id] by { AnswersFlow(timeout, now, es); }
    var id: Id;
    c, id := LookedAt(s, es);
    r := RenewedAt(s, es[..c], id);
    assert es[..c][..r] == es[..r];
  }

  /** In every run, the handler gives an HTLC up no sooner than one timeout after it arrived. */
  lemma HandlerTimeoutIsLate(timeout: int, now: int, es: seq<Event>, k: nat) returns (a: nat)
    requires Exec(Init(timeout, now), es).Some? && k < |es| && es[k].HandlerTimeout?
    ensures a < k && es[a].Arrive? && LastTaken(es[..k]) == [es[a].id]
    ensures Clock(now, es[..a]) + timeout <= Clock(now, es[..k])
  {
    PrefixRuns(Init(timeout, now), es, k);
    a := WaitsItsTimeout(timeout, now, es[..k]);
    assert es[..k][..a] == es[..a];
  }

  /**
   In every run, the listener gives an HTLC up no sooner than one timeout after its arrival and after every replay of it
   that had got through when the listener captured it.
   */
  lemma ListenerTimeoutIsLate(timeout: int, now: int, es: seq<Event>, k: nat) returns (c: nat, id: Id)
    requires Exec(Init(timeout, now), es).Some? && k < |es| && es[k].ListenerTimeout?
    ensures var s := Init(timeout, now);
            && LastLook(es[..k], c) && LastOldest(s, es[..k]) == [id] && Arrive(id) in es[..c]
            && forall q :: 0 <= q < c && RenewsAt(s, es, q, id) ==> Clock(now, es[..q]) + timeout <= Clock(now, es[..k])
  {
    var s := Init(timeout, now);
    PrefixRuns(s, es, k);
    var r: nat;
    c, r := OldestWaitsItsTimeout(timeout, now, es[..k]);
    id := Exec(s, es[..k]).value.listener.oldest.value.id;
    assert es[..k][..c] == es[..c] && es[..k][..r] == es[..r];
    PrefixRuns(s, es, c);
    forall q | 0 <= q < c && RenewsAt(s, es, q, id) ensures Clock(now, es[..q]) <= Clock(now, es[..r]) {
      assert es[..c][..q] == es[..q] && RenewsAt(s, es[..c], q, id);
      assert q <= r;
      PrefixRuns(s, es, r);
      ClockMonotone(s, es[..r], q);
      assert es[..r][..q] == es[..q];
    }
    CapturedArrived(timeout, now, es[..k], c, id);
    assert es[..k][..c] == es[..c];
  }

  lemma CapturedArrived(timeout: int, now: int, es: seq<Event>, c: nat, id: Id)
    requires Exec(Init(timeout, now), es).Some? && LastLook(es, c) && LastOldest(Init(timeout, now), es) == [id]
    ensures Arrive(id) in es[..c]
    decreases |es|
  {
    var n := |es| - 1;
    var front := es[..n];
    if c == n {
      Safety(timeout, now, front);
      ArrivedOnce(timeout, now, front, id);
      var t := Exec(Init(timeout, now), front).value;
      assert Ids(t.inflight)[0] == id;
    } else {
      CapturedArrived(timeout, now, front, c, id);
      assert front[..c] == es[..c];
    }
  }
}
