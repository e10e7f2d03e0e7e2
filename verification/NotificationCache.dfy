/**
 Recent notifications.  A call looks the payment up under the lock, compares with the clock after releasing it, and
 records a success under the lock again; a cleaner deletes old entries in between.
 */
module NotificationCache {
  import opened Base

  /** Nanoseconds: no second notification within 30 seconds. */
  const MIN_INTERVAL := 30_000_000_000

  /** A notification that succeeded, with the time it was recorded. */
  datatype Sent = Sent(key: string, time: int)

  /** A running call; `seen` is how many successes had been recorded at its lookup. */
  datatype Call =
    | Looked(key: string, last: Option<int>, seen: nat)
    | Sending(key: string)
    | Done(suppressed: bool)

  /** `recent` is the map that is cleaned; `log` is the history that never is. */
  datatype State = State(clock: int, recent: map<string, int>, calls: map<nat, Call>, log: seq<Sent>)

  datatype Event =
    | Tick(now: int)
    | Lookup(c: nat, key: string)
    | Decide(c: nat)
    | Record(c: nat)
    | GiveUp(c: nat)
    | Clean(key: string)

  /** The entry suppresses a notification now. */
  predicate Recent(last: Option<int>, now: int) { last.Some? && last.value + MIN_INTERVAL > now }

  /** The entry is old enough to be cleaned. */
  predicate Expired(last: int, now: int) { last + MIN_INTERVAL < now }

  function Entry(recent: map<string, int>, key: string): Option<int> {
    if key in recent then Some(recent[key]) else None
  }

  function Init(clock: int): State { State(clock, map[], map[], []) }

  predicate Enabled(s: State, e: Event) {
    match e
    case Tick(now) => now >= s.clock
    case Lookup(c, key) => c !in s.calls
    case Decide(c) => c in s.calls && s.calls[c].Looked?
    case Record(c) => c in s.calls && s.calls[c].Sending?
    case GiveUp(c) => c in s.calls && s.calls[c].Sending?
    case Clean(key) => key in s.recent
  }

  function Apply(s: State, e: Event): State
    requires Enabled(s, e)
  {
    match e
    case Tick(now) => s.(clock := now)
    case Lookup(c, key) =>
      s.(calls := s.calls[c := Looked(key, Entry(s.recent, key), |s.log|)])
    case Decide(c) =>
      s.(calls := s.calls[c := if Recent(s.calls[c].last, s.clock) then Done(true) else Sending(s.calls[c].key)])
    case Record(c) =>
      var key := s.calls[c].key;
      s.(recent := s.recent[key := s.clock], calls := s.calls[c := Done(false)], log := s.log + [Sent(key, s.clock)])
    case GiveUp(c) => s.(calls := s.calls[c := Done(false)])
    case Clean(key) => if Expired(s.recent[key], s.clock) then s.(recent := s.recent - {key}) else s
  }

  function Exec(clock: int, es: seq<Event>): Option<State> {
    if es == [] then Some(Init(clock)) else
    var before := Exec(clock, es[..|es| - 1]);
    var e := es[|es| - 1];
    if before.Some? && Enabled(before.value, e) then Some(Apply(before.value, e)) else None
  }

  // ----- the invariant

  /**
   What an entry has to say about the first `seen` successes: it is one of them, and none that is left out counts.
   */
  ghost predicate Faithful(log: seq<Sent>, seen: nat, clock: int, key: string, last: Option<int>) {
    && seen <= |log|
    && (last.Some? ==> Sent(key, last.value) in log[..seen])
    && (forall i :: 0 <= i < seen && log[i].key == key ==>
          (last.Some? && last.value >= log[i].time) || Expired(log[i].time, clock))
  }

  ghost predicate CallOk(s: State, call: Call) {
    call.Looked? ==> Faithful(s.log, call.seen, s.clock, call.key, call.last)
  }

  ghost predicate Inv(s: State) {
    && (forall i :: 0 <= i < |s.log| ==> s.log[i].time <= s.clock)
    && (forall key :: Faithful(s.log, |s.log|, s.clock, key, Entry(s.recent, key)))
    && (forall c :: c in s.calls ==> CallOk(s, s.calls[c]))
  }

  /** Time passing and successes after the lookup do not make an entry unfaithful. */
  lemma StaysFaithful(log: seq<Sent>, more: seq<Sent>, seen: nat, clock: int, now: int, key: string, last: Option<int>)
    requires Faithful(log, seen, clock, key, last) && clock <= now
    ensures Faithful(log + more, seen, now, key, last)
  {
    assert (log + more)[..seen] == log[..seen];
  }

  lemma RecordStep(s: State, c: nat)
    requires Inv(s) && Enabled(s, Record(c))
    ensures Inv(Apply(s, Record(c)))
  {
    var t := Apply(s, Record(c));
    forall key ensures Faithful(t.log, |t.log|, t.clock, key, Entry(t.recent, key)) {
      assert Faithful(s.log, |s.log|, s.clock, key, Entry(s.recent, key));
      assert s.log[..|s.log|] == s.log && t.log[..|t.log|] == t.log;
    }
    forall d | d in t.calls ensures CallOk(t, t.calls[d]) {
      if d != c && s.calls[d].Looked? {
        assert CallOk(s, s.calls[d]);
        StaysFaithful(s.log, [Sent(s.calls[c].key, s.clock)], s.calls[d].seen, s.clock, s.clock, s.calls[d].key,
                      s.calls[d].last);
      }
    }
  }

  lemma Step(s: State, e: Event)
    requires Inv(s) && Enabled(s, e)
    ensures Inv(Apply(s, e))
  {
    if e.Record? {
      RecordStep(s, e.c);
    } else {
      var t := Apply(s, e);
      forall key ensures Faithful(t.log, |t.log|, t.clock, key, Entry(t.recent, key)) {
        assert Faithful(s.log, |s.log|, s.clock, key, Entry(s.recent, key));
      }
      forall d | d in t.calls ensures CallOk(t, t.calls[d]) {
        if d in s.calls {
          assert CallOk(s, s.calls[d]);
        } else {
          assert Faithful(s.log, |s.log|, s.clock, e.key, Entry(s.recent, e.key));
        }
      }
    }
  }

  lemma {:induction false} Safety(clock: int, es: seq<Event>)
    ensures Exec(clock, es).Some? ==> Inv(Exec(clock, es).value)
  {
    if es != [] {
      var before := Exec(clock, es[..|es| - 1]);
      Safety(clock, es[..|es| - 1]);
      if before.Some? && Enabled(before.value, es[|es| - 1]) {
        Step(before.value, es[|es| - 1]);
      }
    }
  }

  // ----- what holds after every run

  /**
   What a map that is never cleaned would decide: some success recorded before the lookup is less than 30 seconds old.
   */
  ghost predicate RecentIn(log: seq<Sent>, seen: nat, key: string, now: int)
    requires seen <= |log|
  {
    exists i :: 0 <= i < seen && log[i].key == key && now - log[i].time < 30_000_000_000
  }

  lemma DecidesAsHistory(s: State, c: nat)
    requires Inv(s) && Enabled(s, Decide(c))
    ensures s.calls[c].seen <= |s.log|
    ensures Recent(s.calls[c].last, s.clock) <==> RecentIn(s.log, s.calls[c].seen, s.calls[c].key, s.clock)
  {
    var call := s.calls[c];
    assert CallOk(s, call);
    if Recent(call.last, s.clock) {
      var i :| 0 <= i < call.seen && s.log[..call.seen][i] == Sent(call.key, call.last.value);
      assert s.log[i].key == call.key;
    }
  }

  /** The cleaned map decides exactly as the full history would. */
  lemma CleaningIsInvisible(clock: int, es: seq<Event>, c: nat)
    requires Exec(clock, es).Some? && Enabled(Exec(clock, es).value, Decide(c))
    ensures var s := Exec(clock, es).value;
            s.calls[c].seen <= |s.log| &&
            (Apply(s, Decide(c)).calls[c] == Done(true) <==> RecentIn(s.log, s.calls[c].seen, s.calls[c].key, s.clock))
  {
    Safety(clock, es);
    DecidesAsHistory(Exec(clock, es).value, c);
  }

  // ----- payment identifiers

  function PaymentIdentifier(pubkey: string, hash: string): string { pubkey + "|" + hash }

  /** The separator of one reading lies inside the hash of the other. */
  ghost predicate Shifted(p: string, h: string, q: string, k: string) {
    exists t: string :: q == p + "|" + t && h == t + "|" + k
  }

  lemma ShiftedCollides(p: string, h: string, q: string, k: string)
    requires Shifted(p, h, q, k)
    ensures PaymentIdentifier(p, h) == PaymentIdentifier(q, k)
  {
    var t: string :| q == p + "|" + t && h == t + "|" + k;
    assert p + "|" + (t + "|" + k) == p + "|" + t + "|" + k;
  }

  lemma LongerShifts(p: string, h: string, q: string, k: string)
    requires PaymentIdentifier(p, h) == PaymentIdentifier(q, k) && |p| < |q|
    ensures Shifted(p, h, q, k) && '|' in q
  {
    var id := PaymentIdentifier(p, h);
    var t := q[|p| + 1..];
    assert q == id[..|q|] && p == id[..|p|] && id[|p|] == '|' && q[|p|] == '|';
    assert q == p + "|" + t;
    assert h == id[|p| + 1..] && k == id[|q| + 1..] && id[|q|] == '|';
    assert h == t + "|" + k;
  }

  /** Two payments share an identifier exactly when they are the same or one reading shifts the separator. */
  lemma Collisions(p: string, h: string, q: string, k: string)
    ensures PaymentIdentifier(p, h) == PaymentIdentifier(q, k) <==>
            (p == q && h == k) || Shifted(p, h, q, k) || Shifted(q, k, p, h)
  {
    if PaymentIdentifier(p, h) == PaymentIdentifier(q, k) {
      if |p| < |q| {
        LongerShifts(p, h, q, k);
      } else if |q| < |p| {
        LongerShifts(q, k, p, h);
      } else {
        assert p == PaymentIdentifier(p, h)[..|p|] && h == PaymentIdentifier(p, h)[|p| + 1..];
        assert q == PaymentIdentifier(q, k)[..|q|] && k == PaymentIdentifier(q, k)[|q| + 1..];
      }
    }
    if Shifted(p, h, q, k) { ShiftedCollides(p, h, q, k); }
    if Shifted(q, k, p, h) { ShiftedCollides(q, k, p, h); }
  }

  /** Public keys without the separator, such as hex keys, never collide. */
  lemma IdentifierInjective(p: string, h: string, q: string, k: string)
    requires '|' !in p && '|' !in q && PaymentIdentifier(p, h) == PaymentIdentifier(q, k)
    ensures p == q && h == k
  {
    Collisions(p, h, q, k);
    if |p| < |q| {
      LongerShifts(p, h, q, k);
    } else if |q| < |p| {
      LongerShifts(q, k, p, h);
    }
  }
}
