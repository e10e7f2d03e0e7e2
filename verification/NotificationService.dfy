/** The notification service: the map behind its lock, the regions of a call, and the cleaning loop. */
module NotificationService {
  import opened Base
  import opened NotificationCache

  class Service {
    var recentNotifications: map<string, int>
    var clock: int
    ghost var calls: map<nat, Call>
    ghost var log: seq<Sent>

    ghost function View(): State
      reads this
    {
      State(clock, recentNotifications, calls, log)
    }

    ghost predicate Valid()
      reads this
    {
      Inv(View())
    }

    twostate predicate Did(e: Event)
      reads this
    {
      Enabled(old(View()), e) && View() == Apply(old(View()), e) && Valid()
    }

    constructor (now: int)
      ensures View() == Init(now) && Valid()
    {
      recentNotifications, clock, calls, log := map[], now, map[], [];
    }

    /** The clock never runs backwards. */
    method Now() returns (now: int)
      requires Valid()
      modifies this`clock
      ensures now == clock && Did(Tick(now))
    {
      now :| now >= clock;
      Step(View(), Tick(now));
      clock := now;
    }

    /** The first locked region of a call. */
    method Lookup(c: nat, pubkey: string, hash: string) returns (last: Option<int>)
      requires Valid() && c !in calls
      modifies this`calls
      ensures Did(Event.Lookup(c, PaymentIdentifier(pubkey, hash))) && last == calls[c].last
    {
      Step(View(), Event.Lookup(c, PaymentIdentifier(pubkey, hash)));
      var key := pubkey + "|" + hash;
      last := if key in recentNotifications then Some(recentNotifications[key]) else None;
      calls := calls[c := Looked(key, last, |log|)];
    }

    /** The comparison with the clock, outside the lock. */
    method Decide(c: nat, last: Option<int>) returns (suppressed: bool)
      requires Valid() && c in calls && calls[c].Looked? && calls[c].last == last
      modifies this`clock, this`calls
      ensures clock >= old(clock) && Valid() && recentNotifications == old(recentNotifications) && log == old(log)
      ensures suppressed <==> RecentIn(log, old(calls[c].seen), old(calls[c].key), clock)
      ensures calls == old(calls)[c := if suppressed then Done(true) else Sending(old(calls[c].key))]
    {
      var now := Now();
      ghost var s := View();
      assert CallOk(s, s.calls[c]);
      Step(s, Event.Decide(c));
      DecidesAsHistory(s, c);
      suppressed := last.Some? && last.value + MIN_INTERVAL > now;
      calls := calls[c := if suppressed then Done(true) else Sending(calls[c].key)];
    }

    /** The second locked region, when a registration was notified. */
    method Record(c: nat, pubkey: string, hash: string)
      requires Valid() && c in calls && calls[c] == Sending(PaymentIdentifier(pubkey, hash))
      modifies this
      ensures Valid() && clock >= old(clock)
      ensures View() == Apply(old(View()).(clock := clock), Event.Record(c))
    {
      var now := Now();
      Step(View(), Event.Record(c));
      recentNotifications := recentNotifications[pubkey + "|" + hash := now];
      log := log + [Sent(calls[c].key, now)];
      calls := calls[c := Done(false)];
    }

    /** One round of the cleaner: what was over 30 seconds old when the round began goes, and nothing that is not. */
    method CleanRound()
      requires Valid()
      modifies this`recentNotifications, this`clock
      ensures Valid() && clock >= old(clock)
      ensures forall key :: key in recentNotifications ==>
                key in old(recentNotifications) && recentNotifications[key] == old(recentNotifications)[key]
      ensures forall key :: key in recentNotifications ==> old(clock) - recentNotifications[key] <= 30_000_000_000
      ensures forall key :: key in old(recentNotifications) && key !in recentNotifications ==>
                clock - old(recentNotifications)[key] > 30_000_000_000
    {
      var rest := recentNotifications.Keys;
      while rest != {}
        invariant Valid() && clock >= old(clock) && rest <= recentNotifications.Keys
        invariant forall key :: key in recentNotifications ==>
                    key in old(recentNotifications) && recentNotifications[key] == old(recentNotifications)[key]
        invariant forall key :: key in old(recentNotifications) && key !in recentNotifications ==>
                    Expired(old(recentNotifications)[key], clock)
        invariant forall key :: key in recentNotifications && key !in rest ==>
                    !Expired(recentNotifications[key], old(clock))
      {
        var id :| id in rest;
        var now := Now();
        Step(View(), Clean(id));
        if recentNotifications[id] + MIN_INTERVAL < now {
          recentNotifications := recentNotifications - {id};
        }
        rest := rest - {id};
      }
    }
  }
}
