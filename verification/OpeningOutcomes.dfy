/**
 How flights end: which HTLCs are failed, resumed or sent on, and that every intercepted HTLC gets the result of exactly
 one flight.
 */
module OpeningOutcomes {
  import opened Base
  import opened OpeningFees
  import opened ChannelOpening

  // ----- rows that flights have read

  /** The row of a flight was found under its hash or as its probe. */
  ghost predicate HitOk(cfg: Config, s: State, h: Hash, f: Flight) {
    match f.stage
    case Started => true
    case Looked(found) => found.Some? ==> found.value.payment in s.rows && Matches(cfg, found.value.payment, h)
    case Opening(_) => h in s.rows
    case Recording(_, _) => h in s.rows
    case Forwarding(hit, _) => hit.payment in s.rows && Matches(cfg, hit.payment, h)
  }

  ghost predicate HitsOk(cfg: Config, s: State) { forall h :: h in s.flights ==> HitOk(cfg, s, h, s.flights[h]) }

  lemma HitKept(cfg: Config, s: State, e: Event, h: Hash, f: Flight)
    requires FlightsOk(s) && Enabled(cfg, s, e) && HitOk(cfg, s, h, f)
    ensures HitOk(cfg, Apply(cfg, s, e), h, f)
  {
    forall p | p in s.rows ensures p in Apply(cfg, s, e).rows { RowStep(cfg, s, e, p); }
  }

  /** A flight that moves on keeps to the row it has found. */
  lemma HitMoves(cfg: Config, s: State, e: Event, h: Hash)
    requires Enabled(cfg, s, e) && h in s.flights && HitOk(cfg, s, h, s.flights[h]) && FlightOk(s, h, s.flights[h])
    requires h in Apply(cfg, s, e).flights && Apply(cfg, s, e).flights[h].stage != s.flights[h].stage
    ensures HitOk(cfg, s, h, Apply(cfg, s, e).flights[h])
  {
    if e.Decide? {
      OnlyDirectHitsOpen(cfg, s.flights[h].req, s.flights[h].stage.found, e.env);
    }
  }

  lemma HitsStep(cfg: Config, s: State, e: Event)
    requires FlightsOk(s) && HitsOk(cfg, s) && Enabled(cfg, s, e)
    ensures HitsOk(cfg, Apply(cfg, s, e))
  {
    var t := Apply(cfg, s, e);
    forall h | h in t.flights ensures HitOk(cfg, t, h, t.flights[h]) {
      if h in s.flights {
        assert HitOk(cfg, s, h, s.flights[h]) && FlightOk(s, h, s.flights[h]);
        if t.flights[h].stage != s.flights[h].stage { HitMoves(cfg, s, e, h); }
      }
      HitKept(cfg, s, e, h, t.flights[h]);
    }
  }

  lemma {:induction false} HitsSafe(cfg: Config, es: seq<Event>)
    ensures Exec(cfg, es).Some? ==> HitsOk(cfg, Exec(cfg, es).value)
  {
    if es != [] {
      var front := es[..|es| - 1];
      HitsSafe(cfg, front);
      Safety(cfg, front);
      if Exec(cfg, es).Some? {
        HitsStep(cfg, Exec(cfg, front).value, es[|es| - 1]);
      }
    }
  }

  // ----- ends

  /** The step ends a flight with an answer. */
  ghost predicate Lands(cfg: Config, s: State, e: Event, a: Answered) {
    Enabled(cfg, s, e) && Apply(cfg, s, e).answers == s.answers + [a]
  }

  /** Steps that end the flight for a hash, and with what: `found` is what the flight has looked up. */
  ghost predicate EndsWith(cfg: Config, s: State, e: Event, f: Flight, result: Result) {
    match e
    case PaymentInfo(_, lookup) => lookup.LookupError? && result == Fail(TEMPORARY_NODE_FAILURE)
    case Decide(_, env) =>
      && f.stage.Looked? && (result.Resume? || result.Fail?)
      && (result == Resume <==> PassesOn(f.req, f.stage.found, env))
      && (result == Fail(INCORRECT_OR_UNKNOWN_PAYMENT_DETAILS) <==>
          Probing(f.req, f.stage.found, env) && env.connected == Some(true) && f.stage.found.value.row.funding.None?)
      && (result == Fail(TEMPORARY_CHANNEL_FAILURE) <==>
          (Asks(f.stage.found, env) && env.connected.None?) || TooLate(cfg, f.req, f.stage.found, env))
      && (result.Fail? ==> result.code in {INCORRECT_OR_UNKNOWN_PAYMENT_DETAILS, TEMPORARY_CHANNEL_FAILURE})
    case OpenChannel(_, point, _) => point.None? && result == Fail(TEMPORARY_CHANNEL_FAILURE)
    case SetFundingTx(_, ok, _) => !ok && result == Fail(TEMPORARY_CHANNEL_FAILURE)
    case Finish(_, active) =>
      if active then result.ResumeWithOnion? else result == Fail(TEMPORARY_CHANNEL_FAILURE)
    case _ => false
  }

  /** A flight ends with one of these steps and this result, for everyone in it. */
  lemma EndsExactly(cfg: Config, s: State, e: Event, a: Answered)
    requires Lands(cfg, s, e, a)
    ensures (e.PaymentInfo? || e.Decide? || e.OpenChannel? || e.SetFundingTx? || e.Finish?) && e.hash in s.flights
    ensures var f := s.flights[e.hash];
            a.req == f.req && a.joined == f.joined && EndsWith(cfg, s, e, f, a.result)
  {
    var t := Apply(cfg, s, e);
    assert t.answers[|s.answers|] == a;
    if e.Decide? {
      GuardsDecide(cfg, s.flights[e.hash].req, s.flights[e.hash].stage.found, e.env);
    }
  }

  /**
   In every run, an HTLC whose hash no row matches is resumed, unless the lookup failed, or the next hop is known and
   the node could not say whether it is connected.
   */
  lemma UnmatchedIsResumed(cfg: Config, es: seq<Event>, e: Event, a: Answered)
    requires Exec(cfg, es).Some? && Lands(cfg, Exec(cfg, es).value, e, a)
    requires forall p :: p in Exec(cfg, es).value.rows ==> !Matches(cfg, p, a.req.hash)
    ensures if e.PaymentInfo? then e.lookup.LookupError? && a.result == Fail(TEMPORARY_NODE_FAILURE)
            else e.Decide? && a.result == if e.env.nextHop.Some? && e.env.connected.None?
                                          then Fail(TEMPORARY_CHANNEL_FAILURE) else Resume
  {
    var s := Exec(cfg, es).value;
    HitsSafe(cfg, es);
    Safety(cfg, es);
    EndsExactly(cfg, s, e, a);
    var f := s.flights[e.hash];
    assert FlightOk(s, e.hash, f) && HitOk(cfg, s, e.hash, f);
  }

  // ----- every HTLC gets the result of one flight

  /** The HTLCs of a flight, in the order they came. */
  function Aboard(s: State, h: Hash): seq<Request> {
    if h in s.flights then [s.flights[h].req] + s.flights[h].joined else []
  }

  /** The HTLCs for a hash that got the result of a flight, in the order the flights ended. */
  function Landed(answers: seq<Answered>, h: Hash): seq<Request> {
    if answers == [] then [] else
    var a := answers[|answers| - 1];
    Landed(answers[..|answers| - 1], h) + if a.req.hash == h then [a.req] + a.joined else []
  }

  /** The HTLCs that were intercepted for a hash; when the process ends, those that are aboard are gone. */
  function Intercepted(cfg: Config, es: seq<Event>, h: Hash): seq<Request> {
    if es == [] then [] else
    var front, e := es[..|es| - 1], es[|es| - 1];
    var before := Intercepted(cfg, front, h);
    match e
    case Intercept(req) => if req.hash == h then before + [req] else before
    case Panic(_, _) => Gone(before, cfg, front, h)
    case Restart(_) => Gone(before, cfg, front, h)
    case _ => before
  }

  function Gone(before: seq<Request>, cfg: Config, es: seq<Event>, h: Hash): seq<Request> {
    if Exec(cfg, es).Some? && |Aboard(Exec(cfg, es).value, h)| <= |before|
    then before[..|before| - |Aboard(Exec(cfg, es).value, h)|] else before
  }

  lemma LandedStep(answers: seq<Answered>, a: Answered, h: Hash)
    ensures Landed(answers + [a], h) == Landed(answers, h) + if a.req.hash == h then [a.req] + a.joined else []
  {
    assert (answers + [a])[..|answers|] == answers;
  }

  /** What a step does to the HTLCs of a hash that are aboard or have a result. */
  ghost predicate Moved(s: State, e: Event, t: State, h: Hash) {
    match e
    case Intercept(req) =>
      t.answers == s.answers && Aboard(t, h) == Aboard(s, h) + if req.hash == h then [req] else []
    case Panic(_, _) => t.answers == s.answers && Aboard(t, h) == []
    case Restart(_) => t.answers == s.answers && Aboard(t, h) == []
    case _ => Landed(t.answers, h) + Aboard(t, h) == Landed(s.answers, h) + Aboard(s, h)
  }

  lemma NoneLands(cfg: Config, s: State, e: Event, h: Hash)
    requires Enabled(cfg, s, e) && Apply(cfg, s, e).answers == s.answers
    ensures Moved(s, e, Apply(cfg, s, e), h)
  {
    var t := Apply(cfg, s, e);
    if !e.Intercept? && !e.Panic? && !e.Restart? {
      assert Aboard(t, h) == Aboard(s, h);
    }
  }

  lemma OneLands(cfg: Config, s: State, e: Event, a: Answered)
    requires Lands(cfg, s, e, a)
    ensures !e.Intercept? && !e.Panic? && !e.Restart? && !e.Register? && e.hash in s.flights
    ensures [a.req] + a.joined == Aboard(s, e.hash) && Apply(cfg, s, e).flights == s.flights - {e.hash}
  {
    EndsExactly(cfg, s, e, a);
  }

  /** One more comes aboard, all of a flight get its result, or all are gone. */
  lemma AboardStep(cfg: Config, s: State, e: Event, h: Hash)
    requires FlightsOk(s) && Enabled(cfg, s, e)
    ensures Moved(s, e, Apply(cfg, s, e), h)
  {
    var t := Apply(cfg, s, e);
    if t.answers == s.answers {
      NoneLands(cfg, s, e, h);
    } else {
      var a := AnswerOf(cfg, s, e);
      OneLands(cfg, s, e, a);
      assert a.req.hash == e.hash by {
        assert FlightOk(s, e.hash, s.flights[e.hash]) && a.req == Aboard(s, e.hash)[0];
      }
      LandingMoves(s, t, a, h);
    }
  }

  lemma LandingMoves(s: State, t: State, a: Answered, h: Hash)
    requires t.answers == s.answers + [a] && t.flights == s.flights - {a.req.hash}
    requires [a.req] + a.joined == Aboard(s, a.req.hash)
    ensures Landed(t.answers, h) + Aboard(t, h) == Landed(s.answers, h) + Aboard(s, h)
  {
    LandedStep(s.answers, a, h);
  }

  lemma AnswerOf(cfg: Config, s: State, e: Event) returns (a: Answered)
    requires Enabled(cfg, s, e) && Apply(cfg, s, e).answers != s.answers
    ensures Lands(cfg, s, e, a)
  {
    a := Apply(cfg, s, e).answers[|s.answers|];
  }

  /**
   In every run, the HTLCs intercepted for a hash are those that got the result of a flight followed by those that are
   aboard of the running one: none is left out, none is answered twice, and they are answered in order.
   */
  lemma {:induction false} EveryHtlcOnce(cfg: Config, es: seq<Event>, h: Hash)
    requires Exec(cfg, es).Some?
    ensures var s := Exec(cfg, es).value; Intercepted(cfg, es, h) == Landed(s.answers, h) + Aboard(s, h)
  {
    if es != [] {
      var front := es[..|es| - 1];
      EveryHtlcOnce(cfg, front, h);
      Safety(cfg, front);
      AboardStep(cfg, Exec(cfg, front).value, es[|es| - 1], h);
    }
  }
}
