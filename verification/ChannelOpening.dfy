/**
 Just-in-time channel opens as a step system.  HTLCs are evaluated in flights, one at a time per payment hash;
 every database statement and every call to the node is one step, and registrations, flights for other hashes,
 failures and restarts may come between any two of them.
 */
module ChannelOpening {
  import opened Base
  import opened OpeningFees

  type Hash = string
  type Node = string
  type OutPoint = string

  const TEMPORARY_CHANNEL_FAILURE := 0x1007
  const TEMPORARY_NODE_FAILURE := 0x2002
  const INCORRECT_OR_UNKNOWN_PAYMENT_DETAILS := 0x400F

  /** A row of the payments table; its key is the payment hash. */
  datatype Row = Row(secret: Option<string>, destination: Node, incoming: Int64, outgoing: Int64,
                     minMsat: Uint64, proportional: Uint32, funding: Option<OutPoint>)

  datatype Request = Request(hash: Hash, part: Uint64, incomingExpiry: Uint32, outgoingExpiry: Uint32)

  /** The row a lookup returned, with its key. */
  datatype Hit = Hit(payment: Hash, row: Row)

  /** `probe` stands for the hash of the probing prefix followed by the payment hash. */
  datatype Config = Config(probe: Hash -> Hash, timeLockDelta: Uint32)

  /** What the node, the clock and the fee service say when the guards are evaluated. */
  datatype Env = Env(nextHop: Option<Node>, connected: Option<bool>, paramsParse: bool, expired: bool, cheaper: bool)

  datatype Result =
    | Resume
    | Fail(code: nat)
    | ResumeWithOnion(destination: Node, point: OutPoint, amount: Uint64, total: Uint64)

  datatype Decision = Answer(result: Result) | Open | Forward(point: OutPoint)

  datatype Stage =
    | Started
    | Looked(found: Option<Hit>)
    | Opening(row: Row)
    | Recording(row: Row, point: OutPoint)
    | Forwarding(hit: Hit, point: OutPoint)

  /** A running flight: the request that leads it and is evaluated, and those that joined and get its result. */
  datatype Flight = Flight(req: Request, joined: seq<Request>, stage: Stage)

  /** A finished flight, the payment it forwarded for, if any, and its result. */
  datatype Answered = Answered(req: Request, joined: seq<Request>, payment: Option<Hash>, result: Result)

  /** Table, running flights, and history: channels opened and channels lost sight of per payment, results. */
  datatype State = State(rows: map<Hash, Row>, flights: map<Hash, Flight>,
                         opens: multiset<Hash>, lost: multiset<Hash>, answers: seq<Answered>)

  datatype Lookup = LookupError | Missing | Found(payment: Hash)

  datatype Event =
    | Register(payment: Hash, row: Row)
    | Intercept(req: Request)
    | PaymentInfo(hash: Hash, lookup: Lookup)
    | Decide(hash: Hash, env: Env)
    | OpenChannel(hash: Hash, point: Option<OutPoint>, happened: bool)
    | SetFundingTx(hash: Hash, ok: bool, written: bool)
    | Finish(hash: Hash, active: bool)
    | Panic(hash: Hash, opens: set<Hash>)
    | Restart(opens: set<Hash>)

  const INIT := State(map[], map[], multiset{}, multiset{}, [])

  /** The row condition of the lookup: the payment hash or its probing hash. */
  predicate Matches(cfg: Config, payment: Hash, hash: Hash) { payment == hash || cfg.probe(payment) == hash }

  /** The guards between the lookup and the open, in the order they are evaluated. */
  function Guards(cfg: Config, req: Request, found: Option<Hit>, env: Env): Decision {
    var registered := found.Some? && found.value.row.secret.Some?;
    var isProbe := registered && found.value.payment != req.hash;
    if registered && env.nextHop.Some? && env.nextHop.value != found.value.row.destination then Answer(Resume)
    else if env.nextHop.None? && !registered then Answer(Resume)
    else if env.connected.None? then Answer(Fail(TEMPORARY_CHANNEL_FAILURE))
    else if isProbe && !env.connected.value then Answer(Resume)
    else if isProbe && found.value.row.funding.None? then Answer(Fail(INCORRECT_OR_UNKNOWN_PAYMENT_DETAILS))
    else if !registered then Answer(Resume)
    else if found.value.row.funding.Some? then Forward(found.value.row.funding.value)
    else if req.incomingExpiry - req.outgoingExpiry < cfg.timeLockDelta then Answer(Fail(TEMPORARY_CHANNEL_FAILURE))
    else if !env.paramsParse then Answer(Fail(TEMPORARY_CHANNEL_FAILURE))
    else if env.expired && !env.cheaper then Answer(Fail(TEMPORARY_CHANNEL_FAILURE))
    else Open
  }

  // ----- what the guards decide, one outcome at a time

  predicate Registered(found: Option<Hit>) { found.Some? && found.value.row.secret.Some? }

  /**
   The payment was registered and this HTLC is for its destination: the next hop is that node, or nobody's channel.
   */
  predicate ForDestination(found: Option<Hit>, env: Env) {
    Registered(found) && (env.nextHop.Some? ==> env.nextHop.value == found.value.row.destination)
  }

  predicate Direct(req: Request, found: Option<Hit>, env: Env) {
    ForDestination(found, env) && found.value.payment == req.hash
  }

  predicate Probing(req: Request, found: Option<Hit>, env: Env) {
    ForDestination(found, env) && found.value.payment != req.hash
  }

  /** Somebody is to be asked whether the node the HTLC goes to is connected. */
  predicate Asks(found: Option<Hit>, env: Env) {
    ForDestination(found, env) || (!Registered(found) && env.nextHop.Some?)
  }

  /** Not for us: no registration, a registration for another node than the next one, or a probe for an absent node. */
  predicate PassesOn(req: Request, found: Option<Hit>, env: Env) {
    || (!Registered(found) && (env.nextHop.None? || env.connected.Some?))
    || (Registered(found) && !ForDestination(found, env))
    || (Probing(req, found, env) && env.connected == Some(false))
  }

  /** A direct hit without a channel that comes too late or with parameters that are not in force. */
  predicate TooLate(cfg: Config, req: Request, found: Option<Hit>, env: Env) {
    && Direct(req, found, env) && env.connected.Some? && found.value.row.funding.None?
    && (req.incomingExpiry - req.outgoingExpiry < cfg.timeLockDelta || !env.paramsParse
        || (env.expired && !env.cheaper))
  }

  predicate MayOpen(cfg: Config, req: Request, found: Option<Hit>, env: Env) {
    && Direct(req, found, env) && env.connected.Some? && found.value.row.funding.None?
    && req.incomingExpiry - req.outgoingExpiry >= cfg.timeLockDelta && env.paramsParse && (env.expired ==> env.cheaper)
  }

  /** A registered payment whose channel is known; a probe needs the node to be there. */
  predicate MayUse(req: Request, found: Option<Hit>, env: Env, point: OutPoint) {
    && ForDestination(found, env) && found.value.row.funding == Some(point)
    && (if found.value.payment == req.hash then env.connected.Some? else env.connected == Some(true))
  }

  /** A decision and when it is taken; there is no other. */
  ghost predicate Decides(cfg: Config, req: Request, found: Option<Hit>, env: Env, d: Decision) {
    && (d == Answer(Resume) <==> PassesOn(req, found, env))
    && (d == Answer(Fail(INCORRECT_OR_UNKNOWN_PAYMENT_DETAILS)) <==>
        Probing(req, found, env) && env.connected == Some(true) && found.value.row.funding.None?)
    && (d == Answer(Fail(TEMPORARY_CHANNEL_FAILURE)) <==>
        (Asks(found, env) && env.connected.None?) || TooLate(cfg, req, found, env))
    && (d == Open <==> MayOpen(cfg, req, found, env))
    && (forall point :: d == Forward(point) <==> MayUse(req, found, env, point))
    && (d.Answer? ==> d.result in {Resume, Fail(INCORRECT_OR_UNKNOWN_PAYMENT_DETAILS), Fail(TEMPORARY_CHANNEL_FAILURE)})
  }

  /** Every decision of the guards is taken exactly under its condition. */
  lemma GuardsDecide(cfg: Config, req: Request, found: Option<Hit>, env: Env)
    ensures Decides(cfg, req, found, env, Guards(cfg, req, found, env))
  {
  }

  predicate Enabled(cfg: Config, s: State, e: Event) {
    match e
    case Register(p, row) => row.funding.None? && Accepts(row.minMsat, row.proportional, row.incoming, row.outgoing)
    case Intercept(req) => true
    case PaymentInfo(h, lookup) =>
      && h in s.flights && s.flights[h].stage.Started?
      && (lookup.Missing? ==> forall p :: p in s.rows ==> !Matches(cfg, p, h))
      && (lookup.Found? ==> lookup.payment in s.rows && Matches(cfg, lookup.payment, h))
    case Decide(h, env) => h in s.flights && s.flights[h].stage.Looked?
    case OpenChannel(h, point, happened) => h in s.flights && s.flights[h].stage.Opening? && (point.Some? ==> happened)
    case SetFundingTx(h, ok, written) => h in s.flights && s.flights[h].stage.Recording? && (ok ==> written)
    case Finish(h, active) =>
      h in s.flights && s.flights[h].stage.Forwarding? && s.flights[h].stage.hit.row.incoming != 0
    case Panic(h, opens) =>
      h in s.flights && s.flights[h].stage.Forwarding? && s.flights[h].stage.hit.row.incoming == 0
        && opens <= Calling(s)
    case Restart(opens) => opens <= Calling(s)
  }

  function Move(s: State, h: Hash, stage: Stage): State
    requires h in s.flights
  {
    s.(flights := s.flights[h := s.flights[h].(stage := stage)])
  }

  function Join(s: State, req: Request): State
    requires req.hash in s.flights
  {
    s.(flights := s.flights[req.hash := s.flights[req.hash].(joined := s.flights[req.hash].joined + [req])])
  }

  function Land(s: State, h: Hash, payment: Option<Hash>, result: Result): State
    requires h in s.flights
  {
    s.(flights := s.flights - {h},
       answers := s.answers + [Answered(s.flights[h].req, s.flights[h].joined, payment, result)])
  }

  /** Flights that opened a channel whose funding transaction is not recorded yet. */
  function Unrecorded(s: State): set<Hash> { set h | h in s.flights && s.flights[h].stage.Recording? }

  /** Flights that have asked the node to open a channel and have no answer yet. */
  function Calling(s: State): set<Hash> { set h | h in s.flights && s.flights[h].stage.Opening? }

  /** The process ends; the node has opened channels for some of the calls that were under way. */
  function Crash(s: State, opens: set<Hash>): State {
    s.(flights := map[], opens := s.opens + multiset(opens), lost := s.lost + multiset(Unrecorded(s)) + multiset(opens))
  }

  function Apply(cfg: Config, s: State, e: Event): State
    requires Enabled(cfg, s, e)
  {
    match e
    case Register(p, row) => if p in s.rows then s else s.(rows := s.rows[p := row])
    case Intercept(req) =>
      if req.hash in s.flights then Join(s, req) else s.(flights := s.flights[req.hash := Flight(req, [], Started)])
    case PaymentInfo(h, lookup) =>
      (match lookup
       case LookupError => Land(s, h, None, Fail(TEMPORARY_NODE_FAILURE))
       case Missing => Move(s, h, Looked(None))
       case Found(p) => Move(s, h, Looked(Some(Hit(p, s.rows[p])))))
    case Decide(h, env) =>
      var found := s.flights[h].stage.found;
      (match Guards(cfg, s.flights[h].req, found, env)
       case Answer(result) => Land(s, h, None, result)
       case Open => Move(s, h, Opening(found.value.row))
       case Forward(point) => Move(s, h, Forwarding(found.value, point)))
    case OpenChannel(h, point, happened) =>
      var t := if happened then s.(opens := s.opens + multiset{h}) else s;
      if point.Some? then Move(t, h, Recording(s.flights[h].stage.row, point.value))
      else Land(t, h, None, Fail(TEMPORARY_CHANNEL_FAILURE)).(lost := if happened then s.lost + multiset{h} else s.lost)
    case SetFundingTx(h, ok, written) =>
      var st := s.flights[h].stage;
      var t := if written && h in s.rows then s.(rows := s.rows[h := s.rows[h].(funding := Some(st.point))]) else s;
      if ok then Move(t, h, Forwarding(Hit(h, st.row), st.point))
      else Land(t, h, None, Fail(TEMPORARY_CHANNEL_FAILURE)).(lost := s.lost + multiset{h})
    case Finish(h, active) =>
      var hit, point := s.flights[h].stage.hit, s.flights[h].stage.point;
      if !active then Land(s, h, None, Fail(TEMPORARY_CHANNEL_FAILURE))
      else
        var amt := Sent(hit.row.incoming, hit.row.outgoing, s.flights[h].req.part);
        Land(s, h, Some(hit.payment), ResumeWithOnion(hit.row.destination, point, amt, hit.row.outgoing % TWO_64))
    case Panic(_, opens) => Crash(s, opens)
    case Restart(opens) => Crash(s, opens)
  }

  function Exec(cfg: Config, es: seq<Event>): Option<State> {
    if es == [] then Some(INIT) else
    var before := Exec(cfg, es[..|es| - 1]);
    var e := es[|es| - 1];
    if before.Some? && Enabled(cfg, before.value, e) then Some(Apply(cfg, before.value, e)) else None
  }

  // ----- the invariant

  /** A row a flight has read is still there, unchanged but for a funding transaction recorded since. */
  ghost predicate Current(s: State, hit: Hit) {
    && hit.payment in s.rows
    && s.rows[hit.payment].(funding := hit.row.funding) == hit.row
    && (hit.row.funding.Some? ==> s.rows[hit.payment] == hit.row)
  }

  ghost predicate FlightOk(s: State, h: Hash, f: Flight) {
    && f.req.hash == h
    && match f.stage
       case Started => true
       case Looked(found) =>
         found.Some? ==> Current(s, found.value) && (found.value.payment == h ==> s.rows[h] == found.value.row)
       case Opening(row) => h in s.rows && s.rows[h] == row && row.funding.None?
       case Recording(row, point) => h in s.rows && s.rows[h] == row && row.funding.None?
       case Forwarding(hit, point) => Current(s, hit) && s.rows[hit.payment].funding == Some(point)
  }

  ghost predicate FlightsOk(s: State) { forall h :: h in s.flights ==> FlightOk(s, h, s.flights[h]) }

  /** Opens of a payment that are neither lost nor accounted for by its row. */
  function Open1(s: State, p: Hash): nat {
    if (p in s.rows && s.rows[p].funding.Some?) || p in Unrecorded(s) then 1 else 0
  }

  ghost predicate OpensOk(s: State) { forall p :: s.opens[p] <= s.lost[p] + Open1(s, p) }

  ghost predicate AnswerOk(s: State, a: Answered) {
    a.result.ResumeWithOnion? ==>
      && a.payment.Some? && a.payment.value in s.rows
      && var row := s.rows[a.payment.value];
      && row.funding == Some(a.result.point) && row.destination == a.result.destination
      && row.outgoing % TWO_64 == a.result.total
      && row.incoming != 0 && a.result.amount == Sent(row.incoming, row.outgoing, a.req.part)
  }

  ghost predicate RowsOk(s: State) {
    forall p :: p in s.rows ==>
      Accepts(s.rows[p].minMsat, s.rows[p].proportional, s.rows[p].incoming, s.rows[p].outgoing)
  }

  ghost predicate Inv(s: State) {
    FlightsOk(s) && OpensOk(s) && RowsOk(s) && forall a :: a in s.answers ==> AnswerOk(s, a)
  }

  /** The guards let only a direct hit on an unfunded row through to the open. */
  lemma OnlyDirectHitsOpen(cfg: Config, req: Request, found: Option<Hit>, env: Env)
    ensures Guards(cfg, req, found, env) == Open <==>
            && found.Some? && found.value.payment == req.hash && found.value.row.secret.Some?
            && found.value.row.funding.None?
            && (env.nextHop.Some? ==> env.nextHop.value == found.value.row.destination) && env.connected.Some?
            && req.incomingExpiry - req.outgoingExpiry >= cfg.timeLockDelta
            && env.paramsParse && (env.expired ==> env.cheaper)
  {
  }

  /**
   Rows are added, and a funding transaction is written to an unfunded row by the flight for it; nothing else changes.
   */
  lemma RowStep(cfg: Config, s: State, e: Event, p: Hash)
    requires FlightsOk(s) && Enabled(cfg, s, e) && p in s.rows
    ensures var t := Apply(cfg, s, e);
            && p in t.rows && t.rows[p].(funding := s.rows[p].funding) == s.rows[p]
            && (s.rows[p].funding.Some? || !(e.SetFundingTx? && e.hash == p) ==> t.rows[p] == s.rows[p])
  {
    if e.SetFundingTx? {
      assert FlightOk(s, e.hash, s.flights[e.hash]);
    }
  }

  /** A flight that does not take the step is not disturbed by it. */
  lemma OtherFlight(cfg: Config, s: State, e: Event, g: Hash)
    requires FlightsOk(s) && Enabled(cfg, s, e) && g in s.flights && !(e.SetFundingTx? && e.hash == g)
    ensures FlightOk(Apply(cfg, s, e), g, s.flights[g])
  {
    var f := s.flights[g];
    assert FlightOk(s, g, f);
    if g in s.rows { RowStep(cfg, s, e, g); }
    if f.stage.Looked? && f.stage.found.Some? { RowStep(cfg, s, e, f.stage.found.value.payment); }
    if f.stage.Forwarding? { RowStep(cfg, s, e, f.stage.hit.payment); }
  }

  lemma FlightsStep(cfg: Config, s: State, e: Event)
    requires FlightsOk(s) && Enabled(cfg, s, e)
    ensures FlightsOk(Apply(cfg, s, e))
  {
    var t := Apply(cfg, s, e);
    forall g | g in t.flights ensures FlightOk(t, g, t.flights[g]) {
      if g in s.flights {
        assert FlightOk(s, g, s.flights[g]);
        if t.flights[g] == s.flights[g] {
          assert !(e.SetFundingTx? && e.hash == g);
          OtherFlight(cfg, s, e, g);
        } else {
          OwnStep(cfg, s, e, g);
        }
      }
    }
  }

  /** A flight that moves on is in order at its new stage. */
  lemma OwnStep(cfg: Config, s: State, e: Event, h: Hash)
    requires Enabled(cfg, s, e) && h in s.flights && FlightOk(s, h, s.flights[h])
    requires h in Apply(cfg, s, e).flights && Apply(cfg, s, e).flights[h] != s.flights[h]
    ensures FlightOk(Apply(cfg, s, e), h, Apply(cfg, s, e).flights[h])
  {
    if e.Decide? {
      OnlyDirectHitsOpen(cfg, s.flights[h].req, s.flights[h].stage.found, e.env);
    }
  }

  /** The step opens a channel for the payment. */
  predicate Opens(e: Event, p: Hash) {
    match e
    case OpenChannel(h, _, happened) => h == p && happened
    case Panic(_, opens) => p in opens
    case Restart(opens) => p in opens
    case _ => false
  }

  /** The step loses sight of a channel opened for the payment: the open, the funding write or the process failed. */
  predicate Loses(s: State, e: Event, p: Hash) {
    match e
    case OpenChannel(h, point, happened) => h == p && happened && point.None?
    case SetFundingTx(h, ok, _) => h == p && !ok
    case Panic(_, opens) => p in opens || p in Unrecorded(s)
    case Restart(opens) => p in opens || p in Unrecorded(s)
    case _ => false
  }

  lemma CountStep(cfg: Config, s: State, e: Event, p: Hash)
    requires Enabled(cfg, s, e)
    ensures Apply(cfg, s, e).opens[p] == s.opens[p] + if Opens(e, p) then 1 else 0
    ensures Apply(cfg, s, e).lost[p] == s.lost[p] + if Loses(s, e, p) then 1 else 0
  {
  }

  /** A channel that is opened is accounted for by the payment's row or flight, or is counted as lost. */
  lemma Accounted(cfg: Config, s: State, e: Event, p: Hash)
    requires FlightsOk(s) && Enabled(cfg, s, e)
    ensures Open1(s, p) + (if Opens(e, p) then 1 else 0) <= Open1(Apply(cfg, s, e), p) + if Loses(s, e, p) then 1 else 0
  {
    if p in s.rows { RowStep(cfg, s, e, p); }
    if p in s.flights { assert FlightOk(s, p, s.flights[p]); }
  }

  lemma OpensStep(cfg: Config, s: State, e: Event)
    requires FlightsOk(s) && OpensOk(s) && Enabled(cfg, s, e)
    ensures OpensOk(Apply(cfg, s, e))
  {
    forall p ensures var t := Apply(cfg, s, e); t.opens[p] <= t.lost[p] + Open1(t, p) {
      CountStep(cfg, s, e, p);
      Accounted(cfg, s, e, p);
    }
  }

  lemma AnswersStep(cfg: Config, s: State, e: Event)
    requires FlightsOk(s) && (forall a :: a in s.answers ==> AnswerOk(s, a)) && Enabled(cfg, s, e)
    ensures forall a :: a in Apply(cfg, s, e).answers ==> AnswerOk(Apply(cfg, s, e), a)
  {
    var t := Apply(cfg, s, e);
    forall a | a in t.answers ensures AnswerOk(t, a) {
      if a in s.answers {
        assert AnswerOk(s, a);
        if a.result.ResumeWithOnion? { RowStep(cfg, s, e, a.payment.value); }
      } else {
        NewAnswer(cfg, s, e, a);
      }
    }
  }

  lemma NewAnswer(cfg: Config, s: State, e: Event, a: Answered)
    requires FlightsOk(s) && Enabled(cfg, s, e) && a in Apply(cfg, s, e).answers && a !in s.answers
    ensures AnswerOk(Apply(cfg, s, e), a)
  {
    if e.Finish? {
      assert FlightOk(s, e.hash, s.flights[e.hash]);
    }
  }

  lemma RowsStep(cfg: Config, s: State, e: Event)
    requires FlightsOk(s) && RowsOk(s) && Enabled(cfg, s, e)
    ensures RowsOk(Apply(cfg, s, e))
  {
    forall p | p in s.rows
      ensures p in Apply(cfg, s, e).rows && Apply(cfg, s, e).rows[p].(funding := s.rows[p].funding) == s.rows[p]
    {
      RowStep(cfg, s, e, p);
    }
  }

  lemma Step(cfg: Config, s: State, e: Event)
    requires Inv(s) && Enabled(cfg, s, e)
    ensures Inv(Apply(cfg, s, e))
  {
    FlightsStep(cfg, s, e);
    OpensStep(cfg, s, e);
    AnswersStep(cfg, s, e);
    RowsStep(cfg, s, e);
  }

  lemma {:induction false} Safety(cfg: Config, es: seq<Event>)
    ensures var r := Exec(cfg, es); r.Some? ==> Inv(r.value)
  {
    if es != [] {
      var before := Exec(cfg, es[..|es| - 1]);
      Safety(cfg, es[..|es| - 1]);
      if before.Some? && Enabled(cfg, before.value, es[|es| - 1]) {
        Step(cfg, before.value, es[|es| - 1]);
      }
    }
  }

  // ----- what holds after every run

  function CountOpens(es: seq<Event>, p: Hash): nat {
    if es == [] then 0 else CountOpens(es[..|es| - 1], p) + if Opens(es[|es| - 1], p) then 1 else 0
  }

  function CountLost(cfg: Config, es: seq<Event>, p: Hash): nat {
    if es == [] then 0 else
    var before := Exec(cfg, es[..|es| - 1]);
    CountLost(cfg, es[..|es| - 1], p) + if before.Some? && Loses(before.value, es[|es| - 1], p) then 1 else 0
  }

  /** The counters are the numbers of steps that opened, and lost, a channel for the payment. */
  lemma {:induction false} Counted(cfg: Config, es: seq<Event>, p: Hash)
    requires Exec(cfg, es).Some?
    ensures Exec(cfg, es).value.opens[p] == CountOpens(es, p)
    ensures Exec(cfg, es).value.lost[p] == CountLost(cfg, es, p)
  {
    if es != [] {
      var es' := es[..|es| - 1];
      Counted(cfg, es', p);
      CountStep(cfg, Exec(cfg, es').value, es[|es| - 1], p);
    }
  }

  /** For any interleaving, a payment gets one channel, plus one for every time a channel of it was lost sight of. */
  lemma OneChannelPerPayment(cfg: Config, es: seq<Event>, p: Hash)
    requires Exec(cfg, es).Some?
    ensures CountOpens(es, p) <= 1 + CountLost(cfg, es, p)
  {
    Safety(cfg, es);
    Counted(cfg, es, p);
  }

  /** A channel is opened by a flight for the payment itself, never by a probe, while its row shows no channel. */
  lemma OpenerReadItsRow(cfg: Config, es: seq<Event>, h: Hash, point: OutPoint)
    requires Exec(cfg, es).Some? && Enabled(cfg, Exec(cfg, es).value, OpenChannel(h, Some(point), true))
    ensures var s := Exec(cfg, es).value;
            h in s.rows && s.rows[h] == s.flights[h].stage.row && s.rows[h].funding.None? && s.flights[h].req.hash == h
  {
    Safety(cfg, es);
    assert FlightOk(Exec(cfg, es).value, h, Exec(cfg, es).value.flights[h]);
  }

  /** The write that follows stores the new channel in the row that was read and changes nothing else in the table. */
  lemma OpenerWritesItsRow(cfg: Config, es: seq<Event>, h: Hash)
    requires Exec(cfg, es).Some? && Enabled(cfg, Exec(cfg, es).value, SetFundingTx(h, true, true))
    ensures var s := Exec(cfg, es).value;
            var st := s.flights[h].stage;
            h in s.rows && st.row == s.rows[h] &&
            Apply(cfg, s, SetFundingTx(h, true, true)).rows == s.rows[h := st.row.(funding := Some(st.point))]
  {
    Safety(cfg, es);
    assert FlightOk(Exec(cfg, es).value, h, Exec(cfg, es).value.flights[h]);
  }

  /** A registered row never changes, except that its funding transaction may be set once. */
  lemma {:induction false} RecordedStays(cfg: Config, es: seq<Event>, k: nat, p: Hash)
    requires k <= |es| && Exec(cfg, es).Some?
    requires Exec(cfg, es[..k]).Some? && p in Exec(cfg, es[..k]).value.rows
    ensures var r, r' := Exec(cfg, es[..k]).value.rows, Exec(cfg, es).value.rows;
            p in r' && r'[p].(funding := r[p].funding) == r[p] && (r[p].funding.Some? ==> r'[p] == r[p])
    decreases |es|
  {
    if k == |es| {
      assert es[..k] == es;
    } else {
      var es' := es[..|es| - 1];
      assert es'[..k] == es[..k];
      RecordedStays(cfg, es', k, p);
      Safety(cfg, es');
      RowStep(cfg, Exec(cfg, es').value, es[|es| - 1], p);
    }
  }

  predicate ForwardedFor(a: Answered, p: Hash) { a.result.ResumeWithOnion? && a.payment == Some(p) }

  /** The HTLCs that led a flight which forwarded for a payment, and the amounts sent for them. */
  function Parts(answers: seq<Answered>, p: Hash): seq<Uint64> {
    if answers == [] then [] else
    var a := answers[|answers| - 1];
    Parts(answers[..|answers| - 1], p) + if ForwardedFor(a, p) then [a.req.part] else []
  }

  function Amounts(answers: seq<Answered>, p: Hash): seq<int> {
    if answers == [] then [] else
    var a := answers[|answers| - 1];
    Amounts(answers[..|answers| - 1], p) + if ForwardedFor(a, p) then [a.result.amount] else []
  }

  lemma {:induction false} AmountsAreShares(s: State, answers: seq<Answered>, p: Hash)
    requires forall a :: a in answers ==> AnswerOk(s, a)
    ensures Parts(answers, p) != [] ==>
              && p in s.rows && s.rows[p].incoming != 0
              && Amounts(answers, p) == SentAmounts(s.rows[p].incoming, s.rows[p].outgoing, Parts(answers, p))
    ensures Parts(answers, p) == [] ==> Amounts(answers, p) == []
  {
    if answers != [] {
      var a := answers[|answers| - 1];
      assert AnswerOk(s, a);
      AmountsAreShares(s, answers[..|answers| - 1], p);
    }
  }

  /**
   What is sent of what came in for a registered row.  Acceptance of a row with an amount that is not negative means a
   margin of at least the promised fee; then share and fee hold exactly as `SendsLeaveFee` says.
   */
  ghost predicate LeavesFee(row: Row, parts: seq<Uint64>, sent: int) {
    var fee, came := PromisedFee(row.minMsat, row.proportional, row.incoming), Sum(parts);
    && (0 <= row.incoming ==> row.incoming - row.outgoing >= fee)
    && (row.incoming - row.outgoing >= fee >= 0 ==>
          && (0 < row.incoming ==>
              (sent * row.incoming <= row.outgoing * came <==> 0 <= row.outgoing || AllZero(parts)))
          && (row.incoming == 0 || 0 <= row.outgoing || SharesFit(row.incoming, row.outgoing, parts) ==>
                (sent + fee <= Max(row.incoming, came) <==> KeepsFee(row.incoming, row.outgoing, parts, fee))))
  }

  /** Amounts that are the shares of parts, however many and however much they are. */
  lemma SharesLeaveFee(row: Row, parts: seq<Uint64>, amounts: seq<int>)
    requires Accepts(row.minMsat, row.proportional, row.incoming, row.outgoing)
    requires FeeFits(row.minMsat, row.incoming * row.proportional) && Small(parts)
    requires if parts == [] then amounts == []
             else row.incoming != 0 && amounts == SentAmounts(row.incoming, row.outgoing, parts)
    ensures LeavesFee(row, parts, Sum(amounts))
  {
    if 0 <= row.incoming { AcceptedMargin(row.minMsat, row.proportional, row.incoming, row.outgoing); }
    var fee := PromisedFee(row.minMsat, row.proportional, row.incoming);
    if row.incoming != 0 && row.incoming - row.outgoing >= fee >= 0 {
      assert amounts == SentAmounts(row.incoming, row.outgoing, parts);
      SendsLeaveFee(row.incoming, row.outgoing, parts, fee);
    }
  }

  /**
   Over a whole run, whatever came in for a payment, what is sent for its evaluated HTLCs stays within the share and
   leaves the promised fee, exactly unless the registered outgoing amount is negative.
   */
  lemma ForwardsLeaveFee(cfg: Config, es: seq<Event>, p: Hash)
    requires Exec(cfg, es).Some? && p in Exec(cfg, es).value.rows && Small(Parts(Exec(cfg, es).value.answers, p))
    requires var row := Exec(cfg, es).value.rows[p]; FeeFits(row.minMsat, row.incoming * row.proportional)
    ensures var s := Exec(cfg, es).value;
            LeavesFee(s.rows[p], Parts(s.answers, p), Sum(Amounts(s.answers, p)))
  {
    Safety(cfg, es);
    var s := Exec(cfg, es).value;
    AmountsAreShares(s, s.answers, p);
    SharesLeaveFee(s.rows[p], Parts(s.answers, p), Amounts(s.answers, p));
  }

  // ----- HTLCs that join a flight

  function PartsOf(rs: seq<Request>): seq<Uint64> { seq(|rs|, i requires 0 <= i < |rs| => rs[i].part) }

  /** All HTLCs that got the result of a flight which forwarded for a payment, and the amounts sent for them. */
  function AllParts(answers: seq<Answered>, p: Hash): seq<Uint64> {
    if answers == [] then [] else
    var a := answers[|answers| - 1];
    AllParts(answers[..|answers| - 1], p) + if ForwardedFor(a, p) then [a.req.part] + PartsOf(a.joined) else []
  }

  function AllAmounts(answers: seq<Answered>, p: Hash): seq<int> {
    if answers == [] then [] else
    var a := answers[|answers| - 1];
    AllAmounts(answers[..|answers| - 1], p) +
    if ForwardedFor(a, p) then [a.result.amount] + Repeat(a.result.amount, |a.joined|) else []
  }

  /** Whoever joined a flight has the same share as the HTLC that led it, as when the parts are equal. */
  ghost predicate EvenFlights(row: Row, answers: seq<Answered>, p: Hash)
    requires row.incoming != 0
  {
    forall a :: a in answers && ForwardedFor(a, p) ==> EvenFlight(row, a)
  }

  ghost predicate EvenFlight(row: Row, a: Answered)
    requires row.incoming != 0
  {
    forall i :: 0 <= i < |a.joined| ==>
      Sent(row.incoming, row.outgoing, a.joined[i].part) == Sent(row.incoming, row.outgoing, a.req.part)
  }

  function Repeat(x: int, n: nat): seq<int> { seq(n, i => x) }

  lemma EvenFlightIff(row: Row, a: Answered)
    requires a.result.ResumeWithOnion? && row.incoming != 0
             && a.result.amount == Sent(row.incoming, row.outgoing, a.req.part)
    ensures EvenFlight(row, a) <==>
            [a.result.amount] + Repeat(a.result.amount, |a.joined|) ==
            SentAmounts(row.incoming, row.outgoing, [a.req.part] + PartsOf(a.joined))
  {
    var shares := SentAmounts(row.incoming, row.outgoing, PartsOf(a.joined));
    SentTogether(row.incoming, row.outgoing, [a.req.part], PartsOf(a.joined));
    SplitEqual([a.result.amount], Repeat(a.result.amount, |a.joined|),
               SentAmounts(row.incoming, row.outgoing, [a.req.part]), shares);
    assert forall i :: 0 <= i < |shares| ==> shares[i] == Sent(row.incoming, row.outgoing, a.joined[i].part);
    if Repeat(a.result.amount, |a.joined|) == shares {
      assert forall i :: 0 <= i < |shares| ==> shares[i] == Repeat(a.result.amount, |a.joined|)[i];
    }
  }

  lemma SentTogether(incoming: Int64, outgoing: Int64, x: seq<Uint64>, y: seq<Uint64>)
    requires incoming != 0
    ensures SentAmounts(incoming, outgoing, x + y)
            == SentAmounts(incoming, outgoing, x) + SentAmounts(incoming, outgoing, y)
  {
  }

  lemma {:induction false} AsManyAmounts(answers: seq<Answered>, p: Hash)
    ensures |AllAmounts(answers, p)| == |AllParts(answers, p)|
  {
    if answers != [] { AsManyAmounts(answers[..|answers| - 1], p); }
  }

  lemma SplitEqual(a: seq<int>, b: seq<int>, c: seq<int>, d: seq<int>)
    requires |a| == |c|
    ensures a + b == c + d <==> a == c && b == d
  {
    if a + b == c + d {
      assert a == (a + b)[..|a|] && c == (c + d)[..|c|] && b == (a + b)[|a|..] && d == (c + d)[|c|..];
    }
  }

  /** The amounts of the flights that forwarded are their leaders' shares. */
  ghost predicate LeadersShare(row: Row, answers: seq<Answered>, p: Hash)
    requires row.incoming != 0
  {
    forall a :: a in answers && ForwardedFor(a, p) ==> a.result.amount == Sent(row.incoming, row.outgoing, a.req.part)
  }

  lemma EvenLast(row: Row, front: seq<Answered>, a: Answered, p: Hash)
    requires row.incoming != 0
    ensures EvenFlights(row, front + [a], p) <==>
            EvenFlights(row, front, p) && (ForwardedFor(a, p) ==> EvenFlight(row, a))
  {
    assert a in front + [a] && forall x :: x in front ==> x in front + [a];
  }

  /** Every HTLC, whether it led a flight or joined one, is sent its own share. */
  ghost predicate OwnShares(row: Row, answers: seq<Answered>, p: Hash)
    requires row.incoming != 0
  {
    AllAmounts(answers, p) == SentAmounts(row.incoming, row.outgoing, AllParts(answers, p))
  }

  lemma LastFlightIff(row: Row, front: seq<Answered>, a: Answered, p: Hash)
    requires row.incoming != 0
             && (ForwardedFor(a, p) ==> a.result.amount == Sent(row.incoming, row.outgoing, a.req.part))
    ensures OwnShares(row, front + [a], p) <==> OwnShares(row, front, p) && (ForwardedFor(a, p) ==> EvenFlight(row, a))
  {
    assert (front + [a])[..|front|] == front;
    if ForwardedFor(a, p) {
      AsManyAmounts(front, p);
      EvenFlightIff(row, a);
      var parts, amounts := [a.req.part] + PartsOf(a.joined), [a.result.amount] + Repeat(a.result.amount, |a.joined|);
      SentTogether(row.incoming, row.outgoing, AllParts(front, p), parts);
      SplitEqual(AllAmounts(front, p), amounts,
                 SentAmounts(row.incoming, row.outgoing, AllParts(front, p)),
                 SentAmounts(row.incoming, row.outgoing, parts));
    } else {
      assert AllParts(front + [a], p) == AllParts(front, p) && AllAmounts(front + [a], p) == AllAmounts(front, p);
    }
  }

  /** That is so if and only if the flights are even. */
  lemma {:induction false} OwnSharesIff(row: Row, answers: seq<Answered>, p: Hash)
    requires row.incoming != 0 && LeadersShare(row, answers, p)
    ensures OwnShares(row, answers, p) <==> EvenFlights(row, answers, p)
  {
    if answers != [] {
      var a, front := answers[|answers| - 1], answers[..|answers| - 1];
      assert answers == front + [a] && a in answers;
      OwnSharesIff(row, front, p);
      EvenLast(row, front, a, p);
      LastFlightIff(row, front, a, p);
    }
  }

  lemma {:induction false} NoneForZero(s: State, answers: seq<Answered>, p: Hash)
    requires (forall a :: a in answers ==> AnswerOk(s, a)) && p in s.rows && s.rows[p].incoming == 0
    ensures AllParts(answers, p) == [] && AllAmounts(answers, p) == []
  {
    if answers != [] {
      assert AnswerOk(s, answers[|answers| - 1]);
      NoneForZero(s, answers[..|answers| - 1], p);
    }
  }

  /** With even flights the payment's share and fee hold for all HTLCs, whether they led a flight or joined one. */
  lemma EvenFlightsLeaveFee(cfg: Config, es: seq<Event>, p: Hash)
    requires Exec(cfg, es).Some? && p in Exec(cfg, es).value.rows
    requires var s := Exec(cfg, es).value; s.rows[p].incoming != 0 ==> EvenFlights(s.rows[p], s.answers, p)
    requires var row := Exec(cfg, es).value.rows[p]; FeeFits(row.minMsat, row.incoming * row.proportional)
    requires Small(AllParts(Exec(cfg, es).value.answers, p))
    ensures var s := Exec(cfg, es).value;
            LeavesFee(s.rows[p], AllParts(s.answers, p), Sum(AllAmounts(s.answers, p)))
  {
    Safety(cfg, es);
    var s := Exec(cfg, es).value;
    AsManyAmounts(s.answers, p);
    if s.rows[p].incoming == 0 {
      NoneForZero(s, s.answers, p);
    } else {
      assert LeadersShare(s.rows[p], s.answers, p) by { assert forall a :: a in s.answers ==> AnswerOk(s, a); }
      OwnSharesIff(s.rows[p], s.answers, p);
    }
    SharesLeaveFee(s.rows[p], AllParts(s.answers, p), AllAmounts(s.answers, p));
  }

  /** After any run, every HTLC of a payment has been sent its own share if and only if the flights were even. */
  lemma EveryHtlcItsShareIff(cfg: Config, es: seq<Event>, p: Hash)
    requires Exec(cfg, es).Some? && p in Exec(cfg, es).value.rows && Exec(cfg, es).value.rows[p].incoming != 0
    ensures var s := Exec(cfg, es).value;
            OwnShares(s.rows[p], s.answers, p) <==> EvenFlights(s.rows[p], s.answers, p)
  {
    Safety(cfg, es);
    var s := Exec(cfg, es).value;
    assert LeadersShare(s.rows[p], s.answers, p) by { assert forall a :: a in s.answers ==> AnswerOk(s, a); }
    OwnSharesIff(s.rows[p], s.answers, p);
  }
}
