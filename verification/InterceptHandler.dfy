/**
 The intercept handler and its store.  Each method runs one atomic part of a flight on the handler's own fields
 and is proved to make the step of `ChannelOpening` it stands for.
 */
module InterceptHandler {
  import opened Base
  import opened OpeningFees
  import opened ChannelOpening

  class Interceptor {
    const cfg: Config
    const additionalCapacity: Int64
    const publicAmount: Int64
    var rows: map<Hash, Row>
    var flights: map<Hash, Flight>
    ghost var opens: multiset<Hash>
    ghost var lost: multiset<Hash>
    ghost var answers: seq<Answered>

    ghost function View(): State
      reads this
    {
      State(rows, flights, opens, lost, answers)
    }

    ghost predicate Valid()
      reads this
    {
      Inv(View())
    }

    twostate predicate Did(e: Event)
      reads this
    {
      Enabled(cfg, old(View()), e) && View() == Apply(cfg, old(View()), e) && Valid()
    }

    constructor (cfg: Config, additionalCapacity: Int64, publicAmount: Int64)
      ensures View() == INIT && Valid()
      ensures this.cfg == cfg && this.additionalCapacity == additionalCapacity && this.publicAmount == publicAmount
    {
      this.cfg, this.additionalCapacity, this.publicAmount := cfg, additionalCapacity, publicAmount;
      rows, flights := map[], map[];
      opens, lost, answers := multiset{}, multiset{}, [];
    }

    /** Registers a payment that passes the fee check; a payment already in the table is left alone. */
    method RegisterPayment(payment: Hash, row: Row) returns (ok: bool)
      requires Valid() && row.funding.None?
      modifies this
      ensures ok <==> Accepts(row.minMsat, row.proportional, row.incoming, row.outgoing)
      ensures if ok then Did(Register(payment, row)) else View() == old(View())
    {
      var fees: Int64 := Wrap64(Quo(Quo(Wrap64(row.incoming * row.proportional), 1_000_000), 1_000) * 1_000);
      if fees < Wrap64(row.minMsat) {
        fees := Wrap64(row.minMsat);
      }
      ok := Wrap64(row.incoming - row.outgoing) >= fees;
      if ok {
        Step(cfg, View(), Register(payment, row));
        if payment !in rows {
          rows := rows[payment := row];
        }
      }
    }

    /** Joins the flight for this hash, which goes on as it is, or starts one. */
    method Intercept(req: Request) returns (leads: bool)
      requires Valid()
      modifies this
      ensures Did(ChannelOpening.Intercept(req)) && leads == (req.hash !in old(flights))
      ensures !leads ==>
              && flights[req.hash].req == old(flights)[req.hash].req
              && flights[req.hash].stage == old(flights)[req.hash].stage
    {
      Step(cfg, View(), ChannelOpening.Intercept(req));
      leads := req.hash !in flights;
      if leads {
        flights := flights[req.hash := Flight(req, [], Started)];
      } else {
        flights := flights[req.hash := flights[req.hash].(joined := flights[req.hash].joined + [req])];
      }
    }

    /**
     Reads a row that matches by payment hash or by probing hash; which one, if both exist, is the database's choice.
     */
    method ReadPaymentInfo(h: Hash, lookup: Lookup)
      requires Valid() && Enabled(cfg, View(), PaymentInfo(h, lookup))
      modifies this
      ensures Did(PaymentInfo(h, lookup))
      ensures h in flights ==> match flights[h].stage.found
                               case Some(hit) =>
                                 Matches(cfg, hit.payment, h) && hit.payment in rows && rows[hit.payment] == hit.row
                               case None => forall p :: p in rows ==> !Matches(cfg, p, h)
    {
      Step(cfg, View(), PaymentInfo(h, lookup));
      match lookup {
        case LookupError => End(h, None, Fail(TEMPORARY_NODE_FAILURE));
        case Missing => Advance(h, Looked(None));
        case Found(p) => Advance(h, Looked(Some(Hit(p, rows[p]))));
      }
    }

    method Advance(h: Hash, stage: Stage)
      requires h in flights
      modifies `flights
      ensures View() == Move(old(View()), h, stage)
    {
      flights := flights[h := flights[h].(stage := stage)];
    }

    method End(h: Hash, payment: Option<Hash>, result: Result)
      requires h in flights
      modifies `flights, `answers
      ensures View() == Land(old(View()), h, payment, result)
    {
      answers := answers + [Answered(flights[h].req, flights[h].joined, payment, result)];
      flights := flights - {h};
    }

    /** The guards between lookup and open, as the handler runs them: each decision is taken exactly when it is due. */
    method CheckGuards(req: Request, found: Option<Hit>, env: Env) returns (d: Decision)
      ensures d == Guards(cfg, req, found, env) && Decides(cfg, req, found, env, d)
    {
      GuardsDecide(cfg, req, found, env);
      var isRegistered := found.Some? && found.value.row.secret.Some?;
      var isProbe := isRegistered && found.value.payment != req.hash;
      var nextHop := env.nextHop;
      if isRegistered && nextHop.Some? && nextHop.value != found.value.row.destination {
        return Answer(Resume);
      }
      if nextHop.None? {
        if !isRegistered {
          return Answer(Resume);
        }
        nextHop := Some(found.value.row.destination);
      }
      if env.connected.None? {
        return Answer(Fail(TEMPORARY_CHANNEL_FAILURE));
      }
      if isProbe {
        if !env.connected.value {
          return Answer(Resume);
        }
        if found.value.row.funding.None? {
          return Answer(Fail(INCORRECT_OR_UNKNOWN_PAYMENT_DETAILS));
        }
      }
      if !isRegistered {
        return Answer(Resume);
      }
      var channelPoint := found.value.row.funding;
      if channelPoint.None? {
        if req.incomingExpiry - req.outgoingExpiry < cfg.timeLockDelta || !env.paramsParse {
          return Answer(Fail(TEMPORARY_CHANNEL_FAILURE));
        }
        if env.expired && !env.cheaper {
          return Answer(Fail(TEMPORARY_CHANNEL_FAILURE));
        }
        return Open;
      }
      return Forward(channelPoint.value);
    }

    method EvaluateGuards(h: Hash, env: Env)
      requires Valid() && h in flights && flights[h].stage.Looked?
      modifies this
      ensures Did(Decide(h, env)) && rows == old(rows)
      ensures h in flights && flights[h].stage.Opening? ==>
              h in rows && rows[h] == flights[h].stage.row && rows[h].funding.None?
    {
      Step(cfg, View(), Decide(h, env));
      var found := flights[h].stage.found;
      var d := CheckGuards(flights[h].req, found, env);
      match d {
        case Answer(result) => End(h, None, result);
        case Open => Advance(h, Opening(found.value.row));
        case Forward(point) => Advance(h, Forwarding(found.value, point));
      }
      assert h in flights ==> FlightOk(View(), h, flights[h]);
    }

    /** Room for the payment and the additional capacity, but not the amount that is reserved for public channels. */
    method ChannelCapacity(incoming: Int64) returns (capacity: Int64)
      ensures capacity == Capacity(incoming, additionalCapacity, publicAmount) && capacity != publicAmount
      ensures 0 <= incoming && incoming / 1_000 + additionalCapacity + 1 < TWO_63 ==>
                if Provides(publicAmount, incoming, additionalCapacity) then capacity == publicAmount + 1
                else Provides(capacity, incoming, additionalCapacity)
    {
      if 0 <= incoming && incoming / 1_000 + additionalCapacity + 1 < TWO_63 {
        CapacityExact(incoming, additionalCapacity, publicAmount);
      }
      capacity := Wrap64(Quo(incoming, 1_000) + additionalCapacity);
      if capacity == publicAmount {
        capacity := Wrap64(capacity + 1);
      }
    }

    /** Asks the node for a channel of the computed capacity; after an error it may have been opened all the same. */
    method CallOpenChannel(h: Hash, reply: Option<OutPoint>, happened: bool) returns (capacity: Int64)
      requires Valid() && Enabled(cfg, View(), OpenChannel(h, reply, happened))
      modifies this
      ensures Did(OpenChannel(h, reply, happened)) && rows == old(rows)
      ensures h in rows && rows[h] == old(flights[h].stage.row) && rows[h].funding.None?
      ensures capacity == Capacity(rows[h].incoming, additionalCapacity, publicAmount) && capacity != publicAmount
    {
      Step(cfg, View(), OpenChannel(h, reply, happened));
      assert FlightOk(View(), h, flights[h]);
      var row := flights[h].stage.row;
      capacity := ChannelCapacity(row.incoming);
      opens := if happened then opens + multiset{h} else opens;
      if reply.None? {
        End(h, None, Fail(TEMPORARY_CHANNEL_FAILURE));
        lost := if happened then lost + multiset{h} else lost;
      } else {
        Advance(h, Recording(row, reply.value));
      }
    }

    /**
     Writes the funding transaction to the row with the request's hash; an error does not say if the write was applied.
     */
    method WriteFundingTx(h: Hash, ok: bool, written: bool)
      requires Valid() && h in flights && flights[h].stage.Recording? && (ok ==> written)
      modifies this
      ensures Did(SetFundingTx(h, ok, written))
      ensures h in old(rows) && old(rows)[h].funding.None?
      ensures rows == if written then old(rows)[h := old(rows)[h].(funding := Some(old(flights[h].stage.point)))]
              else old(rows)
    {
      Step(cfg, View(), SetFundingTx(h, ok, written));
      assert FlightOk(View(), h, flights[h]);
      var st := flights[h].stage;
      if written && h in rows {
        rows := rows[h := rows[h].(funding := Some(st.point))];
      }
      if ok {
        Advance(h, Forwarding(Hit(h, st.row), st.point));
      } else {
        End(h, None, Fail(TEMPORARY_CHANNEL_FAILURE));
        lost := lost + multiset{h};
      }
    }

    /** The process ends, by a restart or by a panic; the node has opened channels for some of the calls under way. */
    method Crash(ghost calls: set<Hash>)
      requires calls <= Calling(View())
      modifies `flights, `opens, `lost
      ensures View() == ChannelOpening.Crash(old(View()), calls)
    {
      lost := lost + multiset(Unrecorded(View())) + multiset(calls);
      opens := opens + multiset(calls);
      flights := map[];
    }

    /**
     Ends the flight with the channel and the row's share, or with a failure when the channel did not become active in
     time.  The share of a payment registered with an incoming amount of zero is a division by zero.
     */
    method FinishFlight(h: Hash, active: bool, ghost calls: set<Hash>)
      requires Valid() && h in flights && flights[h].stage.Forwarding? && calls <= Calling(View())
      modifies this
      ensures if old(flights[h].stage.hit.row.incoming) == 0 then Did(Panic(h, calls)) else Did(Finish(h, active))
      ensures old(flights[h].stage.hit.row.incoming) != 0 && active ==>
                |answers| > 0 && answers[|answers| - 1].result.ResumeWithOnion?
                  && AnswerOk(View(), answers[|answers| - 1])
    {
      var hit, point := flights[h].stage.hit, flights[h].stage.point;
      if hit.row.incoming == 0 {
        Step(cfg, View(), Panic(h, calls));
        Crash(calls);
        return;
      }
      Step(cfg, View(), Finish(h, active));
      if active {
        var amt := Sent(hit.row.incoming, hit.row.outgoing, flights[h].req.part);
        End(h, Some(hit.payment), ResumeWithOnion(hit.row.destination, point, amt, hit.row.outgoing % TWO_64));
        assert answers[|answers| - 1] in answers;
      } else {
        End(h, None, Fail(TEMPORARY_CHANNEL_FAILURE));
      }
    }
  }
}
