/**
 Runs of the open protocol at its limits: every lost funding write can cost one more channel, and joining HTLCs a fee.
 */
module OpeningRuns {
  import opened Base
  import opened OpeningFees
  import opened ChannelOpening

  /** The run leads to the state, with so many channels opened for the payment and so many funding writes lost. */
  ghost predicate Leads(cfg: Config, es: seq<Event>, s: State, p: Hash, opens: nat, lost: nat) {
    Exec(cfg, es) == Some(s) && CountOpens(es, p) == opens && CountLost(cfg, es, p) == lost
  }

  lemma Then(cfg: Config, es: seq<Event>, s: State, e: Event, p: Hash, opens: nat, lost: nat)
    requires Leads(cfg, es, s, p, opens, lost) && Enabled(cfg, s, e)
    ensures Leads(cfg, es + [e], Apply(cfg, s, e), p, opens + (if Opens(e, p) then 1 else 0),
                  lost + if Loses(s, e, p) then 1 else 0)
  {
    assert (es + [e])[..|es|] == es;
  }

  /** A payment that is registered and not funded, and an HTLC for it that passes the guards. */
  ghost predicate Openable(cfg: Config, row: Row, req: Request) {
    && row.funding.None? && row.secret.Some? && Accepts(row.minMsat, row.proportional, row.incoming, row.outgoing)
    && req.incomingExpiry - req.outgoingExpiry >= cfg.timeLockDelta
  }

  ghost predicate Idle(s: State, row: Row, req: Request) {
    req.hash in s.rows && s.rows[req.hash] == row && req.hash !in s.flights
  }

  const GOOD := Env(None, Some(true), true, false, true)

  /** A flight for the payment that has not looked at the table yet. */
  ghost predicate Flying(s: State, row: Row, req: Request, joined: seq<Request>) {
    && req.hash in s.rows && s.rows[req.hash] == row
    && req.hash in s.flights && s.flights[req.hash] == Flight(req, joined, Started)
  }

  lemma ThenDecide(cfg: Config, es: seq<Event>, s: State, row: Row, req: Request, joined: seq<Request>, opens: nat,
                   lost: nat)
    returns (es': seq<Event>, t: State)
    requires Leads(cfg, es, s, req.hash, opens, lost) && Openable(cfg, row, req) && Flying(s, row, req, joined)
    ensures Leads(cfg, es', t, req.hash, opens, lost)
    ensures t == s.(flights := s.flights[req.hash := Flight(req, joined, Opening(row))])
  {
    var e := PaymentInfo(req.hash, Found(req.hash));
    Then(cfg, es, s, e, req.hash, opens, lost);
    es', t := es + [e], Apply(cfg, s, e);
    e := Decide(req.hash, GOOD);
    OnlyDirectHitsOpen(cfg, req, Some(Hit(req.hash, row)), GOOD);
    Then(cfg, es', t, e, req.hash, opens, lost);
    es', t := es' + [e], Apply(cfg, t, e);
  }

  lemma ThenOpen(cfg: Config, es: seq<Event>, s: State, row: Row, req: Request, joined: seq<Request>, point: OutPoint,
                 opens: nat, lost: nat)
    returns (es': seq<Event>, t: State)
    requires Leads(cfg, es, s, req.hash, opens, lost) && Openable(cfg, row, req) && Flying(s, row, req, joined)
    ensures Leads(cfg, es', t, req.hash, opens + 1, lost)
    ensures t.rows == s.rows && t.answers == s.answers
    ensures req.hash in t.flights && t.flights[req.hash] == Flight(req, joined, Recording(row, point))
  {
    es', t := ThenDecide(cfg, es, s, row, req, joined, opens, lost);
    var e := OpenChannel(req.hash, Some(point), true);
    Then(cfg, es', t, e, req.hash, opens, lost);
    es', t := es' + [e], Apply(cfg, t, e);
  }

  /** After any number of lost writes the payment is where it was, with as many channels opened in vain. */
  lemma {:induction false} OpenedInVain(cfg: Config, row: Row, req: Request, point: OutPoint, n: nat)
    returns (es: seq<Event>, s: State)
    requires Openable(cfg, row, req)
    ensures Leads(cfg, es, s, req.hash, n, n) && Idle(s, row, req)
  {
    if n == 0 {
      assert Leads(cfg, [], INIT, req.hash, 0, 0);
      Then(cfg, [], INIT, Register(req.hash, row), req.hash, 0, 0);
      es, s := [] + [Register(req.hash, row)], Apply(cfg, INIT, Register(req.hash, row));
    } else {
      var es1, s1 := OpenedInVain(cfg, row, req, point, n - 1);
      Then(cfg, es1, s1, Intercept(req), req.hash, n - 1, n - 1);
      var es2, s2 := ThenOpen(cfg, es1 + [Intercept(req)], Apply(cfg, s1, Intercept(req)), row, req, [], point, n - 1,
                              n - 1);
      var fail := SetFundingTx(req.hash, false, false);
      Then(cfg, es2, s2, fail, req.hash, n, n - 1);
      es, s := es2 + [fail], Apply(cfg, s2, fail);
    }
  }

  /** For every n there is a run with n lost writes and n + 1 channels for one payment. */
  lemma BoundReached(cfg: Config, row: Row, req: Request, point: OutPoint, n: nat) returns (es: seq<Event>)
    requires Openable(cfg, row, req)
    ensures Exec(cfg, es).Some? && CountLost(cfg, es, req.hash) == n && CountOpens(es, req.hash) == n + 1
  {
    var es1, s1 := OpenedInVain(cfg, row, req, point, n);
    Then(cfg, es1, s1, Intercept(req), req.hash, n, n);
    var t: State;
    es, t := ThenOpen(cfg, es1 + [Intercept(req)], Apply(cfg, s1, Intercept(req)), row, req, [], point, n, n);
  }

  // ----- joining HTLCs

  /** The flight records its channel and forwards; whoever joined it is in the answer. */
  lemma ThenForward(cfg: Config, es: seq<Event>, s: State, row: Row, req: Request, joined: seq<Request>,
                    point: OutPoint, opens: nat, lost: nat)
    returns (es': seq<Event>, t: State)
    requires Leads(cfg, es, s, req.hash, opens, lost) && row.incoming != 0 && req.hash in s.rows
             && s.rows[req.hash] == row
    requires req.hash in s.flights && s.flights[req.hash] == Flight(req, joined, Recording(row, point))
    ensures Leads(cfg, es', t, req.hash, opens, lost) && Idle(t, row.(funding := Some(point)), req)
    ensures var result := ResumeWithOnion(row.destination, point, Sent(row.incoming, row.outgoing, req.part),
                                          row.outgoing % TWO_64);
            t.answers == s.answers + [Answered(req, joined, Some(req.hash), result)]
  {
    var e := SetFundingTx(req.hash, true, true);
    Then(cfg, es, s, e, req.hash, opens, lost);
    es', t := es + [e], Apply(cfg, s, e);
    e := Finish(req.hash, true);
    Then(cfg, es', t, e, req.hash, opens, lost);
    es', t := es' + [e], Apply(cfg, t, e);
  }

  /** A registration, and two HTLCs that arrive before the flight of the first looks at the table. */
  lemma TwoTogether(cfg: Config, row: Row, req: Request, other: Request) returns (es: seq<Event>, s: State)
    requires Openable(cfg, row, req) && other.hash == req.hash
    ensures Leads(cfg, es, s, req.hash, 0, 0) && Flying(s, row, req, [other]) && s.answers == []
  {
    assert Leads(cfg, [], INIT, req.hash, 0, 0);
    Then(cfg, [], INIT, Register(req.hash, row), req.hash, 0, 0);
    es, s := [] + [Register(req.hash, row)], Apply(cfg, INIT, Register(req.hash, row));
    Then(cfg, es, s, Intercept(req), req.hash, 0, 0);
    es, s := es + [Intercept(req)], Apply(cfg, s, Intercept(req));
    Then(cfg, es, s, Intercept(other), req.hash, 0, 0);
    es, s := es + [Intercept(other)], Apply(cfg, s, Intercept(other));
  }

  /**
   It happens: a payment of 1,000 msat arrives as 999 and 1 msat, the second joins the flight of the first, and 999 msat
   are sent for each of them.
   */
  lemma JoinerOverpaid(cfg: Config, h: Hash, destination: Node, point: OutPoint, expiry: Uint32)
    returns (es: seq<Event>)
    requires cfg.timeLockDelta <= expiry
    ensures Exec(cfg, es).Some?
    ensures var s := Exec(cfg, es).value;
            && h in s.rows && s.rows[h].incoming == s.rows[h].outgoing == 1_000
            && Sum(AllParts(s.answers, h)) == 1_000 && Sum(AllAmounts(s.answers, h)) == 1_998
  {
    var row := Row(Some(""), destination, 1_000, 1_000, 0, 0, None);
    var req, other := Request(h, 999, expiry, 0), Request(h, 1, expiry, 0);
    var s: State;
    es, s := TwoTogether(cfg, row, req, other);
    es, s := ThenOpen(cfg, es, s, row, req, [other], point, 0, 0);
    es, s := ThenForward(cfg, es, s, row, req, [other], point, 1, 0);
    assert Sent(1_000, 1_000, 999) == 999;
    OneJoiner(s.answers, h, 999, 1);
  }

  /** The sums over a single flight with one HTLC that joined. */
  lemma OneJoiner(answers: seq<Answered>, h: Hash, part: Uint64, other: Uint64)
    requires |answers| == 1 && ForwardedFor(answers[0], h)
    requires answers[0].req.part == part && |answers[0].joined| == 1 && answers[0].joined[0].part == other
    ensures Sum(AllParts(answers, h)) == part + other
    ensures Sum(AllAmounts(answers, h)) == 2 * answers[0].result.amount
  {
    var amount := answers[0].result.amount;
    assert answers[..0] == [];
    assert AllParts(answers, h) == [part, other] && AllAmounts(answers, h) == [amount, amount];
    SumOfTwo(part, other);
    SumOfTwo(amount, amount);
  }

  lemma SumOfTwo(a: int, b: int)
    ensures Sum([a, b]) == a + b
  {
    assert [a, b][..1] == [a] && [a][..0] == [];
    assert Sum([a]) == a;
  }

  // ----- HTLCs that come in again

  /** Another HTLC for a payment whose channel is recorded is forwarded over it. */
  lemma ThenAgain(cfg: Config, es: seq<Event>, s: State, row: Row, req: Request, point: OutPoint, opens: nat, lost: nat)
    returns (es': seq<Event>, t: State)
    requires Leads(cfg, es, s, req.hash, opens, lost) && row.secret.Some? && row.incoming != 0
             && row.funding == Some(point)
    requires Idle(s, row, req)
    ensures Leads(cfg, es', t, req.hash, opens, lost) && t.rows == s.rows
    ensures var result := ResumeWithOnion(row.destination, point, Sent(row.incoming, row.outgoing, req.part),
                                          row.outgoing % TWO_64);
            t.answers == s.answers + [Answered(req, [], Some(req.hash), result)]
  {
    Then(cfg, es, s, Intercept(req), req.hash, opens, lost);
    es', t := es + [Intercept(req)], Apply(cfg, s, Intercept(req));
    var e := PaymentInfo(req.hash, Found(req.hash));
    Then(cfg, es', t, e, req.hash, opens, lost);
    es', t := es' + [e], Apply(cfg, t, e);
    es', t := ThenUse(cfg, es', t, row, req, point, opens, lost);
  }

  lemma ThenUse(cfg: Config, es: seq<Event>, s: State, row: Row, req: Request, point: OutPoint, opens: nat, lost: nat)
    returns (es': seq<Event>, t: State)
    requires Leads(cfg, es, s, req.hash, opens, lost) && row.secret.Some? && row.incoming != 0
             && row.funding == Some(point)
    requires req.hash in s.flights && s.flights[req.hash] == Flight(req, [], Looked(Some(Hit(req.hash, row))))
    ensures Leads(cfg, es', t, req.hash, opens, lost) && t.rows == s.rows
    ensures var result := ResumeWithOnion(row.destination, point, Sent(row.incoming, row.outgoing, req.part),
                                          row.outgoing % TWO_64);
            t.answers == s.answers + [Answered(req, [], Some(req.hash), result)]
  {
    var e := Decide(req.hash, GOOD);
    assert Guards(cfg, req, Some(Hit(req.hash, row)), GOOD) == Forward(point);
    Then(cfg, es, s, e, req.hash, opens, lost);
    es', t := es + [e], Apply(cfg, s, e);
    e := Finish(req.hash, true);
    Then(cfg, es', t, e, req.hash, opens, lost);
    es', t := es' + [e], Apply(cfg, t, e);
  }

  /** A registration and a first HTLC, for which a channel is opened and used. */
  lemma PaidOnce(cfg: Config, row: Row, req: Request, point: OutPoint) returns (es: seq<Event>, s: State)
    requires Openable(cfg, row, req) && row.incoming != 0
    ensures Leads(cfg, es, s, req.hash, 1, 0) && Idle(s, row.(funding := Some(point)), req)
    ensures var result := ResumeWithOnion(row.destination, point, Sent(row.incoming, row.outgoing, req.part),
                                          row.outgoing % TWO_64);
            s.answers == [Answered(req, [], Some(req.hash), result)]
  {
    assert Leads(cfg, [], INIT, req.hash, 0, 0);
    Then(cfg, [], INIT, Register(req.hash, row), req.hash, 0, 0);
    es, s := [] + [Register(req.hash, row)], Apply(cfg, INIT, Register(req.hash, row));
    Then(cfg, es, s, Intercept(req), req.hash, 0, 0);
    es, s := es + [Intercept(req)], Apply(cfg, s, Intercept(req));
    es, s := ThenOpen(cfg, es, s, row, req, [], point, 0, 0);
    es, s := ThenForward(cfg, es, s, row, req, [], point, 1, 0);
  }

  /**
   It happens: an HTLC over the registered 1,000 msat comes in twice and 900 msat are sent each time. That is more than
   the registered amount, and leaves the fee of 100 msat of what came in.
   */
  lemma PaidTwice(cfg: Config, h: Hash, destination: Node, point: OutPoint, expiry: Uint32) returns (es: seq<Event>)
    requires cfg.timeLockDelta <= expiry
    ensures Exec(cfg, es).Some?
    ensures var s := Exec(cfg, es).value;
            && h in s.rows && s.rows[h].incoming == 1_000 && s.rows[h].outgoing == 900 && s.rows[h].minMsat == 100
            && Parts(s.answers, h) == [1_000, 1_000] && Amounts(s.answers, h) == [900, 900]
  {
    var row := Row(Some(""), destination, 1_000, 900, 100, 0, None);
    var req := Request(h, 1_000, expiry, 0);
    var s: State;
    es, s := PaidOnce(cfg, row, req, point);
    es, s := ThenAgain(cfg, es, s, row.(funding := Some(point)), req, point, 1, 0);
    assert Sent(1_000, 900, 1_000) == 900;
    assert s.answers[..1] == [s.answers[0]] && [s.answers[0]][..0] == [];
    assert Parts([s.answers[0]], h) == [1_000] && Amounts([s.answers[0]], h) == [900];
  }

  // ----- probes

  /** A probe for a registered payment that has no channel yet, and nothing of its own in the table. */
  ghost predicate Probed(cfg: Config, s: State, p: Hash, req: Request) {
    && p in s.rows && s.rows[p].secret.Some? && s.rows[p].funding.None?
    && req.hash == cfg.probe(p) && req.hash !in s.rows && req.hash !in s.flights
  }

  /**
   After any run, a probe for a registered payment without a channel finds the payment's row and no lookup can miss it.
   If the destination is connected it is answered with the code that tells the sender that the payment would get
   through, and no channel is opened.
   */
  lemma ProbeAnswered(cfg: Config, es: seq<Event>, p: Hash, req: Request, env: Env) returns (t: State)
    requires Exec(cfg, es).Some? && Probed(cfg, Exec(cfg, es).value, p, req) && env.connected == Some(true)
    requires env.nextHop.Some? ==> env.nextHop.value == Exec(cfg, es).value.rows[p].destination
    ensures var run := es + [Intercept(req)];
            Exec(cfg, run).Some? && !Enabled(cfg, Exec(cfg, run).value, PaymentInfo(req.hash, Missing))
    ensures var s, h := Exec(cfg, es).value, req.hash;
            && Exec(cfg, es + [Intercept(req)] + [PaymentInfo(h, Found(p))] + [Decide(h, env)]) == Some(t)
            && t.opens == s.opens && t.rows == s.rows
            && t.answers == s.answers + [Answered(req, [], None, Fail(INCORRECT_OR_UNKNOWN_PAYMENT_DETAILS))]
  {
    var s, h := Exec(cfg, es).value, req.hash;
    var one, two := Intercept(req), PaymentInfo(h, Found(p));
    Extends(cfg, es, one);
    var s1 := Apply(cfg, s, one);
    assert Matches(cfg, p, h);
    Extends(cfg, es + [one], two);
    var s2 := Apply(cfg, s1, two);
    GuardsDecide(cfg, req, Some(Hit(p, s.rows[p])), env);
    Extends(cfg, es + [one] + [two], Decide(h, env));
    t := Apply(cfg, s2, Decide(h, env));
  }

  lemma Extends(cfg: Config, es: seq<Event>, e: Event)
    requires Exec(cfg, es).Some? && Enabled(cfg, Exec(cfg, es).value, e)
    ensures Exec(cfg, es + [e]) == Some(Apply(cfg, Exec(cfg, es).value, e))
  {
    assert (es + [e])[..|es|] == es;
  }
}
