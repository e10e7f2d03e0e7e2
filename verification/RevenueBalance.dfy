/** What the figures of a revenue report come to in the amounts of the forwards themselves. */
module RevenueBalance {
  import opened Base
  import opened RevenueMatching
  import opened RevenueReport

  /** Whether the measure takes the forward into account. */
  predicate Counts(m: Measure, f: ForwardRow) {
    match m
    case Fees => true
    case Count => true
    case ChannelFees => f.receive.Some?
    case SendSide => f.send.Some?
    case ReceiveSide => f.receive.Some?
    case Sends(t) => f.send == Some(t)
    case SendFees(t) => f.send == Some(t)
    case Receives(t) => f.receive == Some(t)
    case ReceiveFees(t) => f.receive == Some(t)
    case OpenFees(t) => f.receive == Some(t)
  }

  predicate ByOpening(m: Measure) { m.ChannelFees? || m.OpenFees? }

  predicate ByHalves(m: Measure) { m.SendSide? || m.ReceiveSide? || m.SendFees? || m.ReceiveFees? }

  /** What came in and what went out for a forward: of the forward, or of the HTLC that opened the channel. */
  function CameIn(opening: bool, f: ForwardRow): Uint64 {
    if !opening then f.amtIn else if f.htlc.Some? then f.htlc.value.original else 0
  }

  function WentOut(opening: bool, f: ForwardRow): Uint64 {
    if !opening then f.amtOut else if f.htlc.Some? then f.htlc.value.forwarded else 0
  }

  function TotalIn(m: Measure, rows: seq<ForwardRow>, node: Bytes): nat {
    if rows == [] then 0 else
    var f := rows[|rows| - 1];
    TotalIn(m, rows[..|rows| - 1], node) + if f.node == node && Counts(m, f) then CameIn(ByOpening(m), f) else 0
  }

  function TotalOut(m: Measure, rows: seq<ForwardRow>, node: Bytes): nat {
    if rows == [] then 0 else
    var f := rows[|rows| - 1];
    TotalOut(m, rows[..|rows| - 1], node) + if f.node == node && Counts(m, f) then WentOut(ByOpening(m), f) else 0
  }

  function Number(m: Measure, rows: seq<ForwardRow>, node: Bytes): nat {
    if rows == [] then 0 else
    var f := rows[|rows| - 1];
    Number(m, rows[..|rows| - 1], node) + if f.node == node && Counts(m, f) then 1 else 0
  }

  /** No forward of the measure sends out more than came in. */
  ghost predicate NoLosses(m: Measure, rows: seq<ForwardRow>, node: Bytes) {
    forall a :: 0 <= a < |rows| && rows[a].node == node && Counts(m, rows[a]) ==>
      WentOut(ByOpening(m), rows[a]) <= CameIn(ByOpening(m), rows[a])
  }

  /** One forward: its fee, its half and its opening fee in the amounts themselves. */
  lemma FeeOf(f: ForwardRow)
    ensures Fee(f) + f.amtOut == f.amtIn + if f.amtOut <= f.amtIn then 0 else TWO_64
    ensures 2 * Half(f) <= Fee(f) <= 2 * Half(f) + 1
    ensures f.htlc.None? ==> OpenFee(f) == 0
    ensures f.htlc.Some? ==>
              var h := f.htlc.value;
              OpenFee(f) + h.forwarded == h.original + if h.forwarded <= h.original then 0 else TWO_64
  {
  }

  /**
   Fees, channel fees and the opening fees of a token are what came in less what went out for the forwards they count;
   in 64 bits that holds also where more went out than came in, but for a number of wraps.
   */
  lemma {:induction false} FeesBalance(m: Measure, rows: seq<ForwardRow>, node: Bytes) returns (wraps: int)
    requires m.Fees? || ByOpening(m)
    ensures Sum64(m, rows, node) + TotalOut(m, rows, node) == TotalIn(m, rows, node) + wraps * TWO_64
  {
    wraps := 0;
    if rows != [] {
      var f := rows[|rows| - 1];
      wraps := FeesBalance(m, rows[..|rows| - 1], node);
      FeeOf(f);
      if f.node == node && Counts(m, f) {
        if WentOut(ByOpening(m), f) > CameIn(ByOpening(m), f) { wraps := wraps + 1; }
        if Sum64(m, rows[..|rows| - 1], node) + Weigh(m, f) >= TWO_64 { wraps := wraps - 1; }
      }
    }
  }

  /** Without losses the exact total is the difference. */
  lemma {:induction false} FeesExact(m: Measure, rows: seq<ForwardRow>, node: Bytes)
    requires (m.Fees? || ByOpening(m)) && NoLosses(m, rows, node)
    ensures Total(m, rows, node) + TotalOut(m, rows, node) == TotalIn(m, rows, node)
  {
    if rows != [] {
      var front := rows[..|rows| - 1];
      assert forall a :: 0 <= a < |front| ==> front[a] == rows[a];
      FeesExact(m, front, node);
      FeeOf(rows[|rows| - 1]);
    }
  }

  /**
   Each side, and each token on a side, gets half of what is left of its forwards, less half a unit for an odd one.
   */
  lemma {:induction false} HalvesBalance(m: Measure, rows: seq<ForwardRow>, node: Bytes)
    requires ByHalves(m) && NoLosses(m, rows, node)
    ensures var left := TotalIn(m, rows, node) - TotalOut(m, rows, node);
            2 * Total(m, rows, node) <= left <= 2 * Total(m, rows, node) + Number(m, rows, node)
  {
    if rows != [] {
      var front := rows[..|rows| - 1];
      assert forall a :: 0 <= a < |front| ==> front[a] == rows[a];
      HalvesBalance(m, front, node);
    }
  }

  /** The counters count the forwards. */
  lemma {:induction false} CountsForwards(m: Measure, rows: seq<ForwardRow>, node: Bytes)
    requires m.Count? || m.Sends? || m.Receives?
    ensures Total(m, rows, node) == Number(m, rows, node)
  {
    if rows != [] { CountsForwards(m, rows[..|rows| - 1], node); }
  }
}
