/** The aggregation of attributed forwards into a revenue report, in 64-bit arithmetic. */
module RevenueReport {
  import opened Base
  import opened RevenueMatching

  /** Addition and subtraction of `uint64` values. */
  function Plus(a: Uint64, b: Uint64): Uint64 { if a + b < TWO_64 then a + b else a + b - TWO_64 }

  function Minus(a: Uint64, b: Uint64): Uint64 { if b <= a then a - b else a - b + TWO_64 }

  /** The HTLC that opened a channel, as far as its fee goes. */
  datatype OpenHtlc = OpenHtlc(original: Uint64, forwarded: Uint64)

  datatype ForwardRow = ForwardRow(node: Bytes, amtIn: Uint64, amtOut: Uint64,
                                   send: Option<string>, receive: Option<string>, htlc: Option<OpenHtlc>)

  datatype TokenRevenue = TokenRevenue(sends: Uint64, receives: Uint64, sendFees: Uint64, receiveFees: Uint64,
                                       openFees: Uint64)

  datatype NodeRevenue = NodeRevenue(node: Bytes, tokens: map<string, TokenRevenue>,
                                     totalFees: Uint64, count: Uint64, tokenFees: Uint64, channelFees: Uint64)

  function Fee(f: ForwardRow): Uint64 { Minus(f.amtIn, f.amtOut) }
  function Half(f: ForwardRow): Uint64 { Fee(f) / 2 }
  function OpenFee(f: ForwardRow): Uint64 {
    if f.htlc.None? then 0 else Minus(f.htlc.value.original, f.htlc.value.forwarded)
  }

  // ----- what is measured

  datatype Measure =
    | Fees | Count | ChannelFees | SendSide | ReceiveSide
    | Sends(token: string) | SendFees(token: string)
    | Receives(token: string) | ReceiveFees(token: string) | OpenFees(token: string)

  /** What one forward contributes to a measure. */
  function Weigh(m: Measure, f: ForwardRow): Uint64 {
    match m
    case Fees => Fee(f)
    case Count => 1
    case ChannelFees => if f.receive.Some? then OpenFee(f) else 0
    case SendSide => if f.send.Some? then Half(f) else 0
    case ReceiveSide => if f.receive.Some? then Half(f) else 0
    case Sends(t) => if f.send == Some(t) then 1 else 0
    case SendFees(t) => if f.send == Some(t) then Half(f) else 0
    case Receives(t) => if f.receive == Some(t) then 1 else 0
    case ReceiveFees(t) => if f.receive == Some(t) then Half(f) else 0
    case OpenFees(t) => if f.receive == Some(t) then OpenFee(f) else 0
  }

  /** The exact total of a measure over a node's forwards. */
  function Total(m: Measure, rows: seq<ForwardRow>, node: Bytes): nat {
    if rows == [] then 0 else
    var f := rows[|rows| - 1];
    Total(m, rows[..|rows| - 1], node) + if f.node == node then Weigh(m, f) else 0
  }

  /** The same total accumulated in 64 bits. */
  function Sum64(m: Measure, rows: seq<ForwardRow>, node: Bytes): Uint64 {
    if rows == [] then 0 else
    var f := rows[|rows| - 1];
    var front := Sum64(m, rows[..|rows| - 1], node);
    if f.node == node then Plus(front, Weigh(m, f)) else front
  }

  lemma {:induction false} Sum64IsTotal(m: Measure, rows: seq<ForwardRow>, node: Bytes)
    ensures Sum64(m, rows, node) == Total(m, rows, node) % TWO_64
  {
    if rows != [] {
      Sum64IsTotal(m, rows[..|rows| - 1], node);
    }
  }

  ghost predicate TokenSeen(rows: seq<ForwardRow>, node: Bytes, token: string) {
    exists a :: 0 <= a < |rows| && rows[a].node == node
      && (rows[a].send == Some(token) || rows[a].receive == Some(token))
  }

  /** `TotalTokenFeesMsat` is overwritten by every forward with a token, so it ends as the last one's half fee. */
  function LastTokenFee(rows: seq<ForwardRow>, node: Bytes): Uint64 {
    if rows == [] then 0 else
    var f := rows[|rows| - 1];
    if f.node == node && (f.send.Some? || f.receive.Some?) then Half(f) else LastTokenFee(rows[..|rows| - 1], node)
  }

  ghost predicate TokenEntry(r: TokenRevenue, rows: seq<ForwardRow>, node: Bytes, t: string) {
    && r.sends == Sum64(Sends(t), rows, node) && r.sendFees == Sum64(SendFees(t), rows, node)
    && r.receives == Sum64(Receives(t), rows, node) && r.receiveFees == Sum64(ReceiveFees(t), rows, node)
    && r.openFees == Sum64(OpenFees(t), rows, node)
  }

  /** The entry reports the node's forwards: totals, counts, and one line for each token they carry. */
  ghost predicate Entry(e: NodeRevenue, rows: seq<ForwardRow>) {
    && e.totalFees == Sum64(Fees, rows, e.node) && e.count == Sum64(Count, rows, e.node)
    && e.channelFees == Sum64(ChannelFees, rows, e.node) && e.tokenFees == LastTokenFee(rows, e.node)
    && (forall t :: t in e.tokens <==> TokenSeen(rows, e.node, t))
    && (forall t :: t in e.tokens ==> TokenEntry(e.tokens[t], rows, e.node, t))
  }

  // ----- one forward

  function Line(tokens: map<string, TokenRevenue>, t: string): TokenRevenue {
    if t in tokens then tokens[t] else TokenRevenue(0, 0, 0, 0, 0)
  }

  function AddSend(e: NodeRevenue, f: ForwardRow): NodeRevenue {
    if f.send.None? then e else
    var line := Line(e.tokens, f.send.value);
    e.(tokens := e.tokens[f.send.value := line.(sendFees := Plus(line.sendFees, Half(f)),
                                                sends := Plus(line.sends, 1))],
       tokenFees := Half(f))
  }

  function AddReceive(e: NodeRevenue, f: ForwardRow): NodeRevenue {
    if f.receive.None? then e else
    var line := Line(e.tokens, f.receive.value);
    e.(tokens := e.tokens[f.receive.value := line.(openFees := Plus(line.openFees, OpenFee(f)),
                                                   receiveFees := Plus(line.receiveFees, Half(f)),
                                                   receives := Plus(line.receives, 1))],
       tokenFees := Half(f), channelFees := Plus(e.channelFees, OpenFee(f)))
  }

  function AddRow(e: NodeRevenue, f: ForwardRow): NodeRevenue {
    AddReceive(AddSend(e.(totalFees := Plus(e.totalFees, Fee(f)), count := Plus(e.count, 1)), f), f)
  }

  lemma SumNext(m: Measure, rows: seq<ForwardRow>, f: ForwardRow, node: Bytes)
    requires f.node == node
    ensures Sum64(m, rows + [f], node) == Plus(Sum64(m, rows, node), Weigh(m, f))
  {
    assert (rows + [f])[..|rows|] == rows;
  }

  lemma {:induction false} Unseen(rows: seq<ForwardRow>, node: Bytes, t: string)
    requires !TokenSeen(rows, node, t)
    ensures TokenEntry(TokenRevenue(0, 0, 0, 0, 0), rows, node, t)
  {
    if rows != [] {
      var front := rows[..|rows| - 1];
      assert forall a :: 0 <= a < |front| ==> front[a] == rows[a];
      Unseen(front, node, t);
      assert rows[|rows| - 1].node == node ==> rows[|rows| - 1].send != Some(t) && rows[|rows| - 1].receive != Some(t);
    }
  }

  lemma SeenNext(rows: seq<ForwardRow>, f: ForwardRow, node: Bytes, t: string)
    ensures TokenSeen(rows + [f], node, t) <==>
            TokenSeen(rows, node, t) || (f.node == node && (f.send == Some(t) || f.receive == Some(t)))
  {
    assert forall a :: 0 <= a < |rows| ==> (rows + [f])[a] == rows[a];
    assert (rows + [f])[|rows|] == f;
  }

  /** The line of a token after one more forward of the node. */
  lemma LineStep(line: TokenRevenue, rows: seq<ForwardRow>, f: ForwardRow, node: Bytes, t: string)
    requires TokenEntry(line, rows, node, t) && f.node == node
    ensures var s := if f.send == Some(t)
            then line.(sendFees := Plus(line.sendFees, Half(f)), sends := Plus(line.sends, 1)) else line;
            var r := if f.receive == Some(t) then s.(openFees := Plus(s.openFees, OpenFee(f)),
                                                     receiveFees := Plus(s.receiveFees, Half(f)),
                                                     receives := Plus(s.receives, 1)) else s;
            TokenEntry(r, rows + [f], node, t)
  {
    SumNext(Sends(t), rows, f, node);
    SumNext(SendFees(t), rows, f, node);
    SumNext(Receives(t), rows, f, node);
    SumNext(ReceiveFees(t), rows, f, node);
    SumNext(OpenFees(t), rows, f, node);
  }

  lemma EntryTokens(e: NodeRevenue, rows: seq<ForwardRow>, f: ForwardRow, t: string)
    requires Entry(e, rows) && f.node == e.node
    ensures t in AddRow(e, f).tokens <==> TokenSeen(rows + [f], e.node, t)
    ensures t in AddRow(e, f).tokens ==> TokenEntry(AddRow(e, f).tokens[t], rows + [f], e.node, t)
  {
    SeenNext(rows, f, e.node, t);
    if t !in e.tokens { Unseen(rows, e.node, t); }
    LineStep(Line(e.tokens, t), rows, f, e.node, t);
  }

  lemma EntryStep(e: NodeRevenue, rows: seq<ForwardRow>, f: ForwardRow)
    requires Entry(e, rows) && f.node == e.node
    ensures Entry(AddRow(e, f), rows + [f])
  {
    SumNext(Fees, rows, f, e.node);
    SumNext(Count, rows, f, e.node);
    SumNext(ChannelFees, rows, f, e.node);
    assert (rows + [f])[..|rows|] == rows;
    forall t ensures t in AddRow(e, f).tokens <==> TokenSeen(rows + [f], e.node, t)
             ensures t in AddRow(e, f).tokens ==> TokenEntry(AddRow(e, f).tokens[t], rows + [f], e.node, t) {
      EntryTokens(e, rows, f, t);
    }
  }

  /** Forwards of other nodes leave an entry as it is. */
  lemma EntryOther(e: NodeRevenue, rows: seq<ForwardRow>, f: ForwardRow)
    requires Entry(e, rows) && f.node != e.node
    ensures Entry(e, rows + [f])
  {
    assert (rows + [f])[..|rows|] == rows;
    forall t ensures TokenSeen(rows + [f], e.node, t) <==> TokenSeen(rows, e.node, t) {
      SeenNext(rows, f, e.node, t);
    }
  }

  function Empty(node: Bytes): NodeRevenue { NodeRevenue(node, map[], 0, 0, 0, 0) }

  lemma {:induction false} EntryEmpty(node: Bytes, rows: seq<ForwardRow>)
    requires forall a :: 0 <= a < |rows| ==> rows[a].node != node
    ensures Entry(Empty(node), rows)
  {
    if rows != [] {
      EntryEmpty(node, rows[..|rows| - 1]);
      EntryOther(Empty(node), rows[..|rows| - 1], rows[|rows| - 1]);
      assert rows == rows[..|rows| - 1] + [rows[|rows| - 1]];
    }
  }

  // ----- the whole report

  /** Forwards of one node stand together, as they do in a list sorted by node first. */
  ghost predicate Grouped(rows: seq<ForwardRow>) {
    forall a, b, c :: 0 <= a < b < c < |rows| && rows[a].node == rows[c].node ==> rows[b].node == rows[a].node
  }

  lemma SortedIsGrouped(rows: seq<ForwardRow>)
    requires forall a, b :: 0 <= a < b < |rows| ==> CompareBytes(rows[a].node, rows[b].node) <= 0
    ensures Grouped(rows)
  {
    forall a, b, c | 0 <= a < b < c < |rows| && rows[a].node == rows[c].node ensures rows[b].node == rows[a].node {
      CompareBytesEqual(rows[a].node, rows[b].node);
    }
  }

  function NodesOf(nodes: seq<NodeRevenue>): (r: set<Bytes>)
    ensures forall k :: 0 <= k < |nodes| ==> nodes[k].node in r
  {
    if nodes == [] then {} else NodesOf(nodes[..|nodes| - 1]) + {nodes[|nodes| - 1].node}
  }

  function RowNodes(rows: seq<ForwardRow>): (r: set<Bytes>)
    ensures forall a :: 0 <= a < |rows| ==> rows[a].node in r
  {
    if rows == [] then {} else RowNodes(rows[..|rows| - 1]) + {rows[|rows| - 1].node}
  }

  /** One entry for each node that has forwards and no other, and each entry reports its node. */
  ghost predicate Report(nodes: seq<NodeRevenue>, rows: seq<ForwardRow>) {
    && NodesOf(nodes) == RowNodes(rows)
    && (forall k, l :: 0 <= k < l < |nodes| ==> nodes[k].node != nodes[l].node)
    && (forall k :: 0 <= k < |nodes| ==> Entry(nodes[k], rows))
  }

  lemma ReportEntries(nodes: seq<NodeRevenue>, rows: seq<ForwardRow>, f: ForwardRow)
    requires forall k :: 0 <= k < |nodes| ==> Entry(nodes[k], rows) && nodes[k].node != f.node
    ensures forall k :: 0 <= k < |nodes| ==> Entry(nodes[k], rows + [f])
  {
    forall k | 0 <= k < |nodes| ensures Entry(nodes[k], rows + [f]) {
      EntryOther(nodes[k], rows, f);
    }
  }

  /** The current entry is the last one; `base` is it, or a new one, before the forward is added. */
  lemma ReportStep(done: seq<NodeRevenue>, base: NodeRevenue, nodes: seq<NodeRevenue>, rows: seq<ForwardRow>,
                   f: ForwardRow)
    requires Report(nodes, rows) && base.node == f.node && Entry(base, rows)
    requires nodes == done + [base] || (nodes == done && f.node !in NodesOf(nodes))
    ensures Report(done + [AddRow(base, f)], rows + [f])
  {
    var next := done + [AddRow(base, f)];
    assert forall k :: 0 <= k < |done| ==> next[k] == done[k] == nodes[k];
    assert nodes == done + [base] ==> nodes[|done|] == base;
    NodesStep(done, base, nodes, rows, f);
    EntryStep(base, rows, f);
    ReportEntries(done, rows, f);
  }

  lemma NodesStep(done: seq<NodeRevenue>, base: NodeRevenue, nodes: seq<NodeRevenue>, rows: seq<ForwardRow>,
                  f: ForwardRow)
    requires NodesOf(nodes) == RowNodes(rows) && base.node == f.node && (nodes == done + [base] || nodes == done)
    ensures NodesOf(done + [AddRow(base, f)]) == RowNodes(rows + [f])
  {
    assert (done + [AddRow(base, f)])[..|done|] == done && (rows + [f])[..|rows|] == rows;
    assert nodes == done + [base] ==> nodes[..|done|] == done;
  }

  method GetLine(tokens: map<string, TokenRevenue>, t: string) returns (line: TokenRevenue)
    ensures line == Line(tokens, t)
  {
    line := if t in tokens then tokens[t] else TokenRevenue(0, 0, 0, 0, 0);
  }

  /** The body of the loop: the counters of the current node and of the tokens the forward carries. */
  method Accumulate(entry: NodeRevenue, f: ForwardRow) returns (e: NodeRevenue)
    ensures e == AddRow(entry, f)
    ensures forall rows :: f.node == entry.node && Entry(entry, rows) ==> Entry(e, rows + [f])
  {
    e := entry.(totalFees := Plus(entry.totalFees, Minus(f.amtIn, f.amtOut)));
    e := e.(count := Plus(e.count, 1));
    if f.send.Some? {
      var line := GetLine(e.tokens, f.send.value);
      var fees := Minus(f.amtIn, f.amtOut) / 2;
      line := line.(sendFees := Plus(line.sendFees, fees));
      line := line.(sends := Plus(line.sends, 1));
      e := e.(tokens := e.tokens[f.send.value := line], tokenFees := fees);
    }
    if f.receive.Some? {
      var line := GetLine(e.tokens, f.receive.value);
      var fees, openFees: Uint64 := Minus(f.amtIn, f.amtOut) / 2, 0;
      if f.htlc.Some? {
        openFees := Minus(f.htlc.value.original, f.htlc.value.forwarded);
      }
      line := line.(openFees := Plus(line.openFees, openFees), receiveFees := Plus(line.receiveFees, fees));
      line := line.(receives := Plus(line.receives, 1));
      e := e.(tokens := e.tokens[f.receive.value := line], tokenFees := fees);
      e := e.(channelFees := Plus(e.channelFees, openFees));
    }
    forall rows | f.node == entry.node && Entry(entry, rows) ensures Entry(AddRow(entry, f), rows + [f]) {
      EntryStep(entry, rows, f);
    }
  }

  method CalculateRevenue(rows: seq<ForwardRow>) returns (nodes: seq<NodeRevenue>)
    requires Grouped(rows)
    ensures Report(nodes, rows)
  {
    nodes := [];
    for i := 0 to |rows|
      invariant Report(nodes, rows[..i])
      invariant i > 0 ==> nodes != [] && nodes[|nodes| - 1].node == rows[i - 1].node
    {
      var f := rows[i];
      var done, base := nodes, Empty(f.node);
      if nodes != [] && nodes[|nodes| - 1].node == f.node {
        done, base := nodes[..|nodes| - 1], nodes[|nodes| - 1];
      } else {
        NewNode(nodes, rows, i);
      }
      var e := Accumulate(base, f);
      ReportStep(done, base, nodes, rows[..i], f);
      assert rows[..i] + [f] == rows[..i + 1];
      nodes := done + [e];
    }
    assert rows[..|rows|] == rows;
  }

  /** A node that differs from the previous forward's has not been seen before. */
  lemma NewNode(nodes: seq<NodeRevenue>, rows: seq<ForwardRow>, i: nat)
    requires Grouped(rows) && i < |rows| && Report(nodes, rows[..i])
    requires i > 0 ==> rows[i - 1].node != rows[i].node
    ensures rows[i].node !in NodesOf(nodes) && Entry(Empty(rows[i].node), rows[..i])
  {
    var node := rows[i].node;
    forall a | 0 <= a < i ensures rows[..i][a].node != node {
      assert rows[i - 1].node != node;
    }
    EntryEmpty(node, rows[..i]);
    NotAmong(rows[..i], node);
  }

  lemma {:induction false} NotAmong(rows: seq<ForwardRow>, node: Bytes)
    requires forall a :: 0 <= a < |rows| ==> rows[a].node != node
    ensures node !in RowNodes(rows)
  {
    if rows != [] {
      NotAmong(rows[..|rows| - 1], node);
    }
  }

  // ----- token lines against node totals

  datatype Side = Sending | Receiving | Opens

  function Of(side: Side, t: string): Measure {
    match side case Sending => SendFees(t) case Receiving => ReceiveFees(t) case Opens => OpenFees(t)
  }

  function Whole(side: Side): Measure {
    match side case Sending => SendSide case Receiving => ReceiveSide case Opens => ChannelFees
  }

  function TokenOn(side: Side, f: ForwardRow): Option<string> {
    if side.Sending? then f.send else f.receive
  }

  function Field(side: Side, r: TokenRevenue): Uint64 {
    match side case Sending => r.sendFees case Receiving => r.receiveFees case Opens => r.openFees
  }

  /** The exact per-token totals, added up over a set of tokens. */
  ghost function Over(tokens: set<string>, side: Side, rows: seq<ForwardRow>, node: Bytes): nat {
    if tokens == {} then 0 else
    var t :| t in tokens;
    Total(Of(side, t), rows, node) + Over(tokens - {t}, side, rows, node)
  }

  lemma {:induction false} OverTake(tokens: set<string>, side: Side, rows: seq<ForwardRow>, node: Bytes, t: string)
    requires t in tokens
    ensures Over(tokens, side, rows, node) == Total(Of(side, t), rows, node) + Over(tokens - {t}, side, rows, node)
  {
    var u :| u in tokens
      && Over(tokens, side, rows, node) == Total(Of(side, u), rows, node) + Over(tokens - {u}, side, rows, node);
    if u != t {
      OverTake(tokens - {u}, side, rows, node, t);
      OverTake(tokens - {t}, side, rows, node, u);
      assert tokens - {u} - {t} == tokens - {t} - {u};
    }
  }

  lemma {:induction false} OverEmpty(tokens: set<string>, side: Side, node: Bytes)
    ensures Over(tokens, side, [], node) == 0
  {
    if tokens != {} {
      var t :| t in tokens;
      OverTake(tokens, side, [], node, t);
      OverEmpty(tokens - {t}, side, node);
    }
  }

  lemma TotalNext(m: Measure, rows: seq<ForwardRow>, f: ForwardRow, node: Bytes)
    ensures Total(m, rows + [f], node) == Total(m, rows, node) + if f.node == node then Weigh(m, f) else 0
  {
    assert (rows + [f])[..|rows|] == rows;
  }

  /** Each forward adds to at most one token of a side. */
  lemma {:induction false} OverNext(tokens: set<string>, side: Side, rows: seq<ForwardRow>, f: ForwardRow, node: Bytes)
    ensures var token := TokenOn(side, f);
            Over(tokens, side, rows + [f], node) == Over(tokens, side, rows, node) +
              if f.node == node && token.Some? && token.value in tokens then Weigh(Whole(side), f) else 0
    decreases tokens
  {
    if tokens != {} {
      var t :| t in tokens;
      OverTake(tokens, side, rows, node, t);
      OverTake(tokens, side, rows + [f], node, t);
      OverNext(tokens - {t}, side, rows, f, node);
      TotalNext(Of(side, t), rows, f, node);
      OneToken(side, f, t);
    }
  }

  lemma OneToken(side: Side, f: ForwardRow, t: string)
    ensures Weigh(Of(side, t), f) == if TokenOn(side, f) == Some(t) then Weigh(Whole(side), f) else 0
  {
  }

  /** Over all tokens a node's forwards carry, the per-token totals make up the side's total. */
  lemma {:induction false} OverAll(tokens: set<string>, side: Side, rows: seq<ForwardRow>, node: Bytes)
    requires forall t :: TokenSeen(rows, node, t) ==> t in tokens
    ensures Over(tokens, side, rows, node) == Total(Whole(side), rows, node)
  {
    if rows == [] {
      OverEmpty(tokens, side, node);
    } else {
      var front, f := rows[..|rows| - 1], rows[|rows| - 1];
      assert rows == front + [f];
      forall t | TokenSeen(front, node, t) ensures t in tokens { SeenNext(front, f, node, t); }
      OverAll(tokens, side, front, node);
      OverNext(tokens, side, front, f, node);
      TotalNext(Whole(side), front, f, node);
      if TokenOn(side, f).Some? { SeenNext(front, f, node, TokenOn(side, f).value); }
    }
  }

  /** Half of each fee to the sender's token and half to the recipient's: together never more than the fees. */
  lemma {:induction false} SidesWithinFees(rows: seq<ForwardRow>, node: Bytes)
    ensures Total(SendSide, rows, node) + Total(ReceiveSide, rows, node) <= Total(Fees, rows, node)
  {
    if rows != [] {
      SidesWithinFees(rows[..|rows| - 1], node);
    }
  }

  /** A field of the report's token lines, added up. */
  ghost function LineSum(lines: map<string, TokenRevenue>, side: Side): nat
    decreases lines.Keys
  {
    if lines.Keys == {} then 0 else
    var t :| t in lines;
    Field(side, lines[t]) + LineSum(lines - {t}, side)
  }

  /** A per-token total is part of the side's total, so it does not wrap when that fits in 64 bits. */
  lemma {:induction false} TokenWithinSide(side: Side, t: string, rows: seq<ForwardRow>, node: Bytes)
    ensures Total(Of(side, t), rows, node) <= Total(Whole(side), rows, node)
  {
    if rows != [] {
      TokenWithinSide(side, t, rows[..|rows| - 1], node);
    }
  }

  lemma FieldIsTotal(line: TokenRevenue, side: Side, t: string, rows: seq<ForwardRow>, node: Bytes)
    requires TokenEntry(line, rows, node, t) && Total(Whole(side), rows, node) < TWO_64
    ensures Field(side, line) == Total(Of(side, t), rows, node)
  {
    TokenWithinSide(side, t, rows, node);
    FieldIsSum(line, side, t, rows, node);
    SmallTotal(Of(side, t), rows, node);
  }

  lemma FieldIsSum(line: TokenRevenue, side: Side, t: string, rows: seq<ForwardRow>, node: Bytes)
    requires TokenEntry(line, rows, node, t)
    ensures Field(side, line) == Sum64(Of(side, t), rows, node)
  {
  }

  lemma SmallTotal(m: Measure, rows: seq<ForwardRow>, node: Bytes)
    requires Total(m, rows, node) < TWO_64
    ensures Sum64(m, rows, node) == Total(m, rows, node)
  {
    Sum64IsTotal(m, rows, node);
  }

  lemma {:induction false} LineSumIsOver(lines: map<string, TokenRevenue>, side: Side, rows: seq<ForwardRow>,
                                         node: Bytes)
    requires forall t :: t in lines ==> TokenEntry(lines[t], rows, node, t)
    requires Total(Whole(side), rows, node) < TWO_64
    ensures LineSum(lines, side) == Over(lines.Keys, side, rows, node)
    decreases lines.Keys
  {
    if lines.Keys != {} {
      var t :| t in lines && LineSum(lines, side) == Field(side, lines[t]) + LineSum(lines - {t}, side);
      FieldIsTotal(lines[t], side, t, rows, node);
      LineSumIsOver(lines - {t}, side, rows, node);
      OverTake(lines.Keys, side, rows, node, t);
      assert (lines - {t}).Keys == lines.Keys - {t};
    }
  }

  /**
   In the report, unless a node's totals exceed 64 bits, its token lines' send and receive fees stay within its total
   fees and their opening fees add up to its channel fees.
   */
  lemma LinesAddUp(e: NodeRevenue, rows: seq<ForwardRow>)
    requires Entry(e, rows) && Total(Fees, rows, e.node) < TWO_64
    ensures e.totalFees == Total(Fees, rows, e.node)
    ensures LineSum(e.tokens, Sending) + LineSum(e.tokens, Receiving) <= e.totalFees
    ensures Total(ChannelFees, rows, e.node) < TWO_64 ==> LineSum(e.tokens, Opens) == e.channelFees
  {
    Sum64IsTotal(Fees, rows, e.node);
    SidesWithinFees(rows, e.node);
    SideAddsUp(e, rows, Sending);
    SideAddsUp(e, rows, Receiving);
    if Total(ChannelFees, rows, e.node) < TWO_64 {
      Sum64IsTotal(ChannelFees, rows, e.node);
      SideAddsUp(e, rows, Opens);
    }
  }

  lemma SideAddsUp(e: NodeRevenue, rows: seq<ForwardRow>, side: Side)
    requires Entry(e, rows) && Total(Whole(side), rows, e.node) < TWO_64
    ensures LineSum(e.tokens, side) == Total(Whole(side), rows, e.node)
  {
    LineSumIsOver(e.tokens, side, rows, e.node);
    OverAll(e.tokens.Keys, side, rows, e.node);
  }
}
