/**
 The revenue report's records and the loops that set their tokens in place.  The list sorted on the incoming side
 and the list sorted on the outgoing side hold the same `Forward` objects.
 */
module RevenueRecords {
  import opened Base
  import opened RevenueMatching

  class Forward {
    const node: Bytes
    const peerIn: Bytes
    const peerOut: Bytes
    const amtIn: nat
    const amtOut: nat
    var sendToken: Option<string>
    var receiveToken: Option<string>

    constructor (node: Bytes, peerIn: Bytes, peerOut: Bytes, amtIn: nat, amtOut: nat, send: Option<string>,
                 receive: Option<string>)
      ensures this.node == node && this.peerIn == peerIn && this.peerOut == peerOut && this.amtIn == amtIn
              && this.amtOut == amtOut
      ensures sendToken == send && receiveToken == receive
    {
      this.node, this.peerIn, this.peerOut, this.amtIn, this.amtOut := node, peerIn, peerOut, amtIn, amtOut;
      sendToken, receiveToken := send, receive;
    }

    /** Comparisons always use the incoming peer and amount. */
    function InKey(): Key { Key(node, peerIn, amtIn) }

    /** What the second list is sorted on. */
    function OutKey(): Key { Key(node, peerOut, amtOut) }

    /** The same hop as the node on its other side recorded it. */
    function Mirrored(): Key { Key(peerIn, node, amtIn) }
  }

  class Import {
    const node: Bytes
    const peer: Bytes
    const amount: nat
    const token: string
    const direction: string
    var isCorrelated: bool

    constructor (node: Bytes, peer: Bytes, amount: nat, token: string, direction: string)
      ensures this.node == node && this.peer == peer && this.amount == amount && this.token == token
      ensures this.direction == direction && !isCorrelated
    {
      this.node, this.peer, this.amount, this.token, this.direction := node, peer, amount, token, direction;
      isCorrelated := false;
    }

    function InKey(): Key { Key(node, peer, amount) }
  }

  ghost predicate Distinct<T>(s: seq<T>) { forall a, b :: 0 <= a < b < |s| ==> s[a] != s[b] }

  // ----- values of the records in a list

  type Tokens = seq<Option<string>>

  ghost function SendTokens(fs: seq<Forward>): (r: Tokens)
    reads fs
    ensures |r| == |fs| && forall a :: 0 <= a < |fs| ==> r[a] == fs[a].sendToken
  {
    seq(|fs|, a requires 0 <= a < |fs| reads fs => fs[a].sendToken)
  }

  ghost function ReceiveTokens(fs: seq<Forward>): (r: Tokens)
    reads fs
    ensures |r| == |fs| && forall a :: 0 <= a < |fs| ==> r[a] == fs[a].receiveToken
  {
    seq(|fs|, a requires 0 <= a < |fs| reads fs => fs[a].receiveToken)
  }

  ghost function Marks(imps: seq<Import>): (r: seq<bool>)
    reads imps
    ensures |r| == |imps| && forall b :: 0 <= b < |imps| ==> r[b] == imps[b].isCorrelated
  {
    seq(|imps|, b requires 0 <= b < |imps| reads imps => imps[b].isCorrelated)
  }

  /** The join's view of the forwards when `tokens` are set. */
  ghost function Slots(fs: seq<Forward>, tokens: Tokens): (r: seq<Slot>)
    requires |fs| == |tokens|
    ensures |r| == |fs|
  {
    seq(|fs|, a requires 0 <= a < |fs| => Slot(fs[a].InKey(), tokens[a].Some?))
  }

  ghost function Offers(imps: seq<Import>, direction: string, marks: seq<bool>): (r: seq<Offer>)
    requires |imps| == |marks|
    ensures |r| == |imps|
  {
    seq(|imps|, b requires 0 <= b < |imps| => Offer(imps[b].InKey(), imps[b].direction == direction, marks[b]))
  }

  ghost predicate InRange(ps: Pairs, n: nat, m: nat) { forall p :: p in ps ==> p.slot < n && p.offer < m }

  /** `tokens` after each paired forward got its import's token. */
  ghost function Assign(tokens: Tokens, ps: Pairs, imps: seq<Import>): (r: Tokens)
    requires InRange(ps, |tokens|, |imps|)
    ensures |r| == |tokens|
  {
    if ps == [] then tokens else
    var p := ps[|ps| - 1];
    assert p in ps;
    Assign(tokens, ps[..|ps| - 1], imps)[p.slot := Some(imps[p.offer].token)]
  }

  /** `marks` after each paired import was marked as spent. */
  ghost function Spend(marks: seq<bool>, ps: Pairs): (r: seq<bool>)
    requires forall p :: p in ps ==> p.offer < |marks|
    ensures |r| == |marks|
  {
    if ps == [] then marks else
    var p := ps[|ps| - 1];
    assert p in ps;
    Spend(marks, ps[..|ps| - 1])[p.offer := true]
  }

  lemma {:induction false} AssignElsewhere(tokens: Tokens, ps: Pairs, imps: seq<Import>, a: nat)
    requires InRange(ps, |tokens|, |imps|) && a < |tokens| && forall p :: p in ps ==> p.slot != a
    ensures Assign(tokens, ps, imps)[a] == tokens[a]
  {
    if ps != [] {
      assert ps[|ps| - 1] in ps;
      AssignElsewhere(tokens, ps[..|ps| - 1], imps, a);
    }
  }

  lemma {:induction false} AssignPair(tokens: Tokens, ps: Pairs, imps: seq<Import>, n: nat)
    requires InRange(ps, |tokens|, |imps|) && Increasing(ps) && n < |ps|
    ensures ps[n].slot < |tokens| && ps[n].offer < |imps|
            && Assign(tokens, ps, imps)[ps[n].slot] == Some(imps[ps[n].offer].token)
  {
    assert ps[n] in ps;
    if n < |ps| - 1 {
      AssignPair(tokens, ps[..|ps| - 1], imps, n);
    }
  }

  lemma {:induction false} SpendElsewhere(marks: seq<bool>, ps: Pairs, b: nat)
    requires (forall p :: p in ps ==> p.offer < |marks|) && b < |marks| && forall p :: p in ps ==> p.offer != b
    ensures Spend(marks, ps)[b] == marks[b]
  {
    if ps != [] {
      assert ps[|ps| - 1] in ps;
      SpendElsewhere(marks, ps[..|ps| - 1], b);
    }
  }

  // ----- the import passes

  method SetSend(fs: seq<Forward>, i: nat, token: string)
    requires Distinct(fs) && i < |fs|
    modifies fs`sendToken
    ensures SendTokens(fs) == old(SendTokens(fs))[i := Some(token)]
  {
    fs[i].sendToken := Some(token);
  }

  method SetReceive(fs: seq<Forward>, i: nat, token: string)
    requires Distinct(fs) && i < |fs|
    modifies fs`receiveToken
    ensures ReceiveTokens(fs) == old(ReceiveTokens(fs))[i := Some(token)]
  {
    fs[i].receiveToken := Some(token);
  }

  method MarkSpent(imps: seq<Import>, j: nat)
    requires Distinct(imps) && j < |imps|
    modifies imps`isCorrelated
    ensures Marks(imps) == old(Marks(imps))[j := true]
  {
    imps[j].isCorrelated := true;
  }

  method TakeSend(fs: seq<Forward>, imps: seq<Import>, i: nat, j: nat, ghost tokens: Tokens, ghost marks: seq<bool>,
                  ghost ps: Pairs)
    requires Distinct(fs) && Distinct(imps) && i < |fs| == |tokens| && j < |imps| == |marks|
             && InRange(ps, |fs|, |imps|)
    requires SendTokens(fs) == Assign(tokens, ps, imps) && Marks(imps) == Spend(marks, ps)
    modifies fs`sendToken, imps`isCorrelated
    ensures InRange(ps + [Pair(i, j)], |fs|, |imps|)
    ensures SendTokens(fs) == Assign(tokens, ps + [Pair(i, j)], imps) && Marks(imps) == Spend(marks, ps + [Pair(i, j)])
  {
    assert (ps + [Pair(i, j)])[..|ps|] == ps;
    MarkSpent(imps, j);
    SetSend(fs, i, imps[j].token);
  }

  method TakeReceive(fs: seq<Forward>, imps: seq<Import>, i: nat, j: nat, ghost tokens: Tokens, ghost marks: seq<bool>,
                     ghost ps: Pairs)
    requires Distinct(fs) && Distinct(imps) && i < |fs| == |tokens| && j < |imps| == |marks|
             && InRange(ps, |fs|, |imps|)
    requires ReceiveTokens(fs) == Assign(tokens, ps, imps) && Marks(imps) == Spend(marks, ps)
    modifies fs`receiveToken, imps`isCorrelated
    ensures InRange(ps + [Pair(i, j)], |fs|, |imps|)
    ensures ReceiveTokens(fs) == Assign(tokens, ps + [Pair(i, j)], imps)
            && Marks(imps) == Spend(marks, ps + [Pair(i, j)])
  {
    assert (ps + [Pair(i, j)])[..|ps|] == ps;
    MarkSpent(imps, j);
    SetReceive(fs, i, imps[j].token);
  }

  /** The loop state after some pairs: they are applied, and the join of the rest starts at `i` and `j`. */
  ghost predicate Progress(slots: seq<Slot>, offers: seq<Offer>, ps: Pairs, i: nat, j: nat) {
    && i <= |slots| && j <= |offers|
    && ps + Join(slots, offers, i, j) == Join(slots, offers, 0, 0)
    && forall p :: p in ps ==> p.slot < i && p.offer < j
  }

  lemma ProgressStep(slots: seq<Slot>, offers: seq<Offer>, ps: Pairs, i: nat, j: nat)
    requires Progress(slots, offers, ps, i, j) && i < |slots| && j < |offers|
    ensures match Next(slots[i], offers[j])
            case SkipForward => Progress(slots, offers, ps, i + 1, j)
            case SkipImport => Progress(slots, offers, ps, i, j + 1)
            case Take => Progress(slots, offers, ps + [Pair(i, j)], i + 1, j + 1)
  {
    if Next(slots[i], offers[j]).Take? {
      assert ps + [Pair(i, j)] + Join(slots, offers, i + 1, j + 1) == ps + Join(slots, offers, i, j);
    }
  }

  /** The checks of one iteration, in the order of the loops. */
  method Consider(f: Forward, hasToken: bool, imp: Import, direction: string) returns (move: Move)
    ensures move == Next(Slot(f.InKey(), hasToken), Offer(imp.InKey(), imp.direction == direction, imp.isCorrelated))
    ensures move.Take? <==> !hasToken && !imp.isCorrelated && imp.direction == direction && f.InKey() == imp.InKey()
    ensures move.SkipForward? && !hasToken ==> Compare(f.InKey(), imp.InKey()) < 0
    ensures move.SkipImport? && !imp.isCorrelated && imp.direction == direction ==> Compare(f.InKey(), imp.InKey()) > 0
  {
    CompareEqual(f.InKey(), imp.InKey());
    if imp.direction != direction {
      return SkipImport;
    }
    var behind := Compare(f.InKey(), imp.InKey());
    if behind < 0 {
      return SkipForward;
    }
    if behind > 0 {
      return SkipImport;
    }
    if hasToken {
      return SkipForward;
    }
    return if imp.isCorrelated then SkipImport else Take;
  }

  /** Sets the sender's token of exactly the forwards the join pairs, and spends exactly their imports. */
  method MatchImportedForwardsSend(fs: seq<Forward>, imps: seq<Import>) returns (ghost ps: Pairs)
    requires Distinct(fs) && Distinct(imps)
    modifies fs`sendToken, imps`isCorrelated
    ensures ps == Join(Slots(fs, old(SendTokens(fs))), Offers(imps, "send", old(Marks(imps))), 0, 0)
    ensures InRange(ps, |fs|, |imps|)
    ensures SendTokens(fs) == Assign(old(SendTokens(fs)), ps, imps) && Marks(imps) == Spend(old(Marks(imps)), ps)
  {
    ghost var tokens, marks := SendTokens(fs), Marks(imps);
    ghost var slots, offers := Slots(fs, tokens), Offers(imps, "send", marks);
    var i, j := 0, 0;
    ps := [];
    while i < |fs| && j < |imps|
      invariant Progress(slots, offers, ps, i, j)
      invariant SendTokens(fs) == Assign(tokens, ps, imps) && Marks(imps) == Spend(marks, ps)
      decreases |fs| - i + |imps| - j
    {
      AssignElsewhere(tokens, ps, imps, i);
      SpendElsewhere(marks, ps, j);
      var move := Consider(fs[i], fs[i].sendToken.Some?, imps[j], "send");
      ProgressStep(slots, offers, ps, i, j);
      match move
      case SkipForward => i := i + 1;
      case SkipImport => j := j + 1;
      case Take =>
        TakeSend(fs, imps, i, j, tokens, marks, ps);
        ps := ps + [Pair(i, j)];
        i, j := i + 1, j + 1;
    }
  }

  /** The receiving side, over the list sorted on the outgoing side. */
  method MatchImportedForwardsReceive(fs: seq<Forward>, imps: seq<Import>) returns (ghost ps: Pairs)
    requires Distinct(fs) && Distinct(imps)
    modifies fs`receiveToken, imps`isCorrelated
    ensures ps == Join(Slots(fs, old(ReceiveTokens(fs))), Offers(imps, "receive", old(Marks(imps))), 0, 0)
    ensures InRange(ps, |fs|, |imps|)
    ensures ReceiveTokens(fs) == Assign(old(ReceiveTokens(fs)), ps, imps) && Marks(imps) == Spend(old(Marks(imps)), ps)
  {
    ghost var tokens, marks := ReceiveTokens(fs), Marks(imps);
    ghost var slots, offers := Slots(fs, tokens), Offers(imps, "receive", marks);
    var i, j := 0, 0;
    ps := [];
    while i < |fs| && j < |imps|
      invariant Progress(slots, offers, ps, i, j)
      invariant ReceiveTokens(fs) == Assign(tokens, ps, imps) && Marks(imps) == Spend(marks, ps)
      decreases |fs| - i + |imps| - j
    {
      AssignElsewhere(tokens, ps, imps, i);
      SpendElsewhere(marks, ps, j);
      var move := Consider(fs[i], fs[i].receiveToken.Some?, imps[j], "receive");
      ProgressStep(slots, offers, ps, i, j);
      match move
      case SkipForward => i := i + 1;
      case SkipImport => j := j + 1;
      case Take =>
        TakeReceive(fs, imps, i, j, tokens, marks, ps);
        ps := ps + [Pair(i, j)];
        i, j := i + 1, j + 1;
    }
  }

  // ----- how complete the passes are

  ghost predicate SortedIn(fs: seq<Forward>) {
    forall a, b :: 0 <= a < b < |fs| ==> Compare(fs[a].InKey(), fs[b].InKey()) <= 0
  }

  ghost predicate SortedOut(fs: seq<Forward>) {
    forall a, b :: 0 <= a < b < |fs| ==> Compare(fs[a].OutKey(), fs[b].OutKey()) <= 0
  }

  ghost predicate SortedImports(imps: seq<Import>) {
    forall a, b :: 0 <= a < b < |imps| ==> Compare(imps[a].InKey(), imps[b].InKey()) <= 0
  }

  /** The pass for sends makes as many pairs as any attribution could. */
  lemma SendPassMaximum(fs: seq<Forward>, tokens: Tokens, imps: seq<Import>, marks: seq<bool>)
    requires |fs| == |tokens| && |imps| == |marks| && SortedIn(fs) && SortedImports(imps)
    ensures Maximum(Slots(fs, tokens), Offers(imps, "send", marks))
  {
    var slots, offers := Slots(fs, tokens), Offers(imps, "send", marks);
    forall m | Matching(slots, offers, m) ensures |m| <= |Join(slots, offers, 0, 0)| {
      JoinMaximum(slots, offers, m);
    }
  }

  /**
   The pass for receives does so exactly when the forwards that stand behind an earlier incoming key are not needed.
   */
  lemma ReceivePassMaximumIff(fs: seq<Forward>, tokens: Tokens, imps: seq<Import>, marks: seq<bool>)
    requires |fs| == |tokens| && |imps| == |marks| && SortedOut(fs) && SortedImports(imps)
    ensures var slots, offers := Slots(fs, tokens), Offers(imps, "receive", marks);
            Maximum(slots, offers) <==> forall k :: LeadersSuffice(slots, offers, k)
  {
    MaximumIff(Slots(fs, tokens), Offers(imps, "receive", marks));
  }

  /**
   It happens: two forwards in outgoing order, the second with the smaller incoming amount, and an import for the
   second. The loop gives the import up at the first forward, although it could have been paired.
   */
  lemma ReceiveMissesPair(f: Forward, g: Forward, imp: Import)
    requires f.node == g.node == imp.node && f.peerIn == g.peerIn == imp.peer && imp.amount == g.amtIn < f.amtIn
    requires Compare(f.OutKey(), g.OutKey()) <= 0 && imp.direction == "receive"
    ensures var slots, offers := Slots([f, g], [None, None]), Offers([imp], "receive", [false]);
            && SortedOut([f, g]) && Join(slots, offers, 0, 0) == [] && Eligible(slots, offers, Pair(1, 0))
            && !Maximum(slots, offers)
  {
    CompareBytesEqual(f.node, f.node);
    CompareBytesEqual(f.peerIn, f.peerIn);
    var slots, offers := Slots([f, g], [None, None]), Offers([imp], "receive", [false]);
    assert RevenueMatching.Next(slots[0], offers[0]) == SkipImport;
    assert Join(slots, offers, 0, 1) == [];
    assert Matching(slots, offers, {Pair(1, 0)});
  }

  /** Such records exist: one incoming peer, two outgoing peers, the larger payment to the first of them. */
  method OutgoingOrderExample() returns (f: Forward, g: Forward, imp: Import)
    ensures !Maximum(Slots([f, g], [None, None]), Offers([imp], "receive", [false])) && SortedOut([f, g])
    ensures f.amtIn > f.amtOut && g.amtIn > g.amtOut
  {
    f := new Forward([0], [1], [2], 2000, 1999, None, None);
    g := new Forward([0], [1], [3], 1000, 999, None, None);
    imp := new Import([0], [1], 1000, "token", "receive");
    ReceiveMissesPair(f, g, imp);
  }
}
