/**
 What a round over internal forwards hands on. A pair is an outgoing forward of one node and the incoming forward of the
 next; the walk that makes the pairs is the one of `RevenueWalks`, over two lists that are not sorted on what it
 compares.
 */
module InternalForwards {
  import opened Base
  import opened RevenueMatching
  import opened RevenueWalks
  import opened RevenueRecords

  datatype Marked = Marked(send: Option<string>, receive: Option<string>)

  ghost function TokensOf(all: set<Forward>): (r: map<Forward, Marked>)
    reads all
    ensures r.Keys == all
  {
    map f | f in all :: Marked(f.sendToken, f.receiveToken)
  }

  ghost predicate Known(t: map<Forward, Marked>, fs: seq<Forward>) { forall f :: f in fs ==> f in t }

  /**
   One round over the two lists: the incoming forward inherits the outgoing one's sender, which becomes its recipient's.
   */
  ghost function Internal(t: map<Forward, Marked>, ins: seq<Forward>, outs: seq<Forward>, i: nat, j: nat)
    : (r: map<Forward, Marked>)
    requires i <= |ins| && j <= |outs| && Known(t, ins) && Known(t, outs)
    ensures r.Keys == t.Keys
    decreases |ins| - i + |outs| - j
  {
    if i == |ins| || j == |outs| then t else
    var inF, outF := ins[i], outs[j];
    var behind := Compare(outF.InKey(), inF.Mirrored());
    if behind < 0 then Internal(t, ins, outs, i, j + 1)
    else if behind > 0 then Internal(t, ins, outs, i + 1, j)
    else if t[outF].receive.Some? then Internal(t, ins, outs, i, j + 1)
    else if t[inF].send.Some? then Internal(t, ins, outs, i + 1, j)
    else Internal(Inherit(t, inF, outF), ins, outs, i + 1, j + 1)
  }

  /** The two assignments, in order; both forwards may be the same object. */
  ghost function Inherit(t: map<Forward, Marked>, inF: Forward, outF: Forward): (r: map<Forward, Marked>)
    requires inF in t && outF in t
    ensures r.Keys == t.Keys
  {
    var t1 := t[inF := t[inF].(send := t[outF].send)];
    t1[outF := t1[outF].(receive := t1[inF].send)]
  }

  method Hand(inF: Forward, outF: Forward, ghost all: set<Forward>)
    requires inF in all && outF in all
    modifies inF, outF
    ensures TokensOf(all) == Inherit(old(TokensOf(all)), inF, outF)
  {
    inF.sendToken := outF.sendToken;
    outF.receiveToken := inF.sendToken;
  }

  /** The outgoing side as the walk sees it. */
  ghost function OutSlots(t: map<Forward, Marked>, outs: seq<Forward>): (r: seq<Slot>)
    requires Known(t, outs)
    ensures |r| == |outs|
  {
    seq(|outs|, a requires 0 <= a < |outs| => Slot(outs[a].InKey(), t[outs[a]].receive.Some?))
  }

  /** The incoming side, with the keys its forwards have on the other node. */
  ghost function InOffers(t: map<Forward, Marked>, ins: seq<Forward>): (r: seq<Offer>)
    requires Known(t, ins)
    ensures |r| == |ins| && AllMine(r)
  {
    seq(|ins|, b requires 0 <= b < |ins| => Offer(ins[b].Mirrored(), true, t[ins[b]].send.Some?))
  }

  /** The pairs of a round: positions in `outs` and in `ins`. */
  ghost function RoundPairs(t: map<Forward, Marked>, ins: seq<Forward>, outs: seq<Forward>): Pairs
    requires Known(t, ins) && Known(t, outs)
  {
    Join(OutSlots(t, outs), InOffers(t, ins), 0, 0)
  }

  /** The sender's token of the outgoing forward goes to both, and nothing else changes. */
  ghost predicate HandsOn(t: map<Forward, Marked>, r: map<Forward, Marked>, inF: Forward, outF: Forward) {
    && r.Keys == t.Keys && inF in t && outF in t
    && r[inF].send == r[outF].receive == t[outF].send
    && (forall f :: f in t && f != inF ==> r[f].send == t[f].send)
    && (forall f :: f in t && f != outF ==> r[f].receive == t[f].receive)
  }

  lemma InheritHandsOn(t: map<Forward, Marked>, inF: Forward, outF: Forward)
    requires inF in t && outF in t && t[inF].send.None? && t[outF].receive.None?
    ensures HandsOn(t, Inherit(t, inF, outF), inF, outF)
  {
  }

  /** The tokens before a round, after each of its pairs and at its end. */
  ghost predicate Staged(ts: seq<map<Forward, Marked>>, ins: seq<Forward>, outs: seq<Forward>, ps: Pairs) {
    && |ts| == |ps| + 1 && InRange(ps, |outs|, |ins|)
    && forall n :: 0 <= n < |ps| ==> Hands(ts, ins, outs, ps, n)
  }

  ghost predicate Hands(ts: seq<map<Forward, Marked>>, ins: seq<Forward>, outs: seq<Forward>, ps: Pairs, n: nat)
    requires n < |ps| && n + 1 < |ts|
  {
    ps[n].slot < |outs| && ps[n].offer < |ins| && HandsOn(ts[n], ts[n + 1], ins[ps[n].offer], outs[ps[n].slot])
  }

  /** What the walk still has to look at is as it was when the round began. */
  ghost predicate Untouched(s: map<Forward, Marked>, t: map<Forward, Marked>, ins: seq<Forward>, outs: seq<Forward>,
                            i: nat, j: nat)
    requires Known(s, ins) && Known(s, outs) && Known(t, ins) && Known(t, outs)
  {
    && (forall b :: i <= b < |ins| ==> t[ins[b]].send == s[ins[b]].send)
    && (forall a :: j <= a < |outs| ==> t[outs[a]].receive == s[outs[a]].receive)
  }

  lemma HandsOnUntouched(s: map<Forward, Marked>, t: map<Forward, Marked>, r: map<Forward, Marked>, ins: seq<Forward>,
                         outs: seq<Forward>, i: nat, j: nat)
    requires Distinct(ins) && Distinct(outs) && i < |ins| && j < |outs|
    requires Known(s, ins) && Known(s, outs) && Known(t, ins) && Known(t, outs) && Untouched(s, t, ins, outs, i, j)
    requires HandsOn(t, r, ins[i], outs[j])
    ensures Known(r, ins) && Known(r, outs) && Untouched(s, r, ins, outs, i + 1, j + 1)
  {
  }

  /** From any point of the walk, the rest of the round is its pairs, handed on one after the other. */
  lemma {:induction false} RestOfRound(s: map<Forward, Marked>, t: map<Forward, Marked>, ins: seq<Forward>,
                                       outs: seq<Forward>, i: nat, j: nat)
    returns (ts: seq<map<Forward, Marked>>)
    requires Distinct(ins) && Distinct(outs) && i <= |ins| && j <= |outs|
    requires Known(s, ins) && Known(s, outs) && Known(t, ins) && Known(t, outs) && Untouched(s, t, ins, outs, i, j)
    ensures Staged(ts, ins, outs, Join(OutSlots(s, outs), InOffers(s, ins), j, i))
    ensures ts[0] == t && ts[|ts| - 1] == Internal(t, ins, outs, i, j)
    decreases |ins| - i + |outs| - j
  {
    var slots, offers := OutSlots(s, outs), InOffers(s, ins);
    if i == |ins| || j == |outs| {
      ts := [t];
    } else {
      match Next(slots[j], offers[i])
      case SkipForward => ts := RestOfRound(s, t, ins, outs, i, j + 1);
      case SkipImport => ts := RestOfRound(s, t, ins, outs, i + 1, j);
      case Take =>
        var r := Inherit(t, ins[i], outs[j]);
        InheritHandsOn(t, ins[i], outs[j]);
        HandsOnUntouched(s, t, r, ins, outs, i, j);
        var rest := RestOfRound(s, r, ins, outs, i + 1, j + 1);
        ts := [t] + rest;
        StagedFirst(t, rest, ins, outs, Pair(j, i), Join(slots, offers, j + 1, i + 1));
    }
  }

  lemma StagedFirst(t: map<Forward, Marked>, rest: seq<map<Forward, Marked>>, ins: seq<Forward>, outs: seq<Forward>,
                    p: Pair, ps: Pairs)
    requires Staged(rest, ins, outs, ps) && p.slot < |outs| && p.offer < |ins|
    requires HandsOn(t, rest[0], ins[p.offer], outs[p.slot])
    ensures Staged([t] + rest, ins, outs, [p] + ps)
  {
    var ts, all := [t] + rest, [p] + ps;
    forall n | 0 <= n < |all| ensures Hands(ts, ins, outs, all, n) {
      if n > 0 { assert Hands(rest, ins, outs, ps, n - 1); }
    }
  }

  /** A round from its beginning: the tokens after each pair, the last of them what the round leaves. */
  lemma RoundStages(t: map<Forward, Marked>, ins: seq<Forward>, outs: seq<Forward>)
    returns (ts: seq<map<Forward, Marked>>)
    requires Distinct(ins) && Distinct(outs) && Known(t, ins) && Known(t, outs)
    ensures Staged(ts, ins, outs, RoundPairs(t, ins, outs))
    ensures ts[0] == t && ts[|ts| - 1] == Internal(t, ins, outs, 0, 0)
  {
    ts := RestOfRound(t, t, ins, outs, 0, 0);
  }

  /** A token that a pair got stays: no later pair has the same incoming or the same outgoing forward. */
  lemma {:induction false} HandedStays(ts: seq<map<Forward, Marked>>, ins: seq<Forward>, outs: seq<Forward>, ps: Pairs,
                                       n: nat, m: nat)
    requires Distinct(ins) && Distinct(outs) && Staged(ts, ins, outs, ps) && Increasing(ps) && n < |ps| && n < m <= |ps|
    ensures Hands(ts, ins, outs, ps, n)
    ensures var inF, outF := ins[ps[n].offer], outs[ps[n].slot];
            && inF in ts[n] && outF in ts[n] && inF in ts[m] && outF in ts[m]
            && ts[m][inF].send == ts[m][outF].receive == ts[n][outF].send
    decreases m
  {
    assert Hands(ts, ins, outs, ps, n);
    if m > n + 1 {
      HandedStays(ts, ins, outs, ps, n, m - 1);
      assert Hands(ts, ins, outs, ps, m - 1);
      assert ps[n].slot < ps[m - 1].slot && ps[n].offer < ps[m - 1].offer;
    }
  }

  /** Before its pair is made, neither side of it has been touched. */
  lemma {:induction false} UntilThen(ts: seq<map<Forward, Marked>>, ins: seq<Forward>, outs: seq<Forward>, ps: Pairs,
                                     m: nat, f: Forward)
    requires Staged(ts, ins, outs, ps) && m <= |ps| && f in ts[0]
    ensures f in ts[m]
    ensures (forall n :: 0 <= n < m ==> ps[n].offer < |ins| && ins[ps[n].offer] != f) ==> ts[m][f].send == ts[0][f].send
    ensures (forall n :: 0 <= n < m ==> ps[n].slot < |outs| && outs[ps[n].slot] != f) ==>
              ts[m][f].receive == ts[0][f].receive
  {
    if m > 0 {
      UntilThen(ts, ins, outs, ps, m - 1, f);
      assert Hands(ts, ins, outs, ps, m - 1);
    }
  }

  /** A pair: the same hop with the same amount, no sender on its incoming and no recipient on its outgoing side. */
  ghost predicate FreePair(t: map<Forward, Marked>, ins: seq<Forward>, outs: seq<Forward>, p: Pair) {
    && p.slot < |outs| && p.offer < |ins| && outs[p.slot] in t && ins[p.offer] in t
    && outs[p.slot].node == ins[p.offer].peerIn && outs[p.slot].peerIn == ins[p.offer].node
    && outs[p.slot].amtIn == ins[p.offer].amtIn
    && t[ins[p.offer]].send.None? && t[outs[p.slot]].receive.None?
  }

  /** Both have the same token, which is the sender's that the outgoing forward had, if it had one. */
  ghost predicate Received(t: map<Forward, Marked>, r: map<Forward, Marked>, ins: seq<Forward>, outs: seq<Forward>,
                           p: Pair)
  {
    && FreePair(t, ins, outs, p) && outs[p.slot] in r && ins[p.offer] in r
    && r[ins[p.offer]].send == r[outs[p.slot]].receive
    && (t[outs[p.slot]].send.Some? ==> r[ins[p.offer]].send == t[outs[p.slot]].send)
  }

  /** What a round did: its pairs increase on both sides and got their token, and no other token changed. */
  ghost predicate HandedOver(t: map<Forward, Marked>, r: map<Forward, Marked>, ins: seq<Forward>, outs: seq<Forward>,
                             ps: Pairs)
  {
    && r.Keys == t.Keys && Increasing(ps) && (forall p :: p in ps ==> Received(t, r, ins, outs, p))
    && (forall f :: f in t && !IncomingOf(ins, ps, f) ==> r[f].send == t[f].send)
    && (forall f :: f in t && !OutgoingOf(outs, ps, f) ==> r[f].receive == t[f].receive)
  }

  /** The forward is the incoming, or the outgoing, side of a pair. */
  ghost predicate IncomingOf(ins: seq<Forward>, ps: Pairs, f: Forward) {
    exists n :: 0 <= n < |ps| && ps[n].offer < |ins| && ins[ps[n].offer] == f
  }

  ghost predicate OutgoingOf(outs: seq<Forward>, ps: Pairs, f: Forward) {
    exists n :: 0 <= n < |ps| && ps[n].slot < |outs| && outs[ps[n].slot] == f
  }

  lemma PairsAreFree(t: map<Forward, Marked>, ins: seq<Forward>, outs: seq<Forward>)
    requires Known(t, ins) && Known(t, outs)
    ensures var ps := RoundPairs(t, ins, outs);
            Increasing(ps) && forall p :: p in ps ==> FreePair(t, ins, outs, p)
  {
    JoinSound(OutSlots(t, outs), InOffers(t, ins), 0, 0);
  }

  lemma PairReceives(t: map<Forward, Marked>, ts: seq<map<Forward, Marked>>, ins: seq<Forward>, outs: seq<Forward>,
                     ps: Pairs, n: nat)
    requires Distinct(ins) && Distinct(outs) && Staged(ts, ins, outs, ps) && ts[0] == t && Increasing(ps) && n < |ps|
    requires forall p :: p in ps ==> FreePair(t, ins, outs, p)
    ensures Received(t, ts[|ps|], ins, outs, ps[n])
  {
    HandedStays(ts, ins, outs, ps, n, |ps|);
    var outF := outs[ps[n].slot];
    assert FreePair(t, ins, outs, ps[n]) by { assert ps[n] in ps; }
    if t[outF].send.Some? {
      forall m | 0 <= m < n ensures ps[m].offer < |ins| && ins[ps[m].offer] != outF {
        assert FreePair(t, ins, outs, ps[m]) by { assert ps[m] in ps; }
      }
      UntilThen(ts, ins, outs, ps, n, outF);
    }
  }

  /** A round hands the sender's token of the outgoing forward of each of its pairs on to the incoming one. */
  lemma RoundHandsOver(t: map<Forward, Marked>, ins: seq<Forward>, outs: seq<Forward>)
    requires Distinct(ins) && Distinct(outs) && Known(t, ins) && Known(t, outs)
    ensures HandedOver(t, Internal(t, ins, outs, 0, 0), ins, outs, RoundPairs(t, ins, outs))
  {
    var ts := RoundStages(t, ins, outs);
    var ps, r := RoundPairs(t, ins, outs), Internal(t, ins, outs, 0, 0);
    PairsAreFree(t, ins, outs);
    forall p | p in ps ensures Received(t, r, ins, outs, p) {
      var n :| 0 <= n < |ps| && ps[n] == p;
      PairReceives(t, ts, ins, outs, ps, n);
    }
    assert forall n :: 0 <= n < |ps| ==> ps[n] in ps;
    forall f | f in t
      ensures !IncomingOf(ins, ps, f) ==> r[f].send == t[f].send
      ensures !OutgoingOf(outs, ps, f) ==> r[f].receive == t[f].receive
    {
      UntilThen(ts, ins, outs, ps, |ps|, f);
    }
  }

  /** Which forwards are paired: exactly the linked ones, whatever the order of both lists. */
  lemma RoundPairsLinked(t: map<Forward, Marked>, ins: seq<Forward>, outs: seq<Forward>, p: Pair)
    requires Known(t, ins) && Known(t, outs)
    ensures p in RoundPairs(t, ins, outs) <==> IsLinked(OutSlots(t, outs), InOffers(t, ins), p)
  {
    JoinIsLinked(OutSlots(t, outs), InOffers(t, ins), p);
  }

  /** A round pairs as many as possible if and only if of two free forwards of the same hop one is always linked. */
  lemma RoundMaximumIff(t: map<Forward, Marked>, ins: seq<Forward>, outs: seq<Forward>)
    requires Known(t, ins) && Known(t, outs)
    ensures var slots, offers := OutSlots(t, outs), InOffers(t, ins);
            Maximum(slots, offers) <==> NoneLeft(slots, offers)
  {
    MaximumIffNoneLeft(OutSlots(t, outs), InOffers(t, ins));
  }

  /**
   It happens: of two forwards that mirror each other, only the first node's gets the other's token, although both lists
   are in their order.
   */
  lemma RoundMissesPair(f: Forward, g: Forward, t: map<Forward, Marked>)
    requires f.node == g.peerIn && f.peerIn == g.node && f.amtIn == g.amtIn && CompareBytes(f.node, g.node) < 0
    requires f in t && g in t && t[f] == t[g] == Marked(None, None)
    ensures SortedIn([f, g]) && SortedOut([f, g])
    ensures RoundPairs(t, [f, g], [f, g]) == [Pair(1, 0)] && FreePair(t, [f, g], [f, g], Pair(0, 1))
    ensures !Maximum(OutSlots(t, [f, g]), InOffers(t, [f, g]))
  {
    CompareBytesEqual(f.node, g.node);
    CompareBytesEqual(f.node, f.node);
    CompareBytesEqual(g.node, g.node);
    var slots, offers := OutSlots(t, [f, g]), InOffers(t, [f, g]);
    assert Next(slots[0], offers[0]).SkipForward? && Next(slots[1], offers[0]).Take?;
    assert Join(slots, offers, 2, 1) == [];
    assert Join(slots, offers, 1, 0) == [Pair(1, 0)];
    var both := {Pair(1, 0), Pair(0, 1)};
    assert Matching(slots, offers, both) && |both| == 2;
  }

  /** One round: the tokens are handed on from pair to pair, also where both lists hold the same object. */
  method MatchInternalForwards(ins: seq<Forward>, outs: seq<Forward>, ghost all: set<Forward>)
    requires (forall f :: f in ins ==> f in all) && (forall f :: f in outs ==> f in all)
    modifies all
    ensures TokensOf(all) == Internal(old(TokensOf(all)), ins, outs, 0, 0)
    ensures Distinct(ins) && Distinct(outs) ==>
              HandedOver(old(TokensOf(all)), TokensOf(all), ins, outs, RoundPairs(old(TokensOf(all)), ins, outs))
  {
    ghost var t := TokensOf(all);
    var i, j := 0, 0;
    while i < |ins| && j < |outs|
      invariant i <= |ins| && j <= |outs|
      invariant Internal(TokensOf(all), ins, outs, i, j) == Internal(t, ins, outs, 0, 0)
      decreases |ins| - i + |outs| - j
    {
      var inF, outF := ins[i], outs[j];
      var behind := Compare(outF.InKey(), inF.Mirrored());
      if behind < 0 {
        j := j + 1;
      } else if behind > 0 {
        i := i + 1;
      } else if outF.receiveToken.Some? {
        j := j + 1;
      } else if inF.sendToken.Some? {
        i := i + 1;
      } else {
        Hand(inF, outF, all);
        i, j := i + 1, j + 1;
      }
    }
    if Distinct(ins) && Distinct(outs) {
      RoundHandsOver(t, ins, outs);
    }
  }
}
