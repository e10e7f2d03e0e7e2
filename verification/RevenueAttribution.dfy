/**
 Import passes and internal rounds together: what they set, keep and leave, over two lists of the same forwards.
 */
module RevenueAttribution {
  import opened Base
  import opened RevenueMatching
  import opened RevenueRecords
  import opened InternalForwards

  /** A token once set is never changed. */
  ghost predicate Kept(t: map<Forward, Marked>, r: map<Forward, Marked>) {
    && r.Keys == t.Keys
    && forall f :: f in t ==>
         (t[f].send.Some? ==> r[f].send == t[f].send) && (t[f].receive.Some? ==> r[f].receive == t[f].receive)
  }

  /** Some forward carries the token. */
  ghost predicate Carried(t: map<Forward, Marked>, token: string) {
    exists f :: f in t && (t[f].send == Some(token) || t[f].receive == Some(token))
  }

  ghost predicate NoNewTokens(t: map<Forward, Marked>, r: map<Forward, Marked>) {
    forall token :: Carried(r, token) ==> Carried(t, token)
  }

  lemma InheritKeeps(t: map<Forward, Marked>, inF: Forward, outF: Forward)
    requires inF in t && outF in t && t[inF].send.None? && t[outF].receive.None?
    ensures Kept(t, Inherit(t, inF, outF)) && NoNewTokens(t, Inherit(t, inF, outF))
  {
    var r := Inherit(t, inF, outF);
    forall token | Carried(r, token) ensures Carried(t, token) {
      var f :| f in r && (r[f].send == Some(token) || r[f].receive == Some(token));
      assert t[f].send == Some(token) || t[f].receive == Some(token) || t[outF].send == Some(token);
    }
  }

  lemma {:induction false} InternalKeeps(t: map<Forward, Marked>, ins: seq<Forward>, outs: seq<Forward>, i: nat, j: nat)
    requires i <= |ins| && j <= |outs| && Known(t, ins) && Known(t, outs)
    ensures Kept(t, Internal(t, ins, outs, i, j)) && NoNewTokens(t, Internal(t, ins, outs, i, j))
    decreases |ins| - i + |outs| - j
  {
    if i < |ins| && j < |outs| {
      var inF, outF := ins[i], outs[j];
      var behind := Compare(outF.InKey(), inF.Mirrored());
      if behind < 0 || (behind == 0 && t[outF].receive.Some?) {
        InternalKeeps(t, ins, outs, i, j + 1);
      } else if behind > 0 || t[inF].send.Some? {
        InternalKeeps(t, ins, outs, i + 1, j);
      } else {
        InheritKeeps(t, inF, outF);
        InternalKeeps(Inherit(t, inF, outF), ins, outs, i + 1, j + 1);
      }
    }
  }

  /** An import pass fills empty tokens only, and only with imported ones. */
  ghost predicate Filled(tokens: Tokens, r: Tokens, imps: seq<Import>) {
    && |r| == |tokens|
    && forall a :: 0 <= a < |tokens| ==>
         r[a] == tokens[a] || (tokens[a].None? && exists b :: 0 <= b < |imps| && r[a] == Some(imps[b].token))
  }

  lemma {:induction false} AssignFills(tokens: Tokens, ps: Pairs, imps: seq<Import>)
    requires InRange(ps, |tokens|, |imps|) && forall p :: p in ps ==> tokens[p.slot].None?
    ensures Filled(tokens, Assign(tokens, ps, imps), imps)
  {
    if ps != [] {
      assert ps[|ps| - 1] in ps;
      AssignFills(tokens, ps[..|ps| - 1], imps);
    }
  }

  lemma {:induction false} SpendMonotone(marks: seq<bool>, ps: Pairs, b: nat)
    requires (forall p :: p in ps ==> p.offer < |marks|) && b < |marks| && marks[b]
    ensures Spend(marks, ps)[b]
  {
    if ps != [] {
      SpendMonotone(marks, ps[..|ps| - 1], b);
    }
  }

  /** Facts about the pairs of one pass: empty forwards, unspent imports of the direction, each import once. */
  lemma PassSound(fs: seq<Forward>, tokens: Tokens, imps: seq<Import>, direction: string, marks: seq<bool>)
    requires |fs| == |tokens| && |imps| == |marks|
    ensures var ps := Join(Slots(fs, tokens), Offers(imps, direction, marks), 0, 0);
            && InRange(ps, |fs|, |imps|) && Increasing(ps) && Filled(tokens, Assign(tokens, ps, imps), imps)
            && (forall p :: p in ps ==> !marks[p.offer] && imps[p.offer].direction == direction)
            && (forall p :: p in ps ==> Assign(tokens, ps, imps)[p.slot] == Some(imps[p.offer].token))
            && (forall b :: 0 <= b < |marks| && marks[b] ==> Spend(marks, ps)[b])
  {
    var ps := Join(Slots(fs, tokens), Offers(imps, direction, marks), 0, 0);
    JoinSound(Slots(fs, tokens), Offers(imps, direction, marks), 0, 0);
    AssignFills(tokens, ps, imps);
    forall p | p in ps ensures Assign(tokens, ps, imps)[p.slot] == Some(imps[p.offer].token) {
      var n :| 0 <= n < |ps| && ps[n] == p;
      AssignPair(tokens, ps, imps, n);
    }
    forall b | 0 <= b < |marks| && marks[b] ensures Spend(marks, ps)[b] {
      SpendMonotone(marks, ps, b);
    }
  }

  ghost predicate Imported(imps: seq<Import>, token: string) { exists b :: 0 <= b < |imps| && imps[b].token == token }

  ghost predicate Sourced(t: map<Forward, Marked>, r: map<Forward, Marked>, imps: seq<Import>) {
    forall token :: Carried(r, token) ==> Carried(t, token) || Imported(imps, token)
  }

  /** `tokens` are the tokens of one side of the forwards of a list, and the list has them all. */
  ghost predicate Shows(t: map<Forward, Marked>, fs: seq<Forward>, tokens: Tokens, send: bool) {
    && |fs| == |tokens|
    && (forall f :: f in t ==> f in fs) && (forall f :: f in fs ==> f in t)
    && (forall a :: 0 <= a < |fs| ==> tokens[a] == if send then t[fs[a]].send else t[fs[a]].receive)
  }

  lemma PassKeeps(t: map<Forward, Marked>, r: map<Forward, Marked>, fs: seq<Forward>, tokens: Tokens, tokens': Tokens,
                  send: bool, imps: seq<Import>)
    requires Shows(t, fs, tokens, send) && Shows(r, fs, tokens', send) && Filled(tokens, tokens', imps)
    requires forall f :: f in t ==> if send then r[f].receive == t[f].receive else r[f].send == t[f].send
    ensures Kept(t, r) && Sourced(t, r, imps)
  {
    forall f | f in t
      ensures (t[f].send.Some? ==> r[f].send == t[f].send) && (t[f].receive.Some? ==> r[f].receive == t[f].receive)
      ensures forall token :: r[f].send == Some(token) || r[f].receive == Some(token) ==>
                t[f].send == Some(token) || t[f].receive == Some(token) || Imported(imps, token)
    {
      var a :| 0 <= a < |fs| && fs[a] == f;
      assert tokens'[a] == tokens[a] || tokens[a].None?;
    }
  }

  lemma Together(t: map<Forward, Marked>, u: map<Forward, Marked>, r: map<Forward, Marked>, imps: seq<Import>)
    requires Kept(t, u) && Sourced(t, u, imps) && Kept(u, r) && Sourced(u, r, imps)
    ensures Kept(t, r) && Sourced(t, r, imps)
  {
  }

  /** The imports a pass spends: unspent before, of its direction, each once. */
  ghost predicate Spent(imps: seq<Import>, marks: seq<bool>, ps: Pairs, n: nat, direction: string) {
    && |marks| == |imps| && InRange(ps, n, |imps|) && Increasing(ps)
    && forall p :: p in ps ==> !marks[p.offer] && imps[p.offer].direction == direction
  }

  method SendPass(ins: seq<Forward>, imps: seq<Import>, ghost all: set<Forward>) returns (ghost sends: Pairs)
    requires Distinct(ins) && Distinct(imps) && forall f :: f in all <==> f in ins
    modifies all, imps
    ensures Kept(old(TokensOf(all)), TokensOf(all)) && Sourced(old(TokensOf(all)), TokensOf(all), imps)
    ensures Spent(imps, old(Marks(imps)), sends, |ins|, "send")
    ensures Placed(TokensOf(all), ins, imps, sends, true)
    ensures forall b :: 0 <= b < |imps| && old(imps[b].isCorrelated) ==> imps[b].isCorrelated
  {
    ghost var t, tokens, marks := TokensOf(all), SendTokens(ins), Marks(imps);
    PassSound(ins, tokens, imps, "send", marks);
    sends := MatchImportedForwardsSend(ins, imps);
    PassKeeps(t, TokensOf(all), ins, tokens, SendTokens(ins), true, imps);
  }

  method ReceivePass(outs: seq<Forward>, imps: seq<Import>, ghost all: set<Forward>) returns (ghost receives: Pairs)
    requires Distinct(outs) && Distinct(imps) && forall f :: f in all <==> f in outs
    modifies all, imps
    ensures Kept(old(TokensOf(all)), TokensOf(all)) && Sourced(old(TokensOf(all)), TokensOf(all), imps)
    ensures Spent(imps, old(Marks(imps)), receives, |outs|, "receive")
    ensures Placed(TokensOf(all), outs, imps, receives, false)
  {
    ghost var t, tokens, marks := TokensOf(all), ReceiveTokens(outs), Marks(imps);
    PassSound(outs, tokens, imps, "receive", marks);
    receives := MatchImportedForwardsReceive(outs, imps);
    PassKeeps(t, TokensOf(all), outs, tokens, ReceiveTokens(outs), false, imps);
  }

  /** The forwards of the pairs carry the tokens of their imports. */
  ghost predicate Placed(t: map<Forward, Marked>, fs: seq<Forward>, imps: seq<Import>, ps: Pairs, send: bool) {
    forall p :: p in ps ==>
      p.slot < |fs| && p.offer < |imps| && fs[p.slot] in t &&
      (if send then t[fs[p.slot]].send else t[fs[p.slot]].receive) == Some(imps[p.offer].token)
  }

  lemma PlacedStay(u: map<Forward, Marked>, r: map<Forward, Marked>, fs: seq<Forward>, imps: seq<Import>, ps: Pairs,
                   send: bool)
    requires Kept(u, r) && Placed(u, fs, imps, ps, send)
    ensures Placed(r, fs, imps, ps, send)
  {
  }

  /** The tokens after each pass, in order: whatever one of them set stays through all later ones. */
  ghost predicate Trail(trail: seq<map<Forward, Marked>>) {
    forall a, b :: 0 <= a < b < |trail| ==> Kept(trail[a], trail[b])
  }

  lemma TrailNext(trail: seq<map<Forward, Marked>>, r: map<Forward, Marked>)
    requires Trail(trail) && trail != [] && Kept(trail[|trail| - 1], r)
    ensures Trail(trail + [r])
  {
    forall a | 0 <= a < |trail| ensures Kept(trail[a], r) {
      if a < |trail| - 1 { assert Kept(trail[a], trail[|trail| - 1]); }
    }
  }

  /** One round took the tokens from the first to the second. */
  ghost predicate RoundDone(t: map<Forward, Marked>, r: map<Forward, Marked>, ins: seq<Forward>, outs: seq<Forward>) {
    Known(t, ins) && Known(t, outs) && r == Internal(t, ins, outs, 0, 0)
  }

  ghost predicate RoundsDone(trail: seq<map<Forward, Marked>>, from: nat, ins: seq<Forward>, outs: seq<Forward>) {
    var n := |trail| - 1;
    0 < from <= n ==> RoundDone(trail[n - 1], trail[n], ins, outs) && RoundsDone(trail[..n], from, ins, outs)
  }

  lemma {:induction false} RoundOf(trail: seq<map<Forward, Marked>>, from: nat, ins: seq<Forward>, outs: seq<Forward>,
                                   n: nat)
    requires RoundsDone(trail, from, ins, outs) && 0 < from <= n < |trail|
    ensures RoundDone(trail[n - 1], trail[n], ins, outs)
  {
    if n < |trail| - 1 {
      var front := trail[..|trail| - 1];
      RoundOf(front, from, ins, outs, n);
      assert front[n - 1] == trail[n - 1] && front[n] == trail[n];
    }
  }

  /** Each of the rounds hands the tokens of its pairs on, by what is free when it begins. */
  lemma EachRoundHandsOver(trail: seq<map<Forward, Marked>>, from: nat, ins: seq<Forward>, outs: seq<Forward>, n: nat)
    requires Distinct(ins) && Distinct(outs) && RoundsDone(trail, from, ins, outs) && 0 < from <= n < |trail|
    ensures Known(trail[n - 1], ins) && Known(trail[n - 1], outs)
    ensures HandedOver(trail[n - 1], trail[n], ins, outs, RoundPairs(trail[n - 1], ins, outs))
  {
    RoundOf(trail, from, ins, outs, n);
    RoundHandsOver(trail[n - 1], ins, outs);
  }

  lemma RoundsNext(trail: seq<map<Forward, Marked>>, from: nat, ins: seq<Forward>, outs: seq<Forward>,
                   r: map<Forward, Marked>)
    requires RoundsDone(trail, from, ins, outs) && trail != [] && RoundDone(trail[|trail| - 1], r, ins, outs)
    ensures RoundsDone(trail + [r], from, ins, outs)
  {
    assert (trail + [r])[..|trail|] == trail;
  }

  method InternalRound(ins: seq<Forward>, outs: seq<Forward>, ghost all: set<Forward>)
    requires Distinct(ins) && Distinct(outs)
    requires (forall f :: f in ins ==> f in all) && (forall f :: f in outs ==> f in all)
    modifies all
    ensures Kept(old(TokensOf(all)), TokensOf(all)) && NoNewTokens(old(TokensOf(all)), TokensOf(all))
    ensures RoundDone(old(TokensOf(all)), TokensOf(all), ins, outs)
  {
    InternalKeeps(TokensOf(all), ins, outs, 0, 0);
    MatchInternalForwards(ins, outs, all);
  }

  method InternalRounds(ins: seq<Forward>, outs: seq<Forward>, rounds: nat, ghost all: set<Forward>,
                        ghost imps: seq<Import>, ghost before: seq<map<Forward, Marked>>)
    returns (ghost trail: seq<map<Forward, Marked>>)
    requires Distinct(ins) && Distinct(outs)
    requires (forall f :: f in ins ==> f in all) && (forall f :: f in outs ==> f in all)
    requires Trail(before) && before != [] && before[|before| - 1] == TokensOf(all)
    modifies all
    ensures Sourced(old(TokensOf(all)), TokensOf(all), imps)
    ensures Trail(trail) && |trail| == |before| + rounds && before <= trail && trail[|trail| - 1] == TokensOf(all)
    ensures RoundsDone(trail, |before|, ins, outs)
  {
    ghost var t := TokensOf(all);
    trail := before;
    for round := 0 to rounds
      invariant Kept(t, TokensOf(all)) && Sourced(t, TokensOf(all), imps)
      invariant Trail(trail) && |trail| == |before| + round && before <= trail && trail[|trail| - 1] == TokensOf(all)
      invariant RoundsDone(trail, |before|, ins, outs)
    {
      ghost var w := TokensOf(all);
      InternalRound(ins, outs, all);
      Together(t, w, TokensOf(all), imps);
      TrailNext(trail, TokensOf(all));
      RoundsNext(trail, |before|, ins, outs, TokensOf(all));
      trail := trail + [TokensOf(all)];
    }
  }

  method ImportPasses(ins: seq<Forward>, outs: seq<Forward>, imps: seq<Import>, ghost all: set<Forward>)
    returns (ghost sends: Pairs, ghost receives: Pairs, ghost trail: seq<map<Forward, Marked>>)
    requires Distinct(ins) && Distinct(outs) && Distinct(imps)
    requires (forall f :: f in all <==> f in ins) && (forall f :: f in all <==> f in outs)
    modifies all, imps
    ensures |trail| == 3 && trail[0] == old(TokensOf(all)) && trail[2] == TokensOf(all) && Trail(trail)
    ensures Sourced(old(TokensOf(all)), TokensOf(all), imps)
    ensures Spent(imps, old(Marks(imps)), sends, |ins|, "send")
            && Spent(imps, old(Marks(imps)), receives, |outs|, "receive")
    ensures Placed(TokensOf(all), ins, imps, sends, true) && Placed(TokensOf(all), outs, imps, receives, false)
    ensures forall p, q :: p in sends && q in receives ==> p.offer != q.offer
  {
    ghost var t := TokensOf(all);
    sends := SendPass(ins, imps, all);
    ghost var u := TokensOf(all);
    receives := ReceivePass(outs, imps, all);
    ghost var v := TokensOf(all);
    Together(t, u, v, imps);
    PlacedStay(u, v, ins, imps, sends, true);
    trail := [t, u, v];
  }

  /**
   Both import passes, then any number of internal rounds, over two lists of the same objects. `trail` holds the tokens
   before, after each pass and after each round: a token set at any point is the same at every later one, and each round
   hands its pairs' tokens on. Every token comes from a forward or an import, the imported ones are where the passes put
   them, and no import is spent twice.
   */
  method AttributeTokens(ins: seq<Forward>, outs: seq<Forward>, imps: seq<Import>, rounds: nat, ghost all: set<Forward>)
    returns (ghost sends: Pairs, ghost receives: Pairs, ghost trail: seq<map<Forward, Marked>>)
    requires Distinct(ins) && Distinct(outs) && Distinct(imps)
    requires (forall f :: f in all <==> f in ins) && (forall f :: f in all <==> f in outs)
    modifies all, imps
    ensures |trail| == rounds + 3 && trail[0] == old(TokensOf(all)) && trail[|trail| - 1] == TokensOf(all)
            && Trail(trail)
    ensures RoundsDone(trail, 3, ins, outs)
    ensures Sourced(old(TokensOf(all)), TokensOf(all), imps)
    ensures Spent(imps, old(Marks(imps)), sends, |ins|, "send")
            && Spent(imps, old(Marks(imps)), receives, |outs|, "receive")
    ensures Placed(TokensOf(all), ins, imps, sends, true) && Placed(TokensOf(all), outs, imps, receives, false)
    ensures forall p, q :: p in sends && q in receives ==> p.offer != q.offer
  {
    sends, receives, trail := ImportPasses(ins, outs, imps, all);
    ghost var t, v := trail[0], trail[2];
    trail := InternalRounds(ins, outs, rounds, all, imps, trail);
    ghost var r := TokensOf(all);
    assert trail[2] == v && Kept(v, r);
    Together(t, v, r, imps);
    PlacedStay(v, r, ins, imps, sends, true);
    PlacedStay(v, r, outs, imps, receives, false);
  }
}
