/**
 The two-index walk over lists that are not sorted on what it compares, as in the pass for internal forwards.  Which
 entries meet is described by the order of the lists alone.
 */
module RevenueWalks {
  import opened Base
  import opened RevenueMatching

  predicate Less(a: Key, b: Key) { Compare(a, b) < 0 }

  lemma OrderFacts()
    ensures forall a: Key :: !Less(a, a)
    ensures forall a: Key, b: Key :: Less(a, b) || a == b || Less(b, a)
    ensures forall a: Key, b: Key, c: Key :: Less(a, b) && Less(b, c) ==> Less(a, c)
  {
    forall a: Key, b: Key ensures !Less(a, a) && (Less(a, b) || a == b || Less(b, a)) {
      CompareEqual(a, a);
      CompareEqual(a, b);
    }
    forall a: Key, b: Key, c: Key | Less(a, b) && Less(b, c) ensures Less(a, c) {
      CompareTransitive(a, b, c);
    }
  }

  // ----- who meets whom

  /** The first entry has the later key, or the same one and is free. */
  predicate SlotAhead(f: Slot, x: Slot) { Less(x.key, f.key) || (f.key == x.key && !f.taken) }

  predicate OfferAhead(g: Offer, x: Offer) { Less(x.key, g.key) || (g.key == x.key && !g.spent) }

  /** The last entry before `n` that is ahead of the one at `a`. */
  function SlotAnchor(fs: seq<Slot>, a: nat, n: nat): (r: Option<nat>)
    requires a < |fs| && n <= |fs|
    ensures r.Some? ==> r.value < n && SlotAhead(fs[r.value], fs[a])
    ensures forall c :: (if r.Some? then r.value + 1 else 0) <= c < n ==> !SlotAhead(fs[c], fs[a])
  {
    if n == 0 then None else if SlotAhead(fs[n - 1], fs[a]) then Some(n - 1) else SlotAnchor(fs, a, n - 1)
  }

  function OfferAnchor(gs: seq<Offer>, b: nat, n: nat): (r: Option<nat>)
    requires b < |gs| && n <= |gs|
    ensures r.Some? ==> r.value < n && OfferAhead(gs[r.value], gs[b])
    ensures forall c :: (if r.Some? then r.value + 1 else 0) <= c < n ==> !OfferAhead(gs[c], gs[b])
  {
    if n == 0 then None else if OfferAhead(gs[n - 1], gs[b]) then Some(n - 1) else OfferAnchor(gs, b, n - 1)
  }

  /**
   Two free entries with the same key meet if the last entries that are ahead of them meet, or neither has one.
   */
  predicate Linked(fs: seq<Slot>, gs: seq<Offer>, a: nat, b: nat)
    requires a < |fs| && b < |gs|
    decreases a
  {
    && Eligible(fs, gs, Pair(a, b))
    && match (SlotAnchor(fs, a, a), OfferAnchor(gs, b, b))
       case (None, None) => true
       case (Some(c), Some(d)) => Linked(fs, gs, c, d)
       case _ => false
  }

  ghost predicate IsLinked(fs: seq<Slot>, gs: seq<Offer>, p: Pair) {
    p.slot < |fs| && p.offer < |gs| && Linked(fs, gs, p.slot, p.offer)
  }

  ghost predicate AllMine(gs: seq<Offer>) { forall b :: 0 <= b < |gs| ==> gs[b].mine }

  // ----- the walk

  ghost predicate SlotMet(ps: Pairs, a: nat) { exists p :: p in ps && p.slot == a }

  ghost predicate OfferMet(ps: Pairs, b: nat) { exists p :: p in ps && p.offer == b }

  /** The pairs made so far are the linked ones among what has been passed. */
  ghost predicate Walked(fs: seq<Slot>, gs: seq<Offer>, ps: Pairs, i: nat, j: nat) {
    && i <= |fs| && j <= |gs| && Increasing(ps)
    && (forall p :: p in ps ==> p.slot < i && p.offer < j && IsLinked(fs, gs, p))
    && (forall p: Pair :: IsLinked(fs, gs, p) && (p.slot < i || p.offer < j) ==> p in ps)
  }

  ghost predicate SlotOver(fs: seq<Slot>, a: nat, i: nat)
    requires i < |fs|
  {
    a < i && Less(fs[i].key, fs[a].key) && forall c :: a < c < i ==> Less(fs[c].key, fs[a].key)
  }

  ghost predicate SlotLevel(fs: seq<Slot>, a: nat, i: nat)
    requires i < |fs|
  {
    && a < i && !fs[a].taken && !Less(fs[a].key, fs[i].key)
    && forall c :: a < c < i ==> !Less(fs[a].key, fs[c].key)
  }

  ghost predicate OfferOver(gs: seq<Offer>, b: nat, j: nat)
    requires j < |gs|
  {
    b < j && Less(gs[j].key, gs[b].key) && forall c :: b < c < j ==> Less(gs[c].key, gs[b].key)
  }

  ghost predicate OfferLevel(gs: seq<Offer>, b: nat, j: nat)
    requires j < |gs|
  {
    && b < j && !gs[b].spent && !Less(gs[b].key, gs[j].key)
    && forall c :: b < c < j ==> !Less(gs[b].key, gs[c].key)
  }

  /** A forward that was passed and is still ahead was paired, or the current entry of the other list is ahead too. */
  ghost predicate SlotsHeld(fs: seq<Slot>, gs: seq<Offer>, ps: Pairs, i: nat, j: nat) {
    i < |fs| && j < |gs| ==>
      && (forall a: nat :: SlotOver(fs, a, i) ==> SlotMet(ps, a) || !Less(gs[j].key, fs[a].key))
      && (forall a: nat :: SlotLevel(fs, a, i) ==> SlotMet(ps, a) || Less(fs[a].key, gs[j].key))
  }

  ghost predicate OffersHeld(fs: seq<Slot>, gs: seq<Offer>, ps: Pairs, i: nat, j: nat) {
    i < |fs| && j < |gs| ==>
      && (forall b: nat :: OfferOver(gs, b, j) ==> OfferMet(ps, b) || !Less(fs[i].key, gs[b].key))
      && (forall b: nat :: OfferLevel(gs, b, j) ==> OfferMet(ps, b) || Less(gs[b].key, fs[i].key))
  }

  /** The last entry ahead of the current one was paired, if the current ones have the same key. */
  lemma {:induction false} SlotAnchorMet(fs: seq<Slot>, gs: seq<Offer>, ps: Pairs, i: nat, j: nat)
    requires i < |fs| && j < |gs| && SlotsHeld(fs, gs, ps, i, j) && fs[i].key == gs[j].key
    requires SlotAnchor(fs, i, i).Some?
    ensures SlotMet(ps, SlotAnchor(fs, i, i).value)
  {
    OrderFacts();
    var c := SlotAnchor(fs, i, i).value;
    if Less(fs[i].key, fs[c].key) {
      assert SlotOver(fs, c, i);
    } else {
      assert SlotLevel(fs, c, i);
    }
  }

  lemma {:induction false} OfferAnchorMet(fs: seq<Slot>, gs: seq<Offer>, ps: Pairs, i: nat, j: nat)
    requires i < |fs| && j < |gs| && OffersHeld(fs, gs, ps, i, j) && fs[i].key == gs[j].key
    requires OfferAnchor(gs, j, j).Some?
    ensures OfferMet(ps, OfferAnchor(gs, j, j).value)
  {
    OrderFacts();
    var d := OfferAnchor(gs, j, j).value;
    if Less(gs[j].key, gs[d].key) {
      assert OfferOver(gs, d, j);
    } else {
      assert OfferLevel(gs, d, j);
    }
  }

  /** A pair that was made carries its place ahead of the current entry over to the other list. */
  lemma {:induction false} AheadToo(fs: seq<Slot>, gs: seq<Offer>, p: Pair, i: nat, j: nat)
    requires IsLinked(fs, gs, p) && i < |fs| && j < |gs| && fs[i].key == gs[j].key
    ensures SlotAhead(fs[p.slot], fs[i]) <==> OfferAhead(gs[p.offer], gs[j])
  {
  }

  /** Free entries with the same key that are reached together are linked. */
  lemma {:induction false} MeetLinked(fs: seq<Slot>, gs: seq<Offer>, ps: Pairs, i: nat, j: nat)
    requires Walked(fs, gs, ps, i, j) && SlotsHeld(fs, gs, ps, i, j) && OffersHeld(fs, gs, ps, i, j)
    requires i < |fs| && j < |gs| && Eligible(fs, gs, Pair(i, j))
    ensures Linked(fs, gs, i, j)
  {
    var c, d := SlotAnchor(fs, i, i), OfferAnchor(gs, j, j);
    if c.Some? {
      SlotAnchorMet(fs, gs, ps, i, j);
      var p :| p in ps && p.slot == c.value;
      AheadToo(fs, gs, p, i, j);
      assert d.Some? && p.offer <= d.value;
    }
    if d.Some? {
      OfferAnchorMet(fs, gs, ps, i, j);
      var q :| q in ps && q.offer == d.value;
      AheadToo(fs, gs, q, i, j);
      assert c.Some? && q.slot <= c.value;
    }
    if c.Some? {
      AnchorsPaired(ps, c.value, d.value);
      assert IsLinked(fs, gs, Pair(c.value, d.value));
    }
  }

  lemma {:induction false} AnchorsPaired(ps: Pairs, c: nat, d: nat)
    requires Increasing(ps)
    requires exists p :: p in ps && p.slot == c && p.offer <= d
    requires exists q :: q in ps && q.offer == d && q.slot <= c
    ensures Pair(c, d) in ps
  {
    var p :| p in ps && p.slot == c && p.offer <= d;
    var q :| q in ps && q.offer == d && q.slot <= c;
    var x :| 0 <= x < |ps| && ps[x] == p;
    var y :| 0 <= y < |ps| && ps[y] == q;
    assert x == y;
  }

  /** A forward that is passed over has no partner left. */
  lemma {:induction false} ForwardPassed(fs: seq<Slot>, gs: seq<Offer>, ps: Pairs, i: nat, j: nat, b: nat)
    requires Walked(fs, gs, ps, i, j) && i < |fs| && j < |gs| && j <= b < |gs|
    requires fs[i].taken || Less(fs[i].key, gs[j].key) || (b > j && Eligible(fs, gs, Pair(i, j)))
    ensures !Linked(fs, gs, i, b)
  {
    OrderFacts();
    if Linked(fs, gs, i, b) {
      assert b > j && OfferAhead(gs[j], gs[b]);
      var c, d := SlotAnchor(fs, i, i).value, OfferAnchor(gs, b, b).value;
      assert IsLinked(fs, gs, Pair(c, d));
    }
  }

  lemma {:induction false} ImportPassed(fs: seq<Slot>, gs: seq<Offer>, ps: Pairs, i: nat, j: nat, a: nat)
    requires Walked(fs, gs, ps, i, j) && i < |fs| && j < |gs| && i <= a < |fs|
    requires gs[j].spent || Less(gs[j].key, fs[i].key) || (a > i && Eligible(fs, gs, Pair(i, j)))
    ensures !Linked(fs, gs, a, j)
  {
    OrderFacts();
    if Linked(fs, gs, a, j) {
      assert a > i && SlotAhead(fs[i], fs[a]);
      var c, d := SlotAnchor(fs, a, a).value, OfferAnchor(gs, j, j).value;
      assert IsLinked(fs, gs, Pair(c, d));
    }
  }

  /** Where the walk stands: everything it needs to know about what it has passed. */
  ghost predicate Standing(fs: seq<Slot>, gs: seq<Offer>, ps: Pairs, i: nat, j: nat) {
    Walked(fs, gs, ps, i, j) && SlotsHeld(fs, gs, ps, i, j) && OffersHeld(fs, gs, ps, i, j)
  }

  lemma {:induction false} SkipForwardHeld(fs: seq<Slot>, gs: seq<Offer>, ps: Pairs, i: nat, j: nat)
    requires SlotsHeld(fs, gs, ps, i, j) && OffersHeld(fs, gs, ps, i, j) && i < |fs| && j < |gs|
    requires Less(fs[i].key, gs[j].key) || (fs[i].taken && fs[i].key == gs[j].key)
    ensures SlotsHeld(fs, gs, ps, i + 1, j) && OffersHeld(fs, gs, ps, i + 1, j)
  {
    OrderFacts();
    if i + 1 < |fs| {
      forall a: nat | SlotOver(fs, a, i + 1) ensures SlotMet(ps, a) || !Less(gs[j].key, fs[a].key) {
        assert a < i ==> SlotOver(fs, a, i);
      }
      forall a: nat | SlotLevel(fs, a, i + 1) ensures SlotMet(ps, a) || Less(fs[a].key, gs[j].key) {
        assert a < i ==> SlotLevel(fs, a, i);
      }
    }
  }

  lemma {:induction false} SkipImportHeld(fs: seq<Slot>, gs: seq<Offer>, ps: Pairs, i: nat, j: nat)
    requires SlotsHeld(fs, gs, ps, i, j) && OffersHeld(fs, gs, ps, i, j) && i < |fs| && j < |gs|
    requires Less(gs[j].key, fs[i].key) || (gs[j].spent && fs[i].key == gs[j].key)
    ensures SlotsHeld(fs, gs, ps, i, j + 1) && OffersHeld(fs, gs, ps, i, j + 1)
  {
    OrderFacts();
    if j + 1 < |gs| {
      forall b: nat | OfferOver(gs, b, j + 1) ensures OfferMet(ps, b) || !Less(fs[i].key, gs[b].key) {
        assert b < j ==> OfferOver(gs, b, j);
      }
      forall b: nat | OfferLevel(gs, b, j + 1) ensures OfferMet(ps, b) || Less(gs[b].key, fs[i].key) {
        assert b < j ==> OfferLevel(gs, b, j);
      }
    }
  }

  lemma {:induction false} TakeHeld(fs: seq<Slot>, gs: seq<Offer>, ps: Pairs, i: nat, j: nat)
    requires SlotsHeld(fs, gs, ps, i, j) && OffersHeld(fs, gs, ps, i, j)
    requires i < |fs| && j < |gs| && Eligible(fs, gs, Pair(i, j))
    ensures SlotsHeld(fs, gs, ps + [Pair(i, j)], i + 1, j + 1) && OffersHeld(fs, gs, ps + [Pair(i, j)], i + 1, j + 1)
  {
    OrderFacts();
    var more := ps + [Pair(i, j)];
    assert Pair(i, j) in more && forall p :: p in ps ==> p in more;
    if i + 1 < |fs| && j + 1 < |gs| {
      forall a: nat | SlotOver(fs, a, i + 1) || SlotLevel(fs, a, i + 1) ensures SlotMet(more, a) {
        assert a < i && SlotOver(fs, a, i + 1) ==> SlotOver(fs, a, i);
        assert a < i && SlotLevel(fs, a, i + 1) ==> SlotLevel(fs, a, i);
      }
      forall b: nat | OfferOver(gs, b, j + 1) || OfferLevel(gs, b, j + 1) ensures OfferMet(more, b) {
        assert b < j && OfferOver(gs, b, j + 1) ==> OfferOver(gs, b, j);
        assert b < j && OfferLevel(gs, b, j + 1) ==> OfferLevel(gs, b, j);
      }
    }
  }

  lemma {:induction false} SkipForwardStands(fs: seq<Slot>, gs: seq<Offer>, ps: Pairs, i: nat, j: nat)
    requires Standing(fs, gs, ps, i, j) && i < |fs| && j < |gs| && gs[j].mine && Next(fs[i], gs[j]).SkipForward?
    ensures Standing(fs, gs, ps, i + 1, j)
  {
    CompareEqual(fs[i].key, gs[j].key);
    SkipForwardHeld(fs, gs, ps, i, j);
    forall p: Pair | IsLinked(fs, gs, p) && (p.slot < i + 1 || p.offer < j) ensures p in ps {
      if p.slot == i && p.offer >= j { ForwardPassed(fs, gs, ps, i, j, p.offer); }
    }
  }

  lemma {:induction false} SkipImportStands(fs: seq<Slot>, gs: seq<Offer>, ps: Pairs, i: nat, j: nat)
    requires Standing(fs, gs, ps, i, j) && i < |fs| && j < |gs| && gs[j].mine && Next(fs[i], gs[j]).SkipImport?
    ensures Standing(fs, gs, ps, i, j + 1)
  {
    CompareEqual(fs[i].key, gs[j].key);
    SkipImportHeld(fs, gs, ps, i, j);
    forall p: Pair | IsLinked(fs, gs, p) && (p.slot < i || p.offer < j + 1) ensures p in ps {
      if p.offer == j && p.slot >= i { ImportPassed(fs, gs, ps, i, j, p.slot); }
    }
  }

  lemma {:induction false} TakeStands(fs: seq<Slot>, gs: seq<Offer>, ps: Pairs, i: nat, j: nat)
    requires Standing(fs, gs, ps, i, j) && i < |fs| && j < |gs| && Eligible(fs, gs, Pair(i, j))
    ensures Standing(fs, gs, ps + [Pair(i, j)], i + 1, j + 1)
  {
    TakeHeld(fs, gs, ps, i, j);
    MeetLinked(fs, gs, ps, i, j);
    var more := ps + [Pair(i, j)];
    forall p: Pair | IsLinked(fs, gs, p) && (p.slot < i + 1 || p.offer < j + 1) ensures p in more {
      if p.slot == i && p.offer > j { ForwardPassed(fs, gs, ps, i, j, p.offer); }
      if p.offer == j && p.slot > i { ImportPassed(fs, gs, ps, i, j, p.slot); }
    }
    assert forall x :: 0 <= x < |ps| ==> ps[x] in ps;
  }

  lemma {:induction false} WalkGoesOn(fs: seq<Slot>, gs: seq<Offer>, ps: Pairs, i: nat, j: nat)
    requires AllMine(gs) && Standing(fs, gs, ps, i, j)
    ensures forall p: Pair :: p in ps + Join(fs, gs, i, j) <==> IsLinked(fs, gs, p)
    decreases |fs| - i + |gs| - j
  {
    if i < |fs| && j < |gs| {
      CompareEqual(fs[i].key, gs[j].key);
      match Next(fs[i], gs[j])
      case SkipForward =>
        SkipForwardStands(fs, gs, ps, i, j);
        WalkGoesOn(fs, gs, ps, i + 1, j);
      case SkipImport =>
        SkipImportStands(fs, gs, ps, i, j);
        WalkGoesOn(fs, gs, ps, i, j + 1);
      case Take =>
        TakeStands(fs, gs, ps, i, j);
        WalkGoesOn(fs, gs, ps + [Pair(i, j)], i + 1, j + 1);
        assert ps + [Pair(i, j)] + Join(fs, gs, i + 1, j + 1) == ps + Join(fs, gs, i, j);
    }
  }

  /** Whatever the order of both lists, the walk pairs exactly the linked entries. */
  lemma JoinIsLinked(fs: seq<Slot>, gs: seq<Offer>, p: Pair)
    requires AllMine(gs)
    ensures p in Join(fs, gs, 0, 0) <==> IsLinked(fs, gs, p)
  {
    assert Standing(fs, gs, [], 0, 0);
    WalkGoesOn(fs, gs, [], 0, 0);
    assert [] + Join(fs, gs, 0, 0) == Join(fs, gs, 0, 0);
  }

  // ----- when none is missed

  ghost predicate SlotLinked(fs: seq<Slot>, gs: seq<Offer>, a: nat) { exists p :: IsLinked(fs, gs, p) && p.slot == a }

  ghost predicate OfferLinked(fs: seq<Slot>, gs: seq<Offer>, b: nat) { exists p :: IsLinked(fs, gs, p) && p.offer == b }

  /** Of two free entries with the same key, one is linked. */
  ghost predicate NoneLeft(fs: seq<Slot>, gs: seq<Offer>) {
    forall p: Pair :: Eligible(fs, gs, p) ==> SlotLinked(fs, gs, p.slot) || OfferLinked(fs, gs, p.offer)
  }

  lemma {:induction false} Within(xs: seq<nat>, zs: seq<nat>)
    requires (forall a, b :: 0 <= a < b < |xs| ==> xs[a] != xs[b]) && forall x :: x in xs ==> x in zs
    ensures |xs| <= |zs|
  {
    if xs != [] {
      var x, rest := xs[0], xs[1..];
      assert x in xs;
      var k :| 0 <= k < |zs| && zs[k] == x;
      var others := zs[..k] + zs[k + 1..];
      forall y | y in rest ensures y in others {
        var a :| 0 <= a < |rest| && rest[a] == y;
        assert xs[a + 1] == y && y in xs;
        var m :| 0 <= m < |zs| && zs[m] == y;
        assert m < k ==> others[m] == y;
        assert m > k ==> others[m - 1] == y;
      }
      Within(rest, others);
    }
  }

  lemma {:induction false} OnKeyHolds(ps: Pairs, fs: seq<Slot>, k: Key)
    ensures forall p :: p in OnKey(ps, fs, k) <==> p in ps && HasKey(fs, p, k)
  {
    if ps != [] { OnKeyHolds(ps[1..], fs, k); }
  }

  /** A key whose free forwards, or whose free imports, are all linked has as many pairs as it can have. */
  lemma KeyFull(fs: seq<Slot>, gs: seq<Offer>, k: Key)
    requires AllMine(gs) && NoneLeft(fs, gs)
    ensures Best(fs, gs)(k) <= |OnKey(Join(fs, gs, 0, 0), fs, k)|
  {
    var ps := Join(fs, gs, 0, 0);
    var made := OnKey(ps, fs, k);
    OnKeyHolds(ps, fs, k);
    var slots, offers := FreeSlots(fs, k, 0), FreeOffers(gs, k, 0);
    if a :| a in slots && !SlotLinked(fs, gs, a) {
      var zs := seq(|made|, n requires 0 <= n < |made| => made[n].offer);
      forall b | b in offers ensures b in zs {
        assert Eligible(fs, gs, Pair(a, b));
        var p :| IsLinked(fs, gs, p) && p.offer == b;
        JoinIsLinked(fs, gs, p);
        var n :| 0 <= n < |made| && made[n] == p;
        assert zs[n] == b;
      }
      OffersApart(gs, k, 0);
      Within(offers, zs);
    } else {
      var zs := seq(|made|, n requires 0 <= n < |made| => made[n].slot);
      forall a | a in slots ensures a in zs {
        var p :| IsLinked(fs, gs, p) && p.slot == a;
        JoinIsLinked(fs, gs, p);
        var n :| 0 <= n < |made| && made[n] == p;
        assert zs[n] == a;
      }
      SlotsApart(fs, k, 0);
      Within(slots, zs);
    }
  }

  lemma FullIsMaximum(fs: seq<Slot>, gs: seq<Offer>, m: set<Pair>)
    requires AllMine(gs) && NoneLeft(fs, gs) && Matching(fs, gs, m)
    ensures |m| <= |Join(fs, gs, 0, 0)|
  {
    var ps := Join(fs, gs, 0, 0);
    JoinSound(fs, gs, 0, 0);
    MatchingBound(fs, gs, m);
    CountByKey(ps, fs);
    forall k ensures Best(fs, gs)(k) <= |OnKey(ps, fs, k)| { KeyFull(fs, gs, k); }
    SumMonotone(KeysOf(fs), Best(fs, gs), k => |OnKey(ps, fs, k)|);
  }

  /** With two free entries left over there is a matching with one pair more. */
  lemma OneMore(fs: seq<Slot>, gs: seq<Offer>, p: Pair)
    requires AllMine(gs) && Eligible(fs, gs, p) && !SlotLinked(fs, gs, p.slot) && !OfferLinked(fs, gs, p.offer)
    ensures !Maximum(fs, gs)
  {
    var ps := Join(fs, gs, 0, 0);
    JoinSound(fs, gs, 0, 0);
    var more := ps + [p];
    forall n | 0 <= n < |ps| ensures ps[n].slot != p.slot && ps[n].offer != p.offer {
      assert ps[n] in ps;
      JoinIsLinked(fs, gs, ps[n]);
    }
    SetOfApart(more);
    ApartIsOneToOne(more);
    assert Matching(fs, gs, set q | q in more);
  }

  /**
   Whatever the order of both lists, the walk makes as many pairs as any one-to-one matching if and only if of two free
   entries with the same key one is always linked.
   */
  lemma MaximumIffNoneLeft(fs: seq<Slot>, gs: seq<Offer>)
    requires AllMine(gs)
    ensures Maximum(fs, gs) <==> NoneLeft(fs, gs)
  {
    if p: Pair :| Eligible(fs, gs, p) && !SlotLinked(fs, gs, p.slot) && !OfferLinked(fs, gs, p.offer) {
      OneMore(fs, gs, p);
    } else {
      forall m | Matching(fs, gs, m) ensures |m| <= |Join(fs, gs, 0, 0)| {
        FullIsMaximum(fs, gs, m);
      }
    }
  }
}
