/**
 The two-index merge joins that attribute forwards to tokens.  A join is described by the list of index pairs
 it makes; what that list is worth is proved here, and the loops over shared records follow in `RevenueRecords`.
 */
module RevenueMatching {
  type Byte = x: int | 0 <= x < 256
  type Bytes = seq<Byte>

  /** Lexicographic comparison of byte strings, as -1, 0 or 1. */
  function CompareBytes(a: Bytes, b: Bytes): int {
    if a == [] then (if b == [] then 0 else -1)
    else if b == [] then 1
    else if a[0] < b[0] then -1
    else if a[0] > b[0] then 1
    else CompareBytes(a[1..], b[1..])
  }

  lemma {:induction false} CompareBytesEqual(a: Bytes, b: Bytes)
    ensures CompareBytes(a, b) == 0 <==> a == b
    ensures CompareBytes(b, a) == -CompareBytes(a, b)
  {
    if a != [] && b != [] && a[0] == b[0] {
      CompareBytesEqual(a[1..], b[1..]);
      assert a == [a[0]] + a[1..] && b == [b[0]] + b[1..];
    }
  }

  lemma {:induction false} CompareBytesTransitive(a: Bytes, b: Bytes, c: Bytes)
    requires CompareBytes(a, b) <= 0 && CompareBytes(b, c) <= 0
    ensures CompareBytes(a, c) <= 0
    ensures CompareBytes(a, b) < 0 || CompareBytes(b, c) < 0 ==> CompareBytes(a, c) < 0
  {
    if a != [] && b != [] && c != [] && a[0] == b[0] == c[0] {
      CompareBytesTransitive(a[1..], b[1..], c[1..]);
    }
  }

  /** The length of the longest common prefix. */
  function Common(a: Bytes, b: Bytes): (k: nat)
    ensures k <= |a| && k <= |b| && a[..k] == b[..k] && (k < |a| && k < |b| ==> a[k] != b[k])
  {
    if a == [] || b == [] || a[0] != b[0] then 0 else
    var k := Common(a[1..], b[1..]);
    assert a[..k + 1] == [a[0]] + a[1..][..k] && b[..k + 1] == [b[0]] + b[1..][..k];
    k + 1
  }

  /** Behind the common prefix the first string ends, or has the smaller byte. */
  predicate BytesBefore(a: Bytes, b: Bytes) {
    var k := Common(a, b);
    k < |b| && (k == |a| || a[k] < b[k])
  }

  lemma {:induction false} CompareBytesMeans(a: Bytes, b: Bytes)
    ensures CompareBytes(a, b) < 0 <==> BytesBefore(a, b)
  {
    if a != [] && b != [] && a[0] == b[0] { CompareBytesMeans(a[1..], b[1..]); }
  }

  /** What both sides of a join are sorted on. */
  datatype Key = Key(node: Bytes, peer: Bytes, amount: nat)

  function Sign(x: int): int { if x < 0 then -1 else if x > 0 then 1 else 0 }

  /** Negative when the first key is behind the second, positive when the second is behind the first. */
  function Compare(a: Key, b: Key): int {
    var nodes := CompareBytes(a.node, b.node);
    if nodes != 0 then nodes else
    var peers := CompareBytes(a.peer, b.peer);
    if peers != 0 then peers else Sign(a.amount - b.amount)
  }

  lemma CompareEqual(a: Key, b: Key)
    ensures Compare(a, b) == 0 <==> a == b
    ensures Compare(b, a) == -Compare(a, b)
  {
    CompareBytesEqual(a.node, b.node);
    CompareBytesEqual(a.peer, b.peer);
  }

  /** A key is behind another if its node is; or, on one node, its peer; or, for one peer, its amount. */
  lemma CompareMeans(a: Key, b: Key)
    ensures Compare(a, b) < 0 <==>
            || BytesBefore(a.node, b.node)
            || (a.node == b.node && BytesBefore(a.peer, b.peer))
            || (a.node == b.node && a.peer == b.peer && a.amount < b.amount)
  {
    CompareBytesMeans(a.node, b.node);
    CompareBytesMeans(a.peer, b.peer);
    CompareBytesEqual(a.node, b.node);
    CompareBytesEqual(a.peer, b.peer);
  }

  lemma CompareTransitive(a: Key, b: Key, c: Key)
    requires Compare(a, b) <= 0 && Compare(b, c) <= 0
    ensures Compare(a, c) <= 0
    ensures Compare(a, b) < 0 || Compare(b, c) < 0 ==> Compare(a, c) < 0
  {
    CompareBytesEqual(a.node, b.node);
    CompareBytesEqual(b.node, c.node);
    CompareBytesTransitive(a.node, b.node, c.node);
    if a.node == b.node == c.node {
      CompareBytesEqual(a.peer, b.peer);
      CompareBytesEqual(b.peer, c.peer);
      CompareBytesTransitive(a.peer, b.peer, c.peer);
    }
  }

  // ----- the join

  /** A forward as the join sees it: its key and whether its token is already set. */
  datatype Slot = Slot(key: Key, taken: bool)

  /** An import as the join sees it: its key, whether it has the wanted direction and whether it is spent. */
  datatype Offer = Offer(key: Key, mine: bool, spent: bool)

  /** A forward and an import, by position. */
  datatype Pair = Pair(slot: nat, offer: nat)

  type Pairs = seq<Pair>

  datatype Move = SkipForward | SkipImport | Take

  /** What the loop does with the current forward and import. */
  function Next(f: Slot, g: Offer): Move {
    if !g.mine then SkipImport else
    var behind := Compare(f.key, g.key);
    if behind < 0 then SkipForward
    else if behind > 0 then SkipImport
    else if f.taken then SkipForward
    else if g.spent then SkipImport
    else Take
  }

  /** The pairs the two-index loop makes from positions `i` and `j` on. */
  function Join(fs: seq<Slot>, gs: seq<Offer>, i: nat, j: nat): Pairs
    requires i <= |fs| && j <= |gs|
    decreases |fs| - i + |gs| - j
  {
    if i == |fs| || j == |gs| then [] else
    match Next(fs[i], gs[j])
    case SkipForward => Join(fs, gs, i + 1, j)
    case SkipImport => Join(fs, gs, i, j + 1)
    case Take => [Pair(i, j)] + Join(fs, gs, i + 1, j + 1)
  }

  predicate Free(s: Slot, k: Key) { s.key == k && !s.taken }
  predicate Offered(o: Offer, k: Key) { o.key == k && o.mine && !o.spent }

  /** A forward without token and an unspent import of the wanted direction, with the same key. */
  predicate Eligible(fs: seq<Slot>, gs: seq<Offer>, p: Pair) {
    p.slot < |fs| && p.offer < |gs| && !fs[p.slot].taken && Offered(gs[p.offer], fs[p.slot].key)
  }

  /** Both sides advance from pair to pair, so no forward and no import is used twice. */
  ghost predicate Increasing(ps: Pairs) {
    forall a, b :: 0 <= a < b < |ps| ==> ps[a].slot < ps[b].slot && ps[a].offer < ps[b].offer
  }

  lemma ConsIncreasing(p: Pair, rest: Pairs)
    requires Increasing(rest) && forall q :: q in rest ==> p.slot < q.slot && p.offer < q.offer
    ensures Increasing([p] + rest)
  {
    forall b | 0 <= b < |rest| ensures p.slot < rest[b].slot && p.offer < rest[b].offer {
      assert rest[b] in rest;
    }
  }

  /** On any lists, sorted or not, the join pairs eligible partners and uses each at most once. */
  lemma {:induction false} JoinSound(fs: seq<Slot>, gs: seq<Offer>, i: nat, j: nat)
    requires i <= |fs| && j <= |gs|
    ensures forall p :: p in Join(fs, gs, i, j) ==> i <= p.slot && j <= p.offer && Eligible(fs, gs, p)
    ensures Increasing(Join(fs, gs, i, j))
    decreases |fs| - i + |gs| - j
  {
    if i < |fs| && j < |gs| {
      CompareEqual(fs[i].key, gs[j].key);
      match Next(fs[i], gs[j])
      case SkipForward => JoinSound(fs, gs, i + 1, j);
      case SkipImport => JoinSound(fs, gs, i, j + 1);
      case Take =>
        JoinSound(fs, gs, i + 1, j + 1);
        ConsIncreasing(Pair(i, j), Join(fs, gs, i + 1, j + 1));
    }
  }

  // ----- on sorted imports

  ghost predicate SortedSlots(fs: seq<Slot>) {
    forall a, b :: 0 <= a < b < |fs| ==> Compare(fs[a].key, fs[b].key) <= 0
  }

  ghost predicate SortedOffers(gs: seq<Offer>) {
    forall a, b :: 0 <= a < b < |gs| ==> Compare(gs[a].key, gs[b].key) <= 0
  }

  /** No earlier forward has a later key. */
  predicate Leader(fs: seq<Slot>, a: nat)
    requires a < |fs|
  {
    forall b :: 0 <= b < a ==> Compare(fs[b].key, fs[a].key) <= 0
  }

  /** Positions of the free forwards with a key, in list order. */
  function FreeSlots(fs: seq<Slot>, k: Key, i: nat): (r: seq<nat>)
    requires i <= |fs|
    ensures forall x :: x in r ==> i <= x < |fs| && Free(fs[x], k)
    decreases |fs| - i
  {
    if i == |fs| then [] else if Free(fs[i], k) then [i] + FreeSlots(fs, k, i + 1) else FreeSlots(fs, k, i + 1)
  }

  /** Those of them that are not behind an earlier forward. */
  function FreeLeaders(fs: seq<Slot>, k: Key, i: nat): seq<nat>
    requires i <= |fs|
    decreases |fs| - i
  {
    if i == |fs| then []
    else if Free(fs[i], k) && Leader(fs, i) then [i] + FreeLeaders(fs, k, i + 1)
    else FreeLeaders(fs, k, i + 1)
  }

  function FreeOffers(gs: seq<Offer>, k: Key, j: nat): (r: seq<nat>)
    requires j <= |gs|
    ensures forall x :: x in r ==> j <= x < |gs| && Offered(gs[x], k)
    decreases |gs| - j
  {
    if j == |gs| then [] else if Offered(gs[j], k) then [j] + FreeOffers(gs, k, j + 1) else FreeOffers(gs, k, j + 1)
  }

  /** The first with the first, the second with the second, until one side runs out. */
  function Zip(a: seq<nat>, b: seq<nat>): Pairs {
    if a == [] || b == [] then [] else [Pair(a[0], b[0])] + Zip(a[1..], b[1..])
  }

  predicate HasKey(fs: seq<Slot>, p: Pair, k: Key) { p.slot < |fs| && fs[p.slot].key == k }

  function OnKey(ps: Pairs, fs: seq<Slot>, k: Key): Pairs {
    if ps == [] then []
    else if HasKey(fs, ps[0], k) then [ps[0]] + OnKey(ps[1..], fs, k)
    else OnKey(ps[1..], fs, k)
  }

  lemma {:induction false} NoLeaders(fs: seq<Slot>, k: Key, i: nat)
    requires i <= |fs| && forall a :: i <= a < |fs| && Leader(fs, a) ==> fs[a].key != k
    ensures FreeLeaders(fs, k, i) == []
    decreases |fs| - i
  {
    if i < |fs| { NoLeaders(fs, k, i + 1); }
  }

  lemma {:induction false} NoOffers(gs: seq<Offer>, k: Key, j: nat)
    requires j <= |gs| && forall b :: j <= b < |gs| ==> gs[b].key != k
    ensures FreeOffers(gs, k, j) == []
    decreases |gs| - j
  {
    if j < |gs| { NoOffers(gs, k, j + 1); }
  }

  /** The forwards that are done are not ahead of any import that is not. */
  ghost predicate Passed(fs: seq<Slot>, gs: seq<Offer>, i: nat, j: nat) {
    forall a, b :: 0 <= a < i && a < |fs| && j <= b < |gs| ==> Compare(fs[a].key, gs[b].key) <= 0
  }

  lemma PassForward(fs: seq<Slot>, gs: seq<Offer>, i: nat, j: nat)
    requires SortedOffers(gs) && i < |fs| && j < |gs| && Passed(fs, gs, i, j) && Compare(fs[i].key, gs[j].key) <= 0
    ensures Passed(fs, gs, i + 1, j)
  {
    forall b | j <= b < |gs| ensures Compare(fs[i].key, gs[b].key) <= 0 {
      if b > j { CompareTransitive(fs[i].key, gs[j].key, gs[b].key); }
    }
  }

  /** A forward behind the current import has no partner left. */
  lemma SlotBehind(gs: seq<Offer>, j: nat, k: Key)
    requires SortedOffers(gs) && j < |gs| && Compare(k, gs[j].key) < 0
    ensures forall b :: j <= b < |gs| ==> gs[b].key != k
  {
    forall b | j <= b < |gs| ensures gs[b].key != k {
      CompareEqual(gs[j].key, gs[j].key);
      CompareTransitive(k, gs[j].key, gs[b].key);
      CompareEqual(k, gs[b].key);
    }
  }

  /** An import behind the current forward finds no leader any more. */
  lemma OfferBehind(fs: seq<Slot>, i: nat, k: Key)
    requires i < |fs| && Compare(fs[i].key, k) > 0
    ensures forall a :: i <= a < |fs| && Leader(fs, a) ==> fs[a].key != k
  {
    CompareEqual(fs[i].key, k);
  }

  /**
   Whatever the order of the forwards, the pairs of a key are its free leaders and its free imports matched in order:
   a forward behind an earlier one is never paired.
   */
  lemma {:induction false} JoinLeaders(fs: seq<Slot>, gs: seq<Offer>, i: nat, j: nat, k: Key)
    requires SortedOffers(gs) && i <= |fs| && j <= |gs| && Passed(fs, gs, i, j)
    ensures OnKey(Join(fs, gs, i, j), fs, k) == Zip(FreeLeaders(fs, k, i), FreeOffers(gs, k, j))
    decreases |fs| - i + |gs| - j
  {
    if i < |fs| && j < |gs| {
      CompareEqual(fs[i].key, gs[j].key);
      match Next(fs[i], gs[j])
      case SkipForward =>
        PassForward(fs, gs, i, j);
        JoinLeaders(fs, gs, i + 1, j, k);
        if Free(fs[i], k) {
          SlotBehind(gs, j, k);
          NoOffers(gs, k, j);
        }
      case SkipImport =>
        JoinLeaders(fs, gs, i, j + 1, k);
        if Offered(gs[j], k) {
          OfferBehind(fs, i, k);
          NoLeaders(fs, k, i);
        }
      case Take =>
        PassForward(fs, gs, i, j);
        JoinLeaders(fs, gs, i + 1, j + 1, k);
        TakeOnKey(fs, gs, i, j, k);
    }
  }

  lemma TakeOnKey(fs: seq<Slot>, gs: seq<Offer>, i: nat, j: nat, k: Key)
    requires i < |fs| && j < |gs| && Next(fs[i], gs[j]) == Take && fs[i].key == gs[j].key && Passed(fs, gs, i, j)
    requires OnKey(Join(fs, gs, i + 1, j + 1), fs, k) == Zip(FreeLeaders(fs, k, i + 1), FreeOffers(gs, k, j + 1))
    ensures OnKey(Join(fs, gs, i, j), fs, k) == Zip(FreeLeaders(fs, k, i), FreeOffers(gs, k, j))
  {
    assert Leader(fs, i);
    assert ([Pair(i, j)] + Join(fs, gs, i + 1, j + 1))[1..] == Join(fs, gs, i + 1, j + 1);
    if fs[i].key == k {
      assert FreeLeaders(fs, k, i)[1..] == FreeLeaders(fs, k, i + 1);
      assert FreeOffers(gs, k, j)[1..] == FreeOffers(gs, k, j + 1);
    }
  }

  lemma {:induction false} ZipLength(a: seq<nat>, b: seq<nat>)
    ensures |Zip(a, b)| == Min(|a|, |b|)
    ensures forall n :: 0 <= n < |Zip(a, b)| ==> Zip(a, b)[n] == Pair(a[n], b[n])
  {
    if a != [] && b != [] { ZipLength(a[1..], b[1..]); }
  }

  function Min(a: nat, b: nat): nat { if a < b then a else b }

  lemma {:induction false} AllLeaders(fs: seq<Slot>, k: Key, i: nat)
    requires SortedSlots(fs) && i <= |fs|
    ensures FreeLeaders(fs, k, i) == FreeSlots(fs, k, i)
    decreases |fs| - i
  {
    if i < |fs| { AllLeaders(fs, k, i + 1); }
  }

  /**
   On sorted lists, per key: as many pairs as the scarcer side has free entries, the n-th forward with the n-th import.
   */
  lemma PairsPerKey(fs: seq<Slot>, gs: seq<Offer>, k: Key)
    requires SortedSlots(fs) && SortedOffers(gs)
    ensures var made, slots, offers := OnKey(Join(fs, gs, 0, 0), fs, k), FreeSlots(fs, k, 0), FreeOffers(gs, k, 0);
            && |made| == Min(|slots|, |offers|)
            && forall n :: 0 <= n < |made| ==> made[n] == Pair(slots[n], offers[n])
  {
    JoinLeaders(fs, gs, 0, 0, k);
    AllLeaders(fs, k, 0);
    ZipLength(FreeSlots(fs, k, 0), FreeOffers(gs, k, 0));
  }

  // ----- sums over keys

  ghost function Sum(keys: set<Key>, f: Key -> nat): nat {
    if keys == {} then 0 else
    var k :| k in keys;
    f(k) + Sum(keys - {k}, f)
  }

  lemma {:induction false} SumTake(keys: set<Key>, f: Key -> nat, k: Key)
    requires k in keys
    ensures Sum(keys, f) == f(k) + Sum(keys - {k}, f)
  {
    var c :| c in keys && Sum(keys, f) == f(c) + Sum(keys - {c}, f);
    if c != k {
      SumTake(keys - {c}, f, k);
      SumTake(keys - {k}, f, c);
      assert keys - {c} - {k} == keys - {k} - {c};
    }
  }

  lemma {:induction false} SumMonotone(keys: set<Key>, f: Key -> nat, g: Key -> nat)
    requires forall k :: k in keys ==> f(k) <= g(k)
    ensures Sum(keys, f) <= Sum(keys, g)
  {
    if keys != {} {
      var k :| k in keys;
      SumTake(keys, f, k);
      SumTake(keys, g, k);
      SumMonotone(keys - {k}, f, g);
    }
  }

  lemma SumBump(keys: set<Key>, f: Key -> nat, g: Key -> nat, k: Key)
    requires k in keys && g(k) == f(k) + 1 && forall x :: x in keys && x != k ==> f(x) == g(x)
    ensures Sum(keys, g) == Sum(keys, f) + 1
  {
    SumTake(keys, f, k);
    SumTake(keys, g, k);
    SumMonotone(keys - {k}, f, g);
    SumMonotone(keys - {k}, g, f);
  }

  function KeysOf(fs: seq<Slot>): set<Key> { set s | s in fs :: s.key }

  /** A list of pairs, counted key by key. */
  lemma {:induction false} CountByKey(ps: Pairs, fs: seq<Slot>)
    requires forall p :: p in ps ==> p.slot < |fs|
    ensures |ps| == Sum(KeysOf(fs), k => |OnKey(ps, fs, k)|)
  {
    if ps == [] {
      SumMonotone(KeysOf(fs), k => |OnKey(ps, fs, k)|, k => 0);
      SumZero(KeysOf(fs));
    } else {
      CountByKey(ps[1..], fs);
      assert ps[0] in ps && fs[ps[0].slot] in fs;
      SumBump(KeysOf(fs), k => |OnKey(ps[1..], fs, k)|, k => |OnKey(ps, fs, k)|, fs[ps[0].slot].key);
    }
  }

  lemma {:induction false} SumZero(keys: set<Key>)
    ensures Sum(keys, k => 0) == 0
  {
    if keys != {} {
      var k :| k in keys;
      SumTake(keys, k => 0, k);
      SumZero(keys - {k});
    }
  }

  // ----- what a matching can have

  /** Any way to give imports to forwards: eligible pairs, every forward and every import at most once. */
  ghost predicate Matching(fs: seq<Slot>, gs: seq<Offer>, m: set<Pair>) {
    (forall p :: p in m ==> Eligible(fs, gs, p)) && OneToOne(m)
  }

  ghost predicate OneToOne(m: set<Pair>) {
    forall p, q :: p in m && q in m && (p.slot == q.slot || p.offer == q.offer) ==> p == q
  }

  lemma {:induction false} SlotBound(fs: seq<Slot>, gs: seq<Offer>, m: set<Pair>, k: Key, i: nat)
    requires Matching(fs, gs, m) && i <= |fs| && forall p :: p in m ==> i <= p.slot && HasKey(fs, p, k)
    ensures |m| <= |FreeSlots(fs, k, i)|
    decreases |fs| - i
  {
    if i == |fs| {
      assert m == {};
    } else if p :| p in m && p.slot == i {
      SlotBound(fs, gs, m - {p}, k, i + 1);
    } else {
      SlotBound(fs, gs, m, k, i + 1);
    }
  }

  lemma {:induction false} OfferBound(fs: seq<Slot>, gs: seq<Offer>, m: set<Pair>, k: Key, j: nat)
    requires Matching(fs, gs, m) && j <= |gs| && forall p :: p in m ==> j <= p.offer && HasKey(fs, p, k)
    ensures |m| <= |FreeOffers(gs, k, j)|
    decreases |gs| - j
  {
    if j == |gs| {
      assert m == {};
    } else if p :| p in m && p.offer == j {
      assert OneToOne(m - {p}) && Offered(gs[j], k);
      OfferBound(fs, gs, m - {p}, k, j + 1);
    } else {
      OfferBound(fs, gs, m, k, j + 1);
    }
  }

  /** The most pairs a key can have. */
  ghost function Best(fs: seq<Slot>, gs: seq<Offer>): Key -> nat {
    k => Min(|FreeSlots(fs, k, 0)|, |FreeOffers(gs, k, 0)|)
  }

  /** The pairs the join makes for a key. */
  ghost function Made(fs: seq<Slot>, gs: seq<Offer>): Key -> nat {
    k => Min(|FreeLeaders(fs, k, 0)|, |FreeOffers(gs, k, 0)|)
  }

  ghost function On(m: set<Pair>, fs: seq<Slot>, k: Key): set<Pair> { set p | p in m && HasKey(fs, p, k) }

  lemma OnWithout(m: set<Pair>, fs: seq<Slot>, p: Pair, k: Key)
    requires p in m
    ensures |On(m, fs, k)| == |On(m - {p}, fs, k)| + if HasKey(fs, p, k) then 1 else 0
  {
    if HasKey(fs, p, k) {
      assert On(m, fs, k) == On(m - {p}, fs, k) + {p};
    } else {
      assert On(m, fs, k) == On(m - {p}, fs, k);
    }
  }

  /** A set of pairs, counted key by key. */
  lemma {:induction false} SetByKey(m: set<Pair>, fs: seq<Slot>, keys: set<Key>)
    requires forall p :: p in m ==> p.slot < |fs| && fs[p.slot].key in keys
    ensures |m| == Sum(keys, k => |On(m, fs, k)|)
  {
    if m == {} {
      SumMonotone(keys, k => |On(m, fs, k)|, k => 0);
      SumZero(keys);
    } else {
      var p :| p in m;
      SetByKey(m - {p}, fs, keys);
      forall k ensures |On(m, fs, k)| == |On(m - {p}, fs, k)| + if HasKey(fs, p, k) then 1 else 0 {
        OnWithout(m, fs, p, k);
      }
      SumBump(keys, k => |On(m - {p}, fs, k)|, k => |On(m, fs, k)|, fs[p.slot].key);
    }
  }

  lemma MatchingBound(fs: seq<Slot>, gs: seq<Offer>, m: set<Pair>)
    requires Matching(fs, gs, m)
    ensures |m| <= Sum(KeysOf(fs), Best(fs, gs))
  {
    forall p | p in m ensures p.slot < |fs| && fs[p.slot].key in KeysOf(fs) {
      assert fs[p.slot] in fs;
    }
    SetByKey(m, fs, KeysOf(fs));
    forall k ensures |On(m, fs, k)| <= Best(fs, gs)(k) {
      SlotBound(fs, gs, On(m, fs, k), k, 0);
      OfferBound(fs, gs, On(m, fs, k), k, 0);
    }
    SumMonotone(KeysOf(fs), k => |On(m, fs, k)|, Best(fs, gs));
  }

  lemma JoinSize(fs: seq<Slot>, gs: seq<Offer>)
    requires SortedOffers(gs)
    ensures |Join(fs, gs, 0, 0)| == Sum(KeysOf(fs), Made(fs, gs))
  {
    var ps := Join(fs, gs, 0, 0);
    JoinSound(fs, gs, 0, 0);
    CountByKey(ps, fs);
    forall k ensures |OnKey(ps, fs, k)| == Made(fs, gs)(k) {
      JoinLeaders(fs, gs, 0, 0, k);
      ZipLength(FreeLeaders(fs, k, 0), FreeOffers(gs, k, 0));
    }
    SumMonotone(KeysOf(fs), k => |OnKey(ps, fs, k)|, Made(fs, gs));
    SumMonotone(KeysOf(fs), Made(fs, gs), k => |OnKey(ps, fs, k)|);
  }

  // ----- a better matching when a key is short

  ghost predicate Apart(ps: Pairs) {
    forall a, b :: 0 <= a < b < |ps| ==> ps[a].slot != ps[b].slot && ps[a].offer != ps[b].offer
  }

  lemma {:induction false} SetOfApart(ps: Pairs)
    requires Apart(ps)
    ensures |set p | p in ps| == |ps|
  {
    if ps != [] {
      var n := |ps| - 1;
      SetOfApart(ps[..n]);
      assert (set p | p in ps) == (set p | p in ps[..n]) + {ps[n]} by { assert ps == ps[..n] + [ps[n]]; }
      assert ps[n] !in ps[..n];
    }
  }

  lemma ApartIsOneToOne(ps: Pairs)
    requires Apart(ps)
    ensures OneToOne(set p | p in ps)
  {
    forall p, q | p in ps && q in ps && (p.slot == q.slot || p.offer == q.offer) ensures p == q {
      var a :| 0 <= a < |ps| && ps[a] == p;
      var b :| 0 <= b < |ps| && ps[b] == q;
      assert a == b;
    }
  }

  function OffKey(ps: Pairs, fs: seq<Slot>, k: Key): Pairs {
    if ps == [] then []
    else if HasKey(fs, ps[0], k) then OffKey(ps[1..], fs, k)
    else [ps[0]] + OffKey(ps[1..], fs, k)
  }

  lemma {:induction false} OffKeyRest(ps: Pairs, fs: seq<Slot>, k: Key)
    requires Apart(ps)
    ensures |OnKey(ps, fs, k)| + |OffKey(ps, fs, k)| == |ps| && Apart(OffKey(ps, fs, k))
    ensures forall p :: p in OffKey(ps, fs, k) ==> p in ps && !HasKey(fs, p, k)
  {
    if ps != [] {
      OffKeyRest(ps[1..], fs, k);
      var off := OffKey(ps[1..], fs, k);
      forall b | 0 <= b < |off| ensures ps[0].slot != off[b].slot && ps[0].offer != off[b].offer {
        assert off[b] in ps[1..];
      }
    }
  }

  lemma {:induction false} SlotsApart(fs: seq<Slot>, k: Key, i: nat)
    requires i <= |fs|
    ensures forall a, b :: 0 <= a < b < |FreeSlots(fs, k, i)| ==> FreeSlots(fs, k, i)[a] != FreeSlots(fs, k, i)[b]
    decreases |fs| - i
  {
    if i < |fs| {
      SlotsApart(fs, k, i + 1);
      var rest := FreeSlots(fs, k, i + 1);
      assert forall b :: 0 <= b < |rest| ==> rest[b] in rest;
    }
  }

  lemma {:induction false} OffersApart(gs: seq<Offer>, k: Key, j: nat)
    requires j <= |gs|
    ensures forall a, b :: 0 <= a < b < |FreeOffers(gs, k, j)| ==> FreeOffers(gs, k, j)[a] != FreeOffers(gs, k, j)[b]
    decreases |gs| - j
  {
    if j < |gs| {
      OffersApart(gs, k, j + 1);
      var rest := FreeOffers(gs, k, j + 1);
      assert forall b :: 0 <= b < |rest| ==> rest[b] in rest;
    }
  }

  /** All pairs a key can have. */
  lemma ZipIsMatching(fs: seq<Slot>, gs: seq<Offer>, k: Key)
    ensures var z := Zip(FreeSlots(fs, k, 0), FreeOffers(gs, k, 0));
            |z| == Best(fs, gs)(k) && Apart(z) && forall p :: p in z ==> Eligible(fs, gs, p) && HasKey(fs, p, k)
  {
    var a, b := FreeSlots(fs, k, 0), FreeOffers(gs, k, 0);
    ZipLength(a, b);
    SlotsApart(fs, k, 0);
    OffersApart(gs, k, 0);
    forall n | 0 <= n < |Zip(a, b)| ensures Eligible(fs, gs, Zip(a, b)[n]) && HasKey(fs, Zip(a, b)[n], k) {
      assert a[n] in a && b[n] in b;
    }
  }

  /** The join's pairs of other keys together with all that a key can have. */
  lemma Improved(fs: seq<Slot>, gs: seq<Offer>, k: Key) returns (m: set<Pair>)
    requires SortedOffers(gs)
    ensures Matching(fs, gs, m) && |m| == |Join(fs, gs, 0, 0)| - Made(fs, gs)(k) + Best(fs, gs)(k)
  {
    var ps := Join(fs, gs, 0, 0);
    JoinSound(fs, gs, 0, 0);
    JoinLeaders(fs, gs, 0, 0, k);
    ZipLength(FreeLeaders(fs, k, 0), FreeOffers(gs, k, 0));
    OffKeyRest(ps, fs, k);
    ZipIsMatching(fs, gs, k);
    var off, z := OffKey(ps, fs, k), Zip(FreeSlots(fs, k, 0), FreeOffers(gs, k, 0));
    OtherKeysApart(fs, gs, off, z, k);
    SetOfApart(off + z);
    ApartIsOneToOne(off + z);
    m := set p | p in off + z;
  }

  lemma OtherKeysApart(fs: seq<Slot>, gs: seq<Offer>, off: Pairs, z: Pairs, k: Key)
    requires Apart(off) && Apart(z)
    requires forall p :: p in off ==> Eligible(fs, gs, p) && !HasKey(fs, p, k)
    requires forall p :: p in z ==> Eligible(fs, gs, p) && HasKey(fs, p, k)
    ensures Apart(off + z)
  {
    forall a, b | 0 <= a < |off| && 0 <= b < |z| ensures off[a].slot != z[b].slot && off[a].offer != z[b].offer {
      assert off[a] in off && z[b] in z;
    }
  }

  // ----- when no other attribution does better

  ghost predicate Maximum(fs: seq<Slot>, gs: seq<Offer>) {
    forall m :: Matching(fs, gs, m) ==> |m| <= |Join(fs, gs, 0, 0)|
  }

  /** The leaders of a key are enough for the scarcer side of its free entries. */
  ghost predicate LeadersSuffice(fs: seq<Slot>, gs: seq<Offer>, k: Key) {
    Min(|FreeLeaders(fs, k, 0)|, |FreeOffers(gs, k, 0)|) == Min(|FreeSlots(fs, k, 0)|, |FreeOffers(gs, k, 0)|)
  }

  lemma MaximumIfEnough(fs: seq<Slot>, gs: seq<Offer>, m: set<Pair>)
    requires SortedOffers(gs) && (forall k :: LeadersSuffice(fs, gs, k)) && Matching(fs, gs, m)
    ensures |m| <= |Join(fs, gs, 0, 0)|
  {
    JoinSize(fs, gs);
    forall k ensures Best(fs, gs)(k) <= Made(fs, gs)(k) { assert LeadersSuffice(fs, gs, k); }
    SumMonotone(KeysOf(fs), Best(fs, gs), Made(fs, gs));
    MatchingBound(fs, gs, m);
  }

  /**
   With sorted imports and forwards in any order, the join is a maximum matching if and only if, for every key, the
   forwards behind an earlier one are not needed to use up the scarcer side.
   */
  lemma MaximumIff(fs: seq<Slot>, gs: seq<Offer>)
    requires SortedOffers(gs)
    ensures Maximum(fs, gs) <==> forall k :: LeadersSuffice(fs, gs, k)
  {
    if k :| !LeadersSuffice(fs, gs, k) {
      LeadersAmongSlots(fs, k, 0);
      var m := Improved(fs, gs, k);
    } else {
      forall m | Matching(fs, gs, m) ensures |m| <= |Join(fs, gs, 0, 0)| {
        MaximumIfEnough(fs, gs, m);
      }
    }
  }

  lemma {:induction false} LeadersAmongSlots(fs: seq<Slot>, k: Key, i: nat)
    requires i <= |fs|
    ensures |FreeLeaders(fs, k, i)| <= |FreeSlots(fs, k, i)|
    decreases |fs| - i
  {
    if i < |fs| { LeadersAmongSlots(fs, k, i + 1); }
  }

  /** With both sides sorted, no other attribution makes more pairs. */
  lemma JoinMaximum(fs: seq<Slot>, gs: seq<Offer>, m: set<Pair>)
    requires SortedSlots(fs) && SortedOffers(gs) && Matching(fs, gs, m)
    ensures |m| <= |Join(fs, gs, 0, 0)|
  {
    forall k ensures LeadersSuffice(fs, gs, k) {
      AllLeaders(fs, k, 0);
    }
    MaximumIff(fs, gs);
  }
}
