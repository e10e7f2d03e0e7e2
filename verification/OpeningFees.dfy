/** The money arithmetic of channel opens: fee acceptance, proportional forwarding and channel capacity. */
module OpeningFees {
  import opened Base

  /** The value of a Go `int64` expression whose exact value is `x`. */
  function Wrap64(x: int): (r: Int64)
    ensures -TWO_63 <= x < TWO_63 ==> r == x
  {
    var m := x % TWO_64;
    if m < TWO_63 then m else m - TWO_64
  }

  /** Go's `/`, which truncates towards zero. */
  function Quo(a: int, b: int): int
    requires b > 0
  {
    if a >= 0 then a / b else -(-a / b)
  }

  // ----- checkPayment

  /** The proportional fee as the code computes it, with every 64-bit operation wrapping. */
  function RoundedFee(product: int): Int64 { Wrap64(Quo(Quo(Wrap64(product), 1_000_000), 1_000) * 1_000) }

  /** The fee demanded by `checkPayment`. */
  function CheckedFee(minMsat: Uint64, proportional: Uint32, incoming: Int64): Int64 {
    Higher(Wrap64(minMsat), RoundedFee(incoming * proportional))
  }

  function Higher(a: int, b: int): int { if b < a then a else b }

  /** `checkPayment` returned no error. */
  predicate Accepts(minMsat: Uint64, proportional: Uint32, incoming: Int64, outgoing: Int64) {
    Wrap64(incoming - outgoing) >= CheckedFee(minMsat, proportional, incoming)
  }

  /** Parts per million of the amount, rounded down to whole satoshi. */
  function ProportionalFee(product: int): int { product / 1_000_000 / 1_000 * 1_000 }

  function PromisedFee(minMsat: Uint64, proportional: Uint32, incoming: Int64): int {
    Higher(minMsat, ProportionalFee(incoming * proportional))
  }

  /**
   The product fits in 64 bits, or the minimum fee is not below the proportional one; below 64 bits the promised fee is
   the minimum, and what the low 64 bits of the product are worth must not exceed it.
   */
  predicate FeeFits(minMsat: Uint64, product: int) {
    && minMsat < TWO_63
    && (TWO_63 <= product ==> ProportionalFee(product) <= minMsat)
    && (product < -TWO_63 ==> Wrap64(product) < (minMsat / 1_000 + 1) * 1_000_000_000)
  }

  lemma LowBits(minMsat: Uint64, product: int)
    requires minMsat < TWO_63
    ensures RoundedFee(product) <= minMsat <==> Wrap64(product) < (minMsat / 1_000 + 1) * 1_000_000_000
  {
    var w, m := Wrap64(product), minMsat / 1_000;
    if w >= 0 {
      assert RoundedFee(product) == w / 1_000_000_000 * 1_000;
    }
  }

  /** The code charges the promised fee exactly when the product fits or the minimum fee dominates. */
  lemma FeeExact(minMsat: Uint64, proportional: Uint32, incoming: Int64)
    ensures CheckedFee(minMsat, proportional, incoming) == PromisedFee(minMsat, proportional, incoming) <==>
            FeeFits(minMsat, incoming * proportional)
    ensures minMsat < TWO_63 && incoming >= 0 ==>
            CheckedFee(minMsat, proportional, incoming) <= PromisedFee(minMsat, proportional, incoming)
  {
    var product := incoming * proportional;
    ProductFee(minMsat, product);
    if incoming >= 0 { MulMono(0, incoming, proportional); }
  }

  lemma ProductFee(minMsat: Uint64, product: int)
    ensures var checked := Higher(Wrap64(minMsat), RoundedFee(product));
            var promised := Higher(minMsat, ProportionalFee(product));
            && (checked == promised <==> FeeFits(minMsat, product))
            && (minMsat < TWO_63 && product >= 0 ==> checked <= promised)
  {
    if product < 0 {
      NegativeProduct(product);
      if minMsat < TWO_63 { LowBits(minMsat, product); }
    } else if product < TWO_63 {
      SmallProduct(product);
    } else {
      LargeProduct(product);
    }
  }

  lemma NegativeProduct(product: int)
    requires product < 0
    ensures ProportionalFee(product) < 0 && (-TWO_63 <= product ==> RoundedFee(product) <= 0)
  {
  }

  lemma SmallProduct(product: int)
    requires 0 <= product < TWO_63
    ensures RoundedFee(product) == ProportionalFee(product)
  {
  }

  lemma LargeProduct(product: int)
    requires TWO_63 <= product
    ensures RoundedFee(product) < ProportionalFee(product)
  {
    var w := Wrap64(product);
    assert w <= product - TWO_63;
  }

  /**
   Whatever signs the amounts have, acceptance means a margin of at least the promised fee, in both directions, exactly
   when the margin fits in 64 bits or stays below the fee after it has wrapped.
   */
  lemma AcceptsExact(minMsat: Uint64, proportional: Uint32, incoming: Int64, outgoing: Int64)
    requires FeeFits(minMsat, incoming * proportional)
    ensures var margin, fee := incoming - outgoing, PromisedFee(minMsat, proportional, incoming);
            (Accepts(minMsat, proportional, incoming, outgoing) <==> margin >= fee) <==>
            -TWO_63 <= margin < TWO_63 || (margin < -TWO_63 && margin + TWO_64 < fee)
  {
    FeeExact(minMsat, proportional, incoming);
    WrapMargin(incoming - outgoing);
  }

  lemma WrapMargin(margin: int)
    requires -TWO_64 < margin < TWO_64
    ensures TWO_63 <= margin ==> Wrap64(margin) == margin - TWO_64
    ensures margin < -TWO_63 ==> Wrap64(margin) == margin + TWO_64
  {
  }

  /** Beyond 63 bits a payment can be accepted without its proportional fee: 4 ppm of 2^62 msat are not charged. */
  lemma OverflowUndercharges()
    ensures Accepts(0, 4, 0x4000_0000_0000_0000, 0x4000_0000_0000_0000)
    ensures PromisedFee(0, 4, 0x4000_0000_0000_0000) > 0
  {
    assert 0x4000_0000_0000_0000 * 4 == TWO_64;
    assert Wrap64(TWO_64) == 0;
  }

  /** A margin below 64 bits wraps to a large one: the smallest amount is accepted for a payment of 1 msat. */
  lemma MarginWraps()
    ensures Accepts(0, 0, -TWO_63, 1)
  {
    assert Wrap64(-TWO_63 - 1) == TWO_63 - 1;
  }

  // ----- proportional forwarding

  /** The amount forwarded for one HTLC: big-integer product, Euclidean quotient, then cut to 64 bits. */
  function ForwardAmount(incoming: Int64, outgoing: Int64, part: Uint64): (amt: Int64)
    requires incoming != 0
  {
    Wrap64(outgoing * Wrap64(part) / incoming)
  }

  /** The amount that goes out with the onion: the 64 bits read as unsigned. */
  function Sent(incoming: Int64, outgoing: Int64, part: Uint64): Uint64
    requires incoming != 0
  {
    ForwardAmount(incoming, outgoing, part) % TWO_64
  }

  function Sum(s: seq<int>): int {
    if s == [] then 0 else Sum(s[..|s| - 1]) + s[|s| - 1]
  }

  function ForwardAmounts(incoming: Int64, outgoing: Int64, parts: seq<Uint64>): (amts: seq<int>)
    requires incoming != 0
    ensures |amts| == |parts|
  {
    seq(|parts|, i requires 0 <= i < |parts| => ForwardAmount(incoming, outgoing, parts[i]))
  }

  /** One part is rounded down by less than one millisatoshi of the incoming amount's share. */
  lemma ShareBounds(incoming: Int64, outgoing: Int64, part: Uint64)
    requires 0 <= outgoing <= incoming && 0 < incoming && part < TWO_63
    ensures 0 <= ForwardAmount(incoming, outgoing, part) <= part
    ensures Rounded(incoming, outgoing, part, ForwardAmount(incoming, outgoing, part), incoming - 1)
  {
    var product := outgoing * part;
    assert product <= incoming * part by { MulMono(outgoing, incoming, part); }
    DivBounds(product, incoming, part);
  }

  lemma MulMono(a: int, b: int, c: int)
    requires a <= b && 0 <= c
    ensures a * c <= b * c
  {
  }

  lemma Cancel(a: int, b: int, d: int)
    requires a * d <= b * d && 0 < d
    ensures a <= b
  {
    if a > b {
      MulMono(b + 1, a, d);
    }
  }

  lemma DivBounds(product: int, d: int, k: int)
    requires 0 <= product <= d * k && 0 < d && 0 <= k
    ensures var q := product / d; 0 <= q <= k && q * d <= product < q * d + d
  {
    var q := product / d;
    assert product == q * d + product % d;
    if q > k {
      MulMono(k + 1, q, d);
    }
  }

  /** `amt` is the share of `part`, rounded down by at most `slack` units of `d`. */
  ghost predicate Rounded(d: int, outgoing: int, part: int, amt: int, slack: int) {
    amt * d <= outgoing * part <= amt * d + slack
  }

  lemma AddRounded(d: int, outgoing: int, sum: int, total: int, part: int, amt: int, n: nat)
    requires Rounded(d, outgoing, sum, total, n * (d - 1)) && Rounded(d, outgoing, part, amt, d - 1)
    ensures Rounded(d, outgoing, sum + part, total + amt, (n + 1) * (d - 1))
  {
    assert (total + amt) * d == total * d + amt * d;
    assert outgoing * (sum + part) == outgoing * sum + outgoing * part;
    assert (n + 1) * (d - 1) == n * (d - 1) + (d - 1);
  }

  lemma {:induction false} SumRounded(d: int, outgoing: int, parts: seq<int>, amts: seq<int>)
    requires |parts| == |amts| && forall i :: 0 <= i < |parts| ==> Rounded(d, outgoing, parts[i], amts[i], d - 1)
    ensures Rounded(d, outgoing, Sum(parts), Sum(amts), |parts| * (d - 1))
  {
    if parts != [] {
      var n := |parts| - 1;
      SumRounded(d, outgoing, parts[..n], amts[..n]);
      AddRounded(d, outgoing, Sum(parts[..n]), Sum(amts[..n]), parts[n], amts[n], n);
    }
  }

  /** No HTLC of 2^63 msat or more: all bitcoin there will ever be are less. */
  predicate Small(parts: seq<Uint64>) { forall i :: 0 <= i < |parts| ==> parts[i] < TWO_63 }

  /** Totals of any parts: rounding costs the receiver less than one unit per part and the LSP nothing. */
  lemma SplitBounds(incoming: Int64, outgoing: Int64, parts: seq<Uint64>)
    requires 0 <= outgoing <= incoming && 0 < incoming && Small(parts)
    ensures Rounded(incoming, outgoing, Sum(parts), Sum(ForwardAmounts(incoming, outgoing, parts)),
                    |parts| * (incoming - 1))
  {
    var amts := ForwardAmounts(incoming, outgoing, parts);
    forall i | 0 <= i < |parts| ensures Rounded(incoming, outgoing, parts[i], amts[i], incoming - 1) {
      ShareBounds(incoming, outgoing, parts[i]);
    }
    SumRounded(incoming, outgoing, parts, amts);
  }

  lemma {:induction false} PartsBounded(parts: seq<Uint64>, i: nat)
    requires i < |parts|
    ensures 0 <= parts[i] <= Sum(parts)
  {
    var front := parts[..|parts| - 1];
    SumNonNegative(front);
    if i < |front| {
      PartsBounded(front, i);
    }
  }

  lemma {:induction false} SumNonNegative(parts: seq<Uint64>)
    ensures Sum(parts) >= 0
  {
    if parts != [] {
      SumNonNegative(parts[..|parts| - 1]);
    }
  }

  /**
   However the registered amount is split, the parts forwarded add up to the outgoing amount less at most one
   millisatoshi for every part but one; the LSP keeps at least its margin.
   */
  lemma FullSplit(incoming: Int64, outgoing: Int64, parts: seq<Uint64>)
    requires 0 <= outgoing <= incoming && 0 < incoming && Sum(parts) == incoming
    ensures var total := Sum(ForwardAmounts(incoming, outgoing, parts));
            outgoing - (|parts| - 1) <= total <= outgoing
            && incoming - total >= incoming - outgoing
  {
    PartsWithin(incoming, parts);
    assert parts != [];
    SplitBounds(incoming, outgoing, parts);
    FullSplitRounding(incoming, outgoing, Sum(ForwardAmounts(incoming, outgoing, parts)), |parts|);
  }

  lemma FullSplitRounding(d: int, outgoing: int, total: int, n: nat)
    requires 0 < d && 0 < n && total * d <= outgoing * d <= total * d + n * (d - 1)
    ensures outgoing - n < total <= outgoing
  {
    Cancel(total, outgoing, d);
    assert (outgoing - n) * d == outgoing * d - n * d;
    assert n * (d - 1) == n * d - n;
    if outgoing - n >= total {
      MulMono(total, outgoing - n, d);
    }
  }

  /** As long as no more than the registered amount came in, no more than its share goes out. */
  lemma PartialSplit(incoming: Int64, outgoing: Int64, parts: seq<Uint64>)
    requires 0 <= outgoing <= incoming && 0 < incoming && Sum(parts) <= incoming
    ensures var total := Sum(ForwardAmounts(incoming, outgoing, parts));
            total * incoming <= outgoing * Sum(parts) && total <= outgoing
  {
    PartsWithin(incoming, parts);
    SplitBounds(incoming, outgoing, parts);
    var total := Sum(ForwardAmounts(incoming, outgoing, parts));
    MulMono(Sum(parts), incoming, outgoing);
    Cancel(total, outgoing, incoming);
  }

  // ----- what goes out

  function SentAmounts(incoming: Int64, outgoing: Int64, parts: seq<Uint64>): (amts: seq<int>)
    requires incoming != 0
    ensures |amts| == |parts|
  {
    seq(|parts|, i requires 0 <= i < |parts| => Sent(incoming, outgoing, parts[i]))
  }

  predicate AllZero(parts: seq<Uint64>) { forall i :: 0 <= i < |parts| ==> parts[i] == 0 }

  lemma SentIsShare(incoming: Int64, outgoing: Int64, parts: seq<Uint64>)
    requires 0 <= outgoing <= incoming && 0 < incoming && Small(parts)
    ensures SentAmounts(incoming, outgoing, parts) == ForwardAmounts(incoming, outgoing, parts)
  {
    var sent, amts := SentAmounts(incoming, outgoing, parts), ForwardAmounts(incoming, outgoing, parts);
    forall i | 0 <= i < |parts| ensures sent[i] == amts[i] {
      SentOne(incoming, outgoing, parts[i]);
    }
  }

  lemma SentOne(incoming: Int64, outgoing: Int64, part: Uint64)
    requires 0 <= outgoing <= incoming && 0 < incoming && part < TWO_63
    ensures Sent(incoming, outgoing, part) == ForwardAmount(incoming, outgoing, part)
  {
    ShareBounds(incoming, outgoing, part);
    Unsigned(ForwardAmount(incoming, outgoing, part));
  }

  lemma Unsigned(x: int)
    requires 0 <= x < TWO_64
    ensures x % TWO_64 == x
  {
  }

  /** The share is a 64-bit number before it is cut to one. */
  predicate Fits(incoming: Int64, outgoing: Int64, part: Uint64)
    requires incoming != 0
  {
    -TWO_63 <= outgoing * part / incoming < TWO_63
  }

  predicate SharesFit(incoming: Int64, outgoing: Int64, parts: seq<Uint64>)
    requires incoming != 0
  {
    forall i :: 0 <= i < |parts| ==> Fits(incoming, outgoing, parts[i])
  }

  /** A share of a negative amount goes out as more than any amount that can come in. */
  lemma NegativeShare(incoming: Int64, outgoing: Int64, part: Uint64)
    requires outgoing < 0 < incoming && 0 < part < TWO_63 && Fits(incoming, outgoing, part)
    ensures Sent(incoming, outgoing, part) >= TWO_63
  {
    var product := outgoing * part;
    assert product < 0 by { MulMono(1, part, 0 - outgoing); }
    NegativeQuotient(product, incoming);
  }

  lemma NegativeQuotient(product: int, d: int)
    requires 0 < d && product < 0
    ensures product / d < 0
  {
    var q := product / d;
    assert q * d <= product < q * d + d;
    if q >= 0 { MulMono(0, q, d); }
  }

  /** A share of a negative registration is at least what came in, and more unless both registered amounts are equal. */
  lemma ShareOfNegative(incoming: Int64, outgoing: Int64, part: Uint64)
    requires outgoing <= incoming < 0 && part < TWO_63 && Fits(incoming, outgoing, part)
    ensures part <= Sent(incoming, outgoing, part)
    ensures Sent(incoming, outgoing, part) == part <==> part == 0 || outgoing == incoming
  {
    var product := outgoing * part;
    assert product <= incoming * part by { MulMono(outgoing, incoming, part); }
    assert part > 0 && outgoing < incoming ==> product < incoming * part;
    DivNegative(product, incoming, part);
    Unsigned(product / incoming);
  }

  lemma DivNegative(product: int, d: int, k: nat)
    requires d < 0 && product <= d * k
    ensures product / d >= k
    ensures product == d * k ==> product / d == k
    ensures product < d * k ==> product / d > k
  {
    var q := product / d;
    assert q * d <= product < q * d - d;
    assert (k + 1) * d == k * d + d && (q + 1) * d == q * d + d && (q - 1) * d == q * d - d;
    if q < k { MulMono(q + 1, k, 0 - d); }
    if q > k { MulMono(k + 1, q, 0 - d); }
  }

  lemma {:induction false} SumAtLeast(s: seq<int>, i: nat)
    requires i < |s| && forall j :: 0 <= j < |s| ==> s[j] >= 0
    ensures Sum(s) >= s[i]
  {
    var front := s[..|s| - 1];
    if i < |front| {
      SumAtLeast(front, i);
    } else {
      SumNatural(front);
    }
  }

  lemma {:induction false} SumNatural(s: seq<int>)
    requires forall j :: 0 <= j < |s| ==> s[j] >= 0
    ensures Sum(s) >= 0
  {
    if s != [] {
      SumNatural(s[..|s| - 1]);
    }
  }

  lemma {:induction false} SumOfZeros(s: seq<int>)
    requires forall i :: 0 <= i < |s| ==> s[i] == 0
    ensures Sum(s) == 0
  {
    if s != [] { SumOfZeros(s[..|s| - 1]); }
  }

  lemma PartsWithin(incoming: Int64, parts: seq<Uint64>)
    requires Sum(parts) <= incoming
    ensures Small(parts) && forall i :: 0 <= i < |parts| ==> parts[i] <= incoming
  {
    forall i | 0 <= i < |parts| ensures parts[i] <= incoming {
      PartsBounded(parts, i);
    }
  }

  lemma ZeroShare(incoming: Int64, outgoing: Int64)
    requires incoming != 0
    ensures Sent(incoming, outgoing, 0) == 0
  {
    assert outgoing * Wrap64(0) == 0;
  }

  /** Amounts that are at least the parts add up to more, if one is more. */
  lemma {:induction false} SumExceeds(parts: seq<int>, amts: seq<int>)
    requires |parts| == |amts| && forall i :: 0 <= i < |parts| ==> parts[i] <= amts[i]
    ensures Sum(parts) <= Sum(amts)
    ensures Sum(parts) < Sum(amts) <==> exists i :: 0 <= i < |parts| && parts[i] < amts[i]
  {
    if parts != [] {
      var n := |parts| - 1;
      SumExceeds(parts[..n], amts[..n]);
      assert Sum(parts[..n]) < Sum(amts[..n]) ==> exists i :: 0 <= i < |parts| && parts[i] < amts[i];
    }
  }

  lemma ZeroSends(incoming: Int64, outgoing: Int64, parts: seq<Uint64>)
    requires incoming != 0 && AllZero(parts)
    ensures Sum(SentAmounts(incoming, outgoing, parts)) == 0 && Sum(parts) == 0
  {
    var amts := SentAmounts(incoming, outgoing, parts);
    forall i | 0 <= i < |parts| ensures amts[i] == 0 { ZeroShare(incoming, outgoing); }
    SumOfZeros(amts);
    SumOfZeros(parts);
  }

  lemma NegativeSends(incoming: Int64, outgoing: Int64, parts: seq<Uint64>)
    requires outgoing < 0 < incoming && Small(parts) && SharesFit(incoming, outgoing, parts) && !AllZero(parts)
    ensures Sum(SentAmounts(incoming, outgoing, parts)) >= TWO_63
    ensures Sum(SentAmounts(incoming, outgoing, parts)) > Sum(parts)
  {
    var amts := SentAmounts(incoming, outgoing, parts);
    var k :| 0 <= k < |parts| && parts[k] != 0;
    forall i | 0 <= i < |parts| ensures parts[i] <= amts[i] && (parts[i] > 0 ==> amts[i] >= TWO_63) {
      if parts[i] > 0 { NegativeShare(incoming, outgoing, parts[i]); }
    }
    SumExceeds(parts, amts);
    SumAtLeast(amts, k);
  }

  lemma SendsOfNegative(incoming: Int64, outgoing: Int64, parts: seq<Uint64>)
    requires outgoing <= incoming < 0 && Small(parts) && SharesFit(incoming, outgoing, parts)
    ensures Sum(SentAmounts(incoming, outgoing, parts)) >= Sum(parts)
    ensures Sum(SentAmounts(incoming, outgoing, parts)) == Sum(parts) <==> outgoing == incoming || AllZero(parts)
  {
    var amts := SentAmounts(incoming, outgoing, parts);
    forall i | 0 <= i < |parts|
      ensures parts[i] <= amts[i] && (parts[i] == amts[i] <==> parts[i] == 0 || outgoing == incoming)
    {
      ShareOfNegative(incoming, outgoing, parts[i]);
    }
    SumExceeds(parts, amts);
  }

  /** Shares of what was accepted always fit. */
  lemma AcceptedSharesFit(incoming: Int64, outgoing: Int64, parts: seq<Uint64>)
    requires 0 <= outgoing <= incoming && 0 < incoming && Small(parts)
    ensures SharesFit(incoming, outgoing, parts)
  {
    forall i | 0 <= i < |parts| ensures Fits(incoming, outgoing, parts[i]) {
      MulMono(outgoing, incoming, parts[i]);
      DivBounds(outgoing * parts[i], incoming, parts[i]);
    }
  }

  function Max(a: int, b: int): int { if a < b then b else a }

  /** When the fee is left, of the registered amount or of what came in if that is more. */
  predicate KeepsFee(incoming: Int64, outgoing: Int64, parts: seq<Uint64>, fee: nat) {
    if incoming < 0 then fee == 0 && (outgoing == incoming || AllZero(parts))
    else 0 <= outgoing || (AllZero(parts) && fee <= incoming)
  }

  lemma ShareIff(incoming: Int64, outgoing: Int64, parts: seq<Uint64>)
    requires 0 < incoming && outgoing <= incoming && Small(parts)
    ensures Sum(SentAmounts(incoming, outgoing, parts)) * incoming <= outgoing * Sum(parts) <==>
            0 <= outgoing || AllZero(parts)
  {
    var sent := Sum(SentAmounts(incoming, outgoing, parts));
    if 0 <= outgoing {
      SentIsShare(incoming, outgoing, parts);
      SplitBounds(incoming, outgoing, parts);
    } else if AllZero(parts) {
      ZeroSends(incoming, outgoing, parts);
    } else {
      var k :| 0 <= k < |parts| && parts[k] != 0;
      PartsBounded(parts, k);
      SumNatural(SentAmounts(incoming, outgoing, parts));
      assert sent * incoming >= 0 by { MulMono(0, sent, incoming); }
      assert outgoing * Sum(parts) < 0 by { MulMono(1, Sum(parts), 0 - outgoing); }
    }
  }

  /** Within the share, the fee is left: of the registered amount, and of what came in if that is more. */
  lemma ShareLeavesMargin(incoming: int, outgoing: int, came: int, sent: int)
    requires 0 <= outgoing <= incoming && 0 < incoming && 0 <= came && sent * incoming <= outgoing * came
    ensures sent + (incoming - outgoing) <= Max(incoming, came)
  {
    if came <= incoming {
      MulMono(came, incoming, outgoing);
      Cancel(sent, outgoing, incoming);
    } else {
      var margin := incoming - outgoing;
      assert 0 <= margin * (came - incoming) by { MulMono(0, margin, came - incoming); }
      assert (came - margin) * incoming == outgoing * came + margin * (came - incoming);
      Cancel(sent, came - margin, incoming);
    }
  }

  /**
   Whatever comes in, in whatever parts, the amounts sent stay within the share exactly unless the outgoing amount is
   negative and something was forwarded.  The fee is then left of the registered amount, or of what came in if that is
   more; as long as shares fit in 64 bits, `KeepsFee` says exactly when it is.
   */
  lemma SendsLeaveFee(incoming: Int64, outgoing: Int64, parts: seq<Uint64>, fee: nat)
    requires incoming != 0 && Small(parts) && incoming - outgoing >= fee
    ensures var sent := Sum(SentAmounts(incoming, outgoing, parts));
            && (0 < incoming ==> (sent * incoming <= outgoing * Sum(parts) <==> 0 <= outgoing || AllZero(parts)))
            && (0 <= outgoing || SharesFit(incoming, outgoing, parts) ==>
                  (sent + fee <= Max(incoming, Sum(parts)) <==> KeepsFee(incoming, outgoing, parts, fee)))
  {
    SumNonNegative(parts);
    if 0 < incoming { ShareIff(incoming, outgoing, parts); }
    if 0 <= outgoing {
      ShareLeavesMargin(incoming, outgoing, Sum(parts), Sum(SentAmounts(incoming, outgoing, parts)));
    } else if AllZero(parts) {
      ZeroSends(incoming, outgoing, parts);
    } else if SharesFit(incoming, outgoing, parts) {
      if 0 < incoming {
        NegativeSends(incoming, outgoing, parts);
      } else {
        SendsOfNegative(incoming, outgoing, parts);
      }
    }
  }

  /** It happens: a share below -2^63 is cut to zero, and a negative outgoing amount costs nothing. */
  lemma ShareWraps()
    ensures Accepts(0, 0, 1, -0x1_0000_0000) && Sent(1, -0x1_0000_0000, 0x1_0000_0000) == 0
  {
    assert -0x1_0000_0000 * 0x1_0000_0000 == -TWO_64;
  }

  /** It happens: a registration with a negative outgoing amount is accepted, and its forward reads as almost 2^64. */
  lemma NegativeOutgoing()
    ensures Accepts(0, 0, 1_000, -1_000) && Sent(1_000, -1_000, 1_000) == TWO_64 - 1_000
  {
    assert ForwardAmount(1_000, -1_000, 1_000) == -1_000;
  }

  // ----- capacity

  /** The capacity of a channel opened for a payment, stepping over the amount reserved for public channels. */
  function Capacity(incoming: Int64, additional: Int64, publicAmount: Int64): (c: Int64)
    ensures c != publicAmount
  {
    var capacity := Wrap64(Quo(incoming, 1_000) + additional);
    if capacity == publicAmount then Wrap64(capacity + 1) else capacity
  }

  /** A capacity in satoshi is the amount rounded down, with the additional capacity on top. */
  predicate Provides(c: int, incoming: Int64, additional: Int64) {
    1_000 * (c - additional) <= incoming < 1_000 * (c - additional) + 1_000
  }

  /** The capacity is what amount and additional capacity come to, or one more exactly if that is the public amount. */
  lemma CapacityExact(incoming: Int64, additional: Int64, publicAmount: Int64)
    requires 0 <= incoming && incoming / 1_000 + additional + 1 < TWO_63
    ensures var c := Capacity(incoming, additional, publicAmount);
            if Provides(publicAmount, incoming, additional) then c == publicAmount + 1
            else Provides(c, incoming, additional)
  {
  }

  lemma AcceptedMargin(minMsat: Uint64, proportional: Uint32, incoming: Int64, outgoing: Int64)
    requires FeeFits(minMsat, incoming * proportional) && 0 <= incoming
             && Accepts(minMsat, proportional, incoming, outgoing)
    ensures incoming - outgoing >= PromisedFee(minMsat, proportional, incoming) >= 0
  {
    AcceptsExact(minMsat, proportional, incoming, outgoing);
  }

  /**
   However much comes in, the parts forwarded fit a capacity if their share does; and if they fit, the share is over it
   by less than the rounding of the parts.
   */
  lemma FitsIfShareDoes(incoming: Int64, outgoing: Int64, parts: seq<Uint64>, capacity: int)
    requires 0 <= outgoing <= incoming && 0 < incoming && Small(parts)
    ensures var sent := Sum(SentAmounts(incoming, outgoing, parts));
            && (outgoing * Sum(parts) <= capacity * incoming ==> sent <= capacity)
            && (sent <= capacity ==> outgoing * Sum(parts) <= capacity * incoming + |parts| * (incoming - 1))
  {
    SentIsShare(incoming, outgoing, parts);
    SplitBounds(incoming, outgoing, parts);
    var sent := Sum(SentAmounts(incoming, outgoing, parts));
    if outgoing * Sum(parts) <= capacity * incoming { Cancel(sent, capacity, incoming); }
    if sent <= capacity { MulMono(sent, capacity, incoming); }
  }

  /**
   What is sent for an accepted payment, in whatever parts and however much comes in, leaves the promised fee, and fits
   the channel opened for it if no more than the registered amount came in, exactly unless the outgoing amount is
   negative and something was forwarded or the fee is more than came in. If more came in, it fits if the share of all of
   it does, and only if that is not over the capacity by more than the rounding.  After a payment that fits, the fee and
   the additional capacity are still there, but for the part of a satoshi that is rounded off.
   */
  lemma AcceptedPaymentFits(minMsat: Uint64, proportional: Uint32, incoming: Int64, outgoing: Int64, parts: seq<Uint64>,
                            additional: Int64, publicAmount: Int64)
    requires FeeFits(minMsat, incoming * proportional) && Accepts(minMsat, proportional, incoming, outgoing)
    requires 0 < incoming && Small(parts) && 1 <= additional && incoming / 1_000 + additional + 1 < TWO_63
    ensures var sent, fee := Sum(SentAmounts(incoming, outgoing, parts)), PromisedFee(minMsat, proportional, incoming);
            var came, capacity := Sum(parts), 1_000 * Capacity(incoming, additional, publicAmount);
            && (0 <= outgoing || SharesFit(incoming, outgoing, parts) ==>
                  (sent + fee <= Max(incoming, came) && (came <= incoming ==> sent <= capacity) <==>
                   0 <= outgoing || (AllZero(parts) && fee <= incoming)))
            && (0 <= outgoing ==>
                  && (outgoing * came <= capacity * incoming ==> sent <= capacity)
                  && (sent <= capacity ==> outgoing * came <= capacity * incoming + |parts| * (incoming - 1)))
    ensures Sum(parts) <= incoming ==> SharesFit(incoming, outgoing, parts)
    ensures var sent, fee := Sum(SentAmounts(incoming, outgoing, parts)), PromisedFee(minMsat, proportional, incoming);
            var capacity := 1_000 * Capacity(incoming, additional, publicAmount);
            0 <= outgoing && Sum(parts) <= incoming ==> sent + fee + 1_000 * additional < capacity + 1_000
  {
    var fee := PromisedFee(minMsat, proportional, incoming);
    var capacity := 1_000 * Capacity(incoming, additional, publicAmount);
    AcceptedMargin(minMsat, proportional, incoming, outgoing);
    SendsLeaveFee(incoming, outgoing, parts, fee);
    CapacityExact(incoming, additional, publicAmount);
    if 0 <= outgoing {
      FitsIfShareDoes(incoming, outgoing, parts, capacity);
      AcceptedSharesFit(incoming, outgoing, parts);
    } else if Sum(parts) <= incoming {
      PartsWithin(incoming, parts);
      PartsFit(incoming, outgoing, parts);
    }
  }

  lemma PartsFit(incoming: Int64, outgoing: Int64, parts: seq<Uint64>)
    requires outgoing < 0 < incoming && forall i :: 0 <= i < |parts| ==> parts[i] <= incoming
    ensures SharesFit(incoming, outgoing, parts)
  {
    forall i | 0 <= i < |parts| ensures Fits(incoming, outgoing, parts[i]) {
      var product := outgoing * parts[i];
      assert outgoing * incoming <= product by { MulMono(parts[i], incoming, 0 - outgoing); }
      assert product <= 0 by { MulMono(0, parts[i], 0 - outgoing); }
      LowQuotient(product, incoming, outgoing);
    }
  }

  lemma LowQuotient(product: int, d: int, low: int)
    requires 0 < d && low * d <= product <= 0
    ensures low <= product / d <= 0
  {
    var q := product / d;
    assert q * d <= product < q * d + d;
    if q < low { MulMono(q + 1, low, d); }
    if q > 0 { MulMono(1, q, d); }
  }

  /**
   It happens: a payment that comes in twice is forwarded twice, which is more than the channel opened for it holds.
   */
  lemma TwiceDoesNotFit()
    ensures Sum(SentAmounts(1_000_000, 900_000, [1_000_000, 1_000_000])) == 1_800_000
    ensures 1_000 * Capacity(1_000_000, 1, 0) == 1_001_000
  {
    var parts: seq<Uint64> := [1_000_000, 1_000_000];
    assert Sent(1_000_000, 900_000, 1_000_000) == 900_000;
    var amts := SentAmounts(1_000_000, 900_000, parts);
    assert amts == [900_000, 900_000] && amts[..1] == [900_000] && [900_000][..0] == [];
    assert Sum([900_000]) == 900_000;
  }
}
