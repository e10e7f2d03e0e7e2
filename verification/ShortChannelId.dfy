/**
 The text form of short channel ids, `block x transaction x output`, as "Definition of short_channel_id" in BOLT 7
 writes it. The parser accepts more than the printer writes: signs, leading zeros and numbers that overflow their field.
 */
module ShortChannelId {
  import opened Base

  const M16 := 0x1_0000
  const M24 := 0x100_0000
  const M32 := 0x1_0000_0000
  const M40 := 0x100_0000_0000

  datatype Result = Parsed(id: nat) | WrongFields | BadField(field: string)

  // ----- decimal numbers

  function Dec(n: nat): string {
    if n < 10 then [n as char + '0'] else Dec(n / 10) + [(n % 10) as char + '0']
  }

  /** The number a row of digits stands for, and none for any other text. */
  function Val(ds: string): Option<nat> {
    if ds == "" then Some(0) else
    var c := ds[|ds| - 1];
    var high := Val(ds[..|ds| - 1]);
    if high.None? || !('0' <= c <= '9') then None else Some(high.value * 10 + (c - '0') as nat)
  }

  /** `strconv.ParseInt` in base 10 for 64 bits. */
  function ParseInt(f: string): Option<int> {
    if f == "" then None
    else if f[0] == '-' then Signed(Negative, f[1..])
    else if f[0] == '+' then Signed(Positive, f[1..])
    else Signed(Positive, f)
  }

  datatype Sign = Positive | Negative

  function Signed(sign: Sign, ds: string): Option<int> {
    var v := Val(ds);
    if ds == "" || v.None? then None
    else if sign == Negative then if v.value <= TWO_63 then Some(0 - v.value) else None
    else if v.value < TWO_63 then Some(v.value) else None
  }

  /** No sign, no leading zero, below the limit. */
  predicate Plain(f: string, limit: nat) {
    f != "" && (|f| == 1 || f[0] != '0') && Val(f).Some? && Val(f).value < limit
  }

  lemma {:induction false} DecPlain(n: nat, limit: nat)
    requires n < limit
    ensures Plain(Dec(n), limit) && Val(Dec(n)) == Some(n) && (n > 0 ==> Dec(n)[0] != '0')
  {
    if n >= 10 {
      DecPlain(n / 10, limit);
      var d := Dec(n);
      assert d[..|d| - 1] == Dec(n / 10);
    } else {
      assert Dec(n)[..0] == "";
    }
  }

  lemma {:induction false} ValPositive(f: string)
    requires f != "" && Val(f).Some? && f[0] != '0'
    ensures Val(f).value > 0
  {
    var rest := f[..|f| - 1];
    if rest != "" {
      assert rest[0] == f[0];
      ValPositive(rest);
    }
  }

  lemma {:induction false} PlainDec(f: string, limit: nat)
    requires Plain(f, limit)
    ensures Dec(Val(f).value) == f
  {
    if |f| == 1 {
      assert f[..0] == "" && f == [f[0]];
    } else {
      var rest := f[..|f| - 1];
      assert rest[0] == f[0];
      ValPositive(rest);
      PlainDec(rest, limit);
      assert f == rest + [f[|f| - 1]];
    }
  }

  lemma {:induction false} DigitsOnly(f: string)
    requires Val(f).Some?
    ensures forall c :: c in f ==> '0' <= c <= '9'
  {
    if f != "" {
      DigitsOnly(f[..|f| - 1]);
      assert f == f[..|f| - 1] + [f[|f| - 1]];
    }
  }

  lemma PlainParses(f: string, limit: nat)
    requires Plain(f, limit) && limit <= TWO_63
    ensures ParseInt(f) == Some(Val(f).value)
  {
    DigitsOnly(f);
    assert f[0] in f;
  }

  /** An integer as text, with a minus sign in front if it is negative. */
  function IntText(v: int): string { if v < 0 then "-" + Dec(0 - v) else Dec(v) }

  /** An integer is read back from its text exactly if it fits in 64 bits, and otherwise refused. */
  lemma ParseIntExact(v: int)
    ensures ParseInt(IntText(v)) == if -TWO_63 <= v < TWO_63 then Some(v) else None
  {
    var n := if v < 0 then 0 - v else v;
    DecPlain(n, n + 1);
    DigitsOnly(Dec(n));
    assert Dec(n)[0] in Dec(n);
    assert v < 0 ==> IntText(v)[1..] == Dec(n);
  }

  // ----- fields

  /** `strings.Split(s, "x")`. */
  function Split(s: string): (r: seq<string>)
    ensures r != []
  {
    if s == "" then [""] else
    var before := Split(s[..|s| - 1]);
    var c := s[|s| - 1];
    if c == 'x' then before + [""]
    else Extend(before, [c])
  }

  /** The fields with text added to the last one. */
  function Extend(fields: seq<string>, t: string): (r: seq<string>)
    requires fields != []
    ensures |r| == |fields|
  {
    fields[..|fields| - 1] + [fields[|fields| - 1] + t]
  }

  lemma ExtendTwice(fields: seq<string>, t: string, u: string)
    requires fields != []
    ensures Extend(Extend(fields, t), u) == Extend(fields, t + u) && Extend(fields, "") == fields
  {
    assert Extend(fields, t)[..|fields| - 1] == fields[..|fields| - 1];
    assert fields[|fields| - 1] + t + u == fields[|fields| - 1] + (t + u);
    assert fields[|fields| - 1] + "" == fields[|fields| - 1];
  }

  function Join(fields: seq<string>): string
    requires fields != []
  {
    var n := |fields| - 1;
    if n == 0 then fields[0] else Join(fields[..n]) + "x" + fields[n]
  }

  lemma JoinExtend(fields: seq<string>, t: string)
    requires fields != []
    ensures Join(Extend(fields, t)) == Join(fields) + t && Join(fields + [""]) == Join(fields) + "x"
  {
    var n := |fields| - 1;
    assert Extend(fields, t)[..n] == fields[..n];
    assert (fields + [""])[..n + 1] == fields;
  }

  lemma {:induction false} JoinSplit(s: string)
    ensures Join(Split(s)) == s
  {
    if s != "" {
      var rest, c := s[..|s| - 1], s[|s| - 1];
      JoinSplit(rest);
      JoinExtend(Split(rest), [c]);
      assert s == rest + [c];
    }
  }

  lemma {:induction false} SplitMore(s: string, t: string)
    requires 'x' !in t
    ensures Split(s + t) == Extend(Split(s), t)
  {
    if t == "" {
      assert s + t == s;
      ExtendTwice(Split(s), "", "");
    } else {
      var rest, c := t[..|t| - 1], t[|t| - 1];
      SplitMore(s, rest);
      assert (s + t)[..|s + t| - 1] == s + rest && (s + t)[|s + t| - 1] == c;
      assert t == rest + [c] && c in t;
      ExtendTwice(Split(s), rest, [c]);
    }
  }

  lemma SplitLast(s: string, t: string)
    requires 'x' !in t
    ensures Split(s + "x" + t) == Split(s) + [t]
  {
    SplitMore(s + "x", t);
    assert (s + "x")[..|s|] == s;
    assert "" + t == t;
    assert Extend(Split(s) + [""], t) == Split(s) + [t];
  }

  /** Three x-free fields are found again in their text. */
  lemma Split3(a: string, b: string, c: string)
    requires 'x' !in a && 'x' !in b && 'x' !in c
    ensures Split(a + "x" + b + "x" + c) == [a, b, c]
  {
    SplitMore("", a);
    assert "" + a == a;
    assert Extend([""], a) == [a];
    SplitLast(a, b);
    SplitLast(a + "x" + b, c);
  }

  // ----- the 64-bit word

  function Pow2(k: nat): nat { if k == 0 then 1 else 2 * Pow2(k - 1) }

  function Or(a: nat, b: nat): nat
    decreases a + b
  {
    if a == 0 && b == 0 then 0
    else 2 * Or(a / 2, b / 2) + if a % 2 == 1 || b % 2 == 1 then 1 else 0
  }

  /**
   The packing of the Lightning library: a 32-bit height, a 32-bit index and a 16-bit output, shifted and joined in 64
   bits. The shift by 40 keeps the low 24 bits of the height; a wide index overlaps them.
   */
  function Pack(block: nat, tx: nat, output: nat): nat {
    Or(Or(block % M24 * M40, tx * M16), output)
  }

  lemma {:induction false} OrZero(a: nat)
    ensures Or(a, 0) == a
  {
    if a > 0 { OrZero(a / 2); }
  }

  lemma OrEven(p: nat, b: nat)
    ensures Or(2 * p, b) == 2 * Or(p, b / 2) + b % 2
  {
    assert 2 * p / 2 == p && 2 * p % 2 == 0;
  }

  function Shl(a: nat, k: nat): nat { if k == 0 then a else 2 * Shl(a, k - 1) }

  lemma {:induction false} OrShifted(a: nat, k: nat, b: nat)
    requires b < Pow2(k)
    ensures Or(Shl(a, k), b) == Shl(a, k) + b
  {
    if k == 0 {
      OrZero(a);
    } else {
      OrShifted(a, k - 1, b / 2);
      OrEven(Shl(a, k - 1), b);
    }
  }

  lemma {:induction false} ShlIsProduct(a: nat, k: nat)
    ensures Shl(a, k) == a * Pow2(k)
  {
    if k > 0 {
      ShlIsProduct(a, k - 1);
      assert a * (2 * Pow2(k - 1)) == 2 * (a * Pow2(k - 1));
    }
  }

  lemma {:induction false} PowAdd(a: nat, b: nat)
    ensures Pow2(a + b) == Pow2(a) * Pow2(b)
  {
    if a > 0 {
      PowAdd(a - 1, b);
    }
  }

  lemma Powers()
    ensures Pow2(16) == M16 && Pow2(40) == M40
  {
    PowAdd(2, 2);
    PowAdd(4, 4);
    PowAdd(8, 8);
    PowAdd(16, 16);
    PowAdd(32, 8);
  }

  lemma OrHeight(a: nat, b: nat)
    requires b < M40
    ensures Or(a * M40, b) == a * M40 + b
  {
    Powers();
    OrShifted(a, 40, b);
    ShlIsProduct(a, 40);
  }

  lemma OrOutput(a: nat, b: nat)
    requires b < M16
    ensures Or(a * M16, b) == a * M16 + b
  {
    Powers();
    OrShifted(a, 16, b);
    ShlIsProduct(a, 16);
  }

  /** Fields within their ranges do not overlap. */
  lemma PackAdds(block: nat, tx: nat, output: nat)
    requires block < M24 && tx < M24 && output < M16
    ensures Pack(block, tx, output) == block * M40 + tx * M16 + output
  {
    OrHeight(block, tx * M16);
    OrOutput(block * M24 + tx, output);
    assert block * M40 + tx * M16 == (block * M24 + tx) * M16;
    assert block % M24 == block;
  }

  lemma {:induction false} OrHigh(a: nat, c: nat, k: nat, d: nat)
    requires d < Pow2(k)
    ensures Or(Shl(a, k), Shl(c, k) + d) == Shl(Or(a, c), k) + d
  {
    if k > 0 {
      OrHigh(a, c, k - 1, d / 2);
      var high, low := Shl(a, k - 1), 2 * Shl(c, k - 1) + d;
      OrEven(high, low);
      assert low / 2 == Shl(c, k - 1) + d / 2 && low % 2 == d % 2;
    }
  }

  lemma {:induction false} OrBound(a: nat, b: nat, k: nat)
    requires a < Pow2(k) && b < Pow2(k)
    ensures Or(a, b) < Pow2(k)
  {
    if k > 0 { OrBound(a / 2, b / 2, k - 1); }
  }

  /**
   What any height, index and output that were read come to: the index keeps its low 24 bits, and its upper bits are
   joined with the low 24 bits of the height.
   */
  lemma PackExact(block: nat, tx: nat, output: nat)
    requires tx < M32 && output < M16
    ensures Pack(block, tx, output) == Or(block % M24, tx / M24) * M40 + tx % M24 * M16 + output
    ensures Or(block % M24, tx / M24) < M24
  {
    var high, low, h := tx / M24, tx % M24, block % M24;
    Powers();
    OrHigh(h, high, 40, low * M16);
    ShlIsProduct(h, 40);
    ShlIsProduct(high, 40);
    ShlIsProduct(Or(h, high), 40);
    assert tx * M16 == high * M40 + low * M16;
    var joined := Or(h, high) * M24 + low;
    assert joined * M16 == Or(h, high) * M40 + low * M16;
    OrOutput(joined, output);
    PowAdd(16, 8);
    OrBound(h, high, 24);
  }

  // ----- parsing and printing

  function Parse(s: string): Result {
    if s == "" then Parsed(0) else
    var fields := Split(s);
    if |fields| != 3 then WrongFields
    else if ParseInt(fields[0]).None? then BadField(fields[0])
    else if ParseInt(fields[1]).None? then BadField(fields[1])
    else if ParseInt(fields[2]).None? then BadField(fields[2])
    else Parsed(Truncated(ParseInt(fields[0]).value, ParseInt(fields[1]).value, ParseInt(fields[2]).value))
  }

  /** The conversions to 32, 32 and 16 bits keep the low bits of whatever was read. */
  function Truncated(block: int, tx: int, output: int): nat { Pack(block % M32, tx % M32, output % M16) }

  lemma TruncatedAdds(block: nat, tx: nat, output: nat)
    requires block < M24 && tx < M24 && output < M16
    ensures Truncated(block, tx, output) == block * M40 + tx * M16 + output
  {
    assert block % M32 == block && tx % M32 == tx && output % M16 == output;
    PackAdds(block, tx, output);
  }

  function Block(u: nat): nat { u / M40 % M24 }

  function Tx(u: nat): nat { u / M16 % M24 }

  function Output(u: nat): nat { u % M16 }

  function ToString(scid: Option<nat>): string {
    if scid.None? then "" else
    Dec(Block(scid.value)) + "x" + Dec(Tx(scid.value)) + "x" + Dec(Output(scid.value))
  }

  /** The form BOLT 7 writes: three plain numbers that fit 3, 3 and 2 bytes. */
  predicate Canonical(s: string) {
    var f := Split(s);
    |f| == 3 && Plain(f[0], M24) && Plain(f[1], M24) && Plain(f[2], M16)
  }

  lemma Join3(s: string, a: string, b: string, c: string)
    requires Split(s) == [a, b, c]
    ensures s == a + "x" + b + "x" + c
  {
    JoinSplit(s);
    assert [a, b, c][..2] == [a, b];
    assert [a, b][..1] == [a];
    assert Join([a, b]) == a + "x" + b;
  }

  lemma PrintedFields(block: nat, tx: nat, output: nat)
    requires block < M24 && tx < M24 && output < M16
    ensures Split(Dec(block) + "x" + Dec(tx) + "x" + Dec(output)) == [Dec(block), Dec(tx), Dec(output)]
    ensures Plain(Dec(block), M24) && Plain(Dec(tx), M24) && Plain(Dec(output), M16)
    ensures Val(Dec(block)) == Some(block) && Val(Dec(tx)) == Some(tx) && Val(Dec(output)) == Some(output)
  {
    DecPlain(block, M24);
    DecPlain(tx, M24);
    DecPlain(output, M16);
    DigitsOnly(Dec(block));
    DigitsOnly(Dec(tx));
    DigitsOnly(Dec(output));
    Split3(Dec(block), Dec(tx), Dec(output));
  }

  lemma Parts(u: nat)
    requires u < TWO_64
    ensures Block(u) * M40 + Tx(u) * M16 + Output(u) == u
  {
  }

  lemma ParseFields(s: string, a: string, b: string, c: string, x: int, y: int, z: int)
    requires Split(s) == [a, b, c] && ParseInt(a) == Some(x) && ParseInt(b) == Some(y) && ParseInt(c) == Some(z)
    ensures Parse(s) == Parsed(Truncated(x, y, z))
  {
    assert s != "";
  }

  /** What the parser makes of three numbers that fit their fields. */
  lemma ParseNumbers(s: string, a: string, b: string, c: string, x: nat, y: nat, z: nat)
    requires Split(s) == [a, b, c] && ParseInt(a) == Some(x) && ParseInt(b) == Some(y) && ParseInt(c) == Some(z)
    requires x < M24 && y < M24 && z < M16
    ensures Parse(s) == Parsed(x * M40 + y * M16 + z)
  {
    ParseFields(s, a, b, c, x, y, z);
    TruncatedAdds(x, y, z);
  }

  /** Every 64-bit id is read back from its text. */
  lemma ParseToString(u: nat)
    requires u < TWO_64
    ensures Parse(ToString(Some(u))) == Parsed(u)
  {
    var b, t, o := Block(u), Tx(u), Output(u);
    PrintedFields(b, t, o);
    ParsesBack(b);
    ParsesBack(t);
    ParsesBack(o);
    ReadsAs(ToString(Some(u)), Dec(b), Dec(t), Dec(o), u);
  }

  lemma ReadsAs(s: string, a: string, b: string, c: string, u: nat)
    requires u < TWO_64 && Split(s) == [a, b, c]
    requires ParseInt(a) == Some(Block(u)) && ParseInt(b) == Some(Tx(u)) && ParseInt(c) == Some(Output(u))
    ensures Parse(s) == Parsed(u)
  {
    ParseNumbers(s, a, b, c, Block(u), Tx(u), Output(u));
    Parts(u);
  }

  lemma ParsesBack(n: nat)
    requires n < M32
    ensures ParseInt(Dec(n)) == Some(n)
  {
    ParseIntExact(n);
  }

  /** Printing loses nothing: equal text means equal ids. */
  lemma ToStringInjective(a: Option<nat>, b: Option<nat>)
    requires a.Some? ==> a.value < TWO_64
    requires b.Some? ==> b.value < TWO_64
    requires ToString(a) == ToString(b)
    ensures a == b
  {
    if a.Some? { ParseToString(a.value); }
    if b.Some? { ParseToString(b.value); }
  }

  lemma Shifts(u: nat, b: nat, t: nat, o: nat)
    requires b < M24 && t < M24 && o < M16 && u == b * M40 + t * M16 + o
    ensures Block(u) == b && Tx(u) == t && Output(u) == o
  {
  }

  lemma PrintsPlain(u: nat, s: string, a: string, b: string, c: string)
    requires Split(s) == [a, b, c] && Plain(a, M24) && Plain(b, M24) && Plain(c, M16)
    requires Block(u) == Val(a).value && Tx(u) == Val(b).value && Output(u) == Val(c).value
    ensures ToString(Some(u)) == s
  {
    PlainDec(a, M24);
    PlainDec(b, M24);
    PlainDec(c, M16);
    Join3(s, a, b, c);
  }

  lemma PrintsCanonical(u: nat)
    ensures Canonical(ToString(Some(u)))
  {
    PrintedFields(Block(u), Tx(u), Output(u));
  }

  lemma CanonicalReturns(s: string)
    requires Canonical(s)
    ensures Parse(s).Parsed? && ToString(Some(Parse(s).id)) == s
  {
    var f := Split(s);
    assert f == [f[0], f[1], f[2]];
    var x, y, z := Val(f[0]).value, Val(f[1]).value, Val(f[2]).value;
    PlainParses(f[0], M24);
    PlainParses(f[1], M24);
    PlainParses(f[2], M16);
    ParseNumbers(s, f[0], f[1], f[2], x, y, z);
    var u := Parse(s).id;
    Shifts(u, x, y, z);
    PrintsPlain(u, s, f[0], f[1], f[2]);
  }

  /** Reading and printing again gives the text back exactly when it was canonical. */
  lemma ToStringParse(s: string)
    ensures Canonical(s) <==> Parse(s).Parsed? && ToString(Some(Parse(s).id)) == s
  {
    if Canonical(s) {
      CanonicalReturns(s);
    } else if Parse(s).Parsed? {
      PrintsCanonical(Parse(s).id);
    }
  }

  lemma SignedText()
    ensures Split("+1x2x3") == ["+1", "2", "3"]
    ensures ParseInt("+1") == Some(1) && ParseInt("2") == Some(2) && ParseInt("3") == Some(3)
  {
    assert "+1" + "x" + "2" + "x" + "3" == "+1x2x3";
    Split3("+1", "2", "3");
    assert "+1"[1..] == "1" && "1"[..0] == "" && "2"[..0] == "" && "3"[..0] == "";
  }

  /** It happens: the sign of "+1x2x3" is read, and not printed. */
  lemma SignIsLost(u: nat)
    requires u == M40 + 2 * M16 + 3
    ensures Parse("+1x2x3") == Parsed(u) && ToString(Some(u)) == "1x2x3"
  {
    SignedText();
    ParseNumbers("+1x2x3", "+1", "2", "3", 1, 2, 3);
    Shifts(u, 1, 2, 3);
  }

  /** The id of three numbers, whatever they are: which bits of each of them it shows. */
  lemma ReadFields(s: string, a: string, b: string, c: string, x: int, y: int, z: int)
    requires Split(s) == [a, b, c] && ParseInt(a) == Some(x) && ParseInt(b) == Some(y) && ParseInt(c) == Some(z)
    ensures Parse(s).Parsed?
    ensures var u := Parse(s).id;
            Block(u) == Or(x % M24, y % M32 / M24) && Tx(u) == y % M24 && Output(u) == z % M16
  {
    ParseFields(s, a, b, c, x, y, z);
    TruncatedShows(x, y, z);
  }

  lemma TruncatedShows(x: int, y: int, z: int)
    ensures var u := Truncated(x, y, z);
            Block(u) == Or(x % M24, y % M32 / M24) && Tx(u) == y % M24 && Output(u) == z % M16
  {
    PackExact(x % M32, y % M32, z % M16);
    LowBits(x);
    LowBits(y);
    Shifts(Truncated(x, y, z), Or(x % M24, y % M32 / M24), y % M24, z % M16);
  }

  lemma LowBits(x: int)
    ensures x % M32 % M24 == x % M24
  {
    var q := x / M32;
    assert x == q * 256 * M24 + x % M32;
  }

  /** The empty text reads as id zero, so the text of no id does too; that id prints as another text. */
  lemma EmptyIsZero()
    ensures Parse("") == Parse(ToString(None)) == Parsed(0) && ToString(Some(0)) == "0x0x0"
  {
  }

  function CountX(s: string): nat {
    if s == "" then 0 else CountX(s[..|s| - 1]) + if s[|s| - 1] == 'x' then 1 else 0
  }

  lemma {:induction false} SplitCount(s: string)
    ensures |Split(s)| == CountX(s) + 1
  {
    if s != "" { SplitCount(s[..|s| - 1]); }
  }

  /**
   Which texts are refused: those without exactly two separators, and those with a field that is no 64-bit integer.
   */
  lemma RefusedIff(s: string)
    ensures Parse(s).WrongFields? <==> s != "" && CountX(s) != 2
    ensures Parse(s).BadField? <==> CountX(s) == 2 && !AllNumbers(Split(s))
  {
    SplitCount(s);
    if CountX(s) == 2 { ThreeFields(s, Split(s)); }
  }

  predicate AllNumbers(fields: seq<string>) { forall i :: 0 <= i < |fields| ==> ParseInt(fields[i]).Some? }

  lemma ThreeFields(s: string, fields: seq<string>)
    requires s != "" && fields == Split(s) && |fields| == 3
    ensures Parse(s).BadField? <==> !AllNumbers(fields)
    ensures Parse(s).BadField? || Parse(s).Parsed?
  {
  }

  lemma MinusText()
    ensures Split("-1x2x3") == ["-1", "2", "3"]
    ensures ParseInt("-1") == Some(-1) && ParseInt("2") == Some(2) && ParseInt("3") == Some(3)
  {
    assert "-1" + "x" + "2" + "x" + "3" == "-1x2x3";
    Split3("-1", "2", "3");
    assert "-1"[1..] == "1" && "1"[..0] == "" && "2"[..0] == "" && "3"[..0] == "";
  }

  /** It happens: a negative height wraps, and "-1x2x3" is the id of the last height there is. */
  lemma NegativeWraps(u: nat)
    requires u == (M24 - 1) * M40 + 2 * M16 + 3
    ensures Parse("-1x2x3") == Parsed(u)
  {
    MinusText();
    ParseFields("-1x2x3", "-1", "2", "3", -1, 2, 3);
    assert -1 % M32 == M32 - 1 && (M32 - 1) % M24 == M24 - 1;
    PackExact(M32 - 1, 2, 3);
    OrZero(M24 - 1);
  }

  /** Comparing texts is comparing ids: a canonical text equals the printed id exactly when it reads as that id. */
  lemma TextIsId(u: nat, s: string)
    requires u < TWO_64
    ensures ToString(Some(u)) == s <==> Canonical(s) && Parse(s) == Parsed(u)
  {
    ParseToString(u);
    ToStringParse(s);
  }

  // ----- lookup by id

  /** A channel as the node lists it, with the text of its id and of its local alias. */
  datatype Channel = Channel(scid: Option<string>, alias: Option<string>, peer: string)

  /** The text stands for the id; the nil id prints as the empty text. */
  predicate Reads(text: Option<string>, scid: Option<nat>) {
    text.Some? && if scid.None? then text.value == ""
      else Canonical(text.value) && Parse(text.value) == Parsed(scid.value)
  }

  predicate Names(ch: Channel, scid: Option<nat>) { Reads(ch.scid, scid) || Reads(ch.alias, scid) }

  lemma TextReads(scid: Option<nat>, text: Option<string>)
    requires scid.Some? ==> scid.value < TWO_64
    ensures text == Some(ToString(scid)) <==> Reads(text, scid)
  {
    if scid.Some? && text.Some? { TextIsId(scid.value, text.value); }
  }

  /** The peer of the first listed channel that carries the id, although the loop only compares text. */
  method GetPeerId(scid: Option<nat>, channels: seq<Channel>) returns (dest: Option<string>)
    requires scid.Some? ==> scid.value < TWO_64
    ensures dest.None? <==> forall i :: 0 <= i < |channels| ==> !Names(channels[i], scid)
    ensures dest.Some? ==>
            exists i :: 0 <= i < |channels| && Names(channels[i], scid) && dest.value == channels[i].peer &&
                                       forall j :: 0 <= j < i ==> !Names(channels[j], scid)
  {
    var text := Some(ToString(scid));
    for i := 0 to |channels|
      invariant forall j :: 0 <= j < i ==> !Names(channels[j], scid)
    {
      TextReads(scid, channels[i].scid);
      TextReads(scid, channels[i].alias);
      if channels[i].scid == text || channels[i].alias == text {
        return Some(channels[i].peer);
      }
    }
    dest := None;
  }
}
