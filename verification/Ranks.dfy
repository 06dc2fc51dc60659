/**
 Ranks as exact decimals, and the orders of the two task lists
 (`apps/portal/src/queries/taskPlacement.ts`).
 */
module Ranks {
  import opened Strings

  predicate IsDigit(c: char) {
    '0' <= c <= '9'
  }

  predicate AllDigits(s: string) {
    forall i :: 0 <= i < |s| ==> IsDigit(s[i])
  }

  /** The rank without its sign. */
  function Unsigned(rank: string): string {
    if rank != "" && (rank[0] == '-' || rank[0] == '+') then rank[1..] else rank
  }

  /** The text before the point; empty when it is missing. */
  function WholePart(rank: string): string {
    var body := Unsigned(rank);
    body[..IndexOf(body, '.', 0)]
  }

  /** The text between the first point and the next, or the end; empty when there is no point. */
  function FractionPart(rank: string): string {
    var body := Unsigned(rank);
    var dot := IndexOf(body, '.', 0);
    if dot == |body| then "" else body[dot + 1..IndexOf(body, '.', dot + 1)]
  }

  /** A decimal as the server sends it; any other text makes the source's parse fail. */
  predicate IsDecimal(rank: string) {
    AllDigits(WholePart(rank)) && AllDigits(FractionPart(rank))
  }

  type Rank = s: string | IsDecimal(s) witness "0"

  function Digit(c: char): nat
    requires IsDigit(c)
  {
    (c as int) - ('0' as int)
  }

  function NatOf(digits: string): nat
    requires AllDigits(digits)
  {
    if digits == "" then 0
    else 10 * NatOf(digits[..|digits| - 1]) + Digit(digits[|digits| - 1])
  }

  function Pow10(n: nat): nat
    ensures Pow10(n) > 0
  {
    if n == 0 then 1 else 10 * Pow10(n - 1)
  }

  /** A rank's digits as one integer, and how many of them are after the point. */
  datatype Decimal = Decimal(units: int, scale: nat)

  function DecimalOf(rank: Rank): Decimal {
    var whole, fraction := WholePart(rank), FractionPart(rank);
    var units: int := NatOf(whole + fraction);
    Decimal(if rank != "" && rank[0] == '-' then -units else units, |fraction|)
  }

  function CompareRank(a: Rank, b: Rank): int {
    if a == b then 0
    else
      var x, y := DecimalOf(a), DecimalOf(b);
      var scale := if x.scale > y.scale then x.scale else y.scale;
      var left := x.units * Pow10(scale - x.scale);
      var right := y.units * Pow10(scale - y.scale);
      if left < right then -1 else if left > right then 1 else 0
  }

  // ------------------------------------------------------------ what a rank is worth

  /** The digits after the point, each worth a tenth of the one before. */
  function FractionValue(digits: string): real
    requires AllDigits(digits)
  {
    if digits == "" then 0.0 else (Digit(digits[0]) as real + FractionValue(digits[1..])) / 10.0
  }

  /** The number a rank writes. */
  function Value(rank: Rank): real {
    var size := NatOf(WholePart(rank)) as real + FractionValue(FractionPart(rank));
    if rank != "" && rank[0] == '-' then -size else size
  }

  lemma ShiftByTen(w: real, x: real, p: real)
    ensures (10.0 * w + x) * p == (w + x / 10.0) * (10.0 * p)
  {
    var y := x / 10.0;
    assert x == 10.0 * y;
    assert (w + y) * (10.0 * p) == 10.0 * ((w + y) * p);
    assert (10.0 * w + 10.0 * y) * p == 10.0 * ((w + y) * p);
  }

  /** Moving one digit over the point. */
  lemma MoveDigit(whole: string, fraction: string)
    requires AllDigits(whole) && AllDigits(fraction) && fraction != ""
    ensures var d := Digit(fraction[0]);
            && NatOf(whole + [fraction[0]]) == 10 * NatOf(whole) + d
            && FractionValue(fraction) == (d as real + FractionValue(fraction[1..])) / 10.0
            && Pow10(|fraction|) == 10 * Pow10(|fraction[1..]|)
  {
    assert (whole + [fraction[0]])[..|whole|] == whole;
  }

  /** Writing a fraction's digits after the whole ones multiplies the number by a power of ten. */
  lemma {:induction false} DigitsAreScaled(whole: string, fraction: string)
    requires AllDigits(whole) && AllDigits(fraction)
    ensures AllDigits(whole + fraction)
    ensures NatOf(whole + fraction) as real
         == (NatOf(whole) as real + FractionValue(fraction)) * (Pow10(|fraction|) as real)
    decreases |fraction|
  {
    if fraction == "" {
      assert whole + fraction == whole;
    } else {
      DigitsAreScaledStep(whole, fraction);
    }
  }

  lemma {:induction false} DigitsAreScaledStep(whole: string, fraction: string)
    requires AllDigits(whole) && AllDigits(fraction) && fraction != ""
    ensures AllDigits(whole + fraction)
    ensures NatOf(whole + fraction) as real
         == (NatOf(whole) as real + FractionValue(fraction)) * (Pow10(|fraction|) as real)
    decreases |fraction|, 0
  {
    hide NatOf, FractionValue, Pow10, Digit;
    var more, rest := whole + [fraction[0]], fraction[1..];
    MoveDigit(whole, fraction);
    DigitsAreScaled(more, rest);
    assert more + rest == whole + fraction;
    ShiftByTen(NatOf(whole) as real, Digit(fraction[0]) as real + FractionValue(rest), Pow10(|rest|) as real);
  }

  lemma UnitsAreScaledValue(rank: Rank)
    ensures DecimalOf(rank).units as real == Value(rank) * (Pow10(DecimalOf(rank).scale) as real)
  {
    hide NatOf, FractionValue, Pow10, WholePart, FractionPart;
    var whole, fraction := WholePart(rank), FractionPart(rank);
    DigitsAreScaled(whole, fraction);
    var size, p := NatOf(whole) as real + FractionValue(fraction), Pow10(|fraction|) as real;
    assert -(size * p) == (-size) * p;
  }

  lemma {:induction false} Pow10Adds(a: nat, b: nat)
    ensures Pow10(a) * Pow10(b) == Pow10(a + b)
  {
    if a > 0 {
      Pow10Adds(a - 1, b);
      assert Pow10(a) * Pow10(b) == 10 * (Pow10(a - 1) * Pow10(b));
    }
  }

  /** Brought to a common scale, a rank's units are its value times one power of ten. */
  lemma AtCommonScale(rank: Rank, scale: nat)
    requires DecimalOf(rank).scale <= scale
    ensures (DecimalOf(rank).units * Pow10(scale - DecimalOf(rank).scale)) as real
         == Value(rank) * (Pow10(scale) as real)
  {
    hide DecimalOf, Value, Pow10;
    var x := DecimalOf(rank);
    UnitsAreScaledValue(rank);
    Pow10Adds(x.scale, scale - x.scale);
    var v, p, q := Value(rank), Pow10(x.scale) as real, Pow10(scale - x.scale) as real;
    assert p * q == Pow10(scale) as real;
    assert (x.units * Pow10(scale - x.scale)) as real == (x.units as real) * q;
    assert (v * p) * q == v * (p * q);
  }

  lemma ScalingKeepsOrder(a: real, b: real, p: real)
    requires p > 0.0
    ensures a < b <==> a * p < b * p
    ensures a == b <==> a * p == b * p
  {
    assert (b - a) * p == b * p - a * p;
  }

  /** Comparing ranks compares the numbers they write, exactly, whatever their scales and signs. */
  lemma CompareRankIsExact(a: Rank, b: Rank)
    ensures CompareRank(a, b) == if Value(a) < Value(b) then -1 else if Value(a) > Value(b) then 1 else 0
  {
    hide DecimalOf, Value, Pow10;
    var x, y := DecimalOf(a), DecimalOf(b);
    var scale := if x.scale > y.scale then x.scale else y.scale;
    AtCommonScale(a, scale);
    AtCommonScale(b, scale);
    ScalingKeepsOrder(Value(a), Value(b), Pow10(scale) as real);
    ScalingKeepsOrder(Value(b), Value(a), Pow10(scale) as real);
  }

  // ------------------------------------------------------------ ids

  /** Ids compare by their first differing character, a prefix first. */
  predicate IdLess(a: string, b: string) {
    if b == "" then false
    else if a == "" then true
    else if a[0] != b[0] then a[0] < b[0]
    else IdLess(a[1..], b[1..])
  }

  lemma {:induction false} IdLessIsTotal(a: string, b: string)
    ensures a == b || IdLess(a, b) || IdLess(b, a)
    ensures !(IdLess(a, b) && IdLess(b, a))
    ensures a == b ==> !IdLess(a, b)
  {
    if a != "" && b != "" && a[0] == b[0] {
      IdLessIsTotal(a[1..], b[1..]);
      assert a == [a[0]] + a[1..] && b == [b[0]] + b[1..];
    }
  }

  lemma {:induction false} IdLessIsTransitive(a: string, b: string, c: string)
    requires IdLess(a, b) && IdLess(b, c)
    ensures IdLess(a, c)
  {
    if a != "" && a[0] == b[0] == c[0] {
      IdLessIsTransitive(a[1..], b[1..], c[1..]);
    }
  }
}
