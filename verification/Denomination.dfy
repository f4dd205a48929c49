/** Converting coin amounts to a chain's display unit, on 18-decimal fixed point numbers. */
module Denomination {
  import opened Wrappers

  /** A decimal, counted in units of 10^-18. */
  type Dec = int

  function Pow10(n: nat): (r: int)
    ensures r > 0
  {
    if n == 0 then 1 else 10 * Pow10(n - 1)
  }

  const ONE: Dec := 1_000_000_000_000_000_000

  function Abs(x: int): nat {
    if x < 0 then -x else x
  }

  /** n/d to the nearest integer, halves to even; n >= 0. */
  function HalfEven(n: nat, d: int): nat
    requires d > 0
  {
    var q, r := n / d, n % d;
    if 2 * r < d then q
    else if 2 * r > d then q + 1
    else if q % 2 == 0 then q
    else q + 1
  }

  function Signed(negative: bool, n: nat): int {
    if negative then -(n as int) else n
  }

  /** Dropping 18 decimals, rounding the magnitude half to even. */
  function Chop(x: int): int {
    Signed(x < 0, HalfEven(Abs(x), ONE))
  }

  /** Integer division that truncates towards zero. */
  function TruncDiv(a: int, b: int): int
    requires b > 0
  {
    Signed(a < 0, Abs(a) / b)
  }

  /** Quotient of decimals: scale twice, divide with truncation, then chop. */
  function Quo(a: Dec, b: Dec): Dec
    requires b > 0
  {
    Chop(TruncDiv(a * ONE * ONE, b))
  }

  function Mul(a: Dec, b: Dec): Dec {
    Chop(a * b)
  }

  datatype Coin = Coin(denom: string, amount: Dec)

  datatype Unit = Unit(denom: string, exponent: nat)

  datatype Metadata = Metadata(base: string, display: string, units: seq<Unit>)

  /** The exponent of the first unit with the name. */
  function ExponentOf(units: seq<Unit>, denom: string): Option<nat> {
    if units == [] then None
    else if units[0].denom == denom then Some(units[0].exponent)
    else ExponentOf(units[1..], denom)
  }

  function DisplayDenom(m: Metadata): string {
    if m.display == "" then m.base else m.display
  }

  /** One coin, into a display unit of the given exponent. */
  function ConvertCoin(c: Coin, m: Metadata, displayExponent: nat): Coin {
    if c.denom == DisplayDenom(m) then c
    else
      match ExponentOf(m.units, c.denom)
      case None => c
      case Some(e) =>
        if e < displayExponent then Coin(DisplayDenom(m), Quo(c.amount, ONE * Pow10(displayExponent - e)))
        else Coin(DisplayDenom(m), Mul(c.amount, ONE * Pow10(e - displayExponent)))
  }

  function ConvertAll(coins: seq<Coin>, m: Metadata): Option<seq<Coin>> {
    match ExponentOf(m.units, DisplayDenom(m))
    case None => None
    case Some(e) => Some(seq(|coins|, i requires 0 <= i < |coins| => ConvertCoin(coins[i], m, e)))
  }

  method FindExponent(units: seq<Unit>, denom: string) returns (e: nat, found: bool)
    ensures found <==> ExponentOf(units, denom).Some?
    ensures found ==> ExponentOf(units, denom) == Some(e)
  {
    e, found := 0, false;
    for i := 0 to |units|
      invariant !found && ExponentOf(units, denom) == ExponentOf(units[i..], denom)
    {
      if units[i].denom == denom {
        return units[i].exponent, true;
      }
      assert units[i..][1..] == units[i + 1..];
    }
  }

  /** Ten to the n as a decimal, by repeated multiplication. */
  method PowerOfTen(n: nat) returns (d: Dec)
    ensures d == ONE * Pow10(n)
  {
    d := ONE;
    for i := 0 to n
      invariant d == ONE * Pow10(i)
    {
      d := d * 10;
    }
  }

  method ConvertDecCoinToDisplayUnit(coins: seq<Coin>, metadata: Metadata) returns (r: Option<seq<Coin>>)
    ensures r == ConvertAll(coins, metadata)
  {
    hide Quo, Mul, Pow10;
    var displayDenom := if metadata.display == "" then metadata.base else metadata.display;
    var displayExponent, found := FindExponent(metadata.units, displayDenom);
    if !found {
      return None;
    }
    var converted: seq<Coin> := [];
    for i := 0 to |coins|
      invariant |converted| == i
      invariant forall k | 0 <= k < i :: converted[k] == ConvertCoin(coins[k], metadata, displayExponent)
    {
      var coin := coins[i];
      if coin.denom == displayDenom {
        converted := converted + [coin];
        continue;
      }
      var currentExponent, known := FindExponent(metadata.units, coin.denom);
      if !known {
        converted := converted + [coin];
        continue;
      }
      var amount: Dec;
      if currentExponent < displayExponent {
        var divisor := PowerOfTen(displayExponent - currentExponent);
        PositivePower(displayExponent - currentExponent);
        amount := Quo(coin.amount, divisor);
      } else {
        var multiplier := PowerOfTen(currentExponent - displayExponent);
        amount := Mul(coin.amount, multiplier);
      }
      converted := converted + [Coin(displayDenom, amount)];
    }
    assert converted == ConvertAll(coins, metadata).value;
    return Some(converted);
  }

  lemma PositivePower(n: nat)
    ensures ONE * Pow10(n) > 0
  {
  }

  // ---------------------------------------------------------------------------

  /** Length and order are kept, a coin's name changes only to the display name, and
      converting a second time changes nothing. */
  lemma ConversionIsIdempotent(coins: seq<Coin>, m: Metadata)
    requires ConvertAll(coins, m).Some?
    ensures var once := ConvertAll(coins, m).value;
      && |once| == |coins|
      && (forall i | 0 <= i < |coins| :: once[i] == coins[i] || once[i].denom == DisplayDenom(m))
      && ConvertAll(once, m) == Some(once)
  {
    hide Quo, Mul;
    var once := ConvertAll(coins, m).value;
    assert ConvertAll(once, m).value == once;
  }

  /** Whether conversion is possible depends on the metadata alone. */
  lemma ConversionFailsOnlyOnMetadata(coins: seq<Coin>, m: Metadata)
    ensures ConvertAll(coins, m).Some? <==> exists u | u in m.units :: u.denom == DisplayDenom(m)
  {
    HasExponent(m.units, DisplayDenom(m));
  }

  lemma {:induction false} HasExponent(units: seq<Unit>, denom: string)
    ensures ExponentOf(units, denom).Some? <==> exists u | u in units :: u.denom == denom
  {
    if units != [] {
      HasExponent(units[1..], denom);
      assert units == [units[0]] + units[1..];
    }
  }

  // ---------------------------------------------------------------------------
  // Rounding
  // ---------------------------------------------------------------------------

  /** The nearest whole number, and of two equally near ones the even one. */
  lemma HalfEvenIsNearest(n: nat, d: int)
    requires d > 0
    ensures -d <= 2 * (HalfEven(n, d) * d - n) <= d
    ensures 2 * (HalfEven(n, d) * d - n) == d || 2 * (HalfEven(n, d) * d - n) == -d ==> HalfEven(n, d) % 2 == 0
  {
    var q, r := n / d, n % d;
    assert n == q * d + r;
    assert (q + 1) * d == q * d + d;
  }

  /** Scaling both sides of a rounded division changes nothing. */
  lemma HalfEvenScales(n: nat, d: int, s: int)
    requires d > 0 && s > 0
    ensures n * s >= 0 && d * s > 0 && HalfEven(n * s, d * s) == HalfEven(n, d)
  {
    var q, r := n / d, n % d;
    assert n == q * d + r && 0 <= r < d;
    ScaledDivision(n, d, s, q, r);
    ScaleCompare(2 * r, d, s);
    assert 2 * (r * s) == (2 * r) * s;
  }

  lemma ScaleCompare(a: int, b: int, s: int)
    requires s > 0
    ensures (a < b <==> a * s < b * s) && (a > b <==> a * s > b * s)
  {
  }

  lemma ScaledDivision(n: nat, d: int, s: int, q: int, r: int)
    requires d > 0 && s > 0 && n == q * d + r && 0 <= r < d
    ensures n * s >= 0 && d * s > 0 && (n * s) / (d * s) == q && (n * s) % (d * s) == r * s
  {
    assert n * s == q * (d * s) + r * s;
    assert 0 <= r * s < d * s;
    DivisionIsUnique(n * s, d * s, q, r * s);
  }

  lemma AtLeast(x: int, d: int)
    requires x >= 1 && d > 0
    ensures x * d >= d
  {
  }

  lemma DivisionIsUnique(n: int, d: int, q: int, r: int)
    requires d > 0 && n == q * d + r && 0 <= r < d
    ensures n / d == q && n % d == r
  {
    var q2, r2 := n / d, n % d;
    Distribute(q, q2, d);
    if q > q2 {
      AtLeast(q - q2, d);
    } else if q < q2 {
      AtLeast(q2 - q, d);
    }
  }

  lemma Distribute(a: int, b: int, d: int)
    ensures (a - b) * d == a * d - b * d && (b - a) * d == b * d - a * d
  {
  }

  /** Powers of ten up to 18 divide one. */
  lemma {:induction false} PowerDivides(k: nat)
    requires k <= 18
    ensures Pow10(k) * Pow10(18 - k) == ONE
  {
    if k > 0 {
      PowerDivides(k - 1);
      assert Pow10(18 - (k - 1)) == 10 * Pow10(18 - k);
      Regroup(Pow10(k - 1), Pow10(18 - k));
    } else {
      OneIsPower();
    }
  }

  lemma Regroup(a: int, b: int)
    ensures (10 * a) * b == a * (10 * b)
  {
  }

  lemma OneIsPower()
    ensures Pow10(18) == ONE
  {
    assert Pow10(3) == 1000;
    assert Pow10(6) == 1000 * 1000;
    assert Pow10(9) == 1_000_000_000;
    assert Pow10(12) == 1_000_000_000_000;
    assert Pow10(15) == 1_000_000_000_000_000;
  }

  /** Scaling down by 10^k, k at most 18, is one half-even rounding of the exact quotient. */
  lemma QuoIsOneRounding(a: Dec, k: nat)
    requires k <= 18
    ensures ONE * Pow10(k) > 0
    ensures Quo(a, ONE * Pow10(k)) == Signed(a < 0, HalfEven(Abs(a), Pow10(k)))
  {
    var p, r, m := Pow10(k), Pow10(18 - k), Abs(a);
    PowerDivides(k);
    PositivePower(k);
    hide HalfEven;
    var d := ONE * p;
    Magnitude(a);
    assert m * ONE * ONE == (m * r) * d by { Rearrange(m, r, p); }
    DivisionIsUnique(m * ONE * ONE, d, m * r, 0);
    HalfEvenScales(m, p, r);
    assert Abs(a * ONE * ONE) == m * ONE * ONE;
    SignOfScaled(a, r);
  }

  lemma Rearrange(m: int, r: int, p: int)
    requires p * r == ONE
    ensures m * ONE * ONE == (m * r) * (ONE * p)
  {
    assert (m * r) * (ONE * p) == m * ONE * (p * r);
  }

  lemma Magnitude(a: int)
    ensures Abs(a * ONE * ONE) == Abs(a) * ONE * ONE && (a * ONE * ONE < 0 <==> a < 0)
  {
  }

  lemma SignOfScaled(a: int, r: int)
    requires r > 0
    ensures Signed(a < 0, Abs(a) * r) == a * r && (a * r < 0 <==> a < 0) && Abs(a * r) == Abs(a) * r && Abs(a) * r >= 0
  {
  }

  /** Scaling up is exact. */
  lemma MulIsExact(a: Dec, k: nat)
    ensures Mul(a, ONE * Pow10(k)) == a * Pow10(k)
  {
    var p := Pow10(k);
    assert a * (ONE * p) == (a * p) * ONE;
    var x := a * p;
    assert Abs(x * ONE) == Abs(x) * ONE && (x * ONE < 0 <==> x < 0);
    assert HalfEven(Abs(x) * ONE, ONE) == Abs(x);
  }

  function Total(coins: seq<Coin>): Dec {
    if coins == [] then 0 else Total(coins[..|coins| - 1]) + coins[|coins| - 1].amount
  }

  /** All coins are known to the metadata and k decimals below the display unit. */
  ghost predicate AllBelow(coins: seq<Coin>, m: Metadata, k: nat) {
    exists e :: ExponentOf(m.units, DisplayDenom(m)) == Some(e)
      && forall c | c in coins :: c.denom != DisplayDenom(m) && ExponentOf(m.units, c.denom).Some?
           && ExponentOf(m.units, c.denom).value + k == e
  }

  /** total, scaled up by p, is within n * p / 2 of the original. */
  ghost predicate Within(total: Dec, original: Dec, n: nat, p: int) {
    -(n * p) <= 2 * (total * p - original) <= n * p
  }

  lemma OneCoin(c: Coin, m: Metadata, e: nat, k: nat)
    requires k <= 18 && c.denom != DisplayDenom(m)
    requires ExponentOf(m.units, c.denom).Some? && ExponentOf(m.units, c.denom).value + k == e
    ensures Within(ConvertCoin(c, m, e).amount, c.amount, 1, Pow10(k))
  {
    hide HalfEven;
    if k == 0 {
      MulIsExact(c.amount, 0);
    } else {
      QuoIsOneRounding(c.amount, k);
      SignedIsNearest(c.amount, Pow10(k));
    }
    hide Quo, Mul;
  }

  /** n coins scaled down by 10^k, k at most 18: the total of the converted amounts, scaled
      back up, is within n * 10^k / 2 of the total of the originals. */
  lemma {:induction false} TotalIsClose(coins: seq<Coin>, m: Metadata, k: nat)
    requires k <= 18 && AllBelow(coins, m, k)
    ensures ConvertAll(coins, m).Some?
    ensures Within(Total(ConvertAll(coins, m).value), Total(coins), |coins|, Pow10(k))
  {
    hide ConvertCoin, Pow10, ExponentOf, Within;
    if coins == [] {
      NothingIsClose(Pow10(k));
    } else {
      var n := |coins| - 1;
      var e :| ExponentOf(m.units, DisplayDenom(m)) == Some(e)
        && forall c | c in coins :: c.denom != DisplayDenom(m) && ExponentOf(m.units, c.denom).Some?
             && ExponentOf(m.units, c.denom).value + k == e;
      assert AllBelow(coins[..n], m, k);
      TotalIsClose(coins[..n], m, k);
      OneCoin(coins[n], m, e, k);
      var all := ConvertAll(coins, m).value;
      assert all[..n] == ConvertAll(coins[..n], m).value;
      SumUp(Total(all[..n]), Total(coins[..n]), n, all[n].amount, coins[n].amount, Pow10(k));
    }
  }

  lemma NothingIsClose(p: int)
    ensures Within(0, 0, 0, p)
  {
  }

  lemma SumUp(t: int, u: int, n: nat, a: int, b: int, p: int)
    requires Within(t, u, n, p) && Within(a, b, 1, p)
    ensures Within(t + a, u + b, n + 1, p)
  {
    assert (t + a) * p == t * p + a * p && (n + 1) * p == n * p + p;
  }

  /** Unit j is the first with the name. */
  ghost predicate FirstUnit(units: seq<Unit>, denom: string, j: nat) {
    j < |units| && units[j].denom == denom && forall i | 0 <= i < j :: units[i].denom != denom
  }

  lemma {:induction false} ExponentOfFirst(units: seq<Unit>, denom: string, j: nat)
    requires FirstUnit(units, denom, j)
    ensures ExponentOf(units, denom) == Some(units[j].exponent)
  {
    if j > 0 {
      ExponentOfFirst(units[1..], denom, j - 1);
    }
  }

  /** x is a/p to the nearest whole number, a tie going to the even one. */
  ghost predicate Nearest(a: int, p: int, x: int) {
    && -p <= 2 * (x * p - a) <= p
    && (2 * (x * p - a) == p || 2 * (x * p - a) == -p ==> x % 2 == 0)
  }

  /** What the metadata's units make of one coin: in the display unit, or of no listed unit, it
      stays as it is; any other becomes an amount of the display unit, exact when its own unit
      is no smaller and otherwise the nearest decimal, up to 18 places. */
  ghost predicate ByUnit(c: Coin, r: Coin, units: seq<Unit>, display: string, f: nat) {
    if c.denom == display || forall u | u in units :: u.denom != c.denom then r == c
    else
      && r.denom == display
      && forall j: nat | FirstUnit(units, c.denom, j) ::
           var e := units[j].exponent;
           && (e >= f ==> r.amount == c.amount * Pow10(e - f))
           && (e < f <= e + 18 ==> Nearest(c.amount, Pow10(f - e), r.amount))
  }

  /** Every coin is converted by its unit; the display unit is the base where none is named. */
  lemma CoinsConvertByUnit(coins: seq<Coin>, m: Metadata, d: nat)
    requires FirstUnit(m.units, if m.display != "" then m.display else m.base, d)
    ensures ConvertAll(coins, m).Some?
    ensures var display, converted := if m.display != "" then m.display else m.base, ConvertAll(coins, m).value;
      forall i | 0 <= i < |coins| :: ByUnit(coins[i], converted[i], m.units, display, m.units[d].exponent)
  {
    hide ConvertCoin, ByUnit;
    var display := if m.display != "" then m.display else m.base;
    ExponentOfFirst(m.units, display, d);
    forall i | 0 <= i < |coins|
      ensures ByUnit(coins[i], ConvertAll(coins, m).value[i], m.units, display, m.units[d].exponent)
    {
      CoinByUnit(coins[i], m, m.units[d].exponent);
    }
  }

  lemma CoinByUnit(c: Coin, m: Metadata, f: nat)
    ensures ByUnit(c, ConvertCoin(c, m, f), m.units, if m.display != "" then m.display else m.base, f)
  {
    hide ConvertCoin, Nearest, Pow10;
    HasExponent(m.units, c.denom);
    OtherCoin(c, m, f);
    forall j: nat | FirstUnit(m.units, c.denom, j)
      ensures ExponentOf(m.units, c.denom) == Some(m.units[j].exponent)
    {
      ExponentOfFirst(m.units, c.denom, j);
    }
    hide ExponentOf;
  }

  lemma OtherCoin(c: Coin, m: Metadata, f: nat)
    ensures var r := ConvertCoin(c, m, f);
      if c.denom == DisplayDenom(m) || ExponentOf(m.units, c.denom).None? then r == c
      else
        var e := ExponentOf(m.units, c.denom).value;
        && r.denom == DisplayDenom(m)
        && (e >= f ==> r.amount == c.amount * Pow10(e - f))
        && (e < f <= e + 18 ==> Nearest(c.amount, Pow10(f - e), r.amount))
  {
    if c.denom != DisplayDenom(m) && ExponentOf(m.units, c.denom).Some? {
      var e := ExponentOf(m.units, c.denom).value;
      if e >= f {
        MulIsExact(c.amount, e - f);
      } else if f <= e + 18 {
        QuoIsOneRounding(c.amount, f - e);
        SignedIsNearest(c.amount, Pow10(f - e));
      }
    }
  }

  lemma SignedIsNearest(a: int, p: int)
    requires p > 0
    ensures Nearest(a, p, Signed(a < 0, HalfEven(Abs(a), p)))
  {
    HalfEvenIsNearest(Abs(a), p);
    var n := HalfEven(Abs(a), p);
    hide HalfEven;
    assert (-n) * p == -(n * p);
  }
}
