/** The colour `ProcessFile` derives from a file's raw zero-crossing rate,
    and the comparison `SortSamples` orders colours by. Floating-point
    values are reals; the `(int)` casts truncate toward zero. */
module Colour {
  import opened CArith

  /** A colour's three channels, before packing. */
  datatype Rgb = Rgb(r: int, g: int, b: int)

  predicate InRange(c: Rgb, lo: int, hi: int) {
    lo <= c.r <= hi && lo <= c.g <= hi && lo <= c.b <= hi
  }

  /** The gradient position: three times the raw rate, capped at 1. */
  function Position(rawZcr: real): real {
    if rawZcr * 3.0 > 1.0 then 1.0 else rawZcr * 3.0
  }

  /** The two-segment gradient: from (255,100,100) to (155,255,100) while
      the position is below one half, then on to (55,155,255). */
  function Gradient(rawZcr: real): Rgb {
    var t := Position(rawZcr);
    if t < 0.5 then
      var lt := t * 2.0;
      Rgb(255 - Trunc(lt * 100.0), 100 + Trunc(lt * 155.0), 100)
    else
      var lt := (t - 0.5) * 2.0;
      Rgb(155 - Trunc(lt * 100.0), 255 - Trunc(lt * 100.0), 100 + Trunc(lt * 155.0))
  }

  /** One channel moved halfway toward white, `(c + 255) / 2` in C. */
  function TowardWhite(c: int): int {
    Half(c + 255)
  }

  function Blend(c: Rgb): Rgb {
    Rgb(TowardWhite(c.r), TowardWhite(c.g), TowardWhite(c.b))
  }

  /** The `RGB` macro: each channel cast to a byte, red lowest. */
  function Pack(c: Rgb): int {
    c.r % 256 + 256 * (c.g % 256) + 65536 * (c.b % 256)
  }

  /** The `COLORREF` a sample gets. */
  function SampleColour(rawZcr: real): int {
    Pack(Blend(Gradient(rawZcr)))
  }

  /** The channels of a packed colour. */
  function Red(p: int): int { p % 256 }
  function Green(p: int): int { p / 256 % 256 }
  function Blue(p: int): int { p / 65536 % 256 }

  /** For a non-negative rate the gradient stays within its stops. */
  lemma GradientRange(rawZcr: real)
    requires rawZcr >= 0.0
    ensures var c := Gradient(rawZcr);
      55 <= c.r <= 255 && 100 <= c.g <= 255 && 100 <= c.b <= 255
  {
  }

  /** The gradient's stops: silence, a third of the cap, and past the cap. */
  lemma GradientStops(rawZcr: real)
    ensures rawZcr == 0.0 ==> Gradient(rawZcr) == Rgb(255, 100, 100)
    ensures rawZcr * 6.0 == 1.0 ==> Gradient(rawZcr) == Rgb(155, 255, 100)
    ensures rawZcr * 3.0 >= 1.0 ==> Gradient(rawZcr) == Rgb(55, 155, 255)
  {
  }

  /** The blue channel never falls as the raw rate rises. */
  lemma BlueRisesWithRate(z1: real, z2: real)
    requires 0.0 <= z1 <= z2
    ensures Gradient(z1).b <= Gradient(z2).b
  {
    var t1, t2 := Position(z1), Position(z2);
    assert t1 <= t2;
    if t1 >= 0.5 {
      assert (t1 - 0.5) * 2.0 * 155.0 <= (t2 - 0.5) * 2.0 * 155.0;
    }
  }

  /** Halfway toward white: the channel does not fall, stays a byte, and its
      distance to 255 is halved, rounded up. */
  lemma TowardWhiteHalves(c: int)
    requires 0 <= c <= 255
    ensures c <= TowardWhite(c) <= 255
    ensures 255 - TowardWhite(c) == (256 - c) / 2
  {
  }

  /** Every channel of a sample's colour lies in [155, 255]. */
  lemma SampleColourRange(rawZcr: real)
    requires rawZcr >= 0.0
    ensures InRange(Blend(Gradient(rawZcr)), 155, 255)
  {
    GradientRange(rawZcr);
  }

  /** Packing loses nothing for byte channels. */
  lemma {:induction false} PackRoundTrip(c: Rgb)
    requires InRange(c, 0, 255)
    ensures Red(Pack(c)) == c.r && Green(Pack(c)) == c.g && Blue(Pack(c)) == c.b
    ensures 0 <= Pack(c) < 0x100_0000
  {
    PackExact(c);
    var p, gb, rg := Pack(c), c.g + 256 * c.b, c.r + 256 * c.g;
    assert p == c.r + 256 * gb && p == rg + 65536 * c.b;
    Digits(p, c.r, gb);
    Digits(gb, c.g, c.b);
    Digits(c.b, c.b, 0);
    LowAndHigh(p, rg, c.b);
  }

  /** The base-256 digit split of `v == lo + 256 * hi`. */
  lemma Digits(v: int, lo: int, hi: int)
    requires 0 <= lo < 256 && v == lo + 256 * hi
    ensures v % 256 == lo && v / 256 == hi
  {
  }

  /** The base-65536 split of `v == lo + 65536 * hi`. */
  lemma LowAndHigh(v: int, lo: int, hi: int)
    requires 0 <= lo < 65536 && v == lo + 65536 * hi
    ensures v / 65536 == hi
  {
  }

  /** Numeric order of packed colours is the order of (blue, green, red). */
  lemma {:induction false} PackOrder(x: Rgb, y: Rgb)
    requires InRange(x, 0, 255) && InRange(y, 0, 255)
    ensures Pack(x) < Pack(y) <==>
      x.b < y.b || (x.b == y.b && (x.g < y.g || (x.g == y.g && x.r < y.r)))
  {
    PackExact(x);
    PackExact(y);
  }

  lemma PackExact(c: Rgb)
    requires InRange(c, 0, 255)
    ensures Pack(c) == c.r + 256 * c.g + 65536 * c.b
  {
    assert c.r % 256 == c.r && c.g % 256 == c.g && c.b % 256 == c.b;
  }

  /** `CompareSamplesColor` on the two colours. */
  function Compare(x: int, y: int): (r: int)
    ensures r == -1 || r == 0 || r == 1
  {
    if x < y then -1 else if x > y then 1 else 0
  }

  /** The comparison is a total preorder, as `qsort` needs: it agrees with
      `<=`, and swapping the arguments negates it. */
  lemma CompareIsTotalOrder(x: int, y: int, z: int)
    ensures Compare(x, y) <= 0 <==> x <= y
    ensures Compare(x, y) == -Compare(y, x)
    ensures Compare(x, y) <= 0 && Compare(y, z) <= 0 ==> Compare(x, z) <= 0
  {
  }
}
