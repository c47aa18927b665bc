/** Heights packed into the three bytes of a pixel, and unpacked again. */
module Terrain {
  import opened Archive

  /** Metres, or nothing where there is no data. */
  type Height = Option<real>

  /** What each channel is worth, and what is taken off their sum. */
  datatype Factors = Factors(red: real, green: real, blue: real, shift: real) {
    predicate Positive() {
      red > 0.0 && green > 0.0 && blue > 0.0
    }

    function Least(): (m: real)
      ensures Positive() ==> m > 0.0
    {
      var m := if red < green then red else green;
      if m < blue then m else blue
    }
  }

  datatype Encoding =
    | Mapbox(baseVal: Option<real>, interval: Option<real>)
    | Terrarium
    | Custom(factors: Factors)
  {
    predicate Valid() {
      match this
      case Mapbox(_, interval) => interval.Some? ==> interval.value > 0.0
      case Terrarium => true
      case Custom(f) => f.Positive()
    }
  }

  function FactorsOf(e: Encoding): (f: Factors)
    ensures e.Valid() ==> f.Positive()
  {
    match e
    case Terrarium => Factors(256.0, 1.0, 1.0 / 256.0, 32768.0)
    case Custom(f) => f
    case Mapbox(baseVal, interval) =>
      var step := if interval.Some? then interval.value else 0.1;
      Factors(65536.0 * step, 256.0 * step, step, -(if baseVal.Some? then baseVal.value else -10000.0))
  }

  datatype Pixel = Pixel(r: Byte, g: Byte, b: Byte)

  function Unpacked(f: Factors, p: Pixel): real {
    p.r as real * f.red + p.g as real * f.green + p.b as real * f.blue - f.shift
  }

  function Round(v: real): int {
    (v + 0.5).Floor
  }

  function Low(n: int): Byte {
    (n % 256) as Byte
  }

  /** The most that is written, in the smallest factor's steps. */
  function Ceiling(f: Factors): int
    requires f.Positive()
  {
    Round(16777215.0 * (f.blue / f.Least()))
  }

  /** A height in those steps, kept within what can be written. */
  function Steps(f: Factors, metres: real): int
    requires f.Positive()
  {
    var scaled := Round((metres + f.shift) / f.Least());
    var atLeast := if scaled < 0 then 0 else scaled;
    if atLeast > Ceiling(f) then Ceiling(f) else atLeast
  }

  /** Some steps, in another channel's. */
  function Scaled(steps: int, least: real, factor: real): int
    requires factor > 0.0
  {
    Ratio(steps as real, least, factor).Floor
  }

  function Ratio(n: real, least: real, factor: real): real
    requires factor > 0.0
  {
    n * least / factor
  }

  function Share(f: Factors, steps: int, factor: real): Byte
    requires f.Positive() && factor > 0.0
  {
    Low(Scaled(steps, f.Least(), factor))
  }

  /** A height as a pixel; no data is written as black. */
  function Packed(f: Factors, h: Height): Pixel
    requires f.Positive()
  {
    if h.None? then Pixel(0, 0, 0)
    else
      var n := Steps(f, h.value);
      Pixel(Share(f, n, f.red), Share(f, n, f.green), Share(f, n, f.blue))
  }

  /** Each channel is worth 256 of the next, as in both named encodings. */
  predicate IsPlaceValue(f: Factors) {
    f.blue > 0.0 && f.green == 256.0 * f.blue && f.red == 256.0 * f.green
  }

  lemma NamedArePlaceValue(e: Encoding)
    requires e.Valid() && !e.Custom?
    ensures IsPlaceValue(FactorsOf(e)) && FactorsOf(e).Positive()
  {
  }

  /** The pixel one further on, of those that are not the last. */
  function After(p: Pixel): Pixel
    requires p != Pixel(255, 255, 255)
  {
    if p.b < 255 then Pixel(p.r, p.g, p.b + 1)
    else if p.g < 255 then Pixel(p.r, p.g + 1, 0)
    else Pixel(p.r + 1, 0, 0)
  }

  /**
   What the named encodings write: Mapbox from its base up by its interval, which are 10 000 metres down and a
   tenth of a metre unless they are given; Terrarium by a 256th of a metre, with the sea half way.
   */
  lemma NamedEncodings(baseVal: Option<real>, interval: Option<real>, p: Pixel)
    ensures var mapbox, black := FactorsOf(Mapbox(baseVal, interval)), Pixel(0, 0, 0);
            && (baseVal.Some? ==> Unpacked(mapbox, black) == baseVal.value)
            && (baseVal.None? ==> Unpacked(mapbox, black) == -10000.0)
            && (p != Pixel(255, 255, 255) ==>
                Unpacked(mapbox, After(p)) == Unpacked(mapbox, p) + if interval.Some? then interval.value else 0.1)
    ensures Unpacked(FactorsOf(Terrarium), Pixel(128, 0, 0)) == 0.0
    ensures p != Pixel(255, 255, 255) ==>
              (Unpacked(FactorsOf(Terrarium), After(p)) - Unpacked(FactorsOf(Terrarium), p)) * 256.0 == 1.0
  {
  }

  /** A pixel as one number. */
  function Number(p: Pixel): (n: nat)
    ensures n <= 16777215
  {
    p.r as int * 65536 + p.g as int * 256 + p.b as int
  }

  lemma UnpackedIsNumber(f: Factors, p: Pixel)
    requires IsPlaceValue(f)
    ensures Unpacked(f, p) == Number(p) as real * f.blue - f.shift
  {
  }

  lemma Regroups(a: real, b: real, c: real)
    ensures a * (b * c) == a * b * c
  {
  }

  lemma ScaledQuotient(n: real, m: real, factor: real, d: real) returns (q: real)
    requires m > 0.0 && d > 0.0 && factor == d * m
    ensures factor > 0.0 && q == Ratio(n, m, factor) && q * d == n
  {
    assert d * m > 0.0;
    q := Ratio(n, m, factor);
    assert q * factor == n * m;
    assert q * (d * m) == n * m;
    Regroups(q, d, m);
    SameFactor(q * d, n, m);
  }

  lemma FloorIs(q: real, k: int)
    requires k as real <= q < k as real + 1.0
    ensures q.Floor == k
  {
  }

  lemma ProductIsReal(k: nat, d: nat)
    ensures (k * d) as real == k as real * d as real
  {
  }

  lemma OneMoreTimes(k: real, d: real)
    ensures (k + 1.0) * d == k * d + d
  {
  }

  lemma Divides(n: nat, d: nat)
    requires d > 0
    ensures n / d * d <= n < n / d * d + d
  {
  }

  lemma Between(low: real, q: real, scale: real, m: real)
    requires scale > 0.0 && q * scale == m && low * scale <= m < low * scale + scale
    ensures low <= q < low + 1.0
  {
    OneMoreTimes(low, scale);
    LessBy(low, q, scale);
    LessBy(q, low + 1.0, scale);
  }

  lemma FloorOfQuotient(n: nat, d: nat, q: real)
    requires d > 0 && q * d as real == n as real
    ensures q.Floor == n / d
  {
    var k, scale := n / d, d as real;
    Divides(n, d);
    ProductIsReal(k, d);
    Between(k as real, q, scale, n as real);
    FloorIs(q, k);
  }

  lemma QuotientIs(n: nat, m: real, factor: real, d: nat)
    requires m > 0.0 && d > 0 && factor == d as real * m
    ensures factor > 0.0 && Scaled(n, m, factor) == n / d
  {
    hide Ratio;
    var q := ScaledQuotient(n as real, m, factor, d as real);
    FloorOfQuotient(n, d, q);
  }

  lemma SameFactor(a: real, b: real, m: real)
    requires m > 0.0 && a * m == b * m
    ensures a == b
  {
    assert (a - b) * m == 0.0;
  }

  lemma LessBy(a: real, b: real, d: real)
    requires d > 0.0
    ensures a * d <= b * d <==> a <= b
    ensures a * d < b * d <==> a < b
  {
    if a < b {
      assert (b - a) * d > 0.0;
    } else if b < a {
      assert (a - b) * d > 0.0;
    }
  }

  /** A number's digits, as bytes. */
  function Digits(n: nat): Pixel
    requires n <= 16777215
  {
    Pixel(Low(n / 65536), Low(n / 256), Low(n))
  }

  lemma DigitsAreTheNumber(n: nat)
    requires n <= 16777215
    ensures Number(Digits(n)) == n
  {
  }

  lemma NumberHasItsDigits(p: Pixel)
    ensures Digits(Number(p)) == p
  {
    var n := Number(p);
    assert n / 65536 == p.r as int && n / 256 == p.r as int * 256 + p.g as int;
  }

  lemma CeilingIs(f: Factors)
    requires IsPlaceValue(f)
    ensures f.Positive() && f.Least() == f.blue && Ceiling(f) == 16777215
  {
    assert f.blue / f.blue == 1.0;
  }

  lemma ShareIs(f: Factors, n: nat, factor: real, d: nat)
    requires f.Positive() && IsPlaceValue(f) && d > 0 && factor == d as real * f.blue
    ensures factor > 0.0 && Share(f, n, factor) == Low(n / d)
  {
    LeastIsBlue(f);
    QuotientIs(n, f.Least(), factor, d);
  }

  lemma LeastIsBlue(f: Factors)
    requires IsPlaceValue(f)
    ensures f.Positive() && f.Least() == f.blue && f.red == 65536.0 * f.blue && f.green == 256.0 * f.blue &&
            f.blue == 1.0 * f.blue
  {
  }

  lemma StepsInRange(f: Factors, metres: real)
    requires IsPlaceValue(f) && f.Positive()
    ensures 0 <= Steps(f, metres) <= 16777215
  {
    CeilingIs(f);
  }

  lemma PackedIs(f: Factors, metres: real)
    requires f.Positive()
    ensures var n := Steps(f, metres);
            Packed(f, Some(metres)) == Pixel(Share(f, n, f.red), Share(f, n, f.green), Share(f, n, f.blue))
  {
    hide Steps, Share;
  }

  /** With place values, packing writes the digits of the height in steps. */
  lemma PackedAreDigits(f: Factors, metres: real)
    requires IsPlaceValue(f) && f.Positive()
    ensures 0 <= Steps(f, metres) <= 16777215 && Packed(f, Some(metres)) == Digits(Steps(f, metres))
  {
    hide Packed, Steps, Share, Ceiling, IsPlaceValue, Factors.Least;
    StepsInRange(f, metres);
    LeastIsBlue(f);
    var n := Steps(f, metres);
    ShareIs(f, n, f.red, 65536);
    ShareIs(f, n, f.green, 256);
    ShareIs(f, n, f.blue, 1);
    PackedIs(f, metres);
  }

  lemma StepsOfNumber(f: Factors, n: nat)
    requires IsPlaceValue(f) && n <= 16777215
    ensures f.Positive() && Steps(f, n as real * f.blue - f.shift) == n
  {
    CeilingIs(f);
    var metres := n as real * f.blue - f.shift;
    assert metres + f.shift == n as real * f.blue;
    var q := ScaledQuotient(n as real, f.blue, f.blue, 1.0);
    assert (metres + f.shift) / f.Least() == n as real;
    assert Round(n as real) == n;
  }

  /** What is unpacked from a pixel packs into that pixel again. */
  lemma PixelsSurvive(e: Encoding, p: Pixel)
    requires e.Valid() && !e.Custom?
    ensures Packed(FactorsOf(e), Some(Unpacked(FactorsOf(e), p))) == p
  {
    hide *;
    var f := FactorsOf(e);
    NamedArePlaceValue(e);
    UnpackedIsNumber(f, p);
    PackedAreDigits(f, Unpacked(f, p));
    StepsOfNumber(f, Number(p));
    NumberHasItsDigits(p);
  }

  function Gap(a: real, b: real): real {
    if a < b then b - a else a - b
  }

  function Kept(r: int, most: nat): nat {
    if r < 0 then 0 else if r > most then most else r
  }

  lemma RoundedIsNearest(v: real, other: int)
    ensures Gap(Round(v) as real, v) <= Gap(other as real, v)
  {
    var r := Round(v);
    assert r as real <= v + 0.5 < r as real + 1.0;
    if other < r {
      assert other as real <= r as real - 1.0;
    } else if r < other {
      assert other as real >= r as real + 1.0;
    }
  }

  /** Rounded and clamped is nearest of all that can be written. */
  lemma ClampedIsNearest(v: real, most: nat, other: nat)
    requires other <= most
    ensures Gap(Kept(Round(v), most) as real, v) <= Gap(other as real, v)
  {
    var r := Round(v);
    assert r as real <= v + 0.5 < r as real + 1.0;
    if r < 0 {
      assert v < 0.0;
    } else if r > most {
      assert most as real + 1.0 <= r as real;
      assert v >= most as real;
    } else {
      RoundedIsNearest(v, other);
    }
  }

  lemma GapScales(a: real, b: real, m: real)
    requires m > 0.0
    ensures Gap(a * m, b * m) == Gap(a, b) * m
  {
    LessBy(a, b, m);
    assert (b - a) * m == b * m - a * m;
  }

  /** A height is written as the nearest height three bytes can hold, whether or not it is within their range. */
  lemma WrittenIsNearest(e: Encoding, metres: real, other: Pixel)
    requires e.Valid() && !e.Custom?
    ensures var f := FactorsOf(e);
            Gap(Unpacked(f, Packed(f, Some(metres))), metres) <= Gap(Unpacked(f, other), metres)
  {
    hide *;
    var f := FactorsOf(e);
    NamedArePlaceValue(e);
    PositiveBlue(f);
    PackedAreDigits(f, metres);
    var n, v := Steps(f, metres), (metres + f.shift) / f.blue;
    StepsAre(f, metres);
    DigitsAreTheNumber(n);
    UnpackedIsNumber(f, Digits(n));
    UnpackedIsNumber(f, other);
    ClampedIsNearest(v, 16777215, Number(other));
    AwayBy(Unpacked(f, Digits(n)), n as real, v, f.blue, f.shift, metres);
    AwayBy(Unpacked(f, other), Number(other) as real, v, f.blue, f.shift, metres);
    LessBy(Gap(n as real, v), Gap(Number(other) as real, v), f.blue);
  }

  lemma PositiveBlue(f: Factors)
    requires IsPlaceValue(f)
    ensures f.blue > 0.0
  {
  }

  lemma StepsAre(f: Factors, metres: real)
    requires IsPlaceValue(f) && f.Positive()
    ensures f.blue > 0.0 && Steps(f, metres) == Kept(Round((metres + f.shift) / f.blue), 16777215)
  {
    CeilingIs(f);
  }

  /** How far a number of steps is from a height. */
  lemma AwayBy(at: real, n: real, v: real, m: real, shift: real, metres: real)
    requires m > 0.0 && v == (metres + shift) / m && at == n * m - shift
    ensures Gap(at, metres) == Gap(n, v) * m
  {
    assert v * m == metres + shift;
    GapScales(n, v, m);
    GapShifts(n * m, v * m, shift);
  }

  lemma GapShifts(a: real, b: real, shift: real)
    ensures Gap(a - shift, b - shift) == Gap(a, b)
  {
  }

  /** Within the range, that is within half a step. */
  lemma HeightsSurvive(e: Encoding, metres: real)
    requires e.Valid() && !e.Custom?
    requires var f := FactorsOf(e); 0.0 <= metres + f.shift <= 16777215.0 * f.blue
    ensures var f := FactorsOf(e); Gap(Unpacked(f, Packed(f, Some(metres))), metres) <= f.blue / 2.0
  {
    hide *;
    var f := FactorsOf(e);
    NamedArePlaceValue(e);
    PositiveBlue(f);
    PackedAreDigits(f, metres);
    var n, v := Steps(f, metres), (metres + f.shift) / f.blue;
    StepsAre(f, metres);
    DigitsAreTheNumber(n);
    UnpackedIsNumber(f, Digits(n));
    assert v * f.blue == metres + f.shift;
    LessBy(0.0, v, f.blue);
    LessBy(v, 16777215.0, f.blue);
    KeptAsItIs(v);
    AwayBy(Unpacked(f, Digits(n)), n as real, v, f.blue, f.shift, metres);
    LessBy(Gap(n as real, v), 0.5, f.blue);
  }

  lemma KeptAsItIs(v: real)
    requires 0.0 <= v <= 16777215.0
    ensures Gap(Kept(Round(v), 16777215) as real, v) <= 0.5
  {
  }

  lemma PixelFits(i: nat, count: nat, channels: nat)
    requires i < count && 3 <= channels
    ensures i * channels + channels <= count * channels
  {
    assert (i + 1) * channels <= count * channels;
  }

  /** A pixel of some raw samples. */
  function PixelOf(data: seq<Byte>, at: nat): Pixel
    requires at + 2 < |data|
  {
    Pixel(data[at], data[at + 1], data[at + 2])
  }

  ghost predicate DecodedUpTo(out: seq<Height>, data: seq<Byte>, channels: nat, f: Factors, n: nat)
    requires n <= |out| && 3 <= channels && |data| == |out| * channels
  {
    forall i :: 0 <= i < n ==> IsDecoded(out[i], data, i, |out|, channels, f)
  }

  ghost predicate IsDecoded(h: Height, data: seq<Byte>, i: nat, count: nat, channels: nat, f: Factors)
    requires i < count && 3 <= channels && |data| == count * channels
  {
    PixelFits(i, count, channels);
    h == Some(Unpacked(f, PixelOf(data, i * channels)))
  }

  /** Every pixel's height, whatever channels come after its first three. */
  method DecodeHeights(data: array<Byte>, count: nat, channels: nat, e: Encoding) returns (out: array<Height>)
    requires 3 <= channels && data.Length == count * channels
    ensures fresh(out) && out.Length == count && DecodedUpTo(out[..], data[..], channels, FactorsOf(e), count)
  {
    out := new Height[count](_ => None);
    var f := FactorsOf(e);
    hide Unpacked, FactorsOf;
    for i := 0 to count
      invariant DecodedUpTo(out[..], data[..], channels, f, i)
    {
      PixelFits(i, count, channels);
      var at := i * channels;
      var p := Pixel(data[at], data[at + 1], data[at + 2]);
      assert PixelOf(data[..], at) == p;
      out[i] := Some(Unpacked(f, p));
      assert IsDecoded(out[i], data[..], i, count, channels, f);
    }
  }

  /** One height as a pixel. */
  method EncodeHeight(h: Height, f: Factors, least: real, ceiling: int) returns (p: Pixel)
    requires f.Positive() && least == f.Least() && ceiling == Ceiling(f)
    ensures p == Packed(f, h)
  {
    if h.None? {
      return Pixel(0, 0, 0);
    }
    var scaled := Round((h.value + f.shift) / least);
    var value := if scaled < 0 then 0 else scaled;
    value := if value > ceiling then ceiling else value;
    p := Pixel(Share(f, value, f.red), Share(f, value, f.green), Share(f, value, f.blue));
  }

  ghost predicate EncodedUpTo(data: seq<Byte>, heights: seq<Height>, f: Factors, n: nat)
    requires n <= |heights| && |data| == |heights| * 3 && f.Positive()
  {
    forall i :: 0 <= i < n ==> PixelOf(data, 3 * i) == Packed(f, heights[i])
  }

  /** Every height as a pixel of three bytes. */
  method EncodeHeights(heights: array<Height>, e: Encoding) returns (data: array<Byte>)
    requires e.Valid()
    ensures fresh(data) && data.Length == heights.Length * 3
    ensures EncodedUpTo(data[..], heights[..], FactorsOf(e), heights.Length)
  {
    data := new Byte[heights.Length * 3](_ => 0);
    var f := FactorsOf(e);
    var least, ceiling := f.Least(), Ceiling(f);
    hide Packed, FactorsOf, Ceiling;
    for i := 0 to heights.Length
      invariant EncodedUpTo(data[..], heights[..], f, i)
    {
      var p := EncodeHeight(heights[i], f, least, ceiling);
      var at := 3 * i;
      data[at], data[at + 1], data[at + 2] := p.r, p.g, p.b;
    }
  }
}
