/** The numeric transforms the lamp accessory applies to characteristic
    values: the two-sided clamp `setBorders`, the colour-temperature
    conversions between the host's mired scale and the bulb's kelvin scale,
    and the lower bound of 1 on brightness. */
module Transforms {

  /** The JavaScript numbers these transforms meet: integers, and the
      positive infinity that a division of a positive number by zero and the
      literal `Infinity` give. */
  datatype Num = Int(value: int) | PosInfinity

  /** JavaScript's `a <= b` on such numbers. */
  predicate Le(a: Num, b: Num) {
    match b
    case PosInfinity => true
    case Int(y) => a.Int? && a.value <= y
  }

  /** The dividend of both colour-temperature conversions. */
  const Million: int := 1000000

  /** Bulb colour-temperature range, in kelvin. */
  const MinKelvin: int := 2500
  const MaxKelvin: int := 6500

  /** Host colour-temperature range, in mired. */
  const MinMired: int := 140
  const MaxMired: int := 500

  /** Lowest brightness ever sent to the bulb. */
  const MinBrightness: int := 1

  /** `Math.floor(1000000 / v)` for an integer `v`: the floor of the real
      quotient, and positive infinity when `v` is zero. */
  function FloorMillionOver(v: int): (r: Num)
    ensures v == 0 <==> r == PosInfinity
    ensures v > 0 ==> r.Int? && r.value * v <= Million < (r.value + 1) * v
    ensures v < 0 ==> r.Int? && (r.value + 1) * v < Million <= r.value * v
  {
    if v == 0 then PosInfinity
    else if v > 0 then Int(Million / v)
    else
      var d := -v;
      var c := (Million + d - 1) / d;
      assert c * d <= Million + d - 1 < (c + 1) * d;
      assert (-c + 1) * v == (c - 1) * d == c * d - d;
      assert -c * v == c * d;
      Int(-c)
  }

  /** `setBorders(value, max, min)`: a value above `max` becomes `max`, one
      below `min` becomes `min`, and any other value is kept. The test
      against `max` comes first, which decides the result when `min > max`. */
  function SetBorders(value: Num, max: Num, min: Num): (r: Num)
    ensures r == value || r == max || r == min
    ensures Le(min, max) ==> Le(min, r) && Le(r, max)
    ensures Le(min, value) && Le(value, max) ==> r == value
    ensures !Le(value, max) ==> r == max
    ensures Le(value, max) && !Le(min, value) ==> r == min
  {
    if !Le(value, max) then max
    else if !Le(min, value) then min
    else value
  }

  /** `fromHbToTemp`: host mired to bulb kelvin. */
  function FromHbToTemp(v: int): (r: int)
    ensures MinKelvin <= r <= MaxKelvin
    ensures v > 0 && MinKelvin <= Million / v <= MaxKelvin ==> r == Million / v
    ensures v > 0 && Million / v < MinKelvin ==> r == MinKelvin
    ensures v > 0 && Million / v > MaxKelvin ==> r == MaxKelvin
    ensures v == 0 ==> r == MaxKelvin
    ensures v < 0 ==> r == MinKelvin
  {
    SetBorders(FloorMillionOver(v), Int(MaxKelvin), Int(MinKelvin)).value
  }

  /** `fromTempToHb`: bulb kelvin to host mired. */
  function FromTempToHb(v: int): (r: int)
    ensures MinMired <= r <= MaxMired
    ensures v > 0 && MinMired <= Million / v <= MaxMired ==> r == Million / v
    ensures v > 0 && Million / v < MinMired ==> r == MinMired
    ensures v > 0 && Million / v > MaxMired ==> r == MaxMired
    ensures v == 0 ==> r == MaxMired
    ensures v < 0 ==> r == MinMired
  {
    SetBorders(FloorMillionOver(v), Int(MaxMired), Int(MinMired)).value
  }

  /** The brightness a host write of `b` queues: `setBorders(b, Infinity, 1)`,
      a clamp with no upper bound. */
  function ClampBrightness(b: int): (r: int)
    ensures r >= MinBrightness
    ensures b >= MinBrightness ==> r == b
    ensures b < MinBrightness ==> r == MinBrightness
  {
    SetBorders(Int(b), PosInfinity, Int(MinBrightness)).value
  }

  /** Integer division by a larger positive divisor gives no larger quotient:
      the arithmetic fact behind the two antitone lemmas below. */
  lemma DivAntitone(n: nat, a: int, b: int)
    requires 0 < a <= b
    ensures n / b <= n / a
  {
    var q := n / b;
    assert q * b <= n;
    assert 0 <= q;
    assert q * a <= q * b;
    var p := n / a;
    assert n < (p + 1) * a;
    assert p < q ==> (p + 1) * a <= q * a;
  }

  /** Clamping keeps the order of its inputs. */
  lemma SetBordersMonotone(x: Num, y: Num, max: Num, min: Num)
    requires Le(min, max) && Le(x, y)
    ensures Le(SetBorders(x, max, min), SetBorders(y, max, min))
  {
  }

  /** For positive host values, a higher mired value never gives a higher
      kelvin value. */
  lemma FromHbToTempAntitone(a: int, b: int)
    requires 0 < a <= b
    ensures FromHbToTemp(b) <= FromHbToTemp(a)
  {
    DivAntitone(Million, a, b);
    SetBordersMonotone(FloorMillionOver(b), FloorMillionOver(a), Int(MaxKelvin), Int(MinKelvin));
  }

  /** For positive bulb values, a higher kelvin value never gives a higher
      mired value. */
  lemma FromTempToHbAntitone(a: int, b: int)
    requires 0 < a <= b
    ensures FromTempToHb(b) <= FromTempToHb(a)
  {
    DivAntitone(Million, a, b);
    SetBordersMonotone(FloorMillionOver(b), FloorMillionOver(a), Int(MaxMired), Int(MinMired));
  }

  /** A host value converted to the bulb and read back stays in the host's
      range and moves in the same direction as the input. */
  lemma RoundTripMonotone(a: int, b: int)
    requires 0 < a <= b
    ensures MinMired <= FromTempToHb(FromHbToTemp(a)) <= MaxMired
    ensures FromTempToHb(FromHbToTemp(a)) <= FromTempToHb(FromHbToTemp(b))
  {
    FromHbToTempAntitone(a, b);
    FromTempToHbAntitone(FromHbToTemp(b), FromHbToTemp(a));
  }

  /** The round trip is not the identity: 140 mired becomes 6500 K, which
      reads back as 153 mired. */
  lemma RoundTripExample()
    ensures FromHbToTemp(140) == 6500
    ensures FromTempToHb(6500) == 153
  {
  }

  /** A brightness of 0 is sent as 1, and 50 is sent as 50. */
  lemma ClampBrightnessExamples()
    ensures ClampBrightness(0) == 1
    ensures ClampBrightness(50) == 50
  {
  }
}
