/** packages/react/src/scale.ts: the ticks of an axis, the scale they span, and the projection of values
    onto a plot. The arithmetic is over the reals, and this is the state of things before the code rounds
    the ticks for display; the tick count is a whole number, and the data are finite. */
module AxisScale {
  import opened Schema
  import opened Numbers

  datatype Scale = Scale(min: real, max: real, ticks: seq<real>)

  // ---- powers of ten ----

  function Power10(e: int): (p: real)
    ensures p > 0.0
    decreases if e < 0 then -e else e
  {
    if e == 0 then 1.0 else if e > 0 then 10.0 * Power10(e - 1) else Power10(e + 1) / 10.0
  }

  lemma {:induction false} Power10Next(e: int)
    ensures Power10(e + 1) == 10.0 * Power10(e)
  {
  }

  lemma {:induction false} Power10Grows(j: int, k: int)
    requires j <= k
    ensures Power10(j) <= Power10(k)
    decreases k - j
  {
    if j < k {
      Power10Next(j);
      Power10Grows(j + 1, k);
    }
  }

  predicate Between(x: real, e: int) {
    Power10(e) <= x < Power10(e + 1)
  }

  lemma BetweenTimesTen(x: real, e: int)
    ensures Between(x, e) <==> Between(10.0 * x, e + 1)
  {
    Power10Next(e);
    Power10Next(e + 1);
  }

  /** How far x is from [1, 10), for termination. */
  function Distance(x: real): (d: nat)
    requires x > 0.0
  {
    if x >= 1.0 then x.Floor else 10 + (1.0 / x).Floor
  }

  lemma TenTimesShorter(x: real)
    requires x >= 10.0
    ensures 0.0 < x / 10.0 && 10.0 * (x / 10.0) == x && Distance(x / 10.0) < Distance(x)
  {
  }

  lemma TenTimesLonger(x: real)
    requires 0.0 < x < 1.0
    ensures 0.0 < 10.0 * x && Distance(10.0 * x) < Distance(x)
  {
    var y := 1.0 / x;
    assert y * x == 1.0 && y > 1.0;
    assert 1.0 / (10.0 * x) == y / 10.0;
    if 10.0 * x < 1.0 {
      assert y > 10.0;
    }
  }

  /** floor(log10(x)). */
  function Exponent(x: real): (e: int)
    requires x > 0.0
    ensures Between(x, e)
    decreases Distance(x)
  {
    if x >= 10.0 then
      TenTimesShorter(x);
      var e := Exponent(x / 10.0);
      BetweenTimesTen(x / 10.0, e);
      e + 1
    else if x < 1.0 then
      TenTimesLonger(x);
      var e := Exponent(10.0 * x);
      BetweenTimesTen(x, e - 1);
      e - 1
    else
      Power10Next(0);
      0
  }

  // ---- niceStep ----

  function Rounded(rough: real, power: real): real
    requires power > 0.0
  {
    var normalised := rough / power;
    if normalised <= 1.0 then power
    else if normalised <= 2.0 then 2.0 * power
    else if normalised <= 5.0 then 5.0 * power
    else 10.0 * power
  }

  function NiceStep(rough: real): (step: real)
    requires rough > 0.0
  {
    Rounded(rough, Power10(Exponent(rough)))
  }

  /** One, two or five times a power of ten. */
  predicate IsNice(x: real, k: int) {
    x == Power10(k) || x == 2.0 * Power10(k) || x == 5.0 * Power10(k)
  }

  lemma Normalised(x: real, power: real, c: real)
    requires power > 0.0
    ensures x / power <= c <==> x <= c * power
  {
    assert x / power * power == x;
  }

  /** The choice without the division. */
  lemma RoundedByCases(rough: real, p: real)
    requires p > 0.0
    ensures Rounded(rough, p) == if rough <= p then p else if rough <= 2.0 * p then 2.0 * p
                                 else if rough <= 5.0 * p then 5.0 * p else 10.0 * p
  {
    Normalised(rough, p, 1.0);
    Normalised(rough, p, 2.0);
    Normalised(rough, p, 5.0);
  }

  /** The step is nice, at least the rough one, and less than two and a half times it. */
  lemma NiceStepIsClose(rough: real) returns (k: int)
    requires rough > 0.0
    ensures IsNice(NiceStep(rough), k)
    ensures rough <= NiceStep(rough) < 2.5 * rough
  {
    var e := Exponent(rough);
    RoundedByCases(rough, Power10(e));
    Power10Next(e);
    k := if rough <= 5.0 * Power10(e) then e else e + 1;
  }

  /** No nice number that is large enough is smaller: the step is the finest nice one. */
  lemma NiceStepIsLeast(rough: real, x: real, k: int)
    requires rough > 0.0 && IsNice(x, k) && rough <= x
    ensures NiceStep(rough) <= x
  {
    var e := Exponent(rough);
    RoundedByCases(rough, Power10(e));
    Power10Next(e);
    if k < e {
      Power10Next(k);
      Power10Grows(k + 1, e);
    } else if k > e {
      Power10Grows(e + 1, k);
    }
  }

  // ---- linearScale ----

  /** The least and greatest value, with zero among the values when asked for. */
  ghost predicate IsExtent(values: seq<real>, includeZero: bool, low: real, high: real) {
    && (forall v :: v in values ==> low <= v <= high)
    && (includeZero ==> low <= 0.0 <= high)
    && (low in values || (includeZero && low == 0.0))
    && (high in values || (includeZero && high == 0.0))
  }

  function Padded(low: real, high: real): (r: (real, real))
    ensures r.0 <= low && high <= r.1
  {
    if low == high then
      var pad := (if low < 0.0 then -low else low) * 0.5;
      (low - pad, high + pad)
    else (low, high)
  }

  function Multiple(k: int, step: real): real {
    k as real * step
  }

  /** The value of tick i. */
  function TickFrom(min: real, step: real): int -> real {
    i => min + Multiple(i, step)
  }

  function Ticks(tick: int -> real, n: nat): (ts: seq<real>)
    ensures |ts| == n
  {
    seq(n, i requires 0 <= i < n => tick(i))
  }

  function StepFor(low: real, high: real, tickCount: int): real
    requires low < high && 1 <= tickCount
  {
    NiceStep((high - low) / tickCount as real)
  }

  lemma StepIsPositive(low: real, high: real, tickCount: int)
    requires low < high && 1 <= tickCount
    ensures (high - low) / tickCount as real > 0.0 && StepFor(low, high, tickCount) > 0.0
  {
    var t := tickCount as real;
    var rough := (high - low) / t;
    assert rough * t == high - low;
    if rough <= 0.0 { Scaled(rough, 0.0, t); }
    var k := NiceStepIsClose(rough);
  }

  function First(low: real, step: real): int
    requires step > 0.0
  {
    (low / step).Floor
  }

  function Last(high: real, step: real): int
    requires step > 0.0
  {
    Ceil(high / step)
  }

  /** The multiples of the step around the data: the scale of the last branch. */
  function ScaleFor(low: real, high: real, step: real): Scale
    requires step > 0.0 && First(low, step) <= Last(high, step)
  {
    var min := Multiple(First(low, step), step);
    Scale(min, Multiple(Last(high, step), step), Ticks(TickFrom(min, step), Last(high, step) - First(low, step) + 1))
  }

  lemma MultiplesAdd(i: int, j: int, step: real)
    ensures Multiple(i + j, step) == Multiple(i, step) + Multiple(j, step)
  {
    Distributes(i as real, j as real, step);
  }

  lemma SmallMultiples(step: real)
    ensures Multiple(0, step) == 0.0 && Multiple(1, step) == step
  {
  }

  lemma MultiplesRise(i: int, j: int, step: real)
    requires step > 0.0
    ensures i < j <==> Multiple(i, step) < Multiple(j, step)
  {
    if i < j { StrictMono(i as real, j as real, step); }
    if j < i { StrictMono(j as real, i as real, step); }
  }

  lemma QuotientAgainst(x: real, k: int, step: real)
    requires step > 0.0
    ensures k as real <= x / step ==> Multiple(k, step) <= x
    ensures x / step < k as real ==> x < Multiple(k, step)
  {
    var q, r := x / step, k as real;
    assert q * step == x;
    if r <= q { Scaled(r, q, step); } else { StrictMono(q, r, step); }
  }

  lemma FloorTimesStep(x: real, step: real)
    requires step > 0.0
    ensures Multiple(First(x, step), step) <= x < Multiple(First(x, step), step) + step
  {
    var f := First(x, step);
    QuotientAgainst(x, f, step);
    QuotientAgainst(x, f + 1, step);
    MultiplesAdd(f, 1, step);
    SmallMultiples(step);
  }

  lemma Distributes(x: real, y: real, z: real)
    ensures (x + y) * z == x * z + y * z
    ensures (x - y) * z == x * z - y * z
  {
  }

  lemma StrictMono(x: real, y: real, z: real)
    requires x < y && 0.0 < z
    ensures x * z < y * z
  {
  }

  lemma CeilTimesStep(x: real, step: real)
    requires step > 0.0
    ensures x <= Multiple(Last(x, step), step) < x + step
  {
    NegativeQuotient(x, step);
    FloorTimesStep(-x, step);
    var f := First(-x, step);
    assert Last(x, step) == -f;
    MultiplesAdd(f, -f, step);
    assert Multiple(f + -f, step) == Multiple(0, step);
    SmallMultiples(step);
  }

  lemma NegativeQuotient(x: real, step: real)
    requires step > 0.0
    ensures (-x) / step == -(x / step)
  {
    var q := x / step;
    assert q * step == x;
    assert (-q) * step == -x;
  }

  /** The outermost ticks enclose the data and overshoot it by less than a step. */
  lemma ScaleEnclosesData(low: real, high: real, step: real)
    requires step > 0.0 && low < high
    ensures First(low, step) < Last(high, step)
    ensures var s := ScaleFor(low, high, step);
            s.min <= low < s.min + step && high <= s.max < high + step && s.min < s.max
  {
    FloorTimesStep(low, step);
    CeilTimesStep(high, step);
    MultiplesRise(First(low, step), Last(high, step), step);
  }

  /** There are at most tickCount + 2 ticks. */
  lemma FewTicks(low: real, high: real, tickCount: int)
    requires low < high && 1 <= tickCount
    ensures StepFor(low, high, tickCount) > 0.0
    ensures Last(high, StepFor(low, high, tickCount)) - First(low, StepFor(low, high, tickCount)) <= tickCount + 1
  {
    StepIsPositive(low, high, tickCount);
    RoughFits(low, high, tickCount);
    FewTicksOf(low, high, StepFor(low, high, tickCount), tickCount);
  }

  lemma FewTicksOf(low: real, high: real, step: real, n: int)
    requires step > 0.0 && high - low <= step * n as real
    ensures Last(high, step) - First(low, step) <= n + 1
  {
    FloorTimesStep(low, step);
    CeilTimesStep(high, step);
    FewMultiples(First(low, step), Last(high, step), low, high, step, n);
  }

  lemma QuotientBelow(x: real, t: real, c: real)
    requires t > 0.0 && x / t <= c
    ensures x <= c * t
  {
    var q := x / t;
    assert q * t == x;
    Scaled(q, c, t);
  }

  lemma RoughFits(low: real, high: real, n: int)
    requires low < high && 1 <= n
    ensures high - low <= StepFor(low, high, n) * n as real
  {
    StepIsPositive(low, high, n);
    var k := NiceStepIsClose((high - low) / n as real);
    QuotientBelow(high - low, n as real, StepFor(low, high, n));
  }

  lemma FewMultiples(f: int, l: int, low: real, high: real, step: real, n: int)
    requires step > 0.0 && high - low <= step * n as real
    requires low < Multiple(f, step) + step && Multiple(l, step) < high + step
    ensures l - f <= n + 1
  {
    assert step * n as real == Multiple(n, step);
    SmallMultiples(step);
    MultiplesAdd(n, 1, step);
    MultiplesAdd(n + 1, 1, step);
    MultiplesAdd(n + 2, f, step);
    MultiplesRise(l, n + 2 + f, step);
  }

  lemma TickAt(low: real, high: real, step: real, i: int)
    requires step > 0.0 && First(low, step) <= Last(high, step)
    requires 0 <= i <= Last(high, step) - First(low, step)
    ensures ScaleFor(low, high, step).ticks[i] == Multiple(First(low, step) + i, step)
  {
    MultiplesAdd(First(low, step), i, step);
  }

  /** The ticks rise by one step from min to max, each a multiple of the step. */
  lemma TicksRise(low: real, high: real, step: real, i: int, j: int)
    requires step > 0.0 && low < high && First(low, step) <= Last(high, step)
    requires 0 <= i < j < |ScaleFor(low, high, step).ticks|
    ensures var s := ScaleFor(low, high, step);
            s.ticks[0] == s.min && s.ticks[|s.ticks| - 1] == s.max && s.ticks[i] < s.ticks[j]
    ensures j == i + 1 ==> ScaleFor(low, high, step).ticks[j] == ScaleFor(low, high, step).ticks[i] + step
  {
    var f := First(low, step);
    TickAt(low, high, step, 0);
    TickAt(low, high, step, i);
    TickAt(low, high, step, j);
    TickAt(low, high, step, Last(high, step) - f);
    MultiplesRise(f + i, f + j, step);
    MultiplesAdd(f + i, 1, step);
    SmallMultiples(step);
  }

  /** When zero lies in the data range, zero is a tick. */
  lemma ZeroIsATick(low: real, high: real, step: real)
    requires step > 0.0 && low < high && low <= 0.0 <= high && First(low, step) <= Last(high, step)
    ensures 0.0 in ScaleFor(low, high, step).ticks
  {
    FloorTimesStep(low, step);
    CeilTimesStep(high, step);
    SmallMultiples(step);
    var f, l := First(low, step), Last(high, step);
    MultiplesRise(0, f, step);
    MultiplesRise(l, 0, step);
    TickAt(low, high, step, -f);
    assert ScaleFor(low, high, step).ticks[-f] == 0.0;
  }

  /** Math.round. */
  function Round(x: real): int {
    (x + 0.5).Floor
  }

  lemma Cancels(x: real, y: real, z: real)
    requires z > 0.0 && x * z == y * z
    ensures x == y
  {
    if x < y { StrictMono(x, y, z); }
    if y < x { StrictMono(y, x, z); }
  }

  lemma RoundOfWhole(step: real, f: int, l: int)
    requires step > 0.0
    ensures Round((Multiple(l, step) - Multiple(f, step)) / step) == l - f
  {
    var q := (Multiple(l, step) - Multiple(f, step)) / step;
    assert q * step == Multiple(l, step) - Multiple(f, step);
    MultiplesAdd(l - f, f, step);
    Cancels(q, (l - f) as real, step);
  }

  method BuildTicks(min: real, step: real, count: int) returns (ticks: seq<real>)
    requires 0 <= count
    ensures ticks == Ticks(TickFrom(min, step), count + 1)
  {
    ticks := [];
    ghost var tick := TickFrom(min, step);
    var i := 0;
    while i <= count
      invariant 0 <= i <= count + 1 && ticks == Ticks(tick, i)
    {
      ticks := ticks + [min + Multiple(i, step)];
      i := i + 1;
    }
  }

  method BuildScale(a: real, b: real, step: real) returns (s: Scale)
    requires step > 0.0 && First(a, step) < Last(b, step)
    ensures s == ScaleFor(a, b, step)
  {
    var min := Multiple((a / step).Floor, step);
    var max := Multiple(Ceil(b / step), step);
    RoundOfWhole(step, First(a, step), Last(b, step));
    var count := Round((max - min) / step);
    assert count == Last(b, step) - First(a, step);
    var ticks := BuildTicks(min, step, count);
    s := Scale(min, max, ticks);
  }

  /** s is the scale for data that reach from low to high. */
  ghost predicate FromExtent(s: Scale, low: real, high: real, tickCount: int)
    requires 1 <= tickCount
  {
    if low == 0.0 && high == 0.0 then s == Scale(0.0, 1.0, [0.0, 0.5, 1.0])
    else
      && var (a, b) := Padded(low, high);
      && a < b && var step := StepFor(a, b, tickCount);
      && step > 0.0 && First(a, step) < Last(b, step) && s == ScaleFor(a, b, step)
  }

  ghost predicate IsScaleOf(s: Scale, values: seq<real>, includeZero: bool, tickCount: int)
    requires 1 <= tickCount
  {
    if values == [] && !includeZero then s == Scale(0.0, 1.0, [0.0, 1.0])
    else exists low, high :: IsExtent(values, includeZero, low, high) && FromExtent(s, low, high, tickCount)
  }

  method LinearScale(values: seq<real>, includeZero: bool, tickCount: int) returns (s: Scale)
    requires 1 <= tickCount
    ensures IsScaleOf(s, values, includeZero, tickCount)
  {
    var lo: Option<real> := if includeZero then Some(0.0) else None;
    var hi: Option<real> := if includeZero then Some(0.0) else None;
    var i := 0;
    while i < |values|
      invariant 0 <= i <= |values|
      invariant lo.Some? <==> hi.Some?
      invariant lo.None? <==> i == 0 && !includeZero
      invariant lo.Some? ==> IsExtent(values[..i], includeZero, lo.value, hi.value)
    {
      var value := values[i];
      assert values[..i + 1] == values[..i] + [value];
      if lo.None? || value < lo.value { lo := Some(value); }
      if hi.None? || value > hi.value { hi := Some(value); }
      i := i + 1;
    }
    assert values[..|values|] == values;
    if lo.None? || hi.None? { return Scale(0.0, 1.0, [0.0, 1.0]); }
    var a, b := lo.value, hi.value;
    ghost var low, high := a, b;
    assert IsExtent(values, includeZero, low, high);
    if a == b {
      if a == 0.0 {
        s := Scale(0.0, 1.0, [0.0, 0.5, 1.0]);
        assert FromExtent(s, low, high, tickCount);
        return;
      }
      var pad := (if a < 0.0 then -a else a) * 0.5;
      a, b := (if a < a - pad then a else a - pad), (if b > b + pad then b else b + pad);
    }
    assert (a, b) == Padded(low, high);
    StepIsPositive(a, b, tickCount);
    ScaleEnclosesData(a, b, StepFor(a, b, tickCount));
    var step := NiceStep((b - a) / tickCount as real);
    s := BuildScale(a, b, step);
    assert FromExtent(s, low, high, tickCount);
  }

  /** What a caller can rely on. */
  ghost predicate Serves(s: Scale, values: seq<real>, includeZero: bool, tickCount: int) {
    && s.min < s.max && (forall v :: v in values ==> s.min <= v <= s.max)
    && 2 <= |s.ticks| <= tickCount + 2
    && s.ticks[0] == s.min && s.ticks[|s.ticks| - 1] == s.max
    && (forall i, j | 0 <= i < j < |s.ticks| :: s.ticks[i] < s.ticks[j])
    && (includeZero ==> 0.0 in s.ticks)
  }

  /** Whatever the data, none at all and nothing but zeros included: the scale has room and holds every value,
      its few ticks rise from end to end, and with includeZero one of them is zero. */
  lemma ScaleServesTheData(s: Scale, values: seq<real>, includeZero: bool, tickCount: int)
    requires 1 <= tickCount && IsScaleOf(s, values, includeZero, tickCount)
    ensures Serves(s, values, includeZero, tickCount)
  {
    if values != [] || includeZero {
      var low, high :| IsExtent(values, includeZero, low, high) && FromExtent(s, low, high, tickCount);
      if low == 0.0 && high == 0.0 {
        assert s.ticks[0] == 0.0;
      } else {
        ExtentIsServed(s, values, includeZero, tickCount, low, high);
      }
    }
  }

  lemma ExtentIsServed(s: Scale, values: seq<real>, includeZero: bool, tickCount: int, low: real, high: real)
    requires 1 <= tickCount && IsExtent(values, includeZero, low, high) && FromExtent(s, low, high, tickCount)
    requires !(low == 0.0 && high == 0.0)
    ensures Serves(s, values, includeZero, tickCount)
  {
    var (a, b) := Padded(low, high);
    var step := StepFor(a, b, tickCount);
    ScaleEnclosesData(a, b, step);
    FewTicks(a, b, tickCount);
    TicksRise(a, b, step, 0, 1);
    forall i, j | 0 <= i < j < |s.ticks| ensures s.ticks[i] < s.ticks[j] { TicksRise(a, b, step, i, j); }
    if includeZero { ZeroIsATick(a, b, step); }
  }

  // ---- how fine the scale is ----

  lemma ExtentIsUnique(values: seq<real>, includeZero: bool, low: real, high: real, low': real, high': real)
    requires IsExtent(values, includeZero, low, high) && IsExtent(values, includeZero, low', high')
    ensures low == low' && high == high'
  {
  }

  ghost predicate Nice(x: real) {
    exists k :: IsNice(x, k)
  }

  ghost predicate Divides(step: real, span: real, parts: real) {
    span <= step * parts < 2.5 * span
  }

  ghost predicate EvenFrom(ticks: seq<real>, m: int, step: real) {
    forall i | 0 <= i < |ticks| :: ticks[i] == Multiple(m + i, step)
  }

  /** The scale of data from a to b: its ticks are multiples of a nice step, which divides the range into as many
      parts as asked for or fewer, but more than two fifths of that; and no step is to spare at either end. */
  ghost predicate FinelyScaled(s: Scale, a: real, b: real, tickCount: int, step: real, m: int) {
    && Nice(step) && Divides(step, b - a, tickCount as real) && EvenFrom(s.ticks, m, step)
    && s.min <= a < s.min + step && s.max - step < b <= s.max
  }

  lemma FinelyRough(rough: real, span: real, parts: real, step: real)
    requires parts > 0.0 && rough * parts == span && rough <= step < 2.5 * rough
    ensures Divides(step, span, parts)
  {
    Scaled(rough, step, parts);
    StrictMono(step, 2.5 * rough, parts);
  }

  lemma StepIsNice(rough: real)
    requires rough > 0.0
    ensures Nice(NiceStep(rough)) && rough <= NiceStep(rough) < 2.5 * rough
  {
    var k := NiceStepIsClose(rough);
  }

  lemma RoughStep(a: real, b: real, n: int) returns (rough: real)
    requires a < b && 1 <= n
    ensures rough > 0.0 && rough * n as real == b - a && StepFor(a, b, n) == NiceStep(rough)
  {
    StepIsPositive(a, b, n);
    rough := (b - a) / n as real;
  }

  lemma StepIsFine(a: real, b: real, n: int)
    requires a < b && 1 <= n
    ensures Nice(StepFor(a, b, n)) && Divides(StepFor(a, b, n), b - a, n as real)
  {
    var rough := RoughStep(a, b, n);
    StepIsNice(rough);
    FinelyRough(rough, b - a, n as real, NiceStep(rough));
  }

  lemma StepFinelyScales(a: real, b: real, tickCount: int, step: real) returns (m: int)
    requires a < b && 1 <= tickCount && step > 0.0 && First(a, step) < Last(b, step)
    requires Nice(step) && Divides(step, b - a, tickCount as real)
    ensures FinelyScaled(ScaleFor(a, b, step), a, b, tickCount, step, m)
  {
    m := First(a, step);
    ScaleEnclosesData(a, b, step);
    forall i | 0 <= i < |ScaleFor(a, b, step).ticks| ensures ScaleFor(a, b, step).ticks[i] == Multiple(m + i, step) {
      TickAt(a, b, step, i);
    }
  }

  lemma ExtentIsFine(s: Scale, low: real, high: real, tickCount: int, a: real, b: real) returns (step: real, m: int)
    requires 1 <= tickCount && FromExtent(s, low, high, tickCount) && !(low == high == 0.0)
    requires (a, b) == Padded(low, high)
    ensures FinelyScaled(s, a, b, tickCount, step, m)
  {
    step := StepFor(a, b, tickCount);
    StepIsFine(a, b, tickCount);
    m := StepFinelyScales(a, b, tickCount, step);
  }

  lemma PaddingMeans(low: real, high: real)
    ensures low < high ==> Padded(low, high) == (low, high)
    ensures low == high > 0.0 ==> Padded(low, high) == (0.5 * low, 1.5 * low)
    ensures low == high < 0.0 ==> Padded(low, high) == (1.5 * low, 0.5 * low)
  {
  }

  /** Data that reach from low to high are scaled as finely as that; a single value is scaled like the stretch
      that reaches half of it to either side. */
  lemma ScaleIsFine(s: Scale, values: seq<real>, includeZero: bool, tickCount: int, low: real, high: real)
      returns (step: real, m: int)
    requires 1 <= tickCount && IsScaleOf(s, values, includeZero, tickCount)
    requires (values != [] || includeZero) && IsExtent(values, includeZero, low, high) && !(low == high == 0.0)
    ensures low < high ==> FinelyScaled(s, low, high, tickCount, step, m)
    ensures low == high > 0.0 ==> FinelyScaled(s, 0.5 * low, 1.5 * low, tickCount, step, m)
    ensures low == high < 0.0 ==> FinelyScaled(s, 1.5 * low, 0.5 * low, tickCount, step, m)
  {
    var low', high' :| IsExtent(values, includeZero, low', high') && FromExtent(s, low', high', tickCount);
    ExtentIsUnique(values, includeZero, low, high, low', high');
    var (a, b) := Padded(low, high);
    step, m := ExtentIsFine(s, low, high, tickCount, a, b);
    PaddingMeans(low, high);
  }

  // ---- project ----

  function Project(value: real, scale: Scale, start: real, end: real): real {
    var span := scale.max - scale.min;
    if span == 0.0 then start else start + (value - scale.min) / span * (end - start)
  }

  lemma QuotientGrows(x: real, y: real, span: real)
    requires x <= y && span > 0.0
    ensures x / span <= y / span
  {
    var p, q := x / span, y / span;
    assert p * span == x && q * span == y;
    if q < p { StrictMono(q, p, span); }
  }

  /** The ends of the scale go to the ends of the plot. */
  lemma ProjectMeetsTheEnds(scale: Scale, start: real, end: real)
    requires scale.min < scale.max
    ensures Project(scale.min, scale, start, end) == start && Project(scale.max, scale, start, end) == end
  {
    var span := scale.max - scale.min;
    assert 0.0 / span == 0.0 && span / span == 1.0;
  }

  /** Projection keeps order on a plot that runs upwards and turns it round on one that runs downwards. */
  lemma ProjectIsMonotone(scale: Scale, start: real, end: real, x: real, y: real)
    requires scale.min < scale.max && x <= y
    ensures start <= end ==> Project(x, scale, start, end) <= Project(y, scale, start, end)
    ensures end <= start ==> Project(y, scale, start, end) <= Project(x, scale, start, end)
  {
    var span := scale.max - scale.min;
    var p, q := (x - scale.min) / span, (y - scale.min) / span;
    QuotientGrows(x - scale.min, y - scale.min, span);
    if start <= end {
      Scaled(p, q, end - start);
    } else {
      Scaled(p, q, start - end);
      assert p * (end - start) == -(p * (start - end)) && q * (end - start) == -(q * (start - end));
    }
  }

  /** So every value of the data lands on the plot. */
  lemma ProjectLandsOnThePlot(scale: Scale, start: real, end: real, v: real)
    requires scale.min <= v <= scale.max && scale.min < scale.max
    ensures start <= end ==> start <= Project(v, scale, start, end) <= end
    ensures end <= start ==> end <= Project(v, scale, start, end) <= start
  {
    ProjectMeetsTheEnds(scale, start, end);
    ProjectIsMonotone(scale, start, end, scale.min, v);
    ProjectIsMonotone(scale, start, end, v, scale.max);
  }
}
