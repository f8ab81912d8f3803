/** A joint step measured in caps: the largest joint excursion over its per-tick limit,
    and the lever-weighted Cartesian bound of the servo streamer
    (control/joint_panel.py:121-128, 173-185). */
module StepRatio {
  import opened Prelude

  /** A ratio this close to an integer counts as that integer (control/joint_panel.py:28). */
  const RATIO_EPS := 0.000000001

  /** Arrival tolerance of the executor (control/joint_panel.py:187). */
  const ARRIVAL_TOL := 0.000000001

  /** Per-tick caps; `cart` is the Cartesian step bound with its levers when a driver
      published one. */
  datatype Caps = Caps(slew: real, rail: real, cart: Option<CartBound>)

  datatype CartBound = CartBound(step: real, lever: Vec)

  predicate ValidCaps(c: Caps) {
    && c.slew > 0.0 && c.rail > 0.0
    && (c.cart.Some? ==>
          && c.cart.value.step > 0.0 && |c.cart.value.lever| <= N_JOINTS
          && forall j :: 0 <= j < |c.cart.value.lever| ==> c.cart.value.lever[j] >= 0.0)
  }

  function Limit(c: Caps, d: nat): real {
    if d < N_JOINTS then c.slew else c.rail
  }

  /** Each slot's excursion in units of its own limit. */
  function InLimits(c: Caps, delta: Vec): (v: Vec)
    requires ValidCaps(c)
    ensures |v| == |delta|
  {
    seq(|delta|, d requires 0 <= d < |delta| => Abs(delta[d]) / Limit(c, d))
  }

  /** The largest of the first `d` entries, none of them negative. */
  function MaxOf(v: Vec, d: nat): (m: real)
    requires d <= |v|
    ensures m >= 0.0
  {
    if d == 0 then 0.0 else MaxR(MaxOf(v, d - 1), v[d - 1])
  }

  function LeverSum(lever: Vec, delta: Vec, d: nat): real
    requires d <= |delta| && d <= |lever|
  {
    if d == 0 then 0.0 else LeverSum(lever, delta, d - 1) + Abs(delta[d - 1]) * lever[d - 1]
  }

  /** The lever-weighted length of a step. */
  function CartLength(b: CartBound, delta: Vec): real {
    LeverSum(b.lever, delta, if |delta| < |b.lever| then |delta| else |b.lever|)
  }

  /** The step measured in caps. */
  function Ratio(c: Caps, delta: Vec): (r: real)
    requires ValidCaps(c)
    ensures r >= 0.0
  {
    MaxR(MaxOf(InLimits(c, delta), |delta|), CartRatio(c, delta))
  }

  // -- the least number of caps a step fits into --------------------------------------------

  ghost predicate SlotWithin(c: Caps, delta: Vec, j: int, b: real)
    requires 0 <= j < |delta|
  {
    Abs(delta[j]) <= b * Limit(c, j)
  }

  ghost predicate CartWithin(c: Caps, delta: Vec, b: real) {
    c.cart.Some? ==> CartLength(c.cart.value, delta) <= b * c.cart.value.step
  }

  /** Every joint within `b` of its cap and the lever-weighted step within `b` of its own. */
  ghost predicate WithinCaps(c: Caps, delta: Vec, b: real) {
    (forall j :: 0 <= j < |delta| ==> SlotWithin(c, delta, j, b)) && CartWithin(c, delta, b)
  }

  lemma QuotientBound(x: real, l: real, b: real)
    requires l > 0.0
    ensures x / l <= b <==> x <= b * l
  {
    var r := x / l;
    QuotientIs(x, l, r);
    CompareScaled(r, x, l, b);
  }

  lemma CompareScaled(r: real, x: real, l: real, b: real)
    requires l > 0.0 && r * l == x
    ensures r <= b <==> x <= b * l
  {
    if r <= b {
      MulMono(r, b, l);
    } else {
      MulStrict(b, r, l);
    }
  }

  lemma QuotientIs(x: real, l: real, r: real)
    requires l > 0.0 && r == x / l
    ensures r * l == x
  {
  }

  lemma {:induction false} MaxOfWithin(v: Vec, d: nat, b: real)
    requires d <= |v| && b >= 0.0
    ensures MaxOf(v, d) <= b <==> forall j :: 0 <= j < d ==> v[j] <= b
  {
    if d > 0 {
      MaxOfWithin(v, d - 1, b);
    }
  }

  lemma InLimitsWithin(c: Caps, delta: Vec, j: int, b: real)
    requires ValidCaps(c) && 0 <= j < |delta|
    ensures InLimits(c, delta)[j] <= b <==> SlotWithin(c, delta, j, b)
  {
    QuotientBound(Abs(delta[j]), Limit(c, j), b);
  }

  lemma JointsWithin(c: Caps, delta: Vec, b: real)
    requires ValidCaps(c) && b >= 0.0
    ensures MaxOf(InLimits(c, delta), |delta|) <= b <==> forall j :: 0 <= j < |delta| ==> SlotWithin(c, delta, j, b)
  {
    var v := InLimits(c, delta);
    MaxOfWithin(v, |delta|, b);
    forall j | 0 <= j < |delta|
      ensures v[j] <= b <==> SlotWithin(c, delta, j, b)
    {
      InLimitsWithin(c, delta, j, b);
    }
  }

  /** The ratio is the least number of caps the step fits into. */
  lemma RatioIsLeast(c: Caps, delta: Vec, b: real)
    requires ValidCaps(c) && b >= 0.0
    ensures Ratio(c, delta) <= b <==> WithinCaps(c, delta, b)
  {
    JointsWithin(c, delta, b);
    CartRatioWithin(c, delta, b);
    MaxWithin(MaxOf(InLimits(c, delta), |delta|), CartRatio(c, delta), b);
  }

  /** The Cartesian half of the ratio, nothing without a bound. */
  function CartRatio(c: Caps, delta: Vec): real
    requires ValidCaps(c)
  {
    if c.cart.None? then 0.0 else CartLength(c.cart.value, delta) / c.cart.value.step
  }

  lemma CartRatioWithin(c: Caps, delta: Vec, b: real)
    requires ValidCaps(c) && b >= 0.0
    ensures CartRatio(c, delta) <= b <==> CartWithin(c, delta, b)
  {
    if c.cart.Some? {
      QuotientBound(CartLength(c.cart.value, delta), c.cart.value.step, b);
    }
  }

  lemma MaxWithin(x: real, y: real, b: real)
    ensures MaxR(x, y) <= b <==> x <= b && y <= b
  {
  }

  // -- scaling ------------------------------------------------------------------------------

  /** `delta` is `f` times `base`, coordinate by coordinate. */
  ghost predicate Scales(delta: Vec, base: Vec, f: real) {
    |delta| == |base| && forall d :: 0 <= d < |base| ==> delta[d] == f * base[d]
  }

  lemma ScaledAbs(f: real, x: real)
    requires f >= 0.0
    ensures Abs(f * x) == f * Abs(x)
  {
  }

  lemma ScaledBound(f: real, x: real, b: real, l: real)
    requires f >= 0.0 && x <= b * l
    ensures f * x <= (f * b) * l
  {
    assert f * x <= f * (b * l);
  }

  lemma {:induction false} LeverSumScales(lever: Vec, delta: Vec, base: Vec, f: real, d: nat)
    requires f >= 0.0 && Scales(delta, base, f) && d <= |base| && d <= |lever|
    ensures LeverSum(lever, delta, d) == f * LeverSum(lever, base, d)
  {
    if d > 0 {
      LeverSumScales(lever, delta, base, f, d - 1);
      ScaledAbs(f, base[d - 1]);
      ScaledSum(f, LeverSum(lever, base, d - 1), Abs(base[d - 1]), lever[d - 1]);
    }
  }

  lemma ScaledSum(f: real, s: real, x: real, w: real)
    ensures f * s + (f * x) * w == f * (s + x * w)
  {
  }

  lemma SlotScales(c: Caps, delta: Vec, base: Vec, f: real, b: real, j: int)
    requires f >= 0.0 && Scales(delta, base, f) && 0 <= j < |base| && SlotWithin(c, base, j, b)
    ensures SlotWithin(c, delta, j, f * b)
  {
    ScaledAbs(f, base[j]);
    ScaledBound(f, Abs(base[j]), b, Limit(c, j));
  }

  lemma CartScales(c: Caps, delta: Vec, base: Vec, f: real, b: real)
    requires f >= 0.0 && Scales(delta, base, f) && CartWithin(c, base, b)
    ensures CartWithin(c, delta, f * b)
  {
    if c.cart.Some? {
      CartLengthScales(c.cart.value, delta, base, f);
      ScaledBound(f, CartLength(c.cart.value, base), b, c.cart.value.step);
    }
  }

  lemma CartLengthScales(b: CartBound, delta: Vec, base: Vec, f: real)
    requires f >= 0.0 && Scales(delta, base, f)
    ensures CartLength(b, delta) == f * CartLength(b, base)
  {
    LeverSumScales(b.lever, delta, base, f, if |delta| < |b.lever| then |delta| else |b.lever|);
  }

  /** Scaling a step scales the number of caps it fits into. */
  lemma WithinScales(c: Caps, delta: Vec, base: Vec, f: real, b: real, fb: real)
    requires f >= 0.0 && Scales(delta, base, f) && WithinCaps(c, base, b) && fb == f * b
    ensures WithinCaps(c, delta, fb)
  {
    forall j | 0 <= j < |delta|
      ensures SlotWithin(c, delta, j, fb)
    {
      SlotScales(c, delta, base, f, b, j);
    }
    CartScales(c, delta, base, f, b);
  }

  /** A measure of steps, in caps. */
  type Measure = Vec -> real

  function CapMeasure(c: Caps): Measure
    requires ValidCaps(c)
  {
    (delta: Vec) => Ratio(c, delta)
  }

  /** A fraction of a step measures that fraction of it. */
  ghost predicate Homogeneous(measure: Measure) {
    forall v, w, g :: g > 0.0 && Scales(v, w, g) ==> MeasureScales(measure, v, w, g)
  }

  ghost predicate MeasureScales(measure: Measure, v: Vec, w: Vec, g: real) {
    measure(v) == g * measure(w)
  }

  /** `measure` is the least bound that `fits` a step. */
  ghost predicate IsLeast(measure: Measure, fits: (Vec, real) -> bool) {
    forall v, b :: b >= 0.0 ==> (fits(v, b) <==> measure(v) <= b)
  }

  ghost predicate ScalesFits(fits: (Vec, real) -> bool) {
    forall v, w, g, b, gb :: g > 0.0 && Scales(v, w, g) && gb == g * b && fits(w, b) ==> fits(v, gb)
  }

  lemma LeastShrinks(measure: Measure, fits: (Vec, real) -> bool, v: Vec, w: Vec, g: real)
    requires IsLeast(measure, fits) && ScalesFits(fits) && g > 0.0 && Scales(v, w, g) && measure(w) >= 0.0
    ensures measure(v) <= g * measure(w)
  {
    var b := measure(w);
    var gb := g * b;
    assert fits(w, b);
    assert fits(v, gb);
    MulMono(0.0, b, g);
  }

  lemma Squeeze(f: real, g: real, r: real, r': real)
    requires f > 0.0 && g * f == 1.0 && r' <= f * r && r <= g * r'
    ensures r' == f * r
  {
    assert f * r <= f * (g * r');
    assert f * (g * r') == (g * f) * r';
  }

  lemma Unscale(delta: Vec, base: Vec, f: real, g: real)
    requires g * f == 1.0 && Scales(delta, base, f)
    ensures Scales(base, delta, g)
  {
    forall d | 0 <= d < |base|
      ensures base[d] == g * delta[d]
    {
      assert g * (f * base[d]) == (g * f) * base[d];
    }
  }

  lemma Inverse(f: real) returns (g: real)
    requires f > 0.0
    ensures g > 0.0 && g * f == 1.0
  {
    g := 1.0 / f;
  }

  /** The least bound of a notion that scales with the step scales with the step. */
  lemma LeastIsHomogeneous(measure: Measure, fits: (Vec, real) -> bool)
    requires IsLeast(measure, fits) && ScalesFits(fits) && forall v :: measure(v) >= 0.0
    ensures Homogeneous(measure)
  {
    forall v, w, g | g > 0.0 && Scales(v, w, g)
      ensures MeasureScales(measure, v, w, g)
    {
      var h := Inverse(g);
      Unscale(v, w, g, h);
      LeastShrinks(measure, fits, v, w, g);
      LeastShrinks(measure, fits, w, v, h);
      Squeeze(g, h, measure(w), measure(v));
    }
  }

  ghost function CapFits(c: Caps): (Vec, real) -> bool {
    (v: Vec, b: real) => WithinCaps(c, v, b)
  }

  lemma CapMeasureIsLeast(c: Caps)
    requires ValidCaps(c)
    ensures IsLeast(CapMeasure(c), CapFits(c))
  {
    forall v, b | b >= 0.0
      ensures CapFits(c)(v, b) <==> CapMeasure(c)(v) <= b
    {
      RatioIsLeast(c, v, b);
    }
  }

  lemma CapFitsScales(c: Caps)
    ensures ScalesFits(CapFits(c))
  {
    forall v, w, g, b, gb | g > 0.0 && Scales(v, w, g) && gb == g * b && CapFits(c)(w, b)
      ensures CapFits(c)(v, gb)
    {
      WithinScales(c, v, w, g, b, gb);
    }
  }

  lemma CapMeasureNonNegative(c: Caps)
    requires ValidCaps(c)
    ensures forall v :: CapMeasure(c)(v) >= 0.0
  {
  }

  /** The executor's ratio is homogeneous. */
  lemma CapMeasureIsHomogeneous(c: Caps)
    requires ValidCaps(c)
    ensures Homogeneous(CapMeasure(c))
  {
    CapMeasureIsLeast(c);
    CapFitsScales(c);
    CapMeasureNonNegative(c);
    LeastIsHomogeneous(CapMeasure(c), CapFits(c));
  }

  // -- steps below the arrival tolerance ------------------------------------------------------

  /** Caps large enough that half of one is not mistaken for an arrival. */
  predicate AboveTolerance(c: Caps) {
    && c.slew >= 2.0 * ARRIVAL_TOL && c.rail >= 2.0 * ARRIVAL_TOL
    && (c.cart.Some? ==> c.cart.value.step >= 2.0 * ARRIVAL_TOL * Total(c.cart.value.lever, |c.cart.value.lever|))
  }

  function Total(v: Vec, d: nat): real
    requires d <= |v|
  {
    if d == 0 then 0.0 else Total(v, d - 1) + v[d - 1]
  }

  ghost predicate AllWithin(delta: Vec, t: real) {
    forall d :: 0 <= d < |delta| ==> Abs(delta[d]) < t
  }

  lemma {:induction false} LeverSumWithin(lever: Vec, delta: Vec, d: nat)
    requires d <= |delta| && d <= |lever| && AllWithin(delta, ARRIVAL_TOL)
    requires forall j :: 0 <= j < |lever| ==> lever[j] >= 0.0
    ensures LeverSum(lever, delta, d) <= ARRIVAL_TOL * Total(lever, d)
  {
    if d > 0 {
      LeverSumWithin(lever, delta, d - 1);
      Accumulate(LeverSum(lever, delta, d - 1), Total(lever, d - 1), Abs(delta[d - 1]), ARRIVAL_TOL, lever[d - 1]);
    }
  }

  lemma Accumulate(s: real, total: real, x: real, t: real, w: real)
    requires s <= t * total && x <= t && w >= 0.0
    ensures s + x * w <= t * (total + w)
  {
    assert x * w <= t * w;
    assert t * (total + w) == t * total + t * w;
  }

  lemma {:induction false} TotalGrows(v: Vec, d: nat, e: nat)
    requires d <= e <= |v| && forall j :: 0 <= j < |v| ==> v[j] >= 0.0
    ensures 0.0 <= Total(v, d) <= Total(v, e)
    decreases e
  {
    if d < e {
      TotalGrows(v, d, e - 1);
    } else if d > 0 {
      TotalGrows(v, d - 1, d - 1);
    }
  }

  /** A step the arrival test would take for nothing is at most half a cap. */
  lemma TinyStep(c: Caps, delta: Vec)
    requires ValidCaps(c) && AboveTolerance(c) && AllWithin(delta, ARRIVAL_TOL)
    ensures Ratio(c, delta) <= 0.5
  {
    if c.cart.Some? {
      var lever := c.cart.value.lever;
      var n := if |delta| < |lever| then |delta| else |lever|;
      LeverSumWithin(lever, delta, n);
      TotalGrows(lever, n, |lever|);
    }
    RatioIsLeast(c, delta, 0.5);
  }

  /** The arrival test never takes a step short of the target for nothing: whatever it would
      take for nothing measures at most half a cap. */
  ghost predicate Resolves(measure: Measure) {
    forall v :: AllWithin(v, ARRIVAL_TOL) ==> measure(v) <= 0.5
  }

  lemma CapMeasureResolves(c: Caps)
    requires ValidCaps(c) && AboveTolerance(c)
    ensures Resolves(CapMeasure(c))
  {
    forall v | AllWithin(v, ARRIVAL_TOL)
      ensures CapMeasure(c)(v) <= 0.5
    {
      TinyStep(c, v);
    }
  }

  // -- the lever sum, written out -----------------------------------------------------------

  /** Slot `j`, or nothing where the vector ends before it. */
  function At(v: Vec, j: nat): real {
    if j < |v| then v[j] else 0.0
  }

  ghost function SumTo(p: seq<real>, k: nat): real
    requires k <= |p|
  {
    if k == 0 then 0.0 else SumTo(p, k - 1) + p[k - 1]
  }

  lemma {:induction false} SumOfFront(p: seq<real>, x: real, k: nat)
    requires k <= |p|
    ensures SumTo(p + [x], k) == SumTo(p, k)
  {
    if k > 0 {
      SumOfFront(p, x, k - 1);
    }
  }

  lemma SevenTerms(p: seq<real>)
    requires |p| == 7
    ensures SumTo(p, 7) == p[0] + p[1] + p[2] + p[3] + p[4] + p[5] + p[6]
  {
    assert SumTo(p, 1) == p[0];
    assert SumTo(p, 2) == p[0] + p[1];
    assert SumTo(p, 4) == SumTo(p, 2) + p[2] + p[3];
    assert SumTo(p, 6) == SumTo(p, 4) + p[4] + p[5];
  }

  /** The products of a lever sum, one per joint. */
  lemma {:induction false} LeverProducts(lever: Vec, delta: Vec, d: nat, k: nat) returns (p: seq<real>)
    requires d <= |delta| && d <= |lever| && (d == |delta| || d == |lever|)
    ensures |p| == k && forall i :: 0 <= i < k ==> IsProduct(p[i], At(delta, i), At(lever, i))
    ensures SumTo(p, k) == FirstProducts(lever, delta, d, k)
  {
    if k == 0 {
      p := [];
    } else {
      var front := LeverProducts(lever, delta, d, k - 1);
      var x := OneMoreProduct(lever, delta, d, k - 1);
      p := front + [x];
      SumOfFront(front, x, k - 1);
      ProductsGrow(lever, delta, front, x);
    }
  }

  lemma ProductsGrow(lever: Vec, delta: Vec, front: seq<real>, x: real)
    requires forall i :: 0 <= i < |front| ==> IsProduct(front[i], At(delta, i), At(lever, i))
    requires IsProduct(x, At(delta, |front|), At(lever, |front|))
    ensures forall i :: 0 <= i < |front| + 1 ==> IsProduct((front + [x])[i], At(delta, i), At(lever, i))
  {
  }

  lemma OneMoreProduct(lever: Vec, delta: Vec, d: nat, k: nat) returns (p: real)
    requires d <= |delta| && d <= |lever| && (d == |delta| || d == |lever|)
    ensures IsProduct(p, At(delta, k), At(lever, k)) && FirstProducts(lever, delta, d, k + 1) == FirstProducts(lever, delta, d, k) + p
  {
    NextProduct(lever, delta, d, k);
    p := Abs(At(delta, k)) * At(lever, k);
  }

  ghost predicate IsProduct(p: real, x: real, w: real) {
    p == Abs(x) * w
  }

  /** The first `k` of them. */
  ghost function FirstProducts(lever: Vec, delta: Vec, d: nat, k: nat): real
    requires d <= |delta| && d <= |lever|
  {
    LeverSum(lever, delta, if k < d then k else d)
  }

  lemma NextProduct(lever: Vec, delta: Vec, d: nat, k: nat)
    requires d <= |delta| && d <= |lever| && (d == |delta| || d == |lever|)
    ensures FirstProducts(lever, delta, d, k + 1) == FirstProducts(lever, delta, d, k) + Abs(At(delta, k)) * At(lever, k)
  {
    if k < d {
      assert At(delta, k) == delta[k] && At(lever, k) == lever[k];
      assert LeverSum(lever, delta, k + 1) == LeverSum(lever, delta, k) + Abs(delta[k]) * lever[k];
    } else {
      NoProduct(Abs(At(delta, k)), At(lever, k));
      assert FirstProducts(lever, delta, d, k + 1) == FirstProducts(lever, delta, d, k) == LeverSum(lever, delta, d);
    }
  }

  lemma NoProduct(x: real, w: real)
    requires x == 0.0 || w == 0.0
    ensures x * w == 0.0
  {
  }
}
