/** The per-tick joint step cap of the control loop (control/loop.py:594-681): the seven arm
    joints shrink by one common factor, the carriage is bounded on its own. */
module JointCap {
  import opened Prelude
  import opened StepRatio
  import opened PlanExecution

  /** Carriage travel in metres. */
  const RAIL_TRAVEL_M := 0.65

  /** What bounds a tick of the loop: the joint cap, which may be mis-derived and not
      positive, and the Cartesian bound a driver published. */
  datatype LoopCaps = LoopCaps(dqMax: real, cart: Option<CartBound>)

  predicate ValidBound(c: LoopCaps) {
    c.cart.Some? ==>
      && c.cart.value.step > 0.0 && |c.cart.value.lever| <= N_JOINTS
      && forall j :: 0 <= j < |c.cart.value.lever| ==> c.cart.value.lever[j] >= 0.0
  }

  function AsCaps(c: LoopCaps): Caps {
    Caps(c.dqMax, c.dqMax, c.cart)
  }

  /** A posture of an arm with or without a carriage. */
  predicate Posture(q: Vec) {
    |q| == N_JOINTS || |q| == N_JOINTS + 1
  }

  function Clamp(x: real, lo: real, hi: real): (r: real)
    ensures lo <= hi ==> lo <= r <= hi && (lo <= x <= hi ==> r == x)
  {
    MinR(MaxR(x, lo), hi)
  }

  /** The joint step asked for this tick. */
  function JointStep(q: Vec, qLast: Vec): (d: Vec)
    requires Posture(q) && Posture(qLast)
    ensures |d| == N_JOINTS
  {
    Delta(qLast[..N_JOINTS], q[..N_JOINTS])
  }

  function Shortened(qLast: Vec, dq: Vec, ratio: real): (r: Vec)
    requires |qLast| == |dq| && ratio > 0.0
    ensures |r| == |dq|
  {
    seq(|dq|, j requires 0 <= j < |dq| => qLast[j] + dq[j] / ratio)
  }

  function CapJoints(c: LoopCaps, q: Vec, qLast: Vec): (r: (Vec, bool))
    requires ValidBound(c) && c.dqMax > 0.0 && Posture(q) && |q| == |qLast|
    ensures |r.0| == N_JOINTS
  {
    var dq := JointStep(q, qLast);
    var ratio := Ratio(AsCaps(c), dq);
    if ratio > 1.0 + RATIO_EPS then (Shortened(qLast[..N_JOINTS], dq, ratio), true) else (q[..N_JOINTS], false)
  }

  function CapRail(c: LoopCaps, x: real, xLast: real): real
    requires c.dqMax > 0.0
  {
    Clamp(Clamp(x, xLast - c.dqMax, xLast + c.dqMax), 0.0, RAIL_TRAVEL_M)
  }

  /** The posture commanded this tick and whether the joint step was cut. */
  function CapJointStep(c: LoopCaps, q: Vec, qLast: Vec): (r: (Vec, bool))
    requires ValidBound(c) && Posture(q) && |q| == |qLast|
    ensures |r.0| == |q|
  {
    if c.dqMax <= 0.0 then
      var moved := q[..N_JOINTS] != qLast[..N_JOINTS];
      if |q| == N_JOINTS then (qLast, moved)
      else
        (qLast[..N_JOINTS] + [Clamp(qLast[N_JOINTS], 0.0, RAIL_TRAVEL_M)], moved || q[N_JOINTS] != qLast[N_JOINTS])
    else
      var (joints, capped) := CapJoints(c, q, qLast);
      if |q| == N_JOINTS then (joints, capped) else (joints + [CapRail(c, q[N_JOINTS], qLast[N_JOINTS])], capped)
  }

  /** The Cartesian bound as the loop reads it from the configuration. */
  function BoundOf(cfg: JogConfig): Option<CartBound> {
    if cfg.planCart.None? || cfg.planLever.None? || cfg.planCart.value <= 0.0 then None
    else
      var lever := cfg.planLever.value;
      Some(CartBound(cfg.planCart.value, if |lever| > N_JOINTS then lever[..N_JOINTS] else lever))
  }

  /** Loop and executor read the same bound. */
  lemma SameBound(cfg: JogConfig)
    ensures BoundOf(cfg) == CapsOf(cfg).cart
  {
  }

  // -- what fits into a tick ----------------------------------------------------------------

  /** No joint moves by more than `b` caps. */
  ghost predicate JointsFit(c: LoopCaps, qLast: Vec, q: Vec, b: real)
    requires Posture(q) && |q| == |qLast|
  {
    forall j :: 0 <= j < N_JOINTS ==> Abs(q[j] - qLast[j]) <= b * c.dqMax
  }

  /** The lever-weighted way of the seven joints is at most `b` bounds, if there is one. */
  ghost predicate LeversFitLoop(c: LoopCaps, qLast: Vec, q: Vec, b: real) {
    c.cart.Some? ==> AtMost(LeverWay(c.cart.value.lever, qLast, q), b, c.cart.value.step)
  }

  ghost predicate FitsLoop(c: LoopCaps, qLast: Vec, q: Vec, b: real)
    requires Posture(q) && |q| == |qLast|
  {
    JointsFit(c, qLast, q, b) && LeversFitLoop(c, qLast, q, b)
  }

  lemma SevenJointsWay(lever: Vec, qLast: Vec, q: Vec)
    requires Posture(q) && |q| == |qLast|
    ensures LeverWay(lever, qLast, q) == LeverWay(lever, qLast[..N_JOINTS], q[..N_JOINTS])
  {
    var p := seq(7, j requires 0 <= j < 7 => LeverTerm(lever, qLast, q, j));
    forall j: nat | j < 7
      ensures IsLeverWay(p[j], lever, qLast, q, j) && IsLeverWay(p[j], lever, qLast[..N_JOINTS], q[..N_JOINTS], j)
    {
      SameTerm(lever, qLast, q, j);
    }
    SevenWays(p, lever, qLast, q);
    SevenWays(p, lever, qLast[..N_JOINTS], q[..N_JOINTS]);
  }

  lemma SameTerm(lever: Vec, qLast: Vec, q: Vec, j: nat)
    requires Posture(q) && |q| == |qLast| && j < N_JOINTS
    ensures LeverTerm(lever, qLast, q, j) == LeverTerm(lever, qLast[..N_JOINTS], q[..N_JOINTS], j)
  {
    assert Way(qLast, q, j) == Way(qLast[..N_JOINTS], q[..N_JOINTS], j);
  }

  lemma CartIsLoops(c: LoopCaps, qLast: Vec, q: Vec, b: real)
    requires ValidBound(c) && c.cart.Some? && Posture(q) && |q| == |qLast|
    ensures CartWithin(AsCaps(c), JointStep(q, qLast), b) <==> LeversFitLoop(c, qLast, q, b)
  {
    LengthIsLoops(c.cart.value, qLast, q);
    CartUnder(AsCaps(c), JointStep(q, qLast), b, LeverWay(c.cart.value.lever, qLast, q), c.cart.value.step);
  }

  lemma LengthIsLoops(bound: CartBound, qLast: Vec, q: Vec)
    requires |bound.lever| <= N_JOINTS && Posture(q) && |q| == |qLast|
    ensures CartLength(bound, JointStep(q, qLast)) == LeverWay(bound.lever, qLast, q)
  {
    LeverWayIs(bound.lever, bound.lever, qLast[..N_JOINTS], q[..N_JOINTS]);
    SevenJointsWay(bound.lever, qLast, q);
  }

  lemma JointIsLoops(c: LoopCaps, qLast: Vec, q: Vec, b: real, j: int)
    requires Posture(q) && |q| == |qLast| && 0 <= j < N_JOINTS
    ensures SlotWithin(AsCaps(c), JointStep(q, qLast), j, b) <==> Abs(q[j] - qLast[j]) <= b * c.dqMax
  {
  }

  lemma JointsAreLoops(c: LoopCaps, qLast: Vec, q: Vec, b: real)
    requires Posture(q) && |q| == |qLast|
    ensures (forall j :: 0 <= j < N_JOINTS ==> SlotWithin(AsCaps(c), JointStep(q, qLast), j, b)) <==> JointsFit(c, qLast, q, b)
  {
    forall j | 0 <= j < N_JOINTS
      ensures SlotWithin(AsCaps(c), JointStep(q, qLast), j, b) <==> Abs(q[j] - qLast[j]) <= b * c.dqMax
    {
      JointIsLoops(c, qLast, q, b, j);
    }
  }

  /** The loop's caps, joint by joint and lever by lever. */
  lemma CapsAreLoops(c: LoopCaps, qLast: Vec, q: Vec, b: real)
    requires ValidBound(c) && Posture(q) && |q| == |qLast|
    ensures WithinCaps(AsCaps(c), JointStep(q, qLast), b) <==> FitsLoop(c, qLast, q, b)
  {
    JointsAreLoops(c, qLast, q, b);
    if c.cart.Some? {
      CartIsLoops(c, qLast, q, b);
    }
  }

  // -- the joints ---------------------------------------------------------------------------

  lemma ReciprocalOf(r: real) returns (f: real)
    requires r > 1.0
    ensures 0.0 < f < 1.0 && f * r == 1.0
  {
    f := 1.0 / r;
  }

  lemma QuotientIsProduct(x: real, r: real, f: real)
    requires r > 0.0 && f * r == 1.0
    ensures x / r == f * x
  {
    assert (f * x) * r == x;
  }

  lemma ShortenedScales(qLast: Vec, dq: Vec, ratio: real, f: real)
    requires |qLast| == |dq| && ratio > 0.0 && f * ratio == 1.0
    ensures Scales(Delta(qLast, Shortened(qLast, dq, ratio)), dq, f)
  {
    forall j | 0 <= j < |dq|
      ensures Delta(qLast, Shortened(qLast, dq, ratio))[j] == f * dq[j]
    {
      QuotientIsProduct(dq[j], ratio, f);
    }
  }

  lemma SameScales(v: Vec)
    ensures Scales(v, v, 1.0)
  {
  }

  /** The joints keep the direction asked for: the commanded step is the asked one times a
      common factor, one unless the step was cut; a cut step is exactly one cap long and an
      uncut one at most one cap and the tolerance. */
  lemma CapKeepsDirection(c: LoopCaps, q: Vec, qLast: Vec) returns (f: real)
    requires ValidBound(c) && c.dqMax > 0.0 && Posture(q) && |q| == |qLast|
    ensures var (out, capped) := CapJointStep(c, q, qLast);
            && 0.0 < f <= 1.0 && Scales(JointStep(out, qLast), JointStep(q, qLast), f)
            && (capped <==> f < 1.0) && (!capped ==> out[..N_JOINTS] == q[..N_JOINTS])
            && (if capped then Ratio(AsCaps(c), JointStep(out, qLast)) == 1.0
                else Ratio(AsCaps(c), JointStep(out, qLast)) <= 1.0 + RATIO_EPS)
  {
    var dq := JointStep(q, qLast);
    var ratio := Ratio(AsCaps(c), dq);
    var (joints, capped) := CapJoints(c, q, qLast);
    var out := CapJointStep(c, q, qLast).0;
    assert out[..N_JOINTS] == joints;
    if capped {
      f := ReciprocalOf(ratio);
      ShortenedScales(qLast[..N_JOINTS], dq, ratio, f);
      CutIsOneCap(AsCaps(c), JointStep(out, qLast), dq, f, ratio);
    } else {
      f := 1.0;
      SameScales(dq);
    }
  }

  lemma CutIsOneCap(c: Caps, step: Vec, dq: Vec, f: real, r: real)
    requires ValidCaps(c) && f > 0.0 && Scales(step, dq, f) && r == Ratio(c, dq) && f * r == 1.0
    ensures Ratio(c, step) == 1.0
  {
    var measure := CapMeasure(c);
    assert measure(dq) == r;
    CapMeasureIsHomogeneous(c);
    MeasuresOne(measure, step, dq, f, r);
  }

  lemma MeasuresOne(measure: Measure, step: Vec, dq: Vec, f: real, r: real)
    requires Homogeneous(measure) && f > 0.0 && Scales(step, dq, f) && r == measure(dq) && f * r == 1.0
    ensures measure(step) == 1.0
  {
    assert MeasureScales(measure, step, dq, f);
  }

  /** Every joint and the lever-weighted step stay within their bounds, up to the tolerance. */
  lemma CapBoundsTheStep(c: LoopCaps, q: Vec, qLast: Vec)
    requires ValidBound(c) && c.dqMax > 0.0 && Posture(q) && |q| == |qLast|
    ensures FitsLoop(c, qLast, CapJointStep(c, q, qLast).0, 1.0 + RATIO_EPS)
  {
    var f := CapKeepsDirection(c, q, qLast);
    var out := CapJointStep(c, q, qLast).0;
    RatioIsLeast(AsCaps(c), JointStep(out, qLast), 1.0 + RATIO_EPS);
    CapsAreLoops(c, qLast, out, 1.0 + RATIO_EPS);
  }

  /** A step is cut exactly if it is longer than one cap and the tolerance, and then to one cap: it
      fits into one and into nothing shorter. */
  lemma CutExactly(c: LoopCaps, q: Vec, qLast: Vec)
    requires ValidBound(c) && c.dqMax > 0.0 && Posture(q) && |q| == |qLast|
    ensures CapJointStep(c, q, qLast).1 <==> !FitsLoop(c, qLast, q, 1.0 + RATIO_EPS)
    ensures CapJointStep(c, q, qLast).1 ==> FitsLoop(c, qLast, CapJointStep(c, q, qLast).0, 1.0)
    ensures CapJointStep(c, q, qLast).1 ==> forall b :: 0.0 <= b < 1.0 ==> !FitsLoop(c, qLast, CapJointStep(c, q, qLast).0, b)
  {
    var f := CapKeepsDirection(c, q, qLast);
    var out := CapJointStep(c, q, qLast).0;
    RatioIsLeast(AsCaps(c), JointStep(q, qLast), 1.0 + RATIO_EPS);
    CapsAreLoops(c, qLast, q, 1.0 + RATIO_EPS);
    if CapJointStep(c, q, qLast).1 {
      RatioIsLeast(AsCaps(c), JointStep(out, qLast), 1.0);
      CapsAreLoops(c, qLast, out, 1.0);
      forall b | 0.0 <= b < 1.0
        ensures !FitsLoop(c, qLast, out, b)
      {
        RatioIsLeast(AsCaps(c), JointStep(out, qLast), b);
        CapsAreLoops(c, qLast, out, b);
      }
    }
  }

  /** A cap that is not positive never lets a joint move. */
  lemma BadCapHolds(c: LoopCaps, q: Vec, qLast: Vec)
    requires ValidBound(c) && c.dqMax <= 0.0 && Posture(q) && |q| == |qLast|
    ensures CapJointStep(c, q, qLast).0[..N_JOINTS] == qLast[..N_JOINTS]
    ensures !CapJointStep(c, q, qLast).1 <==> q == qLast
  {
    assert |q| == N_JOINTS ==> qLast[..N_JOINTS] == qLast && q[..N_JOINTS] == q;
    if |q| > N_JOINTS {
      assert q == q[..N_JOINTS] + [q[N_JOINTS]] && qLast == qLast[..N_JOINTS] + [qLast[N_JOINTS]];
    }
  }

  // -- the carriage -------------------------------------------------------------------------

  /** The commanded carriage is always in travel, and moves at most `dqMax` from a command
      that was. */
  lemma CapKeepsRailInTravel(c: LoopCaps, q: Vec, qLast: Vec)
    requires ValidBound(c) && Posture(q) && |q| == |qLast| == N_JOINTS + 1
    ensures var x, xLast := CapJointStep(c, q, qLast).0[N_JOINTS], qLast[N_JOINTS];
            && 0.0 <= x <= RAIL_TRAVEL_M
            && (0.0 <= xLast <= RAIL_TRAVEL_M ==> Abs(x - xLast) <= MaxR(c.dqMax, 0.0))
  {
  }

  /** The carriage goes as far towards where it is asked as one cap and its travel allow: no position
      within both is nearer. */
  lemma RailGoesNearest(c: LoopCaps, q: Vec, qLast: Vec, y: real)
    requires ValidBound(c) && c.dqMax > 0.0 && |q| == |qLast| == N_JOINTS + 1
    requires 0.0 <= qLast[N_JOINTS] <= RAIL_TRAVEL_M && 0.0 <= y <= RAIL_TRAVEL_M && Abs(y - qLast[N_JOINTS]) <= c.dqMax
    ensures Abs(CapJointStep(c, q, qLast).0[N_JOINTS] - q[N_JOINTS]) <= Abs(y - q[N_JOINTS])
  {
  }

  lemma RailUnchanged(c: LoopCaps, x: real, xLast: real)
    requires c.dqMax > 0.0 && 0.0 <= xLast <= RAIL_TRAVEL_M
    ensures CapRail(c, x, xLast) == x <==> 0.0 <= x <= RAIL_TRAVEL_M && Abs(x - xLast) <= c.dqMax
  {
  }

  lemma RailTwice(c: LoopCaps, x: real, xLast: real)
    requires c.dqMax > 0.0
    ensures CapRail(c, CapRail(c, x, xLast), xLast) == CapRail(c, x, xLast)
  {
  }

  // -- the whole step -----------------------------------------------------------------------

  lemma SameJoints(c: LoopCaps, q: Vec, q': Vec, qLast: Vec)
    requires ValidBound(c) && c.dqMax > 0.0 && Posture(q) && |q| == |q'| == |qLast|
    requires Ratio(AsCaps(c), JointStep(q, qLast)) <= 1.0 + RATIO_EPS
    ensures CapJoints(c, q, qLast) == (q[..N_JOINTS], false)
  {
  }

  /** Capping twice is capping once: a capped step is never cut again. */
  lemma CapIsIdempotent(c: LoopCaps, q: Vec, qLast: Vec)
    requires ValidBound(c) && Posture(q) && |q| == |qLast|
    ensures var out := CapJointStep(c, q, qLast).0;
            CapJointStep(c, out, qLast).0 == out && (c.dqMax > 0.0 ==> !CapJointStep(c, out, qLast).1)
  {
    var out := CapJointStep(c, q, qLast).0;
    if c.dqMax > 0.0 {
      var f := CapKeepsDirection(c, q, qLast);
      SameJoints(c, out, q, qLast);
      if |q| > N_JOINTS {
        RailTwice(c, q[N_JOINTS], qLast[N_JOINTS]);
        assert out == out[..N_JOINTS] + [out[N_JOINTS]];
      } else {
        assert out == out[..N_JOINTS];
      }
    }
  }

  /** Exactly the steps that pass unchanged: at most one cap and the tolerance for the joints,
      and for the carriage at most one cap, without tolerance, inside its travel. */
  ghost predicate Passes(c: LoopCaps, q: Vec, qLast: Vec)
    requires ValidBound(c) && c.dqMax > 0.0 && Posture(q) && |q| == |qLast|
  {
    && FitsLoop(c, qLast, q, 1.0 + RATIO_EPS)
    && (|q| > N_JOINTS ==>
          0.0 <= q[N_JOINTS] <= RAIL_TRAVEL_M && Abs(q[N_JOINTS] - qLast[N_JOINTS]) <= c.dqMax)
  }

  /** A cut step is never the one asked for: it measures exactly one cap. */
  lemma CutChanges(c: LoopCaps, q: Vec, qLast: Vec)
    requires ValidBound(c) && c.dqMax > 0.0 && Posture(q) && |q| == |qLast| && CapJointStep(c, q, qLast).1
    ensures CapJointStep(c, q, qLast).0 != q
  {
    var f := CapKeepsDirection(c, q, qLast);
  }

  lemma CapKeepsExactly(c: LoopCaps, q: Vec, qLast: Vec)
    requires ValidBound(c) && c.dqMax > 0.0 && Posture(q) && |q| == |qLast|
    requires |q| > N_JOINTS ==> 0.0 <= qLast[N_JOINTS] <= RAIL_TRAVEL_M
    ensures CapJointStep(c, q, qLast).0 == q <==> Passes(c, q, qLast)
  {
    CutExactly(c, q, qLast);
    var (out, capped) := CapJointStep(c, q, qLast);
    if capped {
      CutChanges(c, q, qLast);
    } else {
      assert q == q[..N_JOINTS] + q[N_JOINTS..];
      if |q| > N_JOINTS {
        RailUnchanged(c, q[N_JOINTS], qLast[N_JOINTS]);
        assert out[N_JOINTS] == q[N_JOINTS] <==> out == q;
      }
    }
  }

  // -- capping a plan -----------------------------------------------------------------------

  /** The executor's joint and Cartesian caps are no looser than the loop's; the Cartesian
      bound is read from the same configuration. */
  predicate NoLooser(plan: Caps, c: LoopCaps) {
    plan.slew <= c.dqMax && plan.cart == c.cart
  }

  lemma SlotTightens(x: real, b: real, l: real, m: real)
    requires x <= b * l && l <= m && b >= 0.0
    ensures x <= b * m
  {
    MulMono(l, m, b);
  }

  lemma {:induction false} LeverSumFront(lever: Vec, v: Vec, w: Vec, d: nat)
    requires d <= |lever| && d <= |v| && d <= |w| && forall j :: 0 <= j < d ==> v[j] == w[j]
    ensures LeverSum(lever, v, d) == LeverSum(lever, w, d)
  {
    if d > 0 {
      LeverSumFront(lever, v, w, d - 1);
    }
  }

  lemma JointsWithinLoop(plan: Caps, c: LoopCaps, q: Vec, qLast: Vec, b: real)
    requires ValidCaps(plan) && ValidBound(c) && NoLooser(plan, c) && Posture(q) && |q| == |qLast|
    requires b >= 0.0 && WithinCaps(plan, Delta(qLast, q), b)
    ensures WithinCaps(AsCaps(c), JointStep(q, qLast), b)
  {
    var whole, step := Delta(qLast, q), JointStep(q, qLast);
    forall j | 0 <= j < |step|
      ensures SlotWithin(AsCaps(c), step, j, b)
    {
      assert SlotWithin(plan, whole, j, b);
      SlotTightens(Abs(step[j]), b, plan.slew, c.dqMax);
    }
    if c.cart.Some? {
      var lever := c.cart.value.lever;
      LeverSumFront(lever, whole, step, |lever|);
    }
  }

  /** Capping never bends a validated segment: an executor step, inside the tolerance of its
      own caps, passes unchanged exactly when its carriage part is within the loop's cap; its
      joints are never cut. */
  lemma PlanStepPasses(plan: Caps, c: LoopCaps, q: Vec, qLast: Vec, b: real)
    requires ValidCaps(plan) && ValidBound(c) && NoLooser(plan, c) && Posture(q) && |q| == |qLast|
    requires 0.0 <= b <= 1.0 + RATIO_EPS && WithinCaps(plan, Delta(qLast, q), b)
    requires |q| > N_JOINTS ==> 0.0 <= qLast[N_JOINTS] <= RAIL_TRAVEL_M && 0.0 <= q[N_JOINTS] <= RAIL_TRAVEL_M
    ensures !CapJointStep(c, q, qLast).1
    ensures CapJointStep(c, q, qLast).0 == q
       <==> (|q| > N_JOINTS ==> Abs(q[N_JOINTS] - qLast[N_JOINTS]) <= c.dqMax)
  {
    JointsWithinLoop(plan, c, q, qLast, b);
    var dq := JointStep(q, qLast);
    RatioIsLeast(AsCaps(c), dq, b);
    RatioIsLeast(AsCaps(c), dq, 1.0 + RATIO_EPS);
    CapsAreLoops(c, qLast, q, 1.0 + RATIO_EPS);
    CapKeepsExactly(c, q, qLast);
  }

  lemma RailUnder(x: real, b: real, e: real, l: real, m: real)
    requires x <= b * l && b <= e && l >= 0.0 && l * e <= m
    ensures x <= m
  {
    MulMono(b, e, l);
  }

  /** With the executor's carriage cap under the loop's by the tolerance every executor step
      passes. */
  lemma PlanStepPassesUnchanged(plan: Caps, c: LoopCaps, q: Vec, qLast: Vec, b: real)
    requires ValidCaps(plan) && ValidBound(c) && NoLooser(plan, c) && Posture(q) && |q| == |qLast|
    requires 0.0 <= b <= 1.0 + RATIO_EPS && WithinCaps(plan, Delta(qLast, q), b)
    requires |q| > N_JOINTS ==> 0.0 <= qLast[N_JOINTS] <= RAIL_TRAVEL_M && 0.0 <= q[N_JOINTS] <= RAIL_TRAVEL_M
    requires |q| > N_JOINTS ==> plan.rail * (1.0 + RATIO_EPS) <= c.dqMax
    ensures CapJointStep(c, q, qLast) == (q, false)
  {
    if |q| > N_JOINTS {
      assert SlotWithin(plan, Delta(qLast, q), N_JOINTS, b);
      RailUnder(Abs(q[N_JOINTS] - qLast[N_JOINTS]), b, 1.0 + RATIO_EPS, plan.rail, c.dqMax);
    }
    PlanStepPasses(plan, c, q, qLast, b);
  }

  lemma ShareUnder(e: real, n: nat) returns (b: real)
    requires e >= 0.0 && n >= 1
    ensures b == 1.0 + e / n as real && 1.0 <= b <= 1.0 + e
  {
    var t := e / n as real;
    assert t * n as real == e;
    if t > e {
      MulMono(1.0, n as real, t);
    }
    b := 1.0 + t;
  }

  /** A whole leg of a plan is commanded as planned: none of its equal steps is cut. */
  lemma LegIsNeverBent(plan: Caps, c: LoopCaps, leg: Vec, path: seq<Vec>, j: nat)
    requires ValidCaps(plan) && ValidBound(c) && NoLooser(plan, c) && j + 1 < |path|
    requires Posture(path[j]) && |path[j + 1]| == |path[j]|
    requires |path[j]| > N_JOINTS ==>
      && 0.0 <= path[j][N_JOINTS] <= RAIL_TRAVEL_M && 0.0 <= path[j + 1][N_JOINTS] <= RAIL_TRAVEL_M
      && plan.rail * (1.0 + RATIO_EPS) <= c.dqMax
    ensures StepOfLeg(plan, leg, path, j) ==> CapJointStep(c, path[j + 1], path[j]) == (path[j + 1], false)
  {
    if StepOfLeg(plan, leg, path, j) {
      var b := ShareUnder(RATIO_EPS, |path| - 1);
      PlanStepPassesUnchanged(plan, c, path[j + 1], path[j], b);
    }
  }

  /** The carriage has no tolerance: with equal carriage caps the executor takes a move of one
      cap and half the tolerance in a single step, and the loop cuts its carriage. */
  lemma CarriageCutAtEqualCaps(plan: Caps, c: LoopCaps, qLast: Vec, q: Vec)
    requires plan == Caps(0.04, 0.04, None) && c == LoopCaps(0.04, None)
    requires qLast == [0.0, 0.0, 0.0, 0.0, 0.0, 0.0, 0.0, 0.0]
    requires q == qLast[N_JOINTS := 0.04 * (1.0 + RATIO_EPS / 2.0)]
    ensures Move(CapMeasure(plan), qLast, q) == q && CapJointStep(c, q, qLast).0 != q
  {
    assert forall j :: 0 <= j < N_JOINTS ==> Delta(qLast, q)[j] == 0.0;
    assert WithinCaps(plan, Delta(qLast, q), 1.0 + RATIO_EPS);
    RatioIsLeast(plan, Delta(qLast, q), 1.0 + RATIO_EPS);
    assert Ticks(CapMeasure(plan), qLast, q) == 1;
    assert CapJointStep(c, q, qLast).0[N_JOINTS] == 0.04;
  }
}
