/** The waypoint executor (control/joint_panel.py:81-193): a segment of `ratio` caps is
    walked in `ceil(ratio)` equal ticks on the straight joint-space line. */
module PlanExecution {
  import opened Prelude
  import opened StepRatio

  /** Control configuration the executor reads (control/joint_panel.py:115-128). */
  datatype JogConfig = JogConfig(slew: real, rail: real, planCart: Option<real>, planLever: Option<Vec>)

  function CapsOf(cfg: JogConfig): (c: Caps)
    ensures c.slew == cfg.slew && c.rail == cfg.rail
    ensures c.cart.Some? ==> c.cart.value.step > 0.0 && |c.cart.value.lever| <= N_JOINTS
  {
    var cart :=
      if cfg.planCart.Some? && cfg.planLever.Some? && cfg.planCart.value > 0.0 then
        Some(CartBound(cfg.planCart.value, if |cfg.planLever.value| <= N_JOINTS then cfg.planLever.value
                                           else cfg.planLever.value[..N_JOINTS]))
      else None;
    Caps(cfg.slew, cfg.rail, cart)
  }

  // -- what the configuration allows --------------------------------------------------------

  /** Both parts of the driver's Cartesian bound are configured. */
  predicate Bounded(cfg: JogConfig) {
    cfg.planCart.Some? && cfg.planLever.Some? && cfg.planCart.value > 0.0
  }

  /** Caps and levers as a configuration has them. */
  predicate ValidConfig(cfg: JogConfig) {
    && cfg.slew > 0.0 && cfg.rail > 0.0
    && (Bounded(cfg) ==> forall j :: 0 <= j < |cfg.planLever.value| && j < N_JOINTS ==> cfg.planLever.value[j] >= 0.0)
  }

  lemma ConfigIsValid(cfg: JogConfig)
    ensures ValidConfig(cfg) <==> ValidCaps(CapsOf(cfg))
  {
    if Bounded(cfg) {
      var lever := CapsOf(cfg).cart.value.lever;
      assert forall j :: 0 <= j < |lever| ==> lever[j] == cfg.planLever.value[j];
    }
  }

  /** How far joint `j` moves. */
  ghost function Way(q: Vec, r: Vec, j: nat): real {
    Abs(At(r, j) - At(q, j))
  }

  /** The step weighted with the levers, joint by joint. */
  ghost function LeverWay(lever: Vec, q: Vec, r: Vec): real {
    LeverTerm(lever, q, r, 0) + LeverTerm(lever, q, r, 1) + LeverTerm(lever, q, r, 2) + LeverTerm(lever, q, r, 3)
    + LeverTerm(lever, q, r, 4) + LeverTerm(lever, q, r, 5) + LeverTerm(lever, q, r, 6)
  }

  ghost function LeverTerm(lever: Vec, q: Vec, r: Vec, j: nat): real {
    Way(q, r, j) * At(lever, j)
  }

  ghost predicate SlotFits(cfg: JogConfig, q: Vec, r: Vec, j: int, b: real)
    requires 0 <= j < |q| == |r|
  {
    Abs(r[j] - q[j]) <= b * if j < N_JOINTS then cfg.slew else cfg.rail
  }

  ghost predicate LeversFit(cfg: JogConfig, q: Vec, r: Vec, b: real) {
    cfg.planCart.Some? && cfg.planLever.Some? && cfg.planCart.value > 0.0 ==>
      AtMost(LeverWay(cfg.planLever.value, q, r), b, cfg.planCart.value)
  }

  /** No more than `b` times the limit. */
  ghost predicate AtMost(x: real, b: real, limit: real) {
    x <= b * limit
  }

  /** A step no longer than `b` ticks allow: every joint, the carriage, and the lever-weighted way
      if the driver's bound is configured, and only then. */
  ghost predicate StepFits(cfg: JogConfig, q: Vec, r: Vec, b: real) {
    |q| == |r| && (forall j :: 0 <= j < |q| ==> SlotFits(cfg, q, r, j, b)) && LeversFit(cfg, q, r, b)
  }

  /** Caps well above the arrival tolerance: twice it, the lever bound with all levers together. */
  ghost predicate WellAbove(cfg: JogConfig) {
    && cfg.slew >= 2.0 * ARRIVAL_TOL && cfg.rail >= 2.0 * ARRIVAL_TOL
    && (Bounded(cfg) ==> cfg.planCart.value >= 2.0 * ARRIVAL_TOL * Levers(cfg.planLever.value))
  }

  ghost function Levers(lever: Vec): real {
    At(lever, 0) + At(lever, 1) + At(lever, 2) + At(lever, 3) + At(lever, 4) + At(lever, 5) + At(lever, 6)
  }

  lemma ConfigIsAbove(cfg: JogConfig)
    requires WellAbove(cfg)
    ensures AboveTolerance(CapsOf(cfg))
  {
    if Bounded(cfg) {
      LeversAreTotal(cfg.planLever.value, CapsOf(cfg).cart.value.lever);
    }
  }

  lemma LeversAreTotal(lever: Vec, used: Vec)
    requires used == (if |lever| <= N_JOINTS then lever else lever[..N_JOINTS])
    ensures Total(used, |used|) == Levers(lever)
  {
    forall k: nat | k < 7
      ensures FirstOf(used, k + 1) == FirstOf(used, k) + At(lever, k)
    {
      assert At(used, k) == At(lever, k);
    }
    assert FirstOf(used, 0) == 0.0 && FirstOf(used, 3) == At(lever, 0) + At(lever, 1) + At(lever, 2);
    assert FirstOf(used, 7) == Total(used, |used|);
  }

  ghost function FirstOf(v: Vec, k: nat): real {
    Total(v, if k < |v| then k else |v|)
  }

  lemma SlotIsConfigured(cfg: JogConfig, q: Vec, r: Vec, j: int, b: real)
    requires 0 <= j < |q| == |r|
    ensures SlotWithin(CapsOf(cfg), Delta(q, r), j, b) <==> SlotFits(cfg, q, r, j, b)
  {
  }

  lemma SameProduct(p: real, lever: Vec, used: Vec, q: Vec, r: Vec, j: nat)
    requires |q| == |r| && j < 7 && used == (if |lever| <= N_JOINTS then lever else lever[..N_JOINTS])
    requires IsProduct(p, At(Delta(q, r), j), At(used, j))
    ensures IsLeverWay(p, lever, q, r, j)
  {
    assert At(used, j) == At(lever, j);
    assert Abs(At(Delta(q, r), j)) == Way(q, r, j);
  }

  ghost predicate IsLeverWay(p: real, lever: Vec, q: Vec, r: Vec, j: nat) {
    p == LeverTerm(lever, q, r, j)
  }

  lemma SevenWays(p: seq<real>, lever: Vec, q: Vec, r: Vec)
    requires |p| == 7 && forall j: nat :: j < 7 ==> IsLeverWay(p[j], lever, q, r, j)
    ensures LeverWay(lever, q, r) == p[0] + p[1] + p[2] + p[3] + p[4] + p[5] + p[6]
  {
    SevenTermsOf(p, LeverTerm(lever, q, r, 0), LeverTerm(lever, q, r, 1), LeverTerm(lever, q, r, 2), LeverTerm(lever, q, r, 3),
                 LeverTerm(lever, q, r, 4), LeverTerm(lever, q, r, 5), LeverTerm(lever, q, r, 6));
  }

  lemma SevenTermsOf(p: seq<real>, a: real, b: real, c: real, d: real, e: real, f: real, g: real)
    requires |p| == 7 && p[0] == a && p[1] == b && p[2] == c && p[3] == d && p[4] == e && p[5] == f && p[6] == g
    ensures a + b + c + d + e + f + g == p[0] + p[1] + p[2] + p[3] + p[4] + p[5] + p[6]
  {
  }

  lemma LeverWayIs(lever: Vec, used: Vec, q: Vec, r: Vec)
    requires |q| == |r| && used == (if |lever| <= N_JOINTS then lever else lever[..N_JOINTS])
    ensures LeverSum(used, Delta(q, r), if |q| < |used| then |q| else |used|) == LeverWay(lever, q, r)
  {
    var p := LeverProducts(used, Delta(q, r), if |q| < |used| then |q| else |used|, 7);
    SevenTerms(p);
    forall j: nat | j < 7
      ensures IsLeverWay(p[j], lever, q, r, j)
    {
      SameProduct(p[j], lever, used, q, r, j);
    }
    SevenWays(p, lever, q, r);
  }

  lemma CartIsConfigured(cfg: JogConfig, q: Vec, r: Vec, b: real)
    requires |q| == |r|
    ensures CartWithin(CapsOf(cfg), Delta(q, r), b) <==> LeversFit(cfg, q, r, b)
  {
    if Bounded(cfg) {
      LengthIsWay(cfg, CapsOf(cfg).cart.value, q, r);
      CartByWay(cfg, CapsOf(cfg), q, r, b);
    }
  }

  lemma LengthIsWay(cfg: JogConfig, bound: CartBound, q: Vec, r: Vec)
    requires |q| == |r| && Bounded(cfg) && CapsOf(cfg).cart == Some(bound)
    ensures bound.step == cfg.planCart.value && CartLength(bound, Delta(q, r)) == LeverWay(cfg.planLever.value, q, r)
  {
    LeverWayIs(cfg.planLever.value, bound.lever, q, r);
  }

  lemma CartByWay(cfg: JogConfig, c: Caps, q: Vec, r: Vec, b: real)
    requires |q| == |r| && Bounded(cfg) && c.cart.Some? && c.cart.value.step == cfg.planCart.value
    requires CartLength(c.cart.value, Delta(q, r)) == LeverWay(cfg.planLever.value, q, r)
    ensures CartWithin(c, Delta(q, r), b) <==> LeversFit(cfg, q, r, b)
  {
    CartUnder(c, Delta(q, r), b, LeverWay(cfg.planLever.value, q, r), cfg.planCart.value);
  }

  lemma CartUnder(c: Caps, delta: Vec, b: real, way: real, step: real)
    requires c.cart.Some? && CartLength(c.cart.value, delta) == way && c.cart.value.step == step
    ensures CartWithin(c, delta, b) <==> AtMost(way, b, step)
  {
  }

  /** The executor's caps are those of its configuration. */
  lemma CapsAreConfigured(cfg: JogConfig, q: Vec, r: Vec, b: real)
    requires |q| == |r|
    ensures WithinCaps(CapsOf(cfg), Delta(q, r), b) <==> StepFits(cfg, q, r, b)
  {
    forall j | 0 <= j < |q|
      ensures SlotWithin(CapsOf(cfg), Delta(q, r), j, b) <==> SlotFits(cfg, q, r, j, b)
    {
      SlotIsConfigured(cfg, q, r, j, b);
    }
    CartIsConfigured(cfg, q, r, b);
    SlotBySlot(CapsOf(cfg), cfg, q, r, b);
  }

  lemma SlotBySlot(c: Caps, cfg: JogConfig, q: Vec, r: Vec, b: real)
    requires |q| == |r| && forall j :: 0 <= j < |q| ==> (SlotWithin(c, Delta(q, r), j, b) <==> SlotFits(cfg, q, r, j, b))
    ensures (forall j :: 0 <= j < |q| ==> SlotWithin(c, Delta(q, r), j, b)) <==> (forall j :: 0 <= j < |q| ==> SlotFits(cfg, q, r, j, b))
  {
  }

  // -- one tick ---------------------------------------------------------------------------

  function Delta(q: Vec, target: Vec): (d: Vec)
    requires |q| == |target|
    ensures |d| == |q|
  {
    seq(|q|, j requires 0 <= j < |q| => target[j] - q[j])
  }

  /** How many equal parts the executor cuts a remaining segment of `r` caps into. */
  function Parts(r: real): (n: nat)
    ensures n >= 1
  {
    if r > 1.0 + RATIO_EPS then Ceil(r - RATIO_EPS) else 1
  }

  function Ticks(measure: Measure, q: Vec, target: Vec): nat
    requires |q| == |target|
  {
    Parts(measure(Delta(q, target)))
  }

  /** One of `n` equal parts of the way. */
  function Part(q: Vec, target: Vec, n: nat): (r: Vec)
    requires |q| == |target| && n >= 1
    ensures |r| == |q|
  {
    seq(|q|, j requires 0 <= j < |q| => q[j] + (target[j] - q[j]) / n as real)
  }

  /** The commanded posture one tick on. */
  function Move(measure: Measure, q: Vec, target: Vec): (r: Vec)
    requires |q| == |target|
    ensures |r| == |q|
  {
    Part(q, target, Ticks(measure, q, target))
  }

  predicate Arrived(q: Vec, target: Vec)
    requires |q| == |target|
  {
    forall j :: 0 <= j < |q| ==> Abs(q[j] - target[j]) < ARRIVAL_TOL
  }

  /** What the executor holds for one arm. */
  datatype Course = Idle | Heading(waypoints: seq<Vec>, index: nat)

  ghost predicate Fits(course: Course, dof: nat) {
    course.Heading? ==>
      && (course.waypoints == [] ==> course.index == 0)
      && (course.waypoints != [] ==> course.index < |course.waypoints|)
      && forall k :: 0 <= k < |course.waypoints| ==> |course.waypoints[k]| == dof
  }

  function Following(wps: seq<Vec>, i: nat): Course {
    if i + 1 < |wps| then Heading(wps, i + 1) else Idle
  }

  /** One executor tick: the course it leaves and the posture it commands, if any. */
  function Tick(measure: Measure, course: Course, q: Vec): (r: (Course, Option<Vec>))
    requires Fits(course, |q|)
    ensures Fits(r.0, |q|) && (r.1.Some? ==> |r.1.value| == |q|)
  {
    if course.Idle? || course.waypoints == [] then (course, None)
    else
      var target := course.waypoints[course.index];
      var next := Move(measure, q, target);
      if !Arrived(next, target) then (course, Some(next))
      else if course.index + 1 < |course.waypoints| then (Heading(course.waypoints, course.index + 1), Some(next))
      else (Idle, Some(target))
  }

  /** Per-arm waypoint streams. */
  class PlanExecutor {
    const cfg: JogConfig
    const caps: Caps
    var waypoints: map<string, seq<Vec>>
    var index: map<string, nat>

    constructor (config: JogConfig)
      requires ValidConfig(config)
      ensures Valid() && cfg == config && waypoints == map[] && index == map[]
    {
      cfg, caps := config, CapsOf(config);
      waypoints, index := map[], map[];
      new;
      ConfigIsValid(config);
    }

    ghost predicate Valid()
      reads this
    {
      && ValidCaps(caps) && caps == CapsOf(cfg) && waypoints.Keys == index.Keys
      && forall a :: a in waypoints ==>
           if waypoints[a] == [] then index[a] == 0 else index[a] < |waypoints[a]|
    }

    ghost function CourseOf(arm: string): Course
      reads this
      requires Valid()
    {
      if arm in waypoints then Heading(waypoints[arm], index[arm]) else Idle
    }

    predicate Active(arm: string)
      reads this
    {
      arm in waypoints
    }

    method Load(arm: string, wps: seq<Vec>)
      requires Valid()
      modifies this
      ensures Valid() && CourseOf(arm) == Heading(wps, 0)
      ensures forall a :: a != arm ==> CourseOf(a) == old(CourseOf(a))
      ensures waypoints.Keys == old(waypoints.Keys) + {arm}
    {
      waypoints := waypoints[arm := wps];
      index := index[arm := 0];
    }

    method Cancel(arm: string)
      requires Valid()
      modifies this
      ensures Valid() && CourseOf(arm) == Idle
      ensures forall a :: a != arm ==> CourseOf(a) == old(CourseOf(a))
      ensures waypoints.Keys == old(waypoints.Keys) - {arm}
    {
      waypoints := waypoints - {arm};
      index := index - {arm};
    }

    method CancelAll()
      requires Valid()
      modifies this
      ensures Valid() && waypoints == map[] && forall a :: CourseOf(a) == Idle
    {
      waypoints, index := map[], map[];
    }

    method Step(arm: string, qLast: Vec) returns (q: Option<Vec>)
      requires Valid() && Fits(CourseOf(arm), |qLast|)
      modifies this
      ensures Valid() && (CourseOf(arm), q) == Tick(CapMeasure(caps), old(CourseOf(arm)), qLast)
      ensures forall a :: a != arm ==> CourseOf(a) == old(CourseOf(a))
      ensures waypoints.Keys == old(waypoints.Keys) || waypoints.Keys == old(waypoints.Keys) - {arm}
      ensures q.Some? && WellAbove(cfg) ==> StepFits(cfg, qLast, q.value, 1.0 + RATIO_EPS)
    {
      TickFits(cfg, CourseOf(arm), qLast);
      if arm !in waypoints || waypoints[arm] == [] {
        return None;
      }
      var wps, i := waypoints[arm], index[arm];
      var target := wps[i];
      var next := Move(CapMeasure(caps), qLast, target);
      if Arrived(next, target) {
        if i + 1 < |wps| {
          index := index[arm := i + 1];
        } else {
          Cancel(arm);
          return Some(target);
        }
      }
      q := Some(next);
    }
  }

  // -- feeding the executor its own output --------------------------------------------------

  /** One arm on its way: what the executor holds for it and its commanded posture. */
  datatype Arm = Arm(course: Course, q: Vec)

  type Law = Arm -> Arm

  /** The executor fed its own output. */
  ghost function Advance(measure: Measure): Law {
    (s: Arm) =>
      if Fits(s.course, |s.q|) then
        var (course, out) := Tick(measure, s.course, s.q);
        Arm(course, if out.Some? then out.value else s.q)
      else s
  }

  /** The arm after `k` ticks. */
  ghost function After(law: Law, s: Arm, k: nat): Arm {
    if k == 0 then s else law(After(law, s, k - 1))
  }

  lemma {:induction false} AfterSplits(law: Law, s: Arm, a: nat, k: nat)
    ensures After(law, s, a + k) == After(law, After(law, s, a), k)
  {
    if k > 0 {
      AfterSplits(law, s, a, k - 1);
      assert a + k - 1 == a + (k - 1);
    }
  }

  lemma Continue(law: Law, s: Arm, a: nat, mid: Arm, k: nat)
    requires After(law, s, a) == mid
    ensures After(law, s, a + k) == After(law, mid, k)
  {
    AfterSplits(law, s, a, k);
  }

  // -- the ceiling drops by one ---------------------------------------------------------------

  lemma PartsIs(r: real, n: nat)
    requires n >= 1 && r <= n as real + RATIO_EPS
    requires n >= 2 ==> r > (n - 1) as real + RATIO_EPS
    ensures Parts(r) == n
  {
    if n >= 2 {
      CeilUnique(r - RATIO_EPS, n);
    }
  }

  lemma PartsBounds(r: real)
    ensures r <= Parts(r) as real + RATIO_EPS
    ensures Parts(r) >= 2 ==> r > (Parts(r) - 1) as real + RATIO_EPS
  {
  }

  /** A fraction `g` of `n` ticks is left: upper bound of what is left of `r` caps. */
  lemma RestBelow(r: real, g: real, n: real, m: real, e: real)
    requires g * n == m && 0.0 < g <= 1.0 && 0.0 < e && r <= n + e
    ensures g * r <= m + e
  {
    calc {
      g * r;
    <= { MulMono(r, n + e, g); }
      (n + e) * g;
    ==
      n * g + e * g;
    <= { MulMono(g, 1.0, e); }
      m + e;
    }
  }

  /** A fraction `g` of `n` ticks is left: lower bound of what is left of `r` caps. */
  lemma RestAbove(r: real, g: real, n: real, m: real, z: real)
    requires g * n == m && 0.0 < g <= 1.0 && 0.0 < z && r > n - z
    ensures g * r > m - z
  {
    calc {
      g * r;
    > { MulStrict(n - z, r, g); }
      (n - z) * g;
    ==
      n * g - z * g;
    >= { MulMono(g, 1.0, z); }
      m - z;
    }
  }

  lemma Cancel(x: real, y: real, n: real)
    requires n > 0.0 && x * n < y * n
    ensures x < y
  {
    if x > y {
      MulStrict(y, x, n);
    }
  }

  /** The key step: after `k` of its `n` ticks the rest of a segment counts `n - k`. */
  lemma PartsDrop(r: real, g: real, n: nat, m: nat)
    requires n == Parts(r) && 1 <= m <= n && 0.0 < g <= 1.0 && g * n as real == m as real
    ensures Parts(g * r) == m
  {
    PartsBounds(r);
    RestBelow(r, g, n as real, m as real, RATIO_EPS);
    if n >= 2 {
      RestAbove(r, g, n as real, m as real, 1.0 - RATIO_EPS);
    }
    PartsIs(g * r, m);
  }

  // -- one segment ----------------------------------------------------------------------------

  /** The point a fraction `f` of the way from `q` to `target`. */
  ghost function Along(q: Vec, target: Vec, f: real): (r: Vec)
    requires |q| == |target|
    ensures |r| == |q|
  {
    seq(|q|, j requires 0 <= j < |q| => q[j] + (target[j] - q[j]) * f)
  }

  lemma RestOfJoint(q: real, t: real, f: real, g: real)
    requires g == 1.0 - f
    ensures t - (q + (t - q) * f) == g * (t - q)
  {
  }

  /** What is left of a segment is the remaining fraction of the whole. */
  lemma RestScales(q: Vec, target: Vec, f: real, g: real)
    requires |q| == |target| && g == 1.0 - f
    ensures Scales(Delta(Along(q, target, f), target), Delta(q, target), g)
  {
    forall j | 0 <= j < |q|
      ensures Delta(Along(q, target, f), target)[j] == g * Delta(q, target)[j]
    {
      RestOfJoint(q[j], target[j], f, g);
    }
  }

  lemma RestFraction(f: real, n: nat, k: nat)
    requires k < n && f * n as real == k as real
    ensures 0.0 < 1.0 - f <= 1.0 && (1.0 - f) * n as real == (n - k) as real
  {
    RestFractionOf(f, n as real, k as real);
  }

  lemma RestFractionOf(f: real, n: real, k: real)
    requires 0.0 <= k < n && f * n == k
    ensures 0.0 < 1.0 - f <= 1.0 && (1.0 - f) * n == n - k
  {
    if f < 0.0 {
      MulStrict(f, 0.0, n);
    }
    Cancel(f, 1.0, n);
    Spread(f, n);
  }

  lemma Spread(f: real, n: real)
    ensures (1.0 - f) * n == n - f * n
  {
  }

  /** `k` ticks into a segment of `n` the executor still counts `n - k`. */
  lemma TicksDrop(measure: Measure, q: Vec, target: Vec, n: nat, k: nat, f: real, p: Vec)
    requires Homogeneous(measure) && |q| == |target| == |p| && n == Ticks(measure, q, target) && k < n
    requires f * n as real == k as real && Scales(Delta(p, target), Delta(q, target), 1.0 - f)
    ensures Ticks(measure, p, target) == n - k
  {
    RestFraction(f, n, k);
    assert MeasureScales(measure, Delta(p, target), Delta(q, target), 1.0 - f);
    PartsDrop(measure(Delta(q, target)), 1.0 - f, n, n - k);
  }

  lemma JointAdvances(q: real, t: real, f: real, h: real, m: real)
    requires m >= 1.0 && (h - f) * m == 1.0 - f
    ensures (q + (t - q) * f) + (t - (q + (t - q) * f)) / m == q + (t - q) * h
  {
    RestOfJoint(q, t, f, 1.0 - f);
    var w := h - f;
    Divide((t - q) * w, m);
    assert (1.0 - f) * (t - q) == ((t - q) * w) * m;
  }

  lemma Divide(x: real, m: real)
    requires m != 0.0
    ensures (x * m) / m == x
  {
  }

  lemma NextNth(f: real, h: real, n: real, k: real)
    requires n >= 1.0 && f * n == k && h * n == k + 1.0
    ensures (h - f) * (n - k) == 1.0 - f
  {
    assert (h - f) * n == 1.0;
    assert (h - f) * (n - f * n) == ((h - f) * n) * (1.0 - f);
  }

  lemma PartAdvances(q: Vec, target: Vec, f: real, h: real, m: nat)
    requires |q| == |target| && m >= 1 && (h - f) * m as real == 1.0 - f
    ensures Part(Along(q, target, f), target, m) == Along(q, target, h)
  {
    var p, p' := Along(q, target, f), Along(q, target, h);
    forall j | 0 <= j < |q|
      ensures Part(p, target, m)[j] == p'[j]
    {
      JointAdvances(q[j], target[j], f, h, m as real);
    }
  }

  /** Every tick of a segment advances by the same n-th of it. */
  lemma MoveAdvances(measure: Measure, q: Vec, target: Vec, n: nat, k: nat, f: real, h: real)
    requires Homogeneous(measure) && |q| == |target| && n == Ticks(measure, q, target) && k < n
    requires f * n as real == k as real && h * n as real == (k + 1) as real
    ensures Move(measure, Along(q, target, f), target) == Along(q, target, h)
  {
    RestScales(q, target, f, 1.0 - f);
    TicksDrop(measure, q, target, n, k, f, Along(q, target, f));
    NextNth(f, h, n as real, k as real);
    PartAdvances(q, target, f, h, n - k);
  }

  lemma AlongEnds(q: Vec, target: Vec)
    requires |q| == |target|
    ensures Along(q, target, 0.0) == q && Along(q, target, 1.0) == target
  {
  }

  // -- the segment theorem ----------------------------------------------------------------------

  lemma ReachedExactly(q: Vec, target: Vec)
    requires |q| == |target|
    ensures q == target ==> Arrived(q, target)
  {
  }

  /** With at least one tick to go after this one the posture is not taken for the target. */
  lemma NotThereYet(measure: Measure, q: Vec, target: Vec, n: nat, k: nat, h: real)
    requires Homogeneous(measure) && Resolves(measure) && |q| == |target| && n == Ticks(measure, q, target)
    requires k + 1 < n && h * n as real == (k + 1) as real
    ensures !Arrived(Along(q, target, h), target)
  {
    RestScales(q, target, h, 1.0 - h);
    RestFraction(h, n, k + 1);
    OverHalfToGo(measure, Delta(q, target), Delta(Along(q, target, h), target), n, n - k - 1, 1.0 - h);
    ArrivedIsTiny(Along(q, target, h), target);
  }

  lemma OverHalfToGo(measure: Measure, whole: Vec, rest: Vec, n: nat, m: nat, g: real)
    requires Homogeneous(measure) && n == Parts(measure(whole)) && n >= 2 && m >= 1
    requires 0.0 < g && g * n as real == m as real && Scales(rest, whole, g)
    ensures measure(rest) > 0.5
  {
    assert MeasureScales(measure, rest, whole, g);
    PartsBounds(measure(whole));
    HalfLeft(measure(whole), g, n as real, m as real);
  }

  lemma ArrivedIsTiny(q: Vec, target: Vec)
    requires |q| == |target|
    ensures Arrived(q, target) ==> AllWithin(Delta(q, target), ARRIVAL_TOL)
  {
    if Arrived(q, target) {
      forall j | 0 <= j < |q|
        ensures Abs(Delta(q, target)[j]) < ARRIVAL_TOL
      {
        assert Abs(q[j] - target[j]) < ARRIVAL_TOL;
      }
    }
  }

  lemma HalfLeft(r: real, g: real, n: real, m: real)
    requires n >= 2.0 && m >= 1.0 && g * n == m && 0.0 < g && r > n - 1.0
    ensures g * r > 0.5
  {
    var lower := g * (n - 1.0);
    calc {
      g * r;
    > { MulStrict(n - 1.0, r, g); }
      (n - 1.0) * g;
    >= { MulMono(0.5 * n, n - 1.0, g); }
      (0.5 * n) * g;
    == 
      0.5 * m;
    >=
      0.5;
    }
  }

  /** `nth(k)` is `k` n-ths. */
  ghost predicate Nths(nth: nat -> real, n: nat) {
    forall k: nat :: k <= n ==> nth(k) * n as real == k as real
  }

  ghost function Fractions(n: nat): (nth: nat -> real)
    requires n >= 1
    ensures Nths(nth, n)
  {
    (k: nat) => k as real / n as real
  }

  /** The postures of a segment: `Ticks + 1` points, equally spaced, ends included. */
  ghost predicate Waystations(measure: Measure, q: Vec, target: Vec, nth: nat -> real, path: seq<Vec>)
    requires |q| == |target|
  {
    var n := Ticks(measure, q, target);
    && Nths(nth, n) && |path| == n + 1
    && forall k :: 0 <= k <= n ==> path[k] == Along(q, target, nth(k))
  }

  /** The equally spaced postures of a segment exist and are its two ends and nothing else
      when the segment takes one tick. */
  lemma PathOf(measure: Measure, q: Vec, target: Vec) returns (nth: nat -> real, path: seq<Vec>)
    requires |q| == |target|
    ensures Waystations(measure, q, target, nth, path)
    ensures path[0] == q && path[|path| - 1] == target
  {
    var n := Ticks(measure, q, target);
    nth := Fractions(n);
    path := seq(n + 1, k requires 0 <= k <= n => Along(q, target, nth(k)));
    PathEnds(measure, q, target, nth, path);
  }

  lemma UnitFractions(zero: real, one: real, n: real)
    requires n >= 1.0 && zero * n == 0.0 && one * n == n
    ensures zero == 0.0 && one == 1.0
  {
  }

  lemma PathEnds(measure: Measure, q: Vec, target: Vec, nth: nat -> real, path: seq<Vec>)
    requires |q| == |target| && Waystations(measure, q, target, nth, path)
    ensures path[0] == q && path[|path| - 1] == target
  {
    var n := Ticks(measure, q, target);
    UnitFractions(nth(0), nth(n), n as real);
    AlongEnds(q, target);
  }

  lemma TickTo(measure: Measure, wps: seq<Vec>, i: nat, p: Vec, p': Vec)
    requires i < |wps| && Fits(Heading(wps, i), |p|) && Move(measure, p, wps[i]) == p'
    requires p' == wps[i] || !Arrived(p', wps[i])
    ensures Advance(measure)(Arm(Heading(wps, i), p))
         == Arm(if p' == wps[i] then Following(wps, i) else Heading(wps, i), p')
  {
    ReachedExactly(p', wps[i]);
  }

  /** One tick of a segment: to the next posture, and on arrival to the next waypoint. */
  lemma TickAlong(measure: Measure, wps: seq<Vec>, i: nat, q: Vec, k: nat, nth: nat -> real, path: seq<Vec>)
    requires Homogeneous(measure) && Resolves(measure) && i < |wps| && Fits(Heading(wps, i), |q|)
    requires Waystations(measure, q, wps[i], nth, path) && k + 1 < |path|
    ensures Advance(measure)(Arm(Heading(wps, i), path[k]))
         == Arm(if k + 2 < |path| then Heading(wps, i) else Following(wps, i), path[k + 1])
  {
    var target := wps[i];
    var n := Ticks(measure, q, target);
    MoveAdvances(measure, q, target, n, k, nth(k), nth(k + 1));
    if k + 1 == n {
      PathEnds(measure, q, target, nth, path);
    } else {
      NotThereYet(measure, q, target, n, k, nth(k + 1));
      ReachedExactly(path[k + 1], target);
    }
    TickTo(measure, wps, i, path[k], path[k + 1]);
  }

  /** The law walks `path` on the way to waypoint `m`: after `k` ticks the arm is on its
      `k`-th posture, still on this leg before the last one and past it on the last. */
  ghost predicate Walks(law: Law, wps: seq<Vec>, m: nat, path: seq<Vec>) {
    |path| >= 2 && forall k: nat :: k < |path| ==> AtStep(law, wps, m, path, k)
  }

  ghost predicate AtStep(law: Law, wps: seq<Vec>, m: nat, path: seq<Vec>, k: nat)
    requires k < |path|
  {
    After(law, Arm(Heading(wps, m), path[0]), k)
    == Arm(if k + 1 < |path| then Heading(wps, m) else Following(wps, m), path[k])
  }

  lemma {:induction false} WalksFrom(law: Law, wps: seq<Vec>, m: nat, path: seq<Vec>, k: nat)
    requires k < |path| && |path| >= 2
    requires forall j: nat :: j + 1 < |path| ==>
      law(Arm(Heading(wps, m), path[j])) == Arm(if j + 2 < |path| then Heading(wps, m) else Following(wps, m), path[j + 1])
    ensures AtStep(law, wps, m, path, k)
  {
    if k > 0 {
      WalksFrom(law, wps, m, path, k - 1);
    }
  }

  /** A segment is walked in exactly `Ticks` ticks: after `k` of them the arm is `k` n-ths
      of the way and still heads for the same waypoint; the last tick lands on it and moves
      on to the next one, or frees the arm. */
  lemma SegmentRun(measure: Measure, wps: seq<Vec>, i: nat, q: Vec) returns (nth: nat -> real, path: seq<Vec>)
    requires Homogeneous(measure) && Resolves(measure) && i < |wps| && Fits(Heading(wps, i), |q|)
    ensures Waystations(measure, q, wps[i], nth, path) && path[0] == q && path[|path| - 1] == wps[i]
    ensures Walks(Advance(measure), wps, i, path)
  {
    nth, path := PathOf(measure, q, wps[i]);
    var law := Advance(measure);
    forall j: nat | j + 1 < |path|
      ensures law(Arm(Heading(wps, i), path[j])) == Arm(if j + 2 < |path| then Heading(wps, i) else Following(wps, i), path[j + 1])
    {
      TickAlong(measure, wps, i, q, j, nth, path);
    }
    forall k: nat | k < |path|
      ensures AtStep(law, wps, i, path, k)
    {
      WalksFrom(law, wps, i, path, k);
    }
  }

  // -- the size of a step -----------------------------------------------------------------------

  lemma StepOfJoint(q: real, t: real, f: real, h: real)
    ensures (q + (t - q) * h) - (q + (t - q) * f) == (h - f) * (t - q)
  {
  }

  lemma StepScales(q: Vec, target: Vec, f: real, h: real)
    requires |q| == |target|
    ensures Scales(Delta(Along(q, target, f), Along(q, target, h)), Delta(q, target), h - f)
  {
    forall j | 0 <= j < |q|
      ensures Delta(Along(q, target, f), Along(q, target, h))[j] == (h - f) * Delta(q, target)[j]
    {
      StepOfJoint(q[j], target[j], f, h);
    }
  }

  lemma OneNth(f: real, h: real, n: real, k: real)
    requires n >= 1.0 && f * n == k && h * n == k + 1.0
    ensures h - f > 0.0 && (h - f) * n == 1.0
  {
    assert (h - f) * n == 1.0;
  }

  lemma NthOf(g: real, n: real, r: real, s: real)
    requires g * n == 1.0 && s == g * r
    ensures s * n == r
  {
    assert (g * r) * n == (g * n) * r;
  }

  lemma OverHalf(s: real, n: real, r: real)
    requires n >= 2.0 && s * n == r && r > n - 1.0
    ensures s > 0.5
  {
    if s <= 0.5 {
      MulMono(s, 0.5, n);
    }
  }

  /** `step` is the n-th part of `leg`. */
  ghost predicate EqualShare(step: Vec, leg: Vec, n: int) {
    exists g :: Scales(step, leg, g) && g * n as real == 1.0
  }

  /** One of the `n` equal steps of a leg: with two or more of them it is over half a cap, and
      all of them together are over their number by the tolerance at most. */
  ghost predicate EqualStep(measure: Measure, leg: Vec, step: Vec, n: nat) {
    && n >= 1 && EqualShare(step, leg, n) && measure(step) * n as real == measure(leg)
    && measure(leg) <= n as real + RATIO_EPS && (n >= 2 ==> measure(step) > 0.5)
  }

  lemma ShareIsEqualStep(measure: Measure, leg: Vec, step: Vec, n: nat, g: real)
    requires Homogeneous(measure) && n == Parts(measure(leg)) && Scales(step, leg, g) && g > 0.0 && g * n as real == 1.0
    ensures EqualStep(measure, leg, step, n)
  {
    assert MeasureScales(measure, step, leg, g);
    NthOf(g, n as real, measure(leg), measure(step));
    PartsBounds(measure(leg));
    if n >= 2 {
      OverHalf(measure(step), n as real, measure(leg));
    }
  }

  /** All the steps of a segment are the same n-th of it: no step exceeds the caps by more
      than the n-th part of the tolerance, and with two or more none is under half a cap. */
  lemma EqualSteps(measure: Measure, q: Vec, target: Vec, nth: nat -> real, path: seq<Vec>, k: nat)
    requires Homogeneous(measure) && |q| == |target|
    requires Waystations(measure, q, target, nth, path) && k + 1 < |path|
    ensures |path[k]| == |path[k + 1]| == |q|
    ensures EqualStep(measure, Delta(q, target), Delta(path[k], path[k + 1]), |path| - 1)
  {
    var n, f, h := |path| - 1, nth(k), nth(k + 1);
    OneNth(f, h, n as real, k as real);
    StepScales(q, target, f, h);
    ShareIsEqualStep(measure, Delta(q, target), Delta(path[k], path[k + 1]), n, h - f);
  }

  // -- a whole plan -----------------------------------------------------------------------------

  /** Where leg `m` of a plan starts: the previous waypoint, or the posture the plan found. */
  ghost function Corner(q: Vec, wps: seq<Vec>, m: nat): Vec
    requires m <= |wps|
  {
    if m == 0 then q else wps[m - 1]
  }

  /** `paths[m]` leads from corner to corner and the law walks it. */
  ghost predicate Legs(law: Law, q: Vec, wps: seq<Vec>, paths: seq<seq<Vec>>) {
    && |paths| == |wps|
    && forall m: nat :: m < |wps| ==> Leg(law, q, wps, m, paths[m])
  }

  ghost predicate Leg(law: Law, q: Vec, wps: seq<Vec>, m: nat, path: seq<Vec>)
    requires m < |wps|
  {
    Walks(law, wps, m, path) && path[0] == Corner(q, wps, m) && path[|path| - 1] == wps[m]
  }

  /** The ticks of the first `m` legs. */
  ghost function UpTo(paths: seq<seq<Vec>>, m: nat): int
    requires m <= |paths|
  {
    if m == 0 then 0 else UpTo(paths, m - 1) + |paths[m - 1]| - 1
  }

  ghost function Towards(wps: seq<Vec>, m: nat): Course {
    if m < |wps| then Heading(wps, m) else Idle
  }

  /** The whole plan visits every waypoint in order, each exactly and at the sum of the ticks
      of the legs up to it; after the last leg the arm is idle on the last waypoint. */
  lemma {:induction false} VisitsEveryWaypoint(law: Law, q: Vec, wps: seq<Vec>, paths: seq<seq<Vec>>, m: nat)
    requires Legs(law, q, wps, paths) && wps != [] && m <= |wps|
    ensures UpTo(paths, m) >= m
    ensures After(law, Arm(Heading(wps, 0), q), UpTo(paths, m)) == Arm(Towards(wps, m), Corner(q, wps, m))
  {
    if m > 0 {
      VisitsEveryWaypoint(law, q, wps, paths, m - 1);
      OnLeg(law, q, wps, paths, m - 1, |paths[m - 1]| - 1);
    }
  }

  /** During leg `m` the arm is on that leg's postures, one further at each tick. */
  lemma OnLeg(law: Law, q: Vec, wps: seq<Vec>, paths: seq<seq<Vec>>, m: nat, k: nat)
    requires Legs(law, q, wps, paths) && wps != [] && m < |wps| && k < |paths[m]| && UpTo(paths, m) >= 0
    requires After(law, Arm(Heading(wps, 0), q), UpTo(paths, m)) == Arm(Towards(wps, m), Corner(q, wps, m))
    ensures After(law, Arm(Heading(wps, 0), q), UpTo(paths, m) + k)
         == Arm(if k + 1 < |paths[m]| then Heading(wps, m) else Towards(wps, m + 1), paths[m][k])
  {
    assert Leg(law, q, wps, m, paths[m]);
    assert AtStep(law, wps, m, paths[m], k);
    Continue(law, Arm(Heading(wps, 0), q), UpTo(paths, m), Arm(Heading(wps, m), paths[m][0]), k);
  }

  /** The leg a tick of the plan belongs to. */
  lemma {:induction false} LegOf(paths: seq<seq<Vec>>, m: nat, k: nat) returns (leg: nat)
    requires m <= |paths| && k < UpTo(paths, m)
    ensures leg < m && UpTo(paths, leg) <= k < UpTo(paths, leg + 1)
  {
    if k < UpTo(paths, m - 1) {
      leg := LegOf(paths, m - 1, k);
    } else {
      leg := m - 1;
    }
  }

  /** Before its last tick the arm is never off the planned polyline: it is `j` steps into
      some leg, heads for that leg's waypoint, and the next tick is the leg's next step. */
  lemma StaysOnTheLine(law: Law, q: Vec, wps: seq<Vec>, paths: seq<seq<Vec>>, k: nat) returns (leg: nat, j: nat)
    requires Legs(law, q, wps, paths) && wps != [] && k < UpTo(paths, |wps|)
    ensures leg < |wps| && k == UpTo(paths, leg) + j && j + 1 < |paths[leg]|
    ensures After(law, Arm(Heading(wps, 0), q), k) == Arm(Heading(wps, leg), paths[leg][j])
    ensures After(law, Arm(Heading(wps, 0), q), k + 1).q == paths[leg][j + 1]
  {
    leg := LegOf(paths, |wps|, k);
    VisitsEveryWaypoint(law, q, wps, paths, leg);
    j := k - UpTo(paths, leg);
    OnLeg(law, q, wps, paths, leg, j);
    OnLeg(law, q, wps, paths, leg, j + 1);
  }

  /** An idle arm stays where it is. */
  ghost predicate Rests(law: Law) {
    forall q :: law(Arm(Idle, q)) == Arm(Idle, q)
  }

  lemma {:induction false} StaysIdle(law: Law, q: Vec, k: nat)
    requires Rests(law)
    ensures After(law, Arm(Idle, q), k) == Arm(Idle, q)
  {
    if k > 0 {
      StaysIdle(law, q, k - 1);
    }
  }

  /** The plan ends exactly when the ticks of its legs are used up, on its last waypoint. */
  lemma PlanEnds(law: Law, q: Vec, wps: seq<Vec>, paths: seq<seq<Vec>>, k: nat)
    requires Legs(law, q, wps, paths) && Rests(law) && wps != []
    ensures After(law, Arm(Heading(wps, 0), q), k).course == Idle <==> k >= UpTo(paths, |wps|)
    ensures k >= UpTo(paths, |wps|) ==> After(law, Arm(Heading(wps, 0), q), k).q == wps[|wps| - 1]
  {
    var total := UpTo(paths, |wps|);
    if k < total {
      var leg, j := StaysOnTheLine(law, q, wps, paths, k);
    } else {
      VisitsEveryWaypoint(law, q, wps, paths, |wps|);
      AfterSplits(law, Arm(Heading(wps, 0), q), total, k - total);
      StaysIdle(law, wps[|wps| - 1], k - total);
    }
  }

  /** A plan loaded without waypoints never ends: the arm stays active for good and nothing
      is commanded. */
  lemma {:induction false} EmptyPlanNeverEnds(measure: Measure, q: Vec, k: nat)
    ensures Tick(measure, Heading([], 0), q) == (Heading([], 0), None)
    ensures After(Advance(measure), Arm(Heading([], 0), q), k) == Arm(Heading([], 0), q)
  {
    if k > 0 {
      EmptyPlanNeverEnds(measure, q, k - 1);
    }
  }

  // -- the executor's own measure ---------------------------------------------------------------

  lemma ShareOfTolerance(s: real, n: real, e: real, t: real)
    requires n >= 1.0 && s * n <= n + e && t * n == e
    ensures s <= 1.0 + t
  {
    if s > 1.0 + t {
      MulStrict(1.0 + t, s, n);
    }
  }

  /** One of `n` equal steps of a leg, measured with the executor's own caps: over them by at
      most the n-th part of the tolerance, and over half of them when there are several. */
  ghost predicate StepInCaps(c: Caps, leg: Vec, step: Vec, n: nat) {
    n >= 1 && EqualShare(step, leg, n) && WithinCaps(c, step, 1.0 + RATIO_EPS / n as real) && (n >= 2 ==> !WithinCaps(c, step, 0.5))
  }

  /** The size of an equal step, for any measure that is the least bound that fits. */
  lemma SizeFits(measure: Measure, fits: (Vec, real) -> bool, leg: Vec, step: Vec, n: nat, t: real)
    requires IsLeast(measure, fits) && EqualStep(measure, leg, step, n) && t * n as real == RATIO_EPS && t >= 0.0
    ensures fits(step, 1.0 + t) && (n >= 2 ==> !fits(step, 0.5))
  {
    ShareOfTolerance(measure(step), n as real, RATIO_EPS, t);
  }

  lemma ShareExists(e: real, n: nat) returns (t: real)
    requires n >= 1 && e >= 0.0
    ensures t == e / n as real && t * n as real == e && t >= 0.0
  {
    t := e / n as real;
  }

  lemma SizeInCaps(c: Caps, leg: Vec, step: Vec, n: nat)
    requires ValidCaps(c) && EqualStep(CapMeasure(c), leg, step, n)
    ensures StepInCaps(c, leg, step, n)
  {
    var t := ShareExists(RATIO_EPS, n);
    CapMeasureIsLeast(c);
    SizeFits(CapMeasure(c), CapFits(c), leg, step, n, t);
  }

  /** Every step of `path` is an equal share of the leg and within the caps. */
  ghost predicate StepsInCaps(c: Caps, leg: Vec, path: seq<Vec>) {
    forall j: nat :: j + 1 < |path| ==> StepOfLeg(c, leg, path, j)
  }

  ghost predicate StepOfLeg(c: Caps, leg: Vec, path: seq<Vec>, j: nat)
    requires j + 1 < |path|
  {
    |path[j]| == |path[j + 1]| && StepInCaps(c, leg, Delta(path[j], path[j + 1]), |path| - 1)
  }

  lemma OneStepInCaps(c: Caps, q: Vec, target: Vec, nth: nat -> real, path: seq<Vec>, j: nat)
    requires ValidCaps(c) && Homogeneous(CapMeasure(c)) && |q| == |target| && j + 1 < |path|
    requires Waystations(CapMeasure(c), q, target, nth, path)
    ensures StepOfLeg(c, Delta(q, target), path, j)
  {
    EqualSteps(CapMeasure(c), q, target, nth, path, j);
    SizeInCaps(c, Delta(q, target), Delta(path[j], path[j + 1]), |path| - 1);
  }

  lemma LegInCaps(c: Caps, q: Vec, target: Vec, nth: nat -> real, path: seq<Vec>)
    requires ValidCaps(c) && Homogeneous(CapMeasure(c)) && |q| == |target|
    requires Waystations(CapMeasure(c), q, target, nth, path)
    ensures StepsInCaps(c, Delta(q, target), path)
  {
    forall j: nat | j + 1 < |path|
      ensures StepOfLeg(c, Delta(q, target), path, j)
    {
      OneStepInCaps(c, q, target, nth, path, j);
    }
  }

  /** A leg takes as many ticks as its length in caps, rounded up, in equal steps. */
  ghost predicate LegWalk(c: Caps, q: Vec, wps: seq<Vec>, m: nat, path: seq<Vec>)
    requires ValidCaps(c) && Fits(Heading(wps, 0), |q|) && m < |wps|
  {
    var from, target := Corner(q, wps, m), wps[m];
    && Leg(Advance(CapMeasure(c)), q, wps, m, path)
    && |path| == Ticks(CapMeasure(c), from, target) + 1
    && StepsInCaps(c, Delta(from, target), path)
  }

  lemma WalkLeg(c: Caps, q: Vec, wps: seq<Vec>, m: nat) returns (path: seq<Vec>)
    requires ValidCaps(c) && AboveTolerance(c) && Fits(Heading(wps, 0), |q|) && m < |wps|
    ensures LegWalk(c, q, wps, m, path)
  {
    CapMeasureIsHomogeneous(c);
    CapMeasureResolves(c);
    var from, nth := Corner(q, wps, m), _ => 0.0;
    nth, path := SegmentRun(CapMeasure(c), wps, m, from);
    LegInCaps(c, from, wps[m], nth, path);
  }

  ghost predicate LegWalks(c: Caps, q: Vec, wps: seq<Vec>, paths: seq<seq<Vec>>)
    requires ValidCaps(c) && Fits(Heading(wps, 0), |q|)
  {
    |paths| <= |wps| && forall m: nat :: m < |paths| ==> LegWalk(c, q, wps, m, paths[m])
  }

  lemma OneMoreLeg(c: Caps, q: Vec, wps: seq<Vec>, paths: seq<seq<Vec>>, path: seq<Vec>)
    requires ValidCaps(c) && Fits(Heading(wps, 0), |q|) && |paths| < |wps|
    ensures LegWalks(c, q, wps, paths) && LegWalk(c, q, wps, |paths|, path) ==> LegWalks(c, q, wps, paths + [path])
  {
    if LegWalks(c, q, wps, paths) && LegWalk(c, q, wps, |paths|, path) {
      var all := paths + [path];
      forall m: nat | m < |all|
        ensures LegWalk(c, q, wps, m, all[m])
      {
        if m < |paths| {
          assert LegWalk(c, q, wps, m, paths[m]);
        }
      }
    }
  }

  lemma {:induction false} LegsExist(c: Caps, q: Vec, wps: seq<Vec>, m: nat) returns (paths: seq<seq<Vec>>)
    requires ValidCaps(c) && AboveTolerance(c) && Fits(Heading(wps, 0), |q|) && m <= |wps|
    ensures |paths| == m && LegWalks(c, q, wps, paths)
  {
    if m == 0 {
      paths := [];
    } else {
      var front := LegsExist(c, q, wps, m - 1);
      var path := WalkLeg(c, q, wps, m - 1);
      OneMoreLeg(c, q, wps, front, path);
      paths := front + [path];
    }
  }

  /** Every plan has such a walk. */
  lemma PlanWalks(c: Caps, q: Vec, wps: seq<Vec>) returns (paths: seq<seq<Vec>>)
    requires ValidCaps(c) && AboveTolerance(c) && Fits(Heading(wps, 0), |q|)
    ensures |paths| == |wps| && LegWalks(c, q, wps, paths) && Legs(Advance(CapMeasure(c)), q, wps, paths)
  {
    paths := LegsExist(c, q, wps, |wps|);
    forall m: nat | m < |wps|
      ensures Leg(Advance(CapMeasure(c)), q, wps, m, paths[m])
    {
      assert LegWalk(c, q, wps, m, paths[m]);
    }
  }

  lemma AdvanceRests(measure: Measure)
    ensures Rests(Advance(measure))
  {
  }

  // -- the executor under its own caps --------------------------------------------------------------

  /** The ticks of the first `m` legs: of each its length in caps, rounded up, one at least. */
  ghost function TickCount(c: Caps, q: Vec, wps: seq<Vec>, m: nat): nat
    requires ValidCaps(c) && Fits(Heading(wps, 0), |q|) && m <= |wps|
  {
    if m == 0 then 0 else TickCount(c, q, wps, m - 1) + Ticks(CapMeasure(c), Corner(q, wps, m - 1), wps[m - 1])
  }

  lemma {:induction false} CountsAgree(c: Caps, q: Vec, wps: seq<Vec>, paths: seq<seq<Vec>>, m: nat)
    requires ValidCaps(c) && Fits(Heading(wps, 0), |q|) && LegWalks(c, q, wps, paths) && m <= |paths|
    ensures UpTo(paths, m) == TickCount(c, q, wps, m)
  {
    if m > 0 {
      CountsAgree(c, q, wps, paths, m - 1);
      assert LegWalk(c, q, wps, m - 1, paths[m - 1]);
    }
  }

  /** The arm heads along leg `m` and goes one of its equal steps. */
  ghost predicate StepOn(c: Caps, q: Vec, wps: seq<Vec>, m: nat, now: Arm, next: Arm)
    requires ValidCaps(c) && Fits(Heading(wps, 0), |q|)
  {
    m < |wps| && now.course == Heading(wps, m) && |now.q| == |next.q|
    && var from := Corner(q, wps, m);
       StepInCaps(c, Delta(from, wps[m]), Delta(now.q, next.q), Ticks(CapMeasure(c), from, wps[m]))
  }

  ghost predicate StepsAlong(c: Caps, q: Vec, wps: seq<Vec>, now: Arm, next: Arm)
    requires ValidCaps(c) && Fits(Heading(wps, 0), |q|)
  {
    exists m: nat :: StepOn(c, q, wps, m, now, next)
  }

  lemma LegStep(c: Caps, q: Vec, wps: seq<Vec>, m: nat, path: seq<Vec>, j: nat, now: Arm, next: Arm)
    requires ValidCaps(c) && Fits(Heading(wps, 0), |q|) && m < |wps| && LegWalk(c, q, wps, m, path) && j + 1 < |path|
    requires now == Arm(Heading(wps, m), path[j]) && next.q == path[j + 1]
    ensures StepsAlong(c, q, wps, now, next)
  {
    assert StepOfLeg(c, Delta(Corner(q, wps, m), wps[m]), path, j);
    assert StepOn(c, q, wps, m, now, next);
  }

  /** What a plan does, told of the arm after each tick. */
  ghost predicate Walked(c: Caps, q: Vec, wps: seq<Vec>, at: nat -> Arm)
    requires ValidCaps(c) && Fits(Heading(wps, 0), |q|) && wps != []
  {
    && (forall m: nat :: m <= |wps| ==> at(TickCount(c, q, wps, m)) == Arm(Towards(wps, m), Corner(q, wps, m)))
    && (forall k: nat :: k < TickCount(c, q, wps, |wps|) ==> StepsAlong(c, q, wps, at(k), at(k + 1)))
    && (forall k: nat :: at(k).course == Idle <==> k >= TickCount(c, q, wps, |wps|))
    && (forall k: nat :: k >= TickCount(c, q, wps, |wps|) ==> at(k).q == wps[|wps| - 1])
  }

  ghost function TickByTick(law: Law, s: Arm): nat -> Arm {
    (k: nat) => After(law, s, k)
  }

  lemma WaypointReached(c: Caps, law: Law, q: Vec, wps: seq<Vec>, paths: seq<seq<Vec>>, m: nat)
    requires ValidCaps(c) && Fits(Heading(wps, 0), |q|) && LegWalks(c, q, wps, paths) && |paths| == |wps| && wps != []
    requires Legs(law, q, wps, paths) && m <= |wps|
    ensures After(law, Arm(Heading(wps, 0), q), TickCount(c, q, wps, m)) == Arm(Towards(wps, m), Corner(q, wps, m))
  {
    CountsAgree(c, q, wps, paths, m);
    VisitsEveryWaypoint(law, q, wps, paths, m);
  }

  lemma TickIsStep(c: Caps, law: Law, q: Vec, wps: seq<Vec>, paths: seq<seq<Vec>>, k: nat)
    requires ValidCaps(c) && Fits(Heading(wps, 0), |q|) && LegWalks(c, q, wps, paths) && |paths| == |wps| && wps != []
    requires Legs(law, q, wps, paths) && k < UpTo(paths, |wps|)
    ensures StepsAlong(c, q, wps, After(law, Arm(Heading(wps, 0), q), k), After(law, Arm(Heading(wps, 0), q), k + 1))
  {
    var m, j := StaysOnTheLine(law, q, wps, paths, k);
    assert LegWalk(c, q, wps, m, paths[m]);
    LegStep(c, q, wps, m, paths[m], j, After(law, Arm(Heading(wps, 0), q), k), After(law, Arm(Heading(wps, 0), q), k + 1));
  }

  lemma LawWalks(c: Caps, law: Law, q: Vec, wps: seq<Vec>, paths: seq<seq<Vec>>)
    requires ValidCaps(c) && Fits(Heading(wps, 0), |q|) && LegWalks(c, q, wps, paths) && |paths| == |wps| && wps != []
    requires Legs(law, q, wps, paths) && Rests(law)
    ensures Walked(c, q, wps, TickByTick(law, Arm(Heading(wps, 0), q)))
  {
    CountsAgree(c, q, wps, paths, |wps|);
    forall m: nat | m <= |wps|
      ensures After(law, Arm(Heading(wps, 0), q), TickCount(c, q, wps, m)) == Arm(Towards(wps, m), Corner(q, wps, m))
    {
      WaypointReached(c, law, q, wps, paths, m);
    }
    forall k: nat
      ensures After(law, Arm(Heading(wps, 0), q), k).course == Idle <==> k >= UpTo(paths, |wps|)
      ensures k >= UpTo(paths, |wps|) ==> After(law, Arm(Heading(wps, 0), q), k).q == wps[|wps| - 1]
      ensures k < UpTo(paths, |wps|) ==>
                StepsAlong(c, q, wps, After(law, Arm(Heading(wps, 0), q), k), After(law, Arm(Heading(wps, 0), q), k + 1))
    {
      PlanEnds(law, q, wps, paths, k);
      if k < UpTo(paths, |wps|) {
        TickIsStep(c, law, q, wps, paths, k);
      }
    }
  }

  /** The executor fed its own output, tick by tick from the load of a plan. */
  ghost function ArmAfter(c: Caps, q: Vec, wps: seq<Vec>): nat -> Arm
    requires ValidCaps(c)
  {
    TickByTick(Advance(CapMeasure(c)), Arm(Heading(wps, 0), q))
  }

  /** A whole plan under the executor's own caps, whatever the start and the waypoints: every
      waypoint is reached exactly and in order, at the sum of the tick counts of the legs up to
      it; every tick before the end is one of the equal steps of its leg, on the straight line and
      within the caps; and the arm is idle exactly from the total on, on the last waypoint. */
  lemma PlanIsWalked(c: Caps, q: Vec, wps: seq<Vec>)
    requires ValidCaps(c) && AboveTolerance(c) && Fits(Heading(wps, 0), |q|) && wps != []
    ensures Walked(c, q, wps, ArmAfter(c, q, wps))
  {
    var paths := PlanWalks(c, q, wps);
    AdvanceRests(CapMeasure(c));
    LawWalks(c, Advance(CapMeasure(c)), q, wps, paths);
  }

  // -- the executor under its configuration -----------------------------------------------------

  /** How many ticks a leg takes, from the configuration: no more than `n` exactly if joints,
      carriage and, where it is configured, the lever-weighted way fit into `n` ticks. */
  lemma ConfiguredTicks(cfg: JogConfig, q: Vec, target: Vec, n: nat)
    requires ValidCaps(CapsOf(cfg)) && |q| == |target| && n >= 1
    ensures Ticks(CapMeasure(CapsOf(cfg)), q, target) <= n <==> StepFits(cfg, q, target, n as real + RATIO_EPS)
  {
    var c := CapsOf(cfg);
    PartsAtMost(Ratio(c, Delta(q, target)), n);
    RatioIsLeast(c, Delta(q, target), n as real + RATIO_EPS);
    CapsAreConfigured(cfg, q, target, n as real + RATIO_EPS);
  }

  lemma PartsAtMost(r: real, n: nat)
    requires n >= 1
    ensures Parts(r) <= n <==> r <= n as real + RATIO_EPS
  {
    PartsBounds(r);
    if Parts(r) > n {
      assert r > (Parts(r) - 1) as real + RATIO_EPS;
    }
  }

  lemma WithinLonger(c: Caps, delta: Vec, b: real, b': real)
    requires ValidCaps(c) && WithinCaps(c, delta, b) && 0.0 <= b <= b'
    ensures WithinCaps(c, delta, b')
  {
    RatioIsLeast(c, delta, b);
    RatioIsLeast(c, delta, b');
  }

  lemma StepInCapsFits(cfg: JogConfig, leg: Vec, q: Vec, r: Vec, n: nat)
    requires ValidCaps(CapsOf(cfg)) && |q| == |r| && StepInCaps(CapsOf(cfg), leg, Delta(q, r), n)
    ensures StepFits(cfg, q, r, 1.0 + RATIO_EPS)
  {
    var t := ShareExists(RATIO_EPS, n);
    MulMono(1.0, n as real, t);
    WithinLonger(CapsOf(cfg), Delta(q, r), 1.0 + t, 1.0 + RATIO_EPS);
    CapsAreConfigured(cfg, q, r, 1.0 + RATIO_EPS);
  }

  /** The posture one of `n` equal parts on, and whether every slot of it is within the arrival
      tolerance of the target. */
  ghost predicate IsPart(q: Vec, target: Vec, n: int, r: Vec)
    requires n >= 1
  {
    |q| == |target| == |r| && forall j :: 0 <= j < |q| ==> r[j] == q[j] + (target[j] - q[j]) / n as real
  }

  ghost predicate IsThere(r: Vec, target: Vec) {
    |r| == |target| && forall j :: 0 <= j < |r| ==> target[j] - 0.000000001 < r[j] < target[j] + 0.000000001
  }

  /** One tick of an executor heading for a waypoint, from the configuration: one of the least number
      of equal parts; once that is there, on to the next waypoint, or, at the last, the waypoint
      itself and idle. */
  lemma TickExactly(cfg: JogConfig, wps: seq<Vec>, i: nat, q: Vec) returns (n: nat, part: Vec)
    requires ValidCaps(CapsOf(cfg)) && i < |wps| && Fits(Heading(wps, i), |q|)
    ensures LeastTicks(cfg, q, wps[i], n) && IsPart(q, wps[i], n, part)
    ensures Tick(CapMeasure(CapsOf(cfg)), Heading(wps, i), q)
         == if !IsThere(part, wps[i]) then (Heading(wps, i), Some(part))
            else if i + 1 < |wps| then (Heading(wps, i + 1), Some(part))
            else (Idle, Some(wps[i]))
  {
    n := Ticks(CapMeasure(CapsOf(cfg)), q, wps[i]);
    TicksAreLeast(cfg, q, wps[i]);
    part := Part(q, wps[i], n);
    ThereIsArrived(part, wps[i]);
  }

  lemma ThereIsArrived(r: Vec, target: Vec)
    requires |r| == |target|
    ensures IsThere(r, target) <==> Arrived(r, target)
  {
    if |r| == |target| {
      forall j | 0 <= j < |r|
        ensures target[j] - 0.000000001 < r[j] < target[j] + 0.000000001 <==> Abs(r[j] - target[j]) < ARRIVAL_TOL
      {
      }
    }
  }

  /** Whatever posture the executor is told of, the one it commands is within the configured
      bounds of it, up to the tolerance. */
  lemma TickFits(cfg: JogConfig, course: Course, q: Vec)
    requires ValidCaps(CapsOf(cfg)) && Fits(course, |q|)
    ensures var out := Tick(CapMeasure(CapsOf(cfg)), course, q).1;
            out.Some? && WellAbove(cfg) ==> StepFits(cfg, q, out.value, 1.0 + RATIO_EPS)
  {
    if WellAbove(cfg) && course.Heading? && course.waypoints != [] {
      ConfigIsAbove(cfg);
      var c, wps, i := CapsOf(cfg), course.waypoints, course.index;
      CapMeasureIsHomogeneous(c);
      CapMeasureResolves(c);
      var nth, path := PathOf(CapMeasure(c), q, wps[i]);
      TickAlong(CapMeasure(c), wps, i, q, 0, nth, path);
      OneStepInCaps(c, q, wps[i], nth, path, 0);
      StepInCapsFits(cfg, Delta(q, wps[i]), q, path[1], |path| - 1);
    }
  }

  /** What a plan does under a configuration: waypoints in order, each leg in the least number of
      ticks it fits into, and no tick longer than one, up to the tolerance. */
  ghost predicate WalkedAsConfigured(cfg: JogConfig, q: Vec, wps: seq<Vec>, at: nat -> Arm, ends: nat -> nat) {
    && ends(0) == 0
    && (forall m: nat :: m <= |wps| ==> at(ends(m)) == Arm(Towards(wps, m), Corner(q, wps, m)))
    && (forall m: nat :: m < |wps| ==> LegIsLeast(cfg, q, wps, m, ends))
    && (forall k: nat :: k < ends(|wps|) ==> StepFits(cfg, at(k).q, at(k + 1).q, 1.0 + RATIO_EPS))
    && (forall k: nat :: at(k).course == Idle <==> k >= ends(|wps|))
    && (forall k: nat :: wps != [] && k >= ends(|wps|) ==> at(k).q == wps[|wps| - 1])
  }

  /** Leg `m` takes the least number of ticks it fits into. */
  ghost predicate LegIsLeast(cfg: JogConfig, q: Vec, wps: seq<Vec>, m: nat, ends: nat -> nat)
    requires m < |wps|
  {
    LeastTicks(cfg, Corner(q, wps, m), wps[m], ends(m + 1) - ends(m))
  }

  /** `n` is the least number of ticks, one at least, the leg fits into. */
  ghost predicate LeastTicks(cfg: JogConfig, q: Vec, target: Vec, n: int) {
    && n >= 1 && StepFits(cfg, q, target, n as real + RATIO_EPS)
    && (n >= 2 ==> !StepFits(cfg, q, target, (n - 1) as real + RATIO_EPS))
  }

  lemma TicksAreLeast(cfg: JogConfig, q: Vec, target: Vec)
    requires ValidCaps(CapsOf(cfg)) && |q| == |target|
    ensures LeastTicks(cfg, q, target, Ticks(CapMeasure(CapsOf(cfg)), q, target))
  {
    var n := Ticks(CapMeasure(CapsOf(cfg)), q, target);
    ConfiguredTicks(cfg, q, target, n);
    if n >= 2 {
      ConfiguredTicks(cfg, q, target, n - 1);
    }
  }

  ghost function EndsAt(c: Caps, q: Vec, wps: seq<Vec>): nat -> nat
    requires ValidCaps(c) && Fits(Heading(wps, 0), |q|)
  {
    (m: nat) requires ValidCaps(c) && Fits(Heading(wps, 0), |q|) => if m <= |wps| then TickCount(c, q, wps, m) else 0
  }

  lemma StepsFit(cfg: JogConfig, q: Vec, wps: seq<Vec>, now: Arm, next: Arm)
    requires ValidCaps(CapsOf(cfg)) && Fits(Heading(wps, 0), |q|) && StepsAlong(CapsOf(cfg), q, wps, now, next)
    ensures StepFits(cfg, now.q, next.q, 1.0 + RATIO_EPS)
  {
    var m: nat :| StepOn(CapsOf(cfg), q, wps, m, now, next);
    var from := Corner(q, wps, m);
    StepInCapsFits(cfg, Delta(from, wps[m]), now.q, next.q, Ticks(CapMeasure(CapsOf(cfg)), from, wps[m]));
  }

  /** The same from the configuration alone: an executor built from `cfg` and fed its own output
      reaches every waypoint in order, takes for each leg the least number of ticks the configured
      joint, carriage and, where given, lever bounds allow, keeps every tick within those bounds and
      is idle exactly from the last of them on. */
  lemma ConfiguredPlan(cfg: JogConfig, q: Vec, wps: seq<Vec>) returns (ends: nat -> nat)
    requires ValidConfig(cfg) && WellAbove(cfg) && wps != [] && forall k :: 0 <= k < |wps| ==> |wps[k]| == |q|
    ensures ValidCaps(CapsOf(cfg)) && WalkedAsConfigured(cfg, q, wps, ArmAfter(CapsOf(cfg), q, wps), ends)
  {
    ConfigIsValid(cfg);
    ConfigIsAbove(cfg);
    var c := CapsOf(cfg);
    PlanIsWalked(c, q, wps);
    ends := EndsAt(c, q, wps);
    LegsTakeLeast(cfg, q, wps, ends);
    WalkFits(cfg, q, wps, ArmAfter(c, q, wps), ends);
  }

  lemma EndsAreCounts(c: Caps, q: Vec, wps: seq<Vec>)
    requires ValidCaps(c) && Fits(Heading(wps, 0), |q|)
    ensures forall m: nat :: m <= |wps| ==> EndsAt(c, q, wps)(m) == TickCount(c, q, wps, m)
  {
  }

  lemma CountsDiffer(c: Caps, q: Vec, wps: seq<Vec>, m: nat)
    requires ValidCaps(c) && Fits(Heading(wps, 0), |q|) && m < |wps|
    ensures EndsAt(c, q, wps)(m + 1) - EndsAt(c, q, wps)(m) == Ticks(CapMeasure(c), Corner(q, wps, m), wps[m])
  {
    EndsAreCounts(c, q, wps);
  }

  lemma LegsTakeLeast(cfg: JogConfig, q: Vec, wps: seq<Vec>, ends: nat -> nat)
    requires ValidCaps(CapsOf(cfg)) && Fits(Heading(wps, 0), |q|) && ends == EndsAt(CapsOf(cfg), q, wps)
    ensures forall m: nat :: m < |wps| ==> LegIsLeast(cfg, q, wps, m, ends)
  {
    forall m: nat | m < |wps|
      ensures LegIsLeast(cfg, q, wps, m, ends)
    {
      LegTakesLeast(cfg, q, wps, m);
    }
  }

  lemma LegTakesLeast(cfg: JogConfig, q: Vec, wps: seq<Vec>, m: nat)
    requires ValidCaps(CapsOf(cfg)) && Fits(Heading(wps, 0), |q|) && m < |wps|
    ensures LegIsLeast(cfg, q, wps, m, EndsAt(CapsOf(cfg), q, wps))
  {
    CountsDiffer(CapsOf(cfg), q, wps, m);
    TicksAreLeast(cfg, Corner(q, wps, m), wps[m]);
  }

  lemma StepsAllFit(cfg: JogConfig, q: Vec, wps: seq<Vec>, at: nat -> Arm)
    requires ValidCaps(CapsOf(cfg)) && Fits(Heading(wps, 0), |q|) && wps != [] && Walked(CapsOf(cfg), q, wps, at)
    ensures forall k: nat :: k < TickCount(CapsOf(cfg), q, wps, |wps|) ==> StepFits(cfg, at(k).q, at(k + 1).q, 1.0 + RATIO_EPS)
  {
    forall k: nat | k < TickCount(CapsOf(cfg), q, wps, |wps|)
      ensures StepFits(cfg, at(k).q, at(k + 1).q, 1.0 + RATIO_EPS)
    {
      StepsFit(cfg, q, wps, at(k), at(k + 1));
    }
  }

  lemma WalkFits(cfg: JogConfig, q: Vec, wps: seq<Vec>, at: nat -> Arm, ends: nat -> nat)
    requires ValidCaps(CapsOf(cfg)) && Fits(Heading(wps, 0), |q|) && ends == EndsAt(CapsOf(cfg), q, wps) && wps != []
    requires Walked(CapsOf(cfg), q, wps, at)
    requires forall m: nat :: m < |wps| ==> LegIsLeast(cfg, q, wps, m, ends)
    ensures WalkedAsConfigured(cfg, q, wps, at, ends)
  {
    EndsAreCounts(CapsOf(cfg), q, wps);
    StepsAllFit(cfg, q, wps, at);
    var total := TickCount(CapsOf(cfg), q, wps, |wps|);
    assert ends(|wps|) == total && ends(0) == 0;
  }
}
