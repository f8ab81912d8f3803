/** The position-agnostic path verifier (devices/rail_sweep.py:425-545): every densified
    configuration at every rail position under the start-posture hysteresis. The twin's
    collision query is an oracle with one entry per violating pair. */
module RailSweep {
  import opened Prelude
  import opened PathDensify

  /** A whitelisted pair may not get closer by more than this (devices/rail_sweep.py:83). */
  const PATH_HYSTERESIS_TOL_M := 0.002

  datatype Pair = Pair(a: string, b: string)

  datatype Violation = Violation(pair: Pair, dist: real)

  datatype Reason =
    | NewViolation(dist: real)
    | InContact(dist: real)
    | GetsCloser(reference: real, dist: real)

  datatype PathVerdict =
    | Clear(configs: nat, rails: nat)
    | Blocked(waypoint: nat, railM: real, pair: Pair, why: Reason, checked: nat)

  datatype PathError = NoWaypoints | ShortWaypoint | UnevenWaypoints

  ghost predicate OnePerPair(vs: seq<Violation>) {
    forall i, j :: 0 <= i < j < |vs| ==> vs[i].pair != vs[j].pair
  }

  /** The violations as the dictionary the sweep builds from them. */
  function DictOf(vs: seq<Violation>): (m: map<Pair, real>)
    ensures forall p :: p in m ==> exists k :: 0 <= k < |vs| && vs[k].pair == p
    ensures forall k :: 0 <= k < |vs| ==> vs[k].pair in m
  {
    if vs == [] then map[]
    else DictOf(vs[..|vs| - 1])[vs[|vs| - 1].pair := vs[|vs| - 1].dist]
  }

  /** With one entry per pair the dictionary keeps every distance. */
  lemma {:induction false} DictKeeps(vs: seq<Violation>, k: nat)
    requires OnePerPair(vs) && k < |vs|
    ensures vs[k].pair in DictOf(vs) && DictOf(vs)[vs[k].pair] == vs[k].dist
  {
    if k < |vs| - 1 {
      DictKeeps(vs[..|vs| - 1], k);
    }
  }

  /** The private twin: its joint state, written by every query, and the query's answer as
      a function of the swept arm's seven joints and its rail slot. */
  class Twin {
    var qpos: array<real>
    const collide: (Vec, real) -> seq<Violation>

    constructor (qpos: array<real>, collide: (Vec, real) -> seq<Violation>)
      ensures this.qpos == qpos && this.collide == collide
    {
      this.qpos := qpos;
      this.collide := collide;
    }

    ghost predicate Valid()
    {
      OncePerPair(collide)
    }

    /** Poses the swept arm and reads the violating pairs. */
    method CheckConfigViolations(q: Vec, rail: real) returns (vs: seq<Violation>)
      modifies qpos
      ensures vs == collide(q, rail)
    {
      var k := 0;
      while k < qpos.Length && k < |q|
      {
        qpos[k] := q[k];
        k := k + 1;
      }
      if k < qpos.Length {
        qpos[k] := rail;
      }
      vs := collide(q, rail);
    }
  }

  // -- what the verdict means -----------------------------------------------------------

  /** Violating distances by configuration index and rail index. */
  type Grid = (int, int) -> map<Pair, real>

  ghost function GridOf(collide: (Vec, real) -> seq<Violation>, configs: seq<Sample>, rails: seq<real>): Grid {
    (j: int, s: int) =>
      if 0 <= j < |configs| && 0 <= s < |rails| then DictOf(collide(Joints(configs[j].q), rails[s])) else map[]
  }

  function Joints(q: Vec): Vec {
    if |q| <= N_JOINTS then q else q[..N_JOINTS]
  }

  /** A violating pair is tolerable at configuration `j`, rail `s`: it violated at every
      earlier configuration there, it is not in contact, and it is no closer than the
      tolerance below its distance at any of them. */
  ghost predicate PairOk(g: Grid, j: int, s: int, p: Pair) {
    p in g(j, s) ==>
      && g(j, s)[p] > 0.0
      && forall i :: 0 <= i <= j ==> p in g(i, s) && g(j, s)[p] >= g(i, s)[p] - PATH_HYSTERESIS_TOL_M
  }

  ghost predicate CellOk(g: Grid, j: int, s: int) {
    forall p :: p in g(j, s) ==> PairOk(g, j, s, p)
  }

  ghost predicate PathClear(g: Grid, configs: int, rails: int) {
    forall j, s :: 0 <= j < configs && 0 <= s < rails ==> CellOk(g, j, s)
  }

  /** Cell `(j, s)` comes before `(j', s')` in the order the sweep visits them. */
  predicate Before(j: int, s: int, j': int, s': int) {
    j < j' || (j == j' && s < s')
  }

  /** `why` holds of pair `p` at `(j, s)`. */
  ghost predicate Blames(g: Grid, j: int, s: int, p: Pair, why: Reason) {
    && p in g(j, s) && why.dist == g(j, s)[p]
    && match why
       case NewViolation(_) => exists i :: 0 <= i < j && p !in g(i, s)
       case InContact(d) => d <= 0.0 && forall i :: 0 <= i <= j ==> p in g(i, s)
       case GetsCloser(ref, d) =>
         0.0 < d < ref - PATH_HYSTERESIS_TOL_M && Reference(g, if j == 0 then 0 else j - 1, s, p, ref)
  }

  /** How many cells the first `j` configurations have. */
  ghost function Cells(j: nat, rails: nat): nat {
    if j == 0 then 0 else Cells(j - 1, rails) + rails
  }

  /** The verdict names the first blocked cell in configuration-major order. */
  ghost predicate FirstBlock(g: Grid, configs: seq<Sample>, rails: seq<real>, v: PathVerdict, j: int, s: int) {
    && v.Blocked? && 0 <= j < |configs| && 0 <= s < |rails|
    && v.waypoint == configs[j].waypoint && v.railM == rails[s]
    && v.checked == Cells(j, |rails|) + s + 1
    && Blames(g, j, s, v.pair, v.why) && !PairOk(g, j, s, v.pair)
    && forall j', s' :: 0 <= j' && 0 <= s' < |rails| && Before(j', s', j, s) ==> CellOk(g, j', s')
  }

  // -- the whitelist --------------------------------------------------------------------

  /** Whitelist of rail `s` once the first `j` configurations passed: the pairs violating
      at the last of them, each with the largest distance it ever had there. */
  ghost predicate Whitelisted(g: Grid, j: int, s: int, wl: map<Pair, real>) {
    var last := if j == 0 then 0 else j - 1;
    && wl.Keys == g(last, s).Keys
    && forall p :: p in wl ==> Reference(g, last, s, p, wl[p])
  }

  /** `d` is the largest distance of a pair violating at every configuration up to `last`. */
  ghost predicate Reference(g: Grid, last: int, s: int, p: Pair, d: real) {
    && (forall i :: 0 <= i <= last ==> p in g(i, s) && g(i, s)[p] <= d)
    && exists i :: 0 <= i <= last && p in g(i, s) && g(i, s)[p] == d
  }

  /** One cell of the sweep: the first intolerable violation, else the updated whitelist. */
  method CheckCell(vs: seq<Violation>, wl0: map<Pair, real>) returns (bad: Option<(Pair, Reason)>, wl: map<Pair, real>)
    requires OnePerPair(vs)
    ensures bad.None? ==>
              && wl.Keys == DictOf(vs).Keys
              && forall k :: 0 <= k < |vs| ==>
                   && vs[k].pair in wl0 && vs[k].dist > 0.0
                   && vs[k].dist >= wl0[vs[k].pair] - PATH_HYSTERESIS_TOL_M
                   && wl[vs[k].pair] == MaxR(wl0[vs[k].pair], vs[k].dist)
    ensures bad.Some? ==> exists k :: 0 <= k < |vs| && Rejects(vs[k], wl0, bad.value)
                                      && forall i :: 0 <= i < k ==> Accepts(vs[i], wl0)
  {
    wl := wl0;
    var present: set<Pair> := {};
    var k := 0;
    while k < |vs|
      invariant 0 <= k <= |vs|
      invariant wl.Keys == wl0.Keys
      invariant forall p :: p in present <==> exists i :: 0 <= i < k && vs[i].pair == p
      invariant forall i :: 0 <= i < k ==> Accepts(vs[i], wl0) && wl[vs[i].pair] == MaxR(wl0[vs[i].pair], vs[i].dist)
      invariant forall i :: k <= i < |vs| && vs[i].pair in wl ==> wl[vs[i].pair] == wl0[vs[i].pair]
    {
      var key, dist := vs[k].pair, vs[k].dist;
      present := present + {key};
      if key !in wl {
        assert Rejects(vs[k], wl0, (key, NewViolation(dist)));
        return Some((key, NewViolation(dist))), wl;
      }
      if dist <= 0.0 {
        assert Rejects(vs[k], wl0, (key, InContact(dist)));
        return Some((key, InContact(dist))), wl;
      }
      if dist < wl[key] - PATH_HYSTERESIS_TOL_M {
        assert Rejects(vs[k], wl0, (key, GetsCloser(wl[key], dist)));
        return Some((key, GetsCloser(wl[key], dist))), wl;
      }
      wl := wl[key := MaxR(wl[key], dist)];
      k := k + 1;
    }
    bad := None;
    wl := map key | key in wl && key in present :: wl[key];
    PresentKeys(vs, present);
    assert wl.Keys == present;
  }

  /** The pairs met are the dictionary's keys. */
  lemma PresentKeys(vs: seq<Violation>, present: set<Pair>)
    requires forall p :: p in present <==> exists i :: 0 <= i < |vs| && vs[i].pair == p
    ensures present == DictOf(vs).Keys
  {
  }

  predicate Accepts(v: Violation, wl: map<Pair, real>) {
    v.pair in wl && v.dist > 0.0 && v.dist >= wl[v.pair] - PATH_HYSTERESIS_TOL_M
  }

  predicate Rejects(v: Violation, wl: map<Pair, real>, bad: (Pair, Reason)) {
    && bad.0 == v.pair
    && match bad.1
       case NewViolation(d) => d == v.dist && v.pair !in wl
       case InContact(d) => d == v.dist && v.pair in wl && d <= 0.0
       case GetsCloser(ref, d) =>
         d == v.dist && v.pair in wl && ref == wl[v.pair] && 0.0 < d < ref - PATH_HYSTERESIS_TOL_M
  }

  /** A cell the whitelist accepts is tolerable, and the updated whitelist is the next one. */
  lemma AcceptedCell(g: Grid, j: int, s: int, vs: seq<Violation>, wl0: map<Pair, real>, wl: map<Pair, real>)
    requires 0 <= j && OnePerPair(vs) && g(j, s) == DictOf(vs) && Whitelisted(g, j, s, wl0)
    requires wl.Keys == DictOf(vs).Keys
    requires forall k :: 0 <= k < |vs| ==> Accepts(vs[k], wl0) && wl[vs[k].pair] == MaxR(wl0[vs[k].pair], vs[k].dist)
    ensures CellOk(g, j, s) && Whitelisted(g, j + 1, s, wl)
  {
    forall p | p in g(j, s)
      ensures PairOk(g, j, s, p) && Reference(g, j, s, p, wl[p])
    {
      var k :| 0 <= k < |vs| && vs[k].pair == p;
      DictKeeps(vs, k);
      ReferenceOpensUp(g, j, s, p, wl0[p]);
    }
  }

  /** The reference of an accepted pair only opens up. */
  lemma ReferenceOpensUp(g: Grid, j: int, s: int, p: Pair, d0: real)
    requires 0 <= j && p in g(j, s) && Reference(g, if j == 0 then 0 else j - 1, s, p, d0)
    requires g(j, s)[p] > 0.0 && g(j, s)[p] >= d0 - PATH_HYSTERESIS_TOL_M
    ensures PairOk(g, j, s, p) && Reference(g, j, s, p, MaxR(d0, g(j, s)[p]))
  {
    var last := if j == 0 then 0 else j - 1;
    var i0 :| 0 <= i0 <= last && p in g(i0, s) && g(i0, s)[p] == d0;
    var i := if g(j, s)[p] > d0 then j else i0;
    assert 0 <= i <= j && p in g(i, s) && g(i, s)[p] == MaxR(d0, g(j, s)[p]);
  }

  /** A violation the whitelist rejects is intolerable, for the reason given. */
  lemma RejectedPair(g: Grid, j: int, s: int, vs: seq<Violation>, k: int, wl: map<Pair, real>, bad: (Pair, Reason))
    requires 0 <= j && OnePerPair(vs) && g(j, s) == DictOf(vs) && Whitelisted(g, j, s, wl)
    requires 0 <= k < |vs| && Rejects(vs[k], wl, bad)
    ensures Blames(g, j, s, bad.0, bad.1) && !PairOk(g, j, s, bad.0)
  {
    DictKeeps(vs, k);
    var p := bad.0;
    assert p in g(j, s) && g(j, s)[p] == bad.1.dist;
    if bad.1.NewViolation? {
      var last := if j == 0 then 0 else j - 1;
      assert 0 <= last < j && p !in g(last, s);
    } else {
      WhitelistedPair(g, j, s, p, wl);
    }
  }

  /** What the whitelist says of one of its pairs that still violates. */
  lemma WhitelistedPair(g: Grid, j: int, s: int, p: Pair, wl: map<Pair, real>)
    requires 0 <= j && Whitelisted(g, j, s, wl) && p in wl && p in g(j, s)
    ensures Reference(g, if j == 0 then 0 else j - 1, s, p, wl[p])
    ensures forall i :: 0 <= i <= j ==> p in g(i, s)
    ensures PairOk(g, j, s, p) ==> g(j, s)[p] > 0.0 && g(j, s)[p] >= wl[p] - PATH_HYSTERESIS_TOL_M
  {
    var last := if j == 0 then 0 else j - 1;
    assert Reference(g, last, s, p, wl[p]);
    var i :| 0 <= i <= last && p in g(i, s) && g(i, s)[p] == wl[p];
    assert 0 <= i <= j;
  }

  /** The first whitelists accept the start posture itself. */
  lemma StartIsWhitelisted(g: Grid, s: int)
    ensures Whitelisted(g, 0, s, g(0, s))
  {
    forall p | p in g(0, s)
      ensures Reference(g, 0, s, p, g(0, s)[p])
    {
      assert 0 <= 0 <= 0 && p in g(0, s);
    }
  }

  // -- the sweep ------------------------------------------------------------------------

  function SomeError(wps: seq<Vec>): (e: Option<PathError>)
    ensures e.None? <==> wps != [] && SameShape(wps) && |wps[0]| >= N_JOINTS
    ensures e == Some(NoWaypoints) <==> wps == []
    ensures e == Some(ShortWaypoint) <==> exists k :: 0 <= k < |wps| && |wps[k]| < N_JOINTS
  {
    if wps == [] then Some(NoWaypoints)
    else if exists k :: 0 <= k < |wps| && |wps[k]| < N_JOINTS then Some(ShortWaypoint)
    else if exists k :: 0 <= k < |wps| && |wps[k]| != |wps[0]| then Some(UnevenWaypoints)
    else None
  }

  /** `check_path`. Clear exactly when the declarative predicate holds; a block names the
      first blocked cell; the twin's joint state is restored either way. */
  method CheckPath(twin: Twin, wps: seq<Vec>, travel: real, step: real, maxStep: real)
    returns (res: Result<PathVerdict, PathError>, ghost cuts: seq<nat>)
    requires twin.Valid() && travel > 0.0 && step > 0.0 && maxStep > 0.0
    modifies twin.qpos
    ensures twin.qpos[..] == old(twin.qpos[..])
    ensures SomeError(wps).Some? ==> res == Err(SomeError(wps).value)
    ensures SomeError(wps).None? ==>
              && res.Ok? && CutsOf(wps, cuts, maxStep)
              && var configs, rails := Walk(wps, cuts, 0, 0), SweepPositions(travel, step);
              && var g := GridOf(twin.collide, configs, rails);
              && (res.value.Clear? <==> PathClear(g, |configs|, |rails|))
              && (res.value.Clear? ==> res.value == Clear(|configs|, |rails|) && CarriageCovered(twin.collide, configs, travel, step))
              && (res.value.Blocked? ==> exists j, s :: FirstBlock(g, configs, rails, res.value, j, s))
  {
    cuts := [];
    if SomeError(wps).Some? {
      return Err(SomeError(wps).value), cuts;
    }
    var rails := SweepPositions(travel, step);
    var configs;
    configs, cuts := DensifyPath(wps, maxStep);
    WalkEnds(wps, cuts, 0, 0);
    ghost var g := GridOf(twin.collide, configs, rails);
    var saved := twin.qpos[..];
    var whitelist := StartWhitelists(twin, configs, rails, g);
    var verdict := Sweep(twin, configs, rails, whitelist, g);
    forall k | 0 <= k < twin.qpos.Length {
      twin.qpos[k] := saved[k];
    }
    res := Ok(verdict);
    if verdict.Clear? {
      WalkIsWide(wps, cuts, 0, 0);
      ClearIsCovered(twin.collide, configs, travel, step);
    }
  }

  // -- what a clear verdict promises of the whole travel --------------------------------

  ghost predicate OncePerPair(collide: (Vec, real) -> seq<Violation>) {
    forall q, s :: OnePerPair(collide(q, s))
  }

  /** A violation of configuration `j` with the carriage at `r` that the verdict tolerates: not in
      contact, and at every configuration up to there the pair violated at the same carriage
      position, no more than the tolerance farther apart. */
  ghost predicate Tolerated(collide: (Vec, real) -> seq<Violation>, configs: seq<Sample>, r: real, j: int, v: Violation)
    requires 0 <= j < |configs|
  {
    v.dist > 0.0 && forall i :: 0 <= i <= j ==> SeenAt(collide, configs[i].q, r, v)
  }

  ghost predicate SeenAt(collide: (Vec, real) -> seq<Violation>, q: Vec, r: real, v: Violation) {
    |q| >= N_JOINTS && exists u :: u in collide(q[..N_JOINTS], r) && u.pair == v.pair && v.dist >= u.dist - PATH_HYSTERESIS_TOL_M
  }

  /** With the carriage at `r` every configuration of the path is tolerated. */
  ghost predicate ClearAt(collide: (Vec, real) -> seq<Violation>, configs: seq<Sample>, r: real) {
    forall j, v :: 0 <= j < |configs| && |configs[j].q| >= N_JOINTS && v in collide(configs[j].q[..N_JOINTS], r) ==>
      Tolerated(collide, configs, r, j, v)
  }

  ghost predicate ClearNear(collide: (Vec, real) -> seq<Violation>, configs: seq<Sample>, travel: real, x: real, step: real) {
    exists r :: 0.0 <= r <= travel && Abs(r - x) <= 0.75 * step && ClearAt(collide, configs, r)
  }

  /** Wherever on its travel the carriage is, the whole path was checked and tolerated with the
      carriage within three quarters of a step of there. */
  ghost predicate CarriageCovered(collide: (Vec, real) -> seq<Violation>, configs: seq<Sample>, travel: real, step: real) {
    forall x :: 0.0 <= x <= travel ==> ClearNear(collide, configs, travel, x, step)
  }

  lemma ColumnIsClear(collide: (Vec, real) -> seq<Violation>, configs: seq<Sample>, rails: seq<real>, s: nat)
    requires s < |rails| && PathClear(GridOf(collide, configs, rails), |configs|, |rails|)
    requires OncePerPair(collide) && forall j :: 0 <= j < |configs| ==> |configs[j].q| >= N_JOINTS
    ensures ClearAt(collide, configs, rails[s])
  {
    forall j, v | 0 <= j < |configs| && v in collide(configs[j].q[..N_JOINTS], rails[s])
      ensures Tolerated(collide, configs, rails[s], j, v)
    {
      ViolationTolerated(collide, configs, rails, s, j, v);
    }
  }

  lemma InDict(vs: seq<Violation>, v: Violation)
    requires OnePerPair(vs)
    ensures v in vs <==> v.pair in DictOf(vs) && DictOf(vs)[v.pair] == v.dist
  {
    forall k | 0 <= k < |vs|
      ensures vs[k].pair in DictOf(vs) && DictOf(vs)[vs[k].pair] == vs[k].dist
    {
      DictKeeps(vs, k);
    }
  }

  lemma ViolationTolerated(collide: (Vec, real) -> seq<Violation>, configs: seq<Sample>, rails: seq<real>, s: nat, j: int, v: Violation)
    requires s < |rails| && 0 <= j < |configs| && PathClear(GridOf(collide, configs, rails), |configs|, |rails|)
    requires OncePerPair(collide) && forall i :: 0 <= i < |configs| ==> |configs[i].q| >= N_JOINTS
    requires v in collide(configs[j].q[..N_JOINTS], rails[s])
    ensures Tolerated(collide, configs, rails[s], j, v)
  {
    var g := GridOf(collide, configs, rails);
    assert CellOk(g, j, s);
    CellInDict(collide, configs, rails, s, j, v);
    assert PairOk(g, j, s, v.pair);
    forall i | 0 <= i <= j
      ensures SeenAt(collide, configs[i].q, rails[s], v)
    {
      assert v.pair in g(i, s);
      var u := Violation(v.pair, g(i, s)[v.pair]);
      CellInDict(collide, configs, rails, s, i, u);
    }
  }

  lemma OnceAt(collide: (Vec, real) -> seq<Violation>, q: Vec, r: real)
    requires OncePerPair(collide)
    ensures OnePerPair(collide(q, r))
  {
    var vs := collide(q, r);
    assert OnePerPair(vs);
  }

  lemma CellInDict(collide: (Vec, real) -> seq<Violation>, configs: seq<Sample>, rails: seq<real>, s: nat, j: int, v: Violation)
    requires s < |rails| && 0 <= j < |configs| && |configs[j].q| >= N_JOINTS && OncePerPair(collide)
    ensures var cell := GridOf(collide, configs, rails)(j, s);
            v in collide(configs[j].q[..N_JOINTS], rails[s]) <==> v.pair in cell && cell[v.pair] == v.dist
  {
    var q := configs[j].q[..N_JOINTS];
    assert Joints(configs[j].q) == q;
    OnceAt(collide, q, rails[s]);
    InDict(collide(q, rails[s]), v);
  }

  lemma ClearIsCovered(collide: (Vec, real) -> seq<Violation>, configs: seq<Sample>, travel: real, step: real)
    requires travel > 0.0 && step > 0.0
    requires var rails := SweepPositions(travel, step); PathClear(GridOf(collide, configs, rails), |configs|, |rails|)
    requires OncePerPair(collide) && forall j :: 0 <= j < |configs| ==> |configs[j].q| >= N_JOINTS
    ensures CarriageCovered(collide, configs, travel, step)
  {
    forall x | 0.0 <= x <= travel
      ensures ClearNear(collide, configs, travel, x, step)
    {
      var k := SweepCovers(travel, step, x);
      ColumnIsClear(collide, configs, SweepPositions(travel, step), k);
      OnTravel(travel, step, k);
    }
  }

  /** Joints and carriage together: any posture on a path found clear, with the carriage anywhere,
      has a checked and tolerated posture within one joint step and three quarters of a carriage
      step. */
  lemma ClearPathIsCovered(collide: (Vec, real) -> seq<Violation>, wps: seq<Vec>, cuts: seq<nat>, travel: real, step: real, maxStep: real,
                           seg: nat, t: real, x: real)
      returns (j: nat, r: real)
    requires maxStep > 0.0 && CutsOf(wps, cuts, maxStep) && CarriageCovered(collide, Walk(wps, cuts, 0, 0), travel, step)
    requires seg < |cuts| && 0.0 <= t <= 1.0 && 0.0 <= x <= travel
    ensures var configs := Walk(wps, cuts, 0, 0);
            && j < |configs| && WithinStep(configs[j].q, Lerp(wps[seg], wps[seg + 1], t), maxStep)
            && 0.0 <= r <= travel && Abs(r - x) <= 0.75 * step && ClearAt(collide, configs, r)
  {
    j := PathIsCovered(wps, cuts, maxStep, seg, t);
    assert ClearNear(collide, Walk(wps, cuts, 0, 0), travel, x, step);
    r :| 0.0 <= r <= travel && Abs(r - x) <= 0.75 * step && ClearAt(collide, Walk(wps, cuts, 0, 0), r);
  }

  /** Whitelists `lo` to `hi` are those of row `j`. */
  ghost predicate AllWhitelisted(g: Grid, j: int, wls: seq<map<Pair, real>>, lo: int, hi: int) {
    0 <= lo && hi <= |wls| && forall s :: lo <= s < hi ==> Whitelisted(g, j, s, wls[s])
  }

  /** The grid holds the twin's answers. */
  ghost predicate GridIs(g: Grid, collide: (Vec, real) -> seq<Violation>, configs: seq<Sample>, rails: seq<real>) {
    forall j, s :: 0 <= j < |configs| && 0 <= s < |rails| ==> CellIs(g, collide, configs, rails, j, s)
  }

  ghost predicate CellIs(g: Grid, collide: (Vec, real) -> seq<Violation>, configs: seq<Sample>, rails: seq<real>, j: int, s: int)
    requires 0 <= j < |configs| && 0 <= s < |rails|
  {
    g(j, s) == DictOf(collide(Joints(configs[j].q), rails[s]))
  }

  /** One whitelist per rail position, from the start posture. */
  method StartWhitelists(twin: Twin, configs: seq<Sample>, rails: seq<real>, ghost g: Grid)
    returns (whitelist: seq<map<Pair, real>>)
    requires |configs| > 0 && GridIs(g, twin.collide, configs, rails)
    modifies twin.qpos
    ensures |whitelist| == |rails| && AllWhitelisted(g, 0, whitelist, 0, |rails|)
  {
    whitelist := [];
    for s := 0 to |rails|
      invariant |whitelist| == s && AllWhitelisted(g, 0, whitelist, 0, s)
    {
      var vs := twin.CheckConfigViolations(Joints(configs[0].q), rails[s]);
      assert CellIs(g, twin.collide, configs, rails, 0, s);
      StartIsWhitelisted(g, s);
      whitelist := whitelist + [DictOf(vs)];
    }
  }

  method Sweep(twin: Twin, configs: seq<Sample>, rails: seq<real>, whitelist0: seq<map<Pair, real>>, ghost g: Grid)
    returns (v: PathVerdict)
    requires twin.Valid() && |whitelist0| == |rails| && GridIs(g, twin.collide, configs, rails)
    requires AllWhitelisted(g, 0, whitelist0, 0, |rails|)
    modifies twin.qpos
    ensures v.Clear? <==> PathClear(g, |configs|, |rails|)
    ensures v.Clear? ==> v == Clear(|configs|, |rails|)
    ensures v.Blocked? ==> exists j, s :: FirstBlock(g, configs, rails, v, j, s)
  {
    var whitelist := whitelist0;
    var checked := 0;
    for j := 0 to |configs|
      invariant |whitelist| == |rails| && checked == Cells(j, |rails|)
      invariant AllWhitelisted(g, j, whitelist, 0, |rails|) && PathClear(g, j, |rails|)
    {
      var blocked;
      blocked, whitelist, checked := SweepRow(twin, configs, rails, j, whitelist, checked, g);
      if blocked.Some? {
        v := blocked.value;
        ghost var s :| RowBlock(g, configs, rails, j, v, Cells(j, |rails|), s);
        RowBlockIsFirst(g, configs, rails, j, v, s);
        return;
      }
      RowIsClear(g, j, |rails|);
    }
    v := Clear(|configs|, |rails|);
  }

  ghost predicate RowClear(g: Grid, j: int, rails: int) {
    forall s :: 0 <= s < rails ==> CellOk(g, j, s)
  }

  lemma RowIsClear(g: Grid, j: nat, rails: nat)
    requires PathClear(g, j, rails) && RowClear(g, j, rails)
    ensures PathClear(g, j + 1, rails)
  {
  }

  /** Row `j` is blocked first at rail `s`, `checked` cells having passed before the row. */
  ghost predicate RowBlock(g: Grid, configs: seq<Sample>, rails: seq<real>, j: int, v: PathVerdict, checked: nat, s: int) {
    && v.Blocked? && 0 <= j < |configs| && 0 <= s < |rails|
    && v.waypoint == configs[j].waypoint && v.railM == rails[s] && v.checked == checked + s + 1
    && Blames(g, j, s, v.pair, v.why) && !PairOk(g, j, s, v.pair)
    && RowClear(g, j, s)
  }

  lemma RowBlockIsFirst(g: Grid, configs: seq<Sample>, rails: seq<real>, j: nat, v: PathVerdict, s: int)
    requires PathClear(g, j, |rails|) && RowBlock(g, configs, rails, j, v, Cells(j, |rails|), s)
    ensures FirstBlock(g, configs, rails, v, j, s) && !PathClear(g, |configs|, |rails|)
  {
    assert !CellOk(g, j, s);
  }

  lemma OneReplaced(g: Grid, j: int, wls: seq<map<Pair, real>>, s: nat, wl: map<Pair, real>)
    requires s < |wls| && AllWhitelisted(g, j + 1, wls, 0, s) && AllWhitelisted(g, j, wls, s, |wls|) && Whitelisted(g, j + 1, s, wl)
    ensures AllWhitelisted(g, j + 1, wls[s := wl], 0, s + 1) && AllWhitelisted(g, j, wls[s := wl], s + 1, |wls|)
  {
  }

  lemma OneMoreClear(g: Grid, j: int, s: int)
    requires 0 <= s && RowClear(g, j, s) && CellOk(g, j, s)
    ensures RowClear(g, j, s + 1)
  {
  }

  /** One configuration at every rail position. */
  method SweepRow(twin: Twin, configs: seq<Sample>, rails: seq<real>, j: nat, whitelist0: seq<map<Pair, real>>, checked0: nat,
                  ghost g: Grid)
    returns (blocked: Option<PathVerdict>, whitelist: seq<map<Pair, real>>, checked: nat)
    requires twin.Valid() && |whitelist0| == |rails| && j < |configs| && GridIs(g, twin.collide, configs, rails)
    requires AllWhitelisted(g, j, whitelist0, 0, |rails|)
    modifies twin.qpos
    ensures blocked.Some? ==> exists s :: RowBlock(g, configs, rails, j, blocked.value, checked0, s)
    ensures blocked.None? ==>
              && |whitelist| == |rails| && checked == checked0 + |rails| && RowClear(g, j, |rails|)
              && AllWhitelisted(g, j + 1, whitelist, 0, |rails|)
  {
    whitelist, checked := whitelist0, checked0;
    for s := 0 to |rails|
      invariant |whitelist| == |rails| && checked == checked0 + s && RowClear(g, j, s)
      invariant AllWhitelisted(g, j + 1, whitelist, 0, s) && AllWhitelisted(g, j, whitelist, s, |rails|)
    {
      checked := checked + 1;
      assert CellIs(g, twin.collide, configs, rails, j, s);
      var bad, wl := SweepCell(twin, Joints(configs[j].q), rails[s], whitelist[s], g, j, s);
      if bad.Some? {
        blocked := Some(Blocked(configs[j].waypoint, rails[s], bad.value.0, bad.value.1, checked));
        assert RowBlock(g, configs, rails, j, blocked.value, checked0, s);
        return;
      }
      OneMoreClear(g, j, s);
      OneReplaced(g, j, whitelist, s, wl);
      whitelist := whitelist[s := wl];
    }
    blocked := None;
  }

  /** One cell: query the twin, judge its violations, re-arm what cleared. */
  method SweepCell(twin: Twin, q: Vec, rail: real, wl0: map<Pair, real>, ghost g: Grid, ghost j: nat, ghost s: nat)
    returns (bad: Option<(Pair, Reason)>, wl: map<Pair, real>)
    requires twin.Valid() && g(j, s) == DictOf(twin.collide(q, rail)) && Whitelisted(g, j, s, wl0)
    modifies twin.qpos
    ensures bad.None? ==> CellOk(g, j, s) && Whitelisted(g, j + 1, s, wl)
    ensures bad.Some? ==> Blames(g, j, s, bad.value.0, bad.value.1) && !PairOk(g, j, s, bad.value.0)
  {
    var vs := twin.CheckConfigViolations(q, rail);
    assert OnePerPair(vs);
    bad, wl := CheckCell(vs, wl0);
    if bad.Some? {
      ghost var k :| 0 <= k < |vs| && Rejects(vs[k], wl0, bad.value);
      RejectedPair(g, j, s, vs, k, wl0, bad.value);
    } else {
      AcceptedCell(g, j, s, vs, wl0, wl);
    }
  }

  // -- why the whole path is compared -----------------------------------------------------

  /** Comparing neighbours only would not do: a pair losing less than the tolerance at each
      of two steps passes every such comparison and is blocked by the sweep. */
  lemma NeighbourTestIsWeaker(p: Pair)
    ensures var g: Grid := (j: int, s: int) => map[p := 0.01 - 0.0015 * j as real];
            && (forall j :: 0 < j < 3 ==> g(j, 0)[p] >= g(j - 1, 0)[p] - PATH_HYSTERESIS_TOL_M)
            && !PathClear(g, 3, 1)
  {
    var g: Grid := (j: int, s: int) => map[p := 0.01 - 0.0015 * j as real];
    assert p in g(2, 0) && g(2, 0)[p] < g(0, 0)[p] - PATH_HYSTERESIS_TOL_M;
    assert !PairOk(g, 2, 0, p);
    assert !CellOk(g, 2, 0);
  }
}
