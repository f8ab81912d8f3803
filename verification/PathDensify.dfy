/** The configurations `check_path` visits: a piecewise-linear joint path cut into
    steps of at most `max_step_rad` (devices/rail_sweep.py:118-134), and the rail
    positions of the sweep (devices/rail_sweep.py:137-140). */
module PathDensify {
  import opened Prelude

  /** One densified configuration with the planner waypoint that starts its segment. */
  datatype Sample = Sample(waypoint: nat, q: Vec)

  ghost predicate SameShape(wps: seq<Vec>) {
    forall i :: 0 <= i < |wps| ==> |wps[i]| == |wps[0]|
  }

  /** `a + (b - a) * t`, every coordinate alike. */
  function Lerp(a: Vec, b: Vec, t: real): (r: Vec)
    requires |a| == |b|
    ensures |r| == |a|
    ensures forall d :: 0 <= d < |a| ==> r[d] == a[d] + (b[d] - a[d]) * t
  {
    seq(|a|, d requires 0 <= d < |a| => a[d] + (b[d] - a[d]) * t)
  }

  /** Largest joint excursion of a segment; the carriage slot is not counted. */
  function JointSpan(a: Vec, b: Vec, d: nat): (m: real)
    requires |a| == |b| && d <= |a| && d <= N_JOINTS
    ensures m >= 0.0
    ensures forall j :: 0 <= j < d ==> Abs(b[j] - a[j]) <= m
  {
    if d == 0 then 0.0 else MaxR(JointSpan(a, b, d - 1), Abs(b[d - 1] - a[d - 1]))
  }

  function Span(a: Vec, b: Vec): (m: real)
    requires |a| == |b|
    ensures m >= 0.0
    ensures forall j :: 0 <= j < |a| && j < N_JOINTS ==> Abs(b[j] - a[j]) <= m
  {
    JointSpan(a, b, if |a| < N_JOINTS then |a| else N_JOINTS)
  }

  /** Pieces a segment is cut into: at least one. */
  function Pieces(a: Vec, b: Vec, maxStep: real): (n: nat)
    requires |a| == |b| && maxStep > 0.0
    ensures n >= 1
  {
    var c := Ceil(Span(a, b) / maxStep);
    if c < 1 then 1 else c
  }

  lemma CeilTimes(x: real, step: real, n: nat)
    requires step > 0.0 && x / step <= n as real
    ensures x <= n as real * step
  {
    var r := x / step;
    assert r * step == x;
    MulMono(r, n as real, step);
  }

  /** No piece is longer than `maxStep`. */
  lemma PiecesAreShort(a: Vec, b: Vec, maxStep: real)
    requires |a| == |b| && maxStep > 0.0
    ensures Span(a, b) <= Pieces(a, b, maxStep) as real * maxStep
  {
    CeilTimes(Span(a, b), maxStep, Pieces(a, b, maxStep));
  }

  function Frac(k: int, n: nat): (t: real)
    requires n >= 1
  {
    k as real / n as real
  }

  /** Pieces of every segment: one number per segment, none of them zero. */
  ghost predicate CutsFit(wps: seq<Vec>, cuts: seq<nat>) {
    && wps != [] && SameShape(wps) && |cuts| == |wps| - 1
    && forall i :: 0 <= i < |cuts| ==> cuts[i] >= 1
  }

  ghost predicate CutsOf(wps: seq<Vec>, cuts: seq<nat>, maxStep: real)
    requires maxStep > 0.0
  {
    CutsFit(wps, cuts) && forall i :: 0 <= i < |cuts| ==> cuts[i] == Pieces(wps[i], wps[i + 1], maxStep)
  }

  /** The configurations from piece `k` of segment `i` on; the last waypoint closes the list. */
  ghost function Walk(wps: seq<Vec>, cuts: seq<nat>, i: nat, k: nat): (s: seq<Sample>)
    requires CutsFit(wps, cuts) && i < |wps|
    requires if i == |cuts| then k == 0 else k < cuts[i]
    decreases |cuts| - i, if i < |cuts| then cuts[i] - k else 0
  {
    if i == |cuts| then [Sample(i, wps[i])]
    else [Sample(i, Lerp(wps[i], wps[i + 1], Frac(k, cuts[i])))]
         + (if k + 1 < cuts[i] then Walk(wps, cuts, i, k + 1) else Walk(wps, cuts, i + 1, 0))
  }

  /** What is left once the first `k` pieces of segment `i` are listed. */
  ghost function Rest(wps: seq<Vec>, cuts: seq<nat>, i: nat, k: nat): seq<Sample>
    requires CutsFit(wps, cuts) && i < |cuts| && k <= cuts[i]
  {
    if k < cuts[i] then Walk(wps, cuts, i, k) else Walk(wps, cuts, i + 1, 0)
  }

  lemma TakePiece(wps: seq<Vec>, cuts: seq<nat>, i: nat, k: nat, out: seq<Sample>)
    requires CutsFit(wps, cuts) && i < |cuts| && k < cuts[i]
    ensures out + Rest(wps, cuts, i, k)
         == (out + [Sample(i, Lerp(wps[i], wps[i + 1], Frac(k, cuts[i])))]) + Rest(wps, cuts, i, k + 1)
  {
  }

  /** The point piece `k` of segment `i` starts at. */
  ghost function Point(wps: seq<Vec>, cuts: seq<nat>, i: nat, k: nat): Vec
    requires CutsFit(wps, cuts) && i < |cuts| && k <= cuts[i]
  {
    Lerp(wps[i], wps[i + 1], Frac(k, cuts[i]))
  }

  ghost function CutAll(wps: seq<Vec>, maxStep: real): (cuts: seq<nat>)
    requires wps != [] && SameShape(wps) && maxStep > 0.0
    ensures CutsOf(wps, cuts, maxStep)
  {
    seq(|wps| - 1, i requires 0 <= i < |wps| - 1 => Pieces(wps[i], wps[i + 1], maxStep))
  }

  /** `densify_path`: nested loops over the segments, appending to one list. */
  method DensifyPath(wps: seq<Vec>, maxStep: real) returns (out: seq<Sample>, ghost cuts: seq<nat>)
    requires SameShape(wps) && maxStep > 0.0
    ensures wps == [] ==> out == []
    ensures wps != [] ==> CutsOf(wps, cuts, maxStep) && out == Walk(wps, cuts, 0, 0)
  {
    out, cuts := [], [];
    if wps == [] {
      return;
    }
    cuts := CutAll(wps, maxStep);
    var i := 0;
    while i < |wps| - 1
      invariant 0 <= i <= |wps| - 1
      invariant out + Walk(wps, cuts, i, 0) == Walk(wps, cuts, 0, 0)
    {
      ghost var before := out;
      out := DensifySegment(wps, i, Pieces(wps[i], wps[i + 1], maxStep), out, cuts);
      ListedEnds(wps, cuts, i, out, before);
      i := i + 1;
    }
    out := out + [Sample(|wps| - 1, wps[|wps| - 1])];
  }

  /** The inner loop: one segment's points behind what is listed already. */
  method DensifySegment(wps: seq<Vec>, i: nat, n: nat, out0: seq<Sample>, ghost cuts: seq<nat>) returns (out: seq<Sample>)
    requires CutsFit(wps, cuts) && i < |cuts| && n == cuts[i]
    ensures Listed(wps, cuts, i, n, out, out0)
  {
    out := out0;
    var k := 0;
    ListedStarts(wps, cuts, i, out);
    while k < n
      invariant 0 <= k <= n
      invariant Listed(wps, cuts, i, k, out, out0)
    {
      out := AddPiece(wps, i, k, n, out, out0, cuts);
      k := k + 1;
    }
  }

  method AddPiece(wps: seq<Vec>, i: nat, k: nat, n: nat, out1: seq<Sample>, ghost out0: seq<Sample>, ghost cuts: seq<nat>)
    returns (out: seq<Sample>)
    requires CutsFit(wps, cuts) && i < |cuts| && n == cuts[i] && k < n && Listed(wps, cuts, i, k, out1, out0)
    ensures Listed(wps, cuts, i, k + 1, out, out0)
  {
    ListedGrows(wps, cuts, i, k, n, out1, out0);
    out := out1 + [Sample(i, Lerp(wps[i], wps[i + 1], Frac(k, n)))];
  }

  /** `out` lists the first `k` pieces of segment `i` behind `out0`. */
  ghost predicate Listed(wps: seq<Vec>, cuts: seq<nat>, i: nat, k: nat, out: seq<Sample>, out0: seq<Sample>)
    requires CutsFit(wps, cuts) && i < |cuts| && k <= cuts[i]
  {
    out + Rest(wps, cuts, i, k) == out0 + Rest(wps, cuts, i, 0)
  }

  lemma ListedStarts(wps: seq<Vec>, cuts: seq<nat>, i: nat, out: seq<Sample>)
    requires CutsFit(wps, cuts) && i < |cuts|
    ensures Listed(wps, cuts, i, 0, out, out)
  {
  }

  lemma ListedGrows(wps: seq<Vec>, cuts: seq<nat>, i: nat, k: nat, n: nat, out: seq<Sample>, out0: seq<Sample>)
    requires CutsFit(wps, cuts) && i < |cuts| && n == cuts[i] && k < n && Listed(wps, cuts, i, k, out, out0)
    ensures Listed(wps, cuts, i, k + 1, out + [Sample(i, Lerp(wps[i], wps[i + 1], Frac(k, n)))], out0)
  {
    TakePiece(wps, cuts, i, k, out);
  }

  lemma ListedEnds(wps: seq<Vec>, cuts: seq<nat>, i: nat, out: seq<Sample>, out0: seq<Sample>)
    requires CutsFit(wps, cuts) && i < |cuts| && Listed(wps, cuts, i, cuts[i], out, out0)
    ensures out + Walk(wps, cuts, i + 1, 0) == out0 + Walk(wps, cuts, i, 0)
  {
  }

  lemma AbsProduct(x: real, y: real)
    ensures Abs(x * y) == Abs(x) * Abs(y)
  {
  }

  /** `u` is at most one n-th and `x` at most `n` steps, so `x * u` is at most one step. */
  lemma PieceIsShort(x: real, u: real, n: real, maxStep: real)
    requires maxStep > 0.0 && Abs(x) <= n * maxStep && Abs(u) * n <= 1.0
    ensures Abs(x * u) <= maxStep
  {
    AbsProduct(x, u);
    MulMono(Abs(x), n * maxStep, Abs(u));
    assert (n * maxStep) * Abs(u) == (Abs(u) * n) * maxStep;
    MulMono(Abs(u) * n, 1.0, maxStep);
  }

  lemma LerpGap(a: real, b: real, maxStep: real, n: real, s: real, t: real)
    requires maxStep > 0.0 && Abs(b - a) <= n * maxStep && Abs(s - t) * n <= 1.0
    ensures Abs((a + (b - a) * s) - (a + (b - a) * t)) <= maxStep
  {
    assert (a + (b - a) * s) - (a + (b - a) * t) == (b - a) * (s - t);
    PieceIsShort(b - a, s - t, n, maxStep);
  }

  /** A fraction of a segment no longer than `1 / n` moves no joint by more than `maxStep`. */
  lemma ShortFraction(a: Vec, b: Vec, maxStep: real, n: nat, s: real, t: real, d: nat)
    requires |a| == |b| && maxStep > 0.0 && d < |a|
    requires Abs(b[d] - a[d]) <= n as real * maxStep
    requires Abs(s - t) * n as real <= 1.0
    ensures Abs(Lerp(a, b, s)[d] - Lerp(a, b, t)[d]) <= maxStep
  {
    LerpGap(a[d], b[d], maxStep, n as real, s, t);
  }

  lemma NextFraction(k: nat, n: nat)
    requires k < n
    ensures Abs(Frac(k + 1, n) - Frac(k, n)) * n as real <= 1.0
    ensures k + 1 == n ==> Frac(k + 1, n) == 1.0
  {
    assert Frac(k + 1, n) * n as real == (k + 1) as real;
    assert Frac(k, n) * n as real == k as real;
    assert Frac(k + 1, n) >= Frac(k, n);
    assert (Frac(k + 1, n) - Frac(k, n)) * n as real == 1.0;
  }

  lemma FracEnds(n: nat)
    requires n >= 1
    ensures Frac(0, n) == 0.0 && Frac(n, n) == 1.0
  {
  }

  lemma NearFraction(f: real, t: real, n: real, k: real)
    requires n >= 1.0 && f * n == k && k <= t * n < k + 1.0
    ensures Abs(f - t) * n <= 1.0
  {
    var gap := t * n - f * n;
    assert (t - f) * n == gap;
    if t < f {
      MulStrict(t, f, n);
    }
  }

  lemma NearestFraction(t: real, n: nat) returns (k: nat)
    requires n >= 1 && 0.0 <= t <= 1.0
    ensures k <= n && Abs(Frac(k, n) - t) * n as real <= 1.0
    ensures k == n ==> Frac(k, n) == 1.0
  {
    var y := t * n as real;
    MulMono(0.0, t, n as real);
    MulMono(t, 1.0, n as real);
    k := y.Floor;
    FracEnds(n);
    FracTimes(k, n);
    NearFraction(Frac(k, n), t, n as real, k as real);
  }

  lemma FracTimes(k: nat, n: nat)
    requires n >= 1
    ensures Frac(k, n) * n as real == k as real
  {
  }

  lemma LerpEnds(a: Vec, b: Vec)
    requires |a| == |b|
    ensures Lerp(a, b, 0.0) == a && Lerp(a, b, 1.0) == b
  {
  }

  /** The head of the list is the point asked for, and the tail what is left after it. */
  lemma WalkStep(wps: seq<Vec>, cuts: seq<nat>, i: nat, k: nat)
    requires CutsFit(wps, cuts) && i < |cuts| && k < cuts[i]
    ensures Walk(wps, cuts, i, k) == [Sample(i, Point(wps, cuts, i, k))] + Rest(wps, cuts, i, k + 1)
  {
  }

  /** The list opens at waypoint `i` when nothing of its segment is behind. */
  ghost predicate Opens(wps: seq<Vec>, list: seq<Sample>, i: nat, k: nat)
    requires i < |wps|
  {
    |list| >= 1 && list[0].waypoint == i && (k == 0 ==> list[0].q == wps[i])
  }

  ghost predicate Closes(wps: seq<Vec>, list: seq<Sample>)
    requires wps != []
  {
    |list| >= 1 && list[|list| - 1] == Sample(|wps| - 1, wps[|wps| - 1])
  }

  /** The list opens at the point it is asked for and closes at the last waypoint. */
  lemma {:induction false} WalkEnds(wps: seq<Vec>, cuts: seq<nat>, i: nat, k: nat)
    requires CutsFit(wps, cuts) && i < |wps|
    requires if i == |cuts| then k == 0 else k < cuts[i]
    ensures Opens(wps, Walk(wps, cuts, i, k), i, k) && Closes(wps, Walk(wps, cuts, i, k))
    decreases |cuts| - i, if i < |cuts| then cuts[i] - k else 0
  {
    if i < |cuts| {
      WalkStep(wps, cuts, i, k);
      FracEnds(cuts[i]);
      LerpEnds(wps[i], wps[i + 1]);
      if k + 1 < cuts[i] {
        WalkEnds(wps, cuts, i, k + 1);
      } else {
        WalkEnds(wps, cuts, i + 1, 0);
      }
    }
  }

  /** After `k` pieces of segment `i` the list goes on with the point reached. */
  lemma RestStarts(wps: seq<Vec>, cuts: seq<nat>, i: nat, k: nat)
    requires CutsFit(wps, cuts) && i < |cuts| && k <= cuts[i]
    ensures |Rest(wps, cuts, i, k)| >= 1 && Rest(wps, cuts, i, k)[0].q == Point(wps, cuts, i, k)
  {
    if k < cuts[i] {
      WalkStep(wps, cuts, i, k);
    } else {
      FracEnds(cuts[i]);
      LerpEnds(wps[i], wps[i + 1]);
      WalkEnds(wps, cuts, i + 1, 0);
    }
  }

  /** Entries `j` and `j + 1` are the two ends of piece `m` of segment `seg`. */
  ghost predicate EndsOf(wps: seq<Vec>, cuts: seq<nat>, list: seq<Sample>, j: nat, seg: nat, m: nat)
    requires CutsFit(wps, cuts)
  {
    && j + 1 < |list| && seg < |cuts| && m < cuts[seg]
    && list[j].q == Point(wps, cuts, seg, m) && list[j + 1].q == Point(wps, cuts, seg, m + 1)
  }

  lemma EndsFurtherOn(wps: seq<Vec>, cuts: seq<nat>, head: Sample, tail: seq<Sample>, j: nat, seg: nat, m: nat)
    requires CutsFit(wps, cuts) && EndsOf(wps, cuts, tail, j, seg, m)
    ensures EndsOf(wps, cuts, [head] + tail, j + 1, seg, m)
  {
  }

  /** Neighbours of the list are the two ends of one piece. */
  lemma {:induction false} WalkIsSuccessive(wps: seq<Vec>, cuts: seq<nat>, i: nat, k: nat, j: nat) returns (seg: nat, m: nat)
    requires CutsFit(wps, cuts) && i < |cuts| && k < cuts[i] && j + 1 < |Walk(wps, cuts, i, k)|
    ensures EndsOf(wps, cuts, Walk(wps, cuts, i, k), j, seg, m)
    decreases |cuts| - i, cuts[i] - k
  {
    WalkStep(wps, cuts, i, k);
    RestStarts(wps, cuts, i, k + 1);
    if j == 0 {
      seg, m := i, k;
    } else {
      if k + 1 < cuts[i] {
        seg, m := WalkIsSuccessive(wps, cuts, i, k + 1, j - 1);
      } else {
        seg, m := WalkIsSuccessive(wps, cuts, i + 1, 0, j - 1);
      }
      EndsFurtherOn(wps, cuts, Sample(i, Point(wps, cuts, i, k)), Rest(wps, cuts, i, k + 1), j - 1, seg, m);
    }
  }

  /** Every listed configuration is as wide as the waypoints. */
  lemma {:induction false} WalkIsWide(wps: seq<Vec>, cuts: seq<nat>, i: nat, k: nat)
    requires CutsFit(wps, cuts) && i < |wps|
    requires if i == |cuts| then k == 0 else k < cuts[i]
    ensures forall j :: 0 <= j < |Walk(wps, cuts, i, k)| ==> |Walk(wps, cuts, i, k)[j].q| == |wps[0]|
    decreases |cuts| - i, if i < |cuts| then cuts[i] - k else 0
  {
    if i < |cuts| {
      WalkStep(wps, cuts, i, k);
      if k + 1 < cuts[i] {
        WalkIsWide(wps, cuts, i, k + 1);
      } else {
        WalkIsWide(wps, cuts, i + 1, 0);
      }
    }
  }

  /** Every end of every piece is listed. */
  lemma {:induction false} WalkIsComplete(wps: seq<Vec>, cuts: seq<nat>, i: nat, k: nat, seg: nat, m: nat) returns (j: nat)
    requires CutsFit(wps, cuts) && i <= seg < |cuts| && k < cuts[i] && m <= cuts[seg] && (i == seg ==> k <= m)
    ensures j < |Walk(wps, cuts, i, k)| && Walk(wps, cuts, i, k)[j].q == Point(wps, cuts, seg, m)
    decreases |cuts| - i, cuts[i] - k
  {
    WalkStep(wps, cuts, i, k);
    RestStarts(wps, cuts, i, k + 1);
    if i == seg && k == m {
      j := 0;
    } else if k + 1 < cuts[i] {
      j := WalkIsComplete(wps, cuts, i, k + 1, seg, m);
      j := j + 1;
    } else if i < seg {
      j := WalkIsComplete(wps, cuts, i + 1, 0, seg, m);
      j := j + 1;
    } else {
      j := 1;
    }
  }

  /** Resolution: two neighbouring configurations differ by at most `maxStep` per joint. */
  lemma NeighboursAreClose(wps: seq<Vec>, cuts: seq<nat>, maxStep: real, j: nat)
    requires maxStep > 0.0 && CutsOf(wps, cuts, maxStep)
    requires j + 1 < |Walk(wps, cuts, 0, 0)|
    ensures WithinStep(Walk(wps, cuts, 0, 0)[j + 1].q, Walk(wps, cuts, 0, 0)[j].q, maxStep)
  {
    var seg, m := WalkIsSuccessive(wps, cuts, 0, 0, j);
    PieceIsWithinStep(wps, cuts, maxStep, seg, m);
  }

  lemma PieceIsWithinStep(wps: seq<Vec>, cuts: seq<nat>, maxStep: real, seg: nat, m: nat)
    requires maxStep > 0.0 && CutsOf(wps, cuts, maxStep) && seg < |cuts| && m < cuts[seg]
    ensures WithinStep(Point(wps, cuts, seg, m + 1), Point(wps, cuts, seg, m), maxStep)
  {
    NextFraction(m, cuts[seg]);
    PiecesAreShort(wps[seg], wps[seg + 1], maxStep);
    PointsAreClose(wps[seg], wps[seg + 1], maxStep, cuts[seg], Frac(m + 1, cuts[seg]), Frac(m, cuts[seg]));
  }

  /** Two points of a segment less than a piece apart are within `maxStep`. */
  lemma PointsAreClose(a: Vec, b: Vec, maxStep: real, n: nat, s: real, t: real)
    requires |a| == |b| && maxStep > 0.0 && Span(a, b) <= n as real * maxStep
    requires Abs(s - t) * n as real <= 1.0
    ensures WithinStep(Lerp(a, b, s), Lerp(a, b, t), maxStep)
  {
    forall d | 0 <= d < |a| && d < N_JOINTS
      ensures Abs(Lerp(a, b, s)[d] - Lerp(a, b, t)[d]) <= maxStep
    {
      ShortFraction(a, b, maxStep, n, s, t, d);
    }
  }

  /** Coverage: every point of the polyline has a visited configuration within `maxStep`
      of it in every joint, so nothing between two configurations goes unsampled. */
  lemma PathIsCovered(wps: seq<Vec>, cuts: seq<nat>, maxStep: real, seg: nat, t: real) returns (j: nat)
    requires maxStep > 0.0 && CutsOf(wps, cuts, maxStep) && seg < |cuts| && 0.0 <= t <= 1.0
    ensures j < |Walk(wps, cuts, 0, 0)|
    ensures WithinStep(Walk(wps, cuts, 0, 0)[j].q, Lerp(wps[seg], wps[seg + 1], t), maxStep)
  {
    var a, b, n := wps[seg], wps[seg + 1], cuts[seg];
    var m := NearestFraction(t, n);
    assert WithinStep(Lerp(a, b, Frac(m, n)), Lerp(a, b, t), maxStep) by {
      PiecesAreShort(a, b, maxStep);
      PointsAreClose(a, b, maxStep, n, Frac(m, n), t);
    }
    j := WalkIsComplete(wps, cuts, 0, 0, seg, m);
  }

  ghost predicate WithinStep(p: Vec, q: Vec, maxStep: real) {
    |p| == |q| && forall d :: 0 <= d < |p| && d < N_JOINTS ==> Abs(p[d] - q[d]) <= maxStep
  }

  // -- rail positions -------------------------------------------------------------------

  /** Python's `round`: to the nearest integer, halves to the even one. */
  function Round(x: real): (n: int)
    ensures Abs(x - n as real) <= 0.5
  {
    var f := x.Floor;
    var frac := x - f as real;
    if frac < 0.5 then f else if frac > 0.5 then f + 1 else if f % 2 == 0 then f else f + 1
  }

  /** `sweep_positions`: `0, ..., travel`, evenly spaced, both ends included. */
  function SweepPositions(travel: real, step: real): (ps: seq<real>)
    requires travel > 0.0 && step > 0.0
    ensures |ps| >= 2 && ps[0] == 0.0 && ps[|ps| - 1] == travel
    ensures forall k :: 0 <= k < |ps| ==> ps[k] == travel * Frac(k, |ps| - 1)
  {
    var n := Round(travel / step) + 1;
    var m: int := if n < 2 then 2 else n;
    FracEnds(m - 1);
    seq(m, k requires 0 <= k < m => travel * Frac(k, m - 1))
  }

  /** Neighbouring rail positions are all the same distance apart. */
  lemma SweepIsEven(travel: real, step: real, k: nat)
    requires travel > 0.0 && step > 0.0 && k + 1 < |SweepPositions(travel, step)|
    ensures var ps := SweepPositions(travel, step);
            (ps[k + 1] - ps[k]) * (|ps| - 1) as real == travel
  {
    var n := |SweepPositions(travel, step)| - 1;
    assert Frac(k + 1, n) * n as real == (k + 1) as real;
    assert Frac(k, n) * n as real == k as real;
    assert (travel * Frac(k + 1, n) - travel * Frac(k, n)) * n as real
        == travel * (Frac(k + 1, n) * n as real - Frac(k, n) * n as real);
  }

  /** `n` steps come nearest to `x`, and of two equally near the even number. */
  ghost predicate NearestCount(x: real, step: real, n: int) {
    Abs(x - n as real * step) <= 0.5 * step && (Abs(x - n as real * step) == 0.5 * step ==> n % 2 == 0)
  }

  lemma RoundIsNearest(x: real, step: real)
    requires step > 0.0
    ensures NearestCount(x, step, Round(x / step))
  {
    var y, n := x / step, Round(x / step);
    assert y * step == x;
    GapScales(y, n as real, x, step);
    assert Abs(y - n as real) == 0.5 ==> n % 2 == 0;
  }

  lemma GapScales(y: real, n: real, x: real, step: real)
    requires step > 0.0 && y * step == x
    ensures Abs(x - n * step) == Abs(y - n) * step
    ensures Abs(y - n) < 0.5 ==> Abs(x - n * step) < 0.5 * step
    ensures Abs(y - n) == 0.5 ==> Abs(x - n * step) == 0.5 * step
  {
    assert x - n * step == (y - n) * step;
    AbsProduct(y - n, step);
    var gap := Abs(y - n);
    if gap < 0.5 {
      MulStrict(gap, 0.5, step);
    } else if gap == 0.5 {
      assert gap * step == 0.5 * step;
    }
  }

  /** One count only is nearest. */
  lemma NearestIsUnique(x: real, step: real, m: int, n: int)
    requires step > 0.0 && NearestCount(x, step, m) && NearestCount(x, step, n)
    ensures m == n
  {
    if m < n {
      NearestApart(x, step, m, n);
    } else if n < m {
      NearestApart(x, step, n, m);
    }
  }

  /** Two counts can only be equally near as neighbours. */
  lemma NearestApart(x: real, step: real, m: int, n: int)
    requires step > 0.0 && m < n && NearestCount(x, step, m)
    ensures !NearestCount(x, step, n)
  {
    var v, w := m as real * step, n as real * step;
    StepsApart(m as real, n as real, step, v, w);
    if n == m + 1 {
      HalfWay(x, step, v, w);
    } else {
      TooFar(x, step, v, w);
    }
  }

  lemma HalfWay(x: real, step: real, v: real, w: real)
    requires step > 0.0 && w == v + step && Abs(x - v) <= 0.5 * step
    ensures Abs(x - w) <= 0.5 * step ==> Abs(x - v) == 0.5 * step && Abs(x - w) == 0.5 * step
  {
  }

  lemma TooFar(x: real, step: real, v: real, w: real)
    requires step > 0.0 && w >= v + 2.0 * step && Abs(x - v) <= 0.5 * step
    ensures Abs(x - w) > 0.5 * step
  {
  }

  lemma StepsApart(m: real, n: real, step: real, v: real, w: real)
    requires step > 0.0 && n >= m + 1.0 && v == m * step && w == n * step
    ensures n == m + 1.0 ==> w == v + step
    ensures n >= m + 2.0 ==> w >= v + 2.0 * step
  {
    assert w - v == (n - m) * step;
    if n >= m + 2.0 {
      MulMono(2.0, n - m, step);
    }
  }

  /** How many rail positions are swept, one gap at least: the gaps are the count of steps
      nearest to the travel, halves to the even one. */
  lemma SweepCount(travel: real, step: real)
    requires travel > 0.0 && step > 0.0
    ensures var gaps := |SweepPositions(travel, step)| - 1;
            gaps >= 1 && if travel <= 0.5 * step then gaps == 1 else NearestCount(travel, step, gaps)
  {
    var n := Round(travel / step);
    GapsRounded(travel, step);
    RoundIsNearest(travel, step);
    SmallTravel(travel, step, n);
  }

  lemma GapsRounded(travel: real, step: real)
    requires travel > 0.0 && step > 0.0
    ensures |SweepPositions(travel, step)| - 1 == if Round(travel / step) < 1 then 1 else Round(travel / step)
  {
  }

  /** Half a step rounds to none, and more to one at least. */
  lemma SmallTravel(travel: real, step: real, n: int)
    requires step > 0.0 && NearestCount(travel, step, n)
    ensures n < 1 ==> travel <= 0.5 * step
    ensures travel <= 0.5 * step ==> n <= 1
  {
    var w := n as real * step;
    if n < 1 {
      MulMono(n as real, 0.0, step);
    } else if n >= 2 {
      MulMono(2.0, n as real, step);
      assert w >= 2.0 * step;
    }
  }

  /** Wherever the carriage is, a swept position is within three quarters of a step. */
  lemma SweepCovers(travel: real, step: real, x: real) returns (k: nat)
    requires travel > 0.0 && step > 0.0 && 0.0 <= x <= travel
    ensures k < |SweepPositions(travel, step)| && Abs(SweepPositions(travel, step)[k] - x) <= 0.75 * step
  {
    SweepCount(travel, step);
    k := CoveredBy(travel, step, SweepPositions(travel, step), x);
  }

  lemma OnTravel(travel: real, step: real, k: nat)
    requires travel > 0.0 && step > 0.0 && k < |SweepPositions(travel, step)|
    ensures 0.0 <= SweepPositions(travel, step)[k] <= travel
  {
    FractionOnTravel(travel, k, |SweepPositions(travel, step)| - 1);
  }

  lemma FractionOnTravel(travel: real, k: nat, gaps: nat)
    requires travel > 0.0 && gaps >= 1 && k <= gaps
    ensures 0.0 <= travel * Frac(k, gaps) <= travel
  {
    FracTimes(k, gaps);
    FractionInOrder(Frac(k, gaps), gaps as real, k as real);
    MulMono(0.0, Frac(k, gaps), travel);
    MulMono(Frac(k, gaps), 1.0, travel);
  }

  lemma FractionInOrder(f: real, n: real, k: real)
    requires n >= 1.0 && 0.0 <= k <= n && f * n == k
    ensures 0.0 <= f <= 1.0
  {
    if f < 0.0 {
      MulStrict(f, 0.0, n);
    } else if f > 1.0 {
      MulStrict(1.0, f, n);
    }
  }

  lemma CoveredBy(travel: real, step: real, ps: seq<real>, x: real) returns (k: nat)
    requires travel > 0.0 && step > 0.0 && 0.0 <= x <= travel
    requires |ps| >= 2 && forall k :: 0 <= k < |ps| ==> ps[k] == travel * Frac(k, |ps| - 1)
    requires travel <= 0.5 * step || NearestCount(travel, step, |ps| - 1)
    ensures k < |ps| && Abs(ps[k] - x) <= 0.75 * step
  {
    GapsAreShort(travel, step, |ps| - 1);
    k := NearestPosition(travel, |ps| - 1, x, step);
  }

  lemma NearestPosition(travel: real, gaps: nat, x: real, step: real) returns (k: nat)
    requires travel > 0.0 && step > 0.0 && gaps >= 1 && 0.0 <= x <= travel && travel <= 1.5 * gaps as real * step
    ensures k <= gaps && Abs(travel * Frac(k, gaps) - x) <= 0.75 * step
  {
    k := NearestGap(travel, gaps, x);
    FracTimes(k, gaps);
    HalfGap(travel, Frac(k, gaps), gaps as real, k as real, x, step);
  }

  lemma GapsAreShort(travel: real, step: real, gaps: nat)
    requires step > 0.0 && gaps >= 1 && (travel <= 0.5 * step || NearestCount(travel, step, gaps))
    ensures travel <= 1.5 * gaps as real * step
  {
    var w := gaps as real * step;
    MulMono(1.0, gaps as real, step);
    HalfMore(travel, step, gaps as real, w);
  }

  lemma HalfMore(travel: real, step: real, gaps: real, w: real)
    requires w == gaps * step && w >= step > 0.0 && (travel <= 0.5 * step || Abs(travel - w) <= 0.5 * step)
    ensures travel <= 1.5 * gaps * step
  {
    assert 1.5 * gaps * step == 1.5 * w;
  }

  lemma NearestGap(travel: real, gaps: nat, x: real) returns (k: nat)
    requires travel > 0.0 && gaps >= 1 && 0.0 <= x <= travel
    ensures k <= gaps && 2.0 * Abs(k as real * travel - x * gaps as real) <= travel
  {
    var y := x * gaps as real / travel;
    assert y * travel == x * gaps as real;
    var n := Round(y);
    WithinEnds(y, gaps as real, x, travel);
    k := n;
    GapScales(y, k as real, x * gaps as real, travel);
    MulMono(Abs(y - k as real), 0.5, travel);
  }

  lemma WithinEnds(y: real, gaps: real, x: real, travel: real)
    requires travel > 0.0 && gaps >= 1.0 && 0.0 <= x <= travel && y * travel == x * gaps
    ensures 0.0 <= y <= gaps
  {
    MulMono(0.0, x, gaps);
    MulMono(x, travel, gaps);
    if y < 0.0 {
      MulStrict(y, 0.0, travel);
    }
    if y > gaps {
      MulStrict(gaps, y, travel);
    }
  }

  /** Half a gap is at most three quarters of a step. */
  lemma HalfGap(travel: real, f: real, gaps: real, k: real, x: real, step: real)
    requires gaps >= 1.0 && f * gaps == k && 2.0 * Abs(k * travel - x * gaps) <= travel && travel <= 1.5 * gaps * step
    ensures Abs(travel * f - x) <= 0.75 * step
  {
    var gap := travel * f - x;
    assert gap * gaps == travel * (f * gaps) - x * gaps;
    AbsProduct(gap, gaps);
    assert Abs(gap) * gaps <= (0.75 * step) * gaps;
    if Abs(gap) > 0.75 * step {
      MulStrict(0.75 * step, Abs(gap), gaps);
    }
  }

  // -- pieces ---------------------------------------------------------------------------

  /** The pieces of a segment are the least number that keeps every arm joint within the step;
      the carriage is not counted. */
  lemma PiecesAreLeast(a: Vec, b: Vec, maxStep: real, n: nat)
    requires |a| == |b| && maxStep > 0.0 && n >= 1
    ensures Pieces(a, b, maxStep) <= n <==> JointsWithin(a, b, n as real * maxStep)
  {
    PiecesAtMost(a, b, maxStep, n);
    QuotientAtMost(Span(a, b), maxStep, n as real);
    SpanWithin(a, b, Times(n as real, maxStep));
  }

  /** No arm joint moves by more than `t`. */
  ghost predicate JointsWithin(a: Vec, b: Vec, t: real)
    requires |a| == |b|
  {
    forall j :: 0 <= j < |a| && j < N_JOINTS ==> Abs(b[j] - a[j]) <= t
  }

  lemma SpanWithin(a: Vec, b: Vec, t: real)
    requires |a| == |b| && t >= 0.0
    ensures Span(a, b) <= t <==> JointsWithin(a, b, t)
  {
    SpanIsLargest(a, b, if |a| < N_JOINTS then |a| else N_JOINTS, t);
  }

  ghost function Times(n: real, step: real): (t: real)
    requires n >= 0.0 && step > 0.0
    ensures t >= 0.0
  {
    MulMono(0.0, n, step);
    n * step
  }

  lemma PiecesAtMost(a: Vec, b: Vec, maxStep: real, n: nat)
    requires |a| == |b| && maxStep > 0.0 && n >= 1
    ensures Pieces(a, b, maxStep) <= n <==> Span(a, b) / maxStep <= n as real
  {
  }

  lemma QuotientAtMost(x: real, step: real, n: real)
    requires step > 0.0
    ensures x / step <= n <==> x <= n * step
  {
    QuotientComparison(x / step, x, step, n);
  }

  lemma QuotientComparison(r: real, x: real, step: real, n: real)
    requires step > 0.0 && r * step == x
    ensures r <= n <==> x <= n * step
  {
    if r <= n {
      MulMono(r, n, step);
    } else {
      MulStrict(n, r, step);
    }
  }

  lemma {:induction false} SpanIsLargest(a: Vec, b: Vec, d: nat, t: real)
    requires |a| == |b| && d <= |a| && d <= N_JOINTS && t >= 0.0
    ensures JointSpan(a, b, d) <= t <==> forall j :: 0 <= j < d ==> Abs(b[j] - a[j]) <= t
  {
    if d > 0 {
      SpanIsLargest(a, b, d - 1, t);
    }
  }
}
