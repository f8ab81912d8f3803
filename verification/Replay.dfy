/** Replaying a recorded action column (dagger/replay_source.py:115-188): the row clock, and
    how far the applied motion may be off the recorded one. */
module Replay {
  import opened Prelude
  import opened RowBudget

  /** Slack of the row clock (dagger/replay_source.py:127). */
  const CLOCK_SLACK := 0.000000001

  /** The unclamped row due `elapsed` seconds in. */
  function RowDue(elapsed: real, period: real): int
    requires period > 0.0
  {
    (elapsed / period + CLOCK_SLACK).Floor
  }

  /** Before the first row the first, after the last the last. */
  function Clamped(k: int, rows: nat): (r: int)
    requires rows > 0
    ensures 0 <= r < rows && (0 <= k < rows ==> r == k) && (k < 0 ==> r == 0) && (k >= rows ==> r == rows - 1)
  {
    if k < 0 then 0 else if k >= rows then rows - 1 else k
  }

  datatype Served = Served(row: Vec, t: real, remaining: int)

  class ReplaySource {
    const rows: seq<Vec>
    const period: real
    var t0: Option<real>
    var frameIndex: nat
    var paused: bool

    predicate Valid()
      reads this
    {
      rows != [] && period > 0.0 && frameIndex < |rows|
    }

    constructor (recorded: seq<Vec>, fps: real)
      requires recorded != []
      ensures Valid() && rows == recorded && period == (if fps > 0.0 then 1.0 / fps else 1.0) && t0 == None
    {
      rows := recorded;
      period := if fps > 0.0 then 1.0 / fps else 1.0;
      t0, frameIndex, paused := None, 0, false;
    }

    method Start(now: real)
      requires Valid()
      modifies this
      ensures Valid() && t0 == Some(now) && frameIndex == 0 && paused == old(paused)
    {
      t0, frameIndex := Some(now), 0;
    }

    method Stop()
      requires Valid()
      modifies this
      ensures Valid() && t0 == None && frameIndex == old(frameIndex) && paused == old(paused)
    {
      t0 := None;
    }

    function K(now: real): int
      requires Valid()
      reads this
    {
      if t0.None? then -1 else RowDue(now - t0.value, period)
    }

    /** The row current at `now`, clamped to the recording. */
    method Latest(now: real) returns (out: Option<Served>)
      requires Valid()
      modifies this`frameIndex
      ensures Valid()
      ensures t0.None? <==> out.None?
      ensures t0.Some? ==>
        && frameIndex as int == Clamped(RowDue(now - t0.value, period), |rows|)
        && out.value == Served(rows[frameIndex], t0.value + frameIndex as real * period, |rows| - 1 - frameIndex)
    {
      if t0.None? {
        return None;
      }
      var k := K(now);
      var low := if k < 0 then 0 else k;
      frameIndex := if low < |rows| - 1 then low else |rows| - 1;
      out := Some(Served(rows[frameIndex], t0.value + frameIndex as real * period, |rows| - 1 - frameIndex));
    }

    predicate FinishedAt(now: real)
      requires Valid()
      reads this
    {
      t0.Some? && K(now) >= |rows|
    }
  }

  /** The row due is the one whose period contains the time since the start and the slack. */
  lemma RowDueExactly(elapsed: real, period: real, k: int)
    requires period > 0.0
    ensures RowDue(elapsed, period) == k <==> k as real * period <= elapsed + CLOCK_SLACK * period < (k + 1) as real * period
  {
    var x := QuotientTimes(elapsed, period);
    RowDueAt(x, elapsed, period, k);
  }

  lemma RowDueAt(x: real, elapsed: real, period: real, k: int)
    requires period > 0.0 && x * period == elapsed
    ensures (x + CLOCK_SLACK).Floor == k <==> k as real * period <= elapsed + CLOCK_SLACK * period < (k + 1) as real * period
  {
    var y, w := x + CLOCK_SLACK, elapsed + CLOCK_SLACK * period;
    Slackened(x, y, elapsed, period);
    InOrder(k as real, y, period, w);
    InOrder((k + 1) as real, y, period, w);
    assert y.Floor == k <==> k as real <= y < (k + 1) as real;
  }

  lemma InOrder(a: real, y: real, period: real, w: real)
    requires period > 0.0 && y * period == w
    ensures a <= y <==> a * period <= w
  {
    ScaledOrder(a, y, period);
  }

  lemma Slackened(x: real, y: real, elapsed: real, period: real)
    requires x * period == elapsed && y == x + CLOCK_SLACK
    ensures y * period == elapsed + CLOCK_SLACK * period
  {
  }

  lemma ScaledOrder(a: real, y: real, period: real)
    requires period > 0.0
    ensures a <= y <==> a * period <= y * period
  {
    if a <= y {
      MulMono(a, y, period);
    } else {
      MulStrict(y, a, period);
    }
  }

  // -- the ticks of a replay ------------------------------------------------------------------

  /** Ticks on the row axis: the `i`-th tick at `x0 + i * rho` rows. */
  ghost function At(x0: real, rho: real, i: nat): real {
    if i == 0 then x0 else At(x0, rho, i - 1) + rho
  }

  ghost function RowAt(x0: real, rho: real, i: nat): int {
    At(x0, rho, i).Floor
  }

  lemma {:induction false} AtIsLinear(x0: real, rho: real, i: nat)
    ensures At(x0, rho, i) == x0 + i as real * rho
  {
    if i > 0 {
      AtIsLinear(x0, rho, i - 1);
      assert (i - 1) as real * rho + rho == i as real * rho;
    }
  }

  lemma QuotientSum(a: real, b: real, i: real, p: real)
    requires p > 0.0
    ensures (a + i * b) / p == a / p + i * (b / p)
  {
    var x, y := a / p, b / p;
    assert x * p == a && y * p == b;
    assert (x + i * y) * p == a + i * b;
  }

  /** Ticks every `dt`, the first one `phi` after the start, in row units. */
  lemma ClockOnRowAxis(phi: real, dt: real, period: real, i: nat)
    requires period > 0.0
    ensures RowDue(phi + i as real * dt, period) == RowAt(phi / period + CLOCK_SLACK, dt / period, i)
  {
    QuotientSum(phi, dt, i as real, period);
    AtIsLinear(phi / period + CLOCK_SLACK, dt / period, i);
  }

  /** A recording being replayed. */
  datatype Take = Take(rows: seq<Vec>, t0: real, period: real)

  ghost predicate Wide(take: Take, dof: nat) {
    forall k :: 0 <= k < |take.rows| ==> |take.rows[k]| == dof
  }

  ghost function KeyOf(take: Take, k: int): RowKey {
    RowKey(0, take.t0 + k as real * take.period, |take.rows| - 1 - k)
  }

  ghost function CallOf(take: Take, x0: real, rho: real, i: nat): Call
    requires 0 <= RowAt(x0, rho, i) < |take.rows|
  {
    Call(KeyOf(take, RowAt(x0, rho, i)), take.rows[RowAt(x0, rho, i)], rho)
  }

  ghost predicate Running(take: Take, x0: real, rho: real, n: nat) {
    forall i :: 0 <= i < n ==> 0 <= RowAt(x0, rho, i) < |take.rows|
  }

  /** What the step hands the anchor on the first `n` ticks, all before the finish. */
  ghost function Calls(take: Take, x0: real, rho: real, n: nat): (calls: seq<Call>)
    requires Running(take, x0, rho, n)
    ensures |calls| == n && forall i :: 0 <= i < n ==> calls[i] == CallOf(take, x0, rho, i)
  {
    if n == 0 then [] else Calls(take, x0, rho, n - 1) + [CallOf(take, x0, rho, n - 1)]
  }

  /** Sum of coordinate `j` over the first `k` rows. */
  ghost function Recorded(take: Take, j: nat, k: nat): real
    requires k <= |take.rows| && forall i :: 0 <= i < |take.rows| ==> j < |take.rows[i]|
  {
    if k == 0 then 0.0 else Recorded(take, j, k - 1) + take.rows[k - 1][j]
  }

  // -- how much of a row is left when it is replaced --------------------------------------------

  /** A bound on what one row leaves behind: `late` is how far into the first row its first
      tick may come. */
  ghost predicate Bounds(rho: real, late: real, m: real, b: real) {
    0.0 < rho < 1.0 && 0.0 <= late < 1.0 && m >= 0.0 && b >= 0.0 && rho * (m + b) <= b && late * m <= b
  }

  ghost function Lateness(k: int, rho: real, late: real): real {
    if k == 0 then late else rho
  }

  ghost function Size(k: int, m: real, b: real): real {
    if k == 0 then m else m + b
  }

  lemma LeftIsSmall(eff: real, budget: real, size: real, late: real, b: real)
    requires Abs(eff) <= size && 0.0 <= budget <= late && late * size <= b
    ensures Abs(eff * budget) <= b
  {
    calc {
      Abs(eff * budget);
    == { ProductAbs(eff, budget); }
      Abs(eff) * budget;
    <= { MulMono(Abs(eff), size, budget); }
      size * budget;
    <= { MulMono(budget, late, size); }
      late * size;
    <=
      b;
    }
  }

  lemma ProductAbs(x: real, f: real)
    requires f >= 0.0
    ensures Abs(x * f) == Abs(x) * f
  {
  }

  /** Where a tick stands: `y` of row `k` has passed, `pot` is what it left. */
  ghost predicate Standing(take: Take, pot: Option<Pot>, k: int, y: real, dof: nat, j: nat,
                           rho: real, late: real, m: real, b: real)
    requires ValidPot(pot, dof) && j < dof
  {
    && pot.Some? && pot.value.key == KeyOf(take, k) && 0 <= k && 0.0 <= y < 1.0
    && Abs(pot.value.eff[j]) <= Size(k, m, b)
    && pot.value.budget <= MaxR(0.0, 1.0 + Lateness(k, rho, late) - rho - y)
  }

  lemma SameRow(take: Take, pot: Option<Pot>, k: int, y: real, row: Vec, dof: nat, j: nat, rho: real, late: real, m: real, b: real)
    requires |row| == dof && ValidPot(pot, dof) && j < dof && 0.0 < rho < 1.0
    requires Standing(take, pot, k, y, dof, j, rho, late, m, b) && y + rho < 1.0
    ensures var left := RowStep(pot, KeyOf(take, k), row, rho).1;
            ValidPot(Some(left), dof) && Standing(take, Some(left), k, y + rho, dof, j, rho, late, m, b)
  {
  }

  lemma LateBound(rho: real, late: real, m: real, b: real, k: int)
    requires Bounds(rho, late, m, b)
    ensures 0.0 <= Lateness(k, rho, late) && Lateness(k, rho, late) * Size(k, m, b) <= b
  {
  }

  /** A row replaced by the next one leaves at most `b` behind. */
  lemma LeftBehind(take: Take, pot: Option<Pot>, k: int, y: real, dof: nat, j: nat, rho: real, late: real, m: real, b: real)
    requires ValidPot(pot, dof) && j < dof && Bounds(rho, late, m, b)
    requires Standing(take, pot, k, y, dof, j, rho, late, m, b) && y + rho >= 1.0
    ensures Abs(LeftOver(pot, dof, j)) <= b
  {
    LateBound(rho, late, m, b, k);
    LeftIsSmall(pot.value.eff[j], pot.value.budget, Size(k, m, b), Lateness(k, rho, late), b);
  }

  lemma CarriedAt(pot: Option<Pot>, row: Vec, j: nat)
    requires ValidPot(pot, |row|) && j < |row|
    ensures Carried(pot, row)[j] == row[j] + LeftOver(pot, |row|, j)
  {
  }

  lemma NextRow(take: Take, pot: Option<Pot>, k: int, y: real, row: Vec, dof: nat, j: nat, rho: real, late: real, m: real, b: real)
    requires |row| == dof && ValidPot(pot, dof) && j < dof && 0.0 < rho < 1.0 && Abs(row[j]) <= m
    requires pot.Some? && pot.value.key == KeyOf(take, k) && 0 <= k && 0.0 <= y < 1.0 && y + rho >= 1.0
    requires Abs(LeftOver(pot, dof, j)) <= b
    ensures var left := RowStep(pot, KeyOf(take, k + 1), row, rho).1;
            ValidPot(Some(left), dof) && Standing(take, Some(left), k + 1, y + rho - 1.0, dof, j, rho, late, m, b)
  {
    CarriedAt(pot, row, j);
    assert KeyOf(take, k + 1).remaining != KeyOf(take, k).remaining;
  }

  lemma FirstRow(take: Take, x0: real, row: Vec, dof: nat, j: nat, rho: real, late: real, m: real, b: real)
    requires |row| == dof && j < dof && Bounds(rho, late, m, b) && Abs(row[j]) <= m && 0.0 <= x0 <= late
    ensures var left := RowStep(None, KeyOf(take, 0), row, rho).1;
            ValidPot(Some(left), dof) && Standing(take, Some(left), 0, x0, dof, j, rho, late, m, b)
  {
  }

  lemma FloorSteps(x: real, rho: real, k: int)
    requires 0.0 < rho < 1.0 && x.Floor == k
    ensures (x + rho).Floor == if x - k as real + rho < 1.0 then k else k + 1
  {
  }

  /** After these calls the replay is `y` into row `k`, and has received the rows up to it. */
  ghost predicate OnRow(take: Take, calls: seq<Call>, k: int, y: real, dof: nat, j: nat, rho: real, late: real, m: real, b: real)
    requires Sized(calls, dof) && j < dof && Wide(take, dof)
  {
    && 0 <= k < |take.rows| && calls != [] && calls[|calls| - 1].key == KeyOf(take, k)
    && Standing(take, PotAfter(calls, dof), k, y, dof, j, rho, late, m, b)
    && Received(calls, dof, j) == Recorded(take, j, k + 1)
  }

  lemma StayOnRow(take: Take, calls: seq<Call>, c: Call, k: int, y: real, dof: nat, j: nat, rho: real, late: real, m: real, b: real)
    requires Sized(calls, dof) && j < dof && Wide(take, dof) && Bounds(rho, late, m, b)
    requires OnRow(take, calls, k, y, dof, j, rho, late, m, b) && y + rho < 1.0
    requires |c.row| == dof && c == Call(KeyOf(take, k), c.row, rho)
    ensures Sized(calls + [c], dof) && OnRow(take, calls + [c], k, y + rho, dof, j, rho, late, m, b)
  {
    assert (calls + [c])[..|calls|] == calls;
    SameRow(take, PotAfter(calls, dof), k, y, c.row, dof, j, rho, late, m, b);
  }

  lemma MoveOn(take: Take, calls: seq<Call>, c: Call, k: int, y: real, dof: nat, j: nat, rho: real, late: real, m: real, b: real)
    requires Sized(calls, dof) && j < dof && Wide(take, dof) && Bounds(rho, late, m, b)
    requires OnRow(take, calls, k, y, dof, j, rho, late, m, b) && y + rho >= 1.0 && k + 1 < |take.rows|
    requires c == Call(KeyOf(take, k + 1), take.rows[k + 1], rho) && Abs(take.rows[k + 1][j]) <= m
    ensures Sized(calls + [c], dof) && OnRow(take, calls + [c], k + 1, y + rho - 1.0, dof, j, rho, late, m, b)
  {
    assert (calls + [c])[..|calls|] == calls;
    LeftBehind(take, PotAfter(calls, dof), k, y, dof, j, rho, late, m, b);
    NextRow(take, PotAfter(calls, dof), k, y, c.row, dof, j, rho, late, m, b);
  }

  lemma StartOnRow(take: Take, x0: real, c: Call, dof: nat, j: nat, rho: real, late: real, m: real, b: real)
    requires j < dof && Wide(take, dof) && Bounds(rho, late, m, b) && |take.rows| > 0 && 0.0 <= x0 <= late
    requires c == Call(KeyOf(take, 0), take.rows[0], rho) && Abs(take.rows[0][j]) <= m
    ensures Sized([c], dof) && OnRow(take, [c], 0, x0, dof, j, rho, late, m, b)
  {
    assert [c][..0] == [];
    FirstRow(take, x0, c.row, dof, j, rho, late, m, b);
  }

  /** A statement about the calls made, the row they have reached and how much of it passed. */
  type RowFact = (seq<Call>, int, real) -> bool

  ghost function RowCall(take: Take, k: int, rho: real): Call
    requires 0 <= k < |take.rows|
  {
    Call(KeyOf(take, k), take.rows[k], rho)
  }

  ghost predicate HoldsAtStart(take: Take, x0: real, rho: real, fact: RowFact) {
    |take.rows| > 0 ==> fact([RowCall(take, 0, rho)], 0, x0)
  }

  ghost predicate HoldsOnRow(take: Take, rho: real, fact: RowFact) {
    forall calls, k, y :: fact(calls, k, y) && 0 <= k < |take.rows| && y + rho < 1.0 ==>
      fact(calls + [RowCall(take, k, rho)], k, y + rho)
  }

  ghost predicate HoldsOnNextRow(take: Take, rho: real, fact: RowFact) {
    forall calls, k, y :: fact(calls, k, y) && 0 <= k < |take.rows| - 1 && y + rho >= 1.0 ==>
      fact(calls + [RowCall(take, k + 1, rho)], k + 1, y + rho - 1.0)
  }

  /** Every tick is on the row due, and rows come one by one from the first: what starts right
      and is kept by a tick on the same row and by a tick on the next holds throughout. */
  lemma {:induction false} RowsInTurn(take: Take, x0: real, rho: real, n: nat, fact: RowFact)
    requires 0.0 < rho < 1.0 && 0.0 <= x0 < 1.0 && n >= 1 && Running(take, x0, rho, n)
    requires HoldsAtStart(take, x0, rho, fact) && HoldsOnRow(take, rho, fact) && HoldsOnNextRow(take, rho, fact)
    ensures fact(Calls(take, x0, rho, n), RowAt(x0, rho, n - 1), At(x0, rho, n - 1) - RowAt(x0, rho, n - 1) as real)
    decreases n
  {
    var front, c := Calls(take, x0, rho, n - 1), CallOf(take, x0, rho, n - 1);
    assert Calls(take, x0, rho, n) == front + [c];
    assert c == RowCall(take, RowAt(x0, rho, n - 1), rho);
    if n == 1 {
      assert front + [c] == [c];
    } else {
      RowsInTurn(take, x0, rho, n - 1, fact);
      FloorSteps(At(x0, rho, n - 2), rho, RowAt(x0, rho, n - 2));
    }
  }

  ghost function Progress(take: Take, dof: nat, j: nat, rho: real, late: real, m: real, b: real): RowFact
    requires j < dof && Wide(take, dof)
  {
    (calls: seq<Call>, k: int, y: real) => Sized(calls, dof) && OnRow(take, calls, k, y, dof, j, rho, late, m, b)
  }

  ghost predicate Bounded(take: Take, j: nat, m: real)
    requires forall k :: 0 <= k < |take.rows| ==> j < |take.rows[k]|
  {
    forall k :: 0 <= k < |take.rows| ==> Abs(take.rows[k][j]) <= m
  }

  /** What a row may leave behind stays bounded. */
  lemma ProgressHolds(take: Take, x0: real, rho: real, dof: nat, j: nat, late: real, m: real, b: real)
    requires j < dof && Wide(take, dof) && Bounds(rho, late, m, b) && 0.0 <= x0 <= late && Bounded(take, j, m)
    ensures HoldsAtStart(take, x0, rho, Progress(take, dof, j, rho, late, m, b))
    ensures HoldsOnRow(take, rho, Progress(take, dof, j, rho, late, m, b))
    ensures HoldsOnNextRow(take, rho, Progress(take, dof, j, rho, late, m, b))
  {
    var fact := Progress(take, dof, j, rho, late, m, b);
    if |take.rows| > 0 {
      StartOnRow(take, x0, RowCall(take, 0, rho), dof, j, rho, late, m, b);
    }
    forall calls, k, y | fact(calls, k, y) && 0 <= k < |take.rows| && y + rho < 1.0
      ensures fact(calls + [RowCall(take, k, rho)], k, y + rho)
    {
      StayOnRow(take, calls, RowCall(take, k, rho), k, y, dof, j, rho, late, m, b);
    }
    forall calls, k, y | fact(calls, k, y) && 0 <= k < |take.rows| - 1 && y + rho >= 1.0
      ensures fact(calls + [RowCall(take, k + 1, rho)], k + 1, y + rho - 1.0)
    {
      MoveOn(take, calls, RowCall(take, k + 1, rho), k, y, dof, j, rho, late, m, b);
    }
  }

  // -- the whole replay -------------------------------------------------------------------------

  /** The tick count at which the replay is first seen finished. */
  ghost predicate FinishesAt(take: Take, x0: real, rho: real, n: nat) {
    n >= 1 && Running(take, x0, rho, n) && RowAt(x0, rho, n) >= |take.rows|
  }

  lemma LastRow(take: Take, x0: real, rho: real, n: nat)
    requires 0.0 < rho < 1.0 && FinishesAt(take, x0, rho, n)
    ensures RowAt(x0, rho, n - 1) == |take.rows| - 1
    ensures At(x0, rho, n - 1) - RowAt(x0, rho, n - 1) as real + rho >= 1.0
  {
    FloorSteps(At(x0, rho, n - 1), rho, RowAt(x0, rho, n - 1));
  }

  lemma Off(handed: real, left: real, received: real, b: real)
    requires handed + left == received && Abs(left) <= b
    ensures Abs(handed - received) <= b
  {
  }

  /** Every recorded row was received once, in total `total`, and what was handed out is
      within `b` of it. */
  ghost predicate Accurate(calls: seq<Call>, dof: nat, j: nat, total: real, b: real)
    requires Sized(calls, dof) && j < dof
  {
    Received(calls, dof, j) == total && Abs(HandedOut(calls, dof, j) - total) <= b
  }

  /** Where the last tick stands: on the last row, with less than one tick of it to come. */
  lemma {:induction false} AtTheEnd(take: Take, x0: real, rho: real, n: nat, dof: nat, j: nat, late: real, m: real, b: real) returns (y: real)
    requires Bounds(rho, late, m, b) && 0.0 <= x0 <= late && FinishesAt(take, x0, rho, n)
    requires Wide(take, dof) && j < dof && Bounded(take, j, m)
    ensures Sized(Calls(take, x0, rho, n), dof) && y + rho >= 1.0
    ensures Standing(take, PotAfter(Calls(take, x0, rho, n), dof), |take.rows| - 1, y, dof, j, rho, late, m, b)
    ensures Received(Calls(take, x0, rho, n), dof, j) == Recorded(take, j, |take.rows|)
  {
    LastRow(take, x0, rho, n);
    ProgressHolds(take, x0, rho, dof, j, late, m, b);
    RowsInTurn(take, x0, rho, n, Progress(take, dof, j, rho, late, m, b));
    y := At(x0, rho, n - 1) - RowAt(x0, rho, n - 1) as real;
  }

  /** No row is skipped, and the total handed out by the finish is within `b` of the total
      recorded, coordinate by coordinate. */
  lemma {:induction false} WithinBound(take: Take, x0: real, rho: real, n: nat, dof: nat, j: nat, late: real, m: real, b: real)
    requires Bounds(rho, late, m, b) && 0.0 <= x0 <= late && FinishesAt(take, x0, rho, n)
    requires Wide(take, dof) && j < dof && Bounded(take, j, m)
    ensures Sized(Calls(take, x0, rho, n), dof)
    ensures Accurate(Calls(take, x0, rho, n), dof, j, Recorded(take, j, |take.rows|), b)
  {
    var y := AtTheEnd(take, x0, rho, n, dof, j, late, m, b);
    Settle(take, Calls(take, x0, rho, n), y, Recorded(take, j, |take.rows|), dof, j, rho, late, m, b);
  }

  lemma {:induction false} Settle(take: Take, calls: seq<Call>, y: real, total: real, dof: nat, j: nat, rho: real, late: real, m: real, b: real)
    requires Sized(calls, dof) && j < dof && Bounds(rho, late, m, b) && y + rho >= 1.0
    requires Standing(take, PotAfter(calls, dof), |take.rows| - 1, y, dof, j, rho, late, m, b)
    requires Received(calls, dof, j) == total
    ensures Accurate(calls, dof, j, total, b)
  {
    var left := LeftOver(PotAfter(calls, dof), dof, j);
    LeftBehind(take, PotAfter(calls, dof), |take.rows| - 1, y, dof, j, rho, late, m, b);
    RowsAreConserved(calls, dof, j);
    Off(HandedOut(calls, dof, j), left, Received(calls, dof, j), b);
  }

  lemma SignOf(b: real, g: real, p: real)
    requires g > 0.0 && b * g == p && p >= 0.0
    ensures b >= 0.0
  {
    if b < 0.0 {
      MulStrict(b, 0.0, g);
    }
  }

  lemma CancelFactor(x: real, y: real, g: real)
    requires g > 0.0 && x * g <= y * g
    ensures x <= y
  {
    if x > y {
      MulStrict(y, x, g);
    }
  }

  /** What a replay may be off by, for ticks of `rho` rows, the first of them at `x0`. */
  ghost function ReplayBound(rho: real, x0: real, m: real): (b: real)
    requires 0.0 < rho < 1.0
    ensures b >= x0 * m && b >= rho * m / (1.0 - rho) && (b == x0 * m || b == rho * m / (1.0 - rho))
  {
    MaxR(x0 * m, rho * m / (1.0 - rho))
  }

  lemma QuotientTimes(p: real, g: real) returns (b: real)
    requires g > 0.0
    ensures b == p / g && b * g == p
  {
    b := p / g;
  }

  lemma GeometricBound(rho: real, m: real, g: real, b: real)
    requires 0.0 < rho < 1.0 && m >= 0.0 && g * (1.0 - rho) == rho * m && g <= b
    ensures b >= 0.0 && rho * (m + b) <= b
  {
    MulMono(0.0, m, rho);
    SignOf(g, 1.0 - rho, rho * m);
    MulMono(g, b, 1.0 - rho);
    assert rho * (m + b) == rho * m + b - b * (1.0 - rho);
  }

  lemma ReplayBoundHolds(rho: real, x0: real, m: real)
    requires 0.0 < rho < 1.0 && 0.0 <= x0 < 1.0 && m >= 0.0
    ensures Bounds(rho, x0, m, ReplayBound(rho, x0, m))
  {
    var g := QuotientTimes(rho * m, 1.0 - rho);
    GeometricBound(rho, m, g, ReplayBound(rho, x0, m));
  }

  /** The accuracy of a replay: with ticks of `rho` rows, shorter than a row, and the first one
      within the first row, every row is applied in turn, none is skipped, and by the finish
      each coordinate is off the recorded total by at most `rho * m / (1 - rho)`, where `m`
      bounds the rows, or by the part of the first row the first tick missed. */
  lemma ReplayIsAccurate(take: Take, rho: real, x0: real, n: nat, dof: nat, j: nat, m: real)
    requires 0.0 < rho < 1.0 && 0.0 <= x0 < 1.0 && FinishesAt(take, x0, rho, n)
    requires Wide(take, dof) && j < dof && m >= 0.0 && Bounded(take, j, m)
    ensures Sized(Calls(take, x0, rho, n), dof)
    ensures Accurate(Calls(take, x0, rho, n), dof, j, Recorded(take, j, |take.rows|), ReplayBound(rho, x0, m))
  {
    ReplayBoundHolds(rho, x0, m);
    WithinBound(take, x0, rho, n, dof, j, x0, m, ReplayBound(rho, x0, m));
  }

  /** The first tick misses no more than the bound allows if it comes within one tick of the
      start and the tick is long against the clock's slack. */
  lemma PromptStart(lead: real, rho: real, m: real)
    requires 0.0 <= lead <= rho && 0.0 < rho < 1.0 && m >= 0.0 && LongTick(rho)
    ensures ReplayBound(rho, lead + CLOCK_SLACK, m) == rho * m / (1.0 - rho)
  {
    var b := QuotientTimes(rho * m, 1.0 - rho);
    Stretch(rho, CLOCK_SLACK);
    SlackIsCovered(rho + CLOCK_SLACK, rho, 1.0 - rho, m, b);
    MulMono(lead + CLOCK_SLACK, rho + CLOCK_SLACK, m);
  }

  lemma Stretch(rho: real, e: real)
    requires e * (1.0 - rho) <= rho * rho
    ensures (rho + e) * (1.0 - rho) <= rho
  {
    assert (rho + e) * (1.0 - rho) == rho - rho * rho + e * (1.0 - rho);
  }

  lemma SlackIsCovered(f: real, rho: real, g: real, m: real, b: real)
    requires g > 0.0 && m >= 0.0 && f * g <= rho && b * g == rho * m
    ensures f * m <= b
  {
    var fg := f * g;
    MulMono(fg, rho, m);
    assert (f * m) * g == fg * m;
    CancelFactor(f * m, b, g);
  }

  /** The first tick, within `dt` of the start, is due on the first row exactly unless the
      slack carries it past that row; then the first row is never served. */
  lemma FirstRowServed(phi: real, dt: real, period: real)
    requires period > 0.0 && 0.0 <= phi <= dt < period
    ensures 0.0 <= phi / period <= dt / period < 1.0
    ensures RowDue(phi, period) == if phi / period + CLOCK_SLACK < 1.0 then 0 else 1
  {
    var x := QuotientTimes(phi, period);
    var y := QuotientTimes(dt, period);
    FractionsInOrder(x, y, phi, dt, period);
  }

  /** Whatever the recording's period, ticks within half the slack of it, the first a whole tick
      after the start, never serve the first row. */
  lemma FirstRowSkipped(period: real) returns (dt: real)
    requires period > 0.0
    ensures 0.0 < dt < period && RowDue(dt, period) == 1
  {
    var rho := 1.0 - CLOCK_SLACK / 2.0;
    dt := rho * period;
    MulMono(rho, 1.0, period);
    SameQuotient(dt, rho, period);
    FirstRowServed(dt, dt, period);
  }

  lemma SameQuotient(p: real, x: real, g: real)
    requires g > 0.0 && x * g == p && 0.0 < x < 1.0
    ensures p / g == x && 0.0 < p < g
  {
    var y := QuotientTimes(p, g);
    CancelFactor(x, y, g);
    CancelFactor(y, x, g);
    MulStrict(0.0, x, g);
    MulStrict(x, 1.0, g);
  }

  lemma FractionsInOrder(x: real, y: real, phi: real, dt: real, period: real)
    requires period > 0.0 && 0.0 <= phi <= dt < period && x * period == phi && y * period == dt
    ensures 0.0 <= x <= y < 1.0
  {
    SignOf(x, period, phi);
    CancelFactor(x, y, period);
    if y >= 1.0 {
      MulMono(1.0, y, period);
    }
  }

  // -- from the clock -------------------------------------------------------------------------------

  /** The row due at the `i`-th tick, `dt` apart and the first one `phi` after the start. */
  ghost function DueAt(take: Take, phi: real, dt: real, i: nat): int
    requires take.period > 0.0
  {
    RowDue(phi + i as real * dt, take.period)
  }

  /** The tick count at which the clock first shows the recording over. */
  ghost predicate OverAt(take: Take, phi: real, dt: real, n: nat)
    requires take.period > 0.0
  {
    n >= 1 && DueAt(take, phi, dt, n) >= |take.rows| && forall i: nat :: i < n ==> 0 <= DueAt(take, phi, dt, i) < |take.rows|
  }

  /** What the ticks before the end hand the anchor. */
  ghost function ClockCalls(take: Take, phi: real, dt: real, n: nat): (calls: seq<Call>)
    requires take.period > 0.0 && forall i: nat :: i < n ==> 0 <= DueAt(take, phi, dt, i) < |take.rows|
    ensures |calls| == n
    ensures forall i: nat :: i < n ==> calls[i] == RowCall(take, DueAt(take, phi, dt, i), dt / take.period)
  {
    if n == 0 then []
    else ClockCalls(take, phi, dt, n - 1) + [RowCall(take, DueAt(take, phi, dt, n - 1), dt / take.period)]
  }

  lemma DueIsRow(take: Take, phi: real, dt: real, x0: real, rho: real, i: nat)
    requires take.period > 0.0 && x0 == phi / take.period + CLOCK_SLACK && rho == dt / take.period
    ensures DueAt(take, phi, dt, i) == RowAt(x0, rho, i)
  {
    ClockOnRowAxis(phi, dt, take.period, i);
  }

  lemma ClockIsRowAxis(take: Take, phi: real, dt: real, n: nat)
    requires take.period > 0.0 && OverAt(take, phi, dt, n)
    ensures FinishesAt(take, phi / take.period + CLOCK_SLACK, dt / take.period, n)
    ensures ClockCalls(take, phi, dt, n) == Calls(take, phi / take.period + CLOCK_SLACK, dt / take.period, n)
  {
    var x0, rho := phi / take.period + CLOCK_SLACK, dt / take.period;
    forall i: nat
      ensures DueAt(take, phi, dt, i) == RowAt(x0, rho, i)
    {
      DueIsRow(take, phi, dt, x0, rho, i);
    }
    assert forall i: nat :: i < n ==> ClockCalls(take, phi, dt, n)[i] == Calls(take, x0, rho, n)[i];
  }

  /** The accuracy of a replay from the clock alone: ticks every `dt`, shorter than a row, the
      first one within `dt` of the start and on the first row. Every row is received once, and
      by the end each coordinate is off the recorded total by at most `rho * m / (1 - rho)`, with
      `rho` the tick in rows and `m` bounding the rows, or by what the first tick missed of the
      first row; and by no more than the former if a tick is long against the clock's slack. */
  lemma ReplayByTheClock(take: Take, phi: real, dt: real, n: nat, dof: nat, j: nat, m: real) returns (rho: real, x0: real)
    requires take.period > 0.0 && 0.0 <= phi <= dt < take.period && dt > 0.0
    requires RowDue(phi, take.period) == 0 && OverAt(take, phi, dt, n)
    requires Wide(take, dof) && j < dof && m >= 0.0 && Bounded(take, j, m)
    ensures rho == dt / take.period && x0 == phi / take.period + CLOCK_SLACK && 0.0 < rho < 1.0
    ensures Sized(ClockCalls(take, phi, dt, n), dof)
    ensures Accurate(ClockCalls(take, phi, dt, n), dof, j, Recorded(take, j, |take.rows|), ReplayBound(rho, x0, m))
    ensures LongTick(rho) ==> ReplayBound(rho, x0, m) == rho * m / (1.0 - rho)
  {
    var lead;
    rho, lead := InRows(phi, dt, take.period);
    x0 := lead + CLOCK_SLACK;
    ClockIsRowAxis(take, phi, dt, n);
    ReplayIsAccurate(take, rho, x0, n, dof, j, m);
    PromptBound(lead, rho, m);
  }

  /** Tick and first tick on the row axis. */
  lemma InRows(phi: real, dt: real, period: real) returns (rho: real, lead: real)
    requires period > 0.0 && 0.0 <= phi <= dt < period && dt > 0.0 && RowDue(phi, period) == 0
    ensures rho == dt / period && lead == phi / period && 0.0 < rho < 1.0 && 0.0 <= lead <= rho && lead + CLOCK_SLACK < 1.0
  {
    FirstRowServed(phi, dt, period);
    rho := PositiveQuotient(dt, period);
    lead := QuotientTimes(phi, period);
  }

  lemma PromptBound(lead: real, rho: real, m: real)
    requires 0.0 <= lead <= rho && 0.0 < rho < 1.0 && m >= 0.0
    ensures LongTick(rho) ==> ReplayBound(rho, lead + CLOCK_SLACK, m) == rho * m / (1.0 - rho)
  {
    if LongTick(rho) {
      PromptStart(lead, rho, m);
    }
  }

  /** A tick is long against the clock's slack. */
  predicate LongTick(rho: real) {
    CLOCK_SLACK * (1.0 - rho) <= rho * rho
  }

  lemma PositiveQuotient(x: real, g: real) returns (b: real)
    requires x > 0.0 && g > 0.0
    ensures b == x / g && b > 0.0
  {
    b := QuotientTimes(x, g);
    if b <= 0.0 {
      MulMono(b, 0.0, g);
    }
  }
}
