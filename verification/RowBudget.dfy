/** Spreading one policy row over the control ticks (dagger/policy_runner.py:216-244,
    dagger/step.py:114-133): every row is applied once in total. */
module RowBudget {
  import opened Prelude
  import TakeoverGate

  /** What tells a new row from the same row seen again: version, row time, rows to come. */
  datatype RowKey = RowKey(version: int, t: real, remaining: int)

  /** The row an arm is on: what is left of it, and the delta being spread. */
  datatype Pot = Pot(key: RowKey, budget: real, eff: Vec)

  /** The new row on top of what was left of the old one. */
  function Carried(pot: Option<Pot>, row: Vec): (eff: Vec)
    requires pot.Some? ==> |pot.value.eff| == |row|
    ensures |eff| == |row|
  {
    if pot.Some? && pot.value.budget > 0.0 then
      seq(|row|, j requires 0 <= j < |row| => row[j] + pot.value.eff[j] * pot.value.budget)
    else row
  }

  function Scaled(v: Vec, f: real): (r: Vec)
    ensures |r| == |v| && forall j :: 0 <= j < |v| ==> r[j] == v[j] * f
  {
    seq(|v|, j requires 0 <= j < |v| => v[j] * f)
  }

  function Fresh(pot: Option<Pot>, key: RowKey): bool {
    pot.None? || pot.value.key != key
  }

  /** The pot a tick draws from. */
  function Refilled(pot: Option<Pot>, key: RowKey, row: Vec): (p: Pot)
    requires pot.Some? ==> |pot.value.eff| == |row|
    ensures |p.eff| == |row| && p.key == key
  {
    if Fresh(pot, key) then Pot(key, 1.0, Carried(pot, row)) else pot.value
  }

  function Portion(share: real, budget: real): (step: real)
    requires budget >= 0.0
    ensures 0.0 <= step <= budget
  {
    MinR(MaxR(share, 0.0), budget)
  }

  /** One tick: the delta handed out and the pot left. */
  function RowStep(pot: Option<Pot>, key: RowKey, row: Vec, share: real): (r: (Vec, Pot))
    requires pot.Some? ==> |pot.value.eff| == |row| && pot.value.budget >= 0.0
    ensures |r.0| == |row| && |r.1.eff| == |row|
  {
    var full := Refilled(pot, key, row);
    var step := Portion(share, full.budget);
    (Scaled(full.eff, step), full.(budget := full.budget - step))
  }

  // -- conservation -------------------------------------------------------------------------

  datatype Call = Call(key: RowKey, row: Vec, share: real)

  ghost predicate Sized(calls: seq<Call>, dof: nat) {
    forall i :: 0 <= i < |calls| ==> |calls[i].row| == dof
  }

  ghost predicate ValidPot(pot: Option<Pot>, dof: nat) {
    pot.Some? ==> |pot.value.eff| == dof && 0.0 <= pot.value.budget <= 1.0
  }

  /** The pot after a run of ticks between two gate events. */
  ghost function PotAfter(calls: seq<Call>, dof: nat): (pot: Option<Pot>)
    requires Sized(calls, dof)
    ensures ValidPot(pot, dof)
  {
    if calls == [] then None
    else
      var c := calls[|calls| - 1];
      Some(RowStep(PotAfter(calls[..|calls| - 1], dof), c.key, c.row, c.share).1)
  }

  /** Everything handed out on coordinate `j`. */
  ghost function HandedOut(calls: seq<Call>, dof: nat, j: nat): real
    requires Sized(calls, dof) && j < dof
  {
    if calls == [] then 0.0
    else
      var front, c := calls[..|calls| - 1], calls[|calls| - 1];
      HandedOut(front, dof, j) + RowStep(PotAfter(front, dof), c.key, c.row, c.share).0[j]
  }

  /** Everything received on coordinate `j`: a row counts when its key is new. */
  ghost function Received(calls: seq<Call>, dof: nat, j: nat): real
    requires Sized(calls, dof) && j < dof
  {
    if calls == [] then 0.0
    else
      var front, c := calls[..|calls| - 1], calls[|calls| - 1];
      Received(front, dof, j) + if front == [] || front[|front| - 1].key != c.key then c.row[j] else 0.0
  }

  ghost function LeftOver(pot: Option<Pot>, dof: nat, j: nat): real
    requires ValidPot(pot, dof) && j < dof
  {
    if pot.None? then 0.0 else pot.value.eff[j] * pot.value.budget
  }

  lemma Drawn(eff: real, budget: real, step: real)
    ensures eff * step + eff * (budget - step) == eff * budget
  {
  }

  lemma RefilledAt(pot: Option<Pot>, key: RowKey, row: Vec, j: nat)
    requires ValidPot(pot, |row|) && j < |row|
    ensures var full := Refilled(pot, key, row);
            full.eff[j] * full.budget == LeftOver(pot, |row|, j) + if Fresh(pot, key) then row[j] else 0.0
  {
  }

  lemma StepConserves(pot: Option<Pot>, key: RowKey, row: Vec, share: real, j: nat)
    requires ValidPot(pot, |row|) && j < |row|
    ensures var (out, left) := RowStep(pot, key, row, share);
            out[j] + LeftOver(Some(left), |row|, j) == LeftOver(pot, |row|, j) + if Fresh(pot, key) then row[j] else 0.0
  {
    RefilledAt(pot, key, row, j);
    var full := Refilled(pot, key, row);
    Drawn(full.eff[j], full.budget, Portion(share, full.budget));
  }

  lemma KeyAfter(calls: seq<Call>, dof: nat)
    requires Sized(calls, dof)
    ensures calls == [] ==> PotAfter(calls, dof).None?
    ensures calls != [] ==> PotAfter(calls, dof).Some? && PotAfter(calls, dof).value.key == calls[|calls| - 1].key
  {
  }

  /** Nothing is lost and nothing applied twice: over any run of ticks between two gate
      events, what was handed out and what is left add up to the distinct rows received. */
  lemma {:induction false} RowsAreConserved(calls: seq<Call>, dof: nat, j: nat)
    requires Sized(calls, dof) && j < dof
    ensures HandedOut(calls, dof, j) + LeftOver(PotAfter(calls, dof), dof, j) == Received(calls, dof, j)
  {
    if calls != [] {
      var front, c := calls[..|calls| - 1], calls[|calls| - 1];
      RowsAreConserved(front, dof, j);
      KeyAfter(front, dof);
      StepConserves(PotAfter(front, dof), c.key, c.row, c.share, j);
    }
  }

  // -- what one tick hands out ----------------------------------------------------------------

  /** The share of the tick, none if it is negative and no more than is left, of a new row with
      what was left of the last one, or of the row being spread. */
  ghost predicate HandsOut(pot: Option<Pot>, key: RowKey, row: Vec, share: real, out: Vec) {
    && |out| == |row| && (pot.Some? ==> |pot.value.eff| == |row|)
    && var isNew := pot.None? || pot.value.key != key;
       var left := if pot.None? then 0.0 else pot.value.budget;
       var drawn := if share <= 0.0 then 0.0 else MinR(share, if isNew then 1.0 else left);
       forall j :: 0 <= j < |row| ==>
         out[j] == drawn * if pot.None? then row[j] else if isNew then row[j] + pot.value.eff[j] * left else pot.value.eff[j]
  }

  lemma TickHandsOut(pot: Option<Pot>, key: RowKey, row: Vec, share: real)
    requires ValidPot(pot, |row|)
    ensures HandsOut(pot, key, row, share, RowStep(pot, key, row, share).0)
  {
  }

  // -- when it is handed out ------------------------------------------------------------------

  /** `n` ticks on the same row. */
  ghost function Repeated(c: Call, n: nat): (calls: seq<Call>)
    ensures |calls| == n && forall i :: 0 <= i < n ==> calls[i] == c
  {
    if n == 0 then [] else Repeated(c, n - 1) + [c]
  }

  /** How much of the row `n` ticks of one share make: all of it at most. */
  ghost function PartOf(share: real, n: nat): real {
    if n == 0 then 0.0 else MinR(PartOf(share, n - 1) + share, 1.0)
  }

  ghost function SharesOf(share: real, n: nat): real {
    MinR(n as real * share, 1.0)
  }

  lemma {:induction false} PartIsShares(share: real, n: nat)
    requires share >= 0.0
    ensures PartOf(share, n) == SharesOf(share, n)
  {
    if n > 0 {
      PartIsShares(share, n - 1);
      OneMoreShare(share, (n - 1) as real, n as real);
    } else {
      assert 0.0 * share == 0.0;
    }
  }

  lemma OneMoreShare(share: real, m: real, n: real)
    requires n == m + 1.0 && m >= 0.0 && share >= 0.0
    ensures n * share == m * share + share
  {
  }

  /** The pot after `n` ticks on a new row. */
  ghost predicate EvenlyDrawn(before: Option<Pot>, after: Pot, c: Call, n: nat)
    requires ValidPot(before, |c.row|)
  {
    && after.key == c.key && after.budget == 1.0 - PartOf(c.share, n) && |after.eff| == |c.row|
    && forall j :: 0 <= j < |c.row| ==> after.eff[j] == Whole(before, c, j)
  }

  /** The new row with what was left of the last one. */
  ghost function Whole(before: Option<Pot>, c: Call, j: nat): real
    requires ValidPot(before, |c.row|) && j < |c.row|
  {
    c.row[j] + LeftOver(before, |c.row|, j)
  }

  /** `out` takes the part handed out from `f` to `g`. */
  ghost predicate Adds(out: real, whole: real, f: real, g: real) {
    out == whole * (g - f)
  }

  lemma FirstDraw(before: Option<Pot>, c: Call)
    requires ValidPot(before, |c.row|) && Fresh(before, c.key) && c.share >= 0.0
    ensures var (out, left) := RowStep(before, c.key, c.row, c.share);
            EvenlyDrawn(before, left, c, 1)
            && forall j :: 0 <= j < |c.row| ==> Adds(out[j], Whole(before, c, j), PartOf(c.share, 0), PartOf(c.share, 1))
  {
  }

  lemma NextDraw(before: Option<Pot>, pot: Pot, c: Call, n: nat)
    requires ValidPot(before, |c.row|) && n >= 1 && c.share >= 0.0 && EvenlyDrawn(before, pot, c, n) && pot.budget >= 0.0
    ensures var (out, left) := RowStep(Some(pot), c.key, c.row, c.share);
            EvenlyDrawn(before, left, c, n + 1)
            && forall j :: 0 <= j < |c.row| ==> Adds(out[j], Whole(before, c, j), PartOf(c.share, n), PartOf(c.share, n + 1))
  {
  }

  lemma OneMoreCall(calls: seq<Call>, c: Call, dof: nat, j: nat)
    requires Sized(calls, dof) && |c.row| == dof && j < dof
    ensures Sized(calls + [c], dof)
    ensures PotAfter(calls + [c], dof) == Some(RowStep(PotAfter(calls, dof), c.key, c.row, c.share).1)
    ensures HandedOut(calls + [c], dof, j) == HandedOut(calls, dof, j) + RowStep(PotAfter(calls, dof), c.key, c.row, c.share).0[j]
  {
    assert (calls + [c])[..|calls|] == calls;
  }

  lemma OneMoreRepeat(calls: seq<Call>, c: Call, n: nat)
    requires n >= 1
    ensures calls + Repeated(c, n) == (calls + Repeated(c, n - 1)) + [c]
  {
  }

  lemma NewKeyIsFresh(calls: seq<Call>, dof: nat, key: RowKey)
    requires Sized(calls, dof) && (calls == [] || calls[|calls| - 1].key != key)
    ensures Fresh(PotAfter(calls, dof), key)
  {
    KeyAfter(calls, dof);
  }

  lemma ShareOf(whole: real, f: real, g: real)
    ensures f * whole + whole * (g - f) == g * whole
  {
  }

  lemma {:induction false} PotDrawnEvenly(calls: seq<Call>, c: Call, dof: nat, n: nat, j: nat)
    requires Sized(calls, dof) && |c.row| == dof && j < dof && c.share >= 0.0 && n >= 1
    requires calls == [] || calls[|calls| - 1].key != c.key
    ensures PotAfter(calls + Repeated(c, n), dof).Some?
    ensures EvenlyDrawn(PotAfter(calls, dof), PotAfter(calls + Repeated(c, n), dof).value, c, n)
  {
    OneMoreRepeat(calls, c, n);
    OneMoreCall(calls + Repeated(c, n - 1), c, dof, j);
    if n == 1 {
      assert calls + Repeated(c, 0) == calls;
      NewKeyIsFresh(calls, dof, c.key);
      FirstDraw(PotAfter(calls, dof), c);
    } else {
      PotDrawnEvenly(calls, c, dof, n - 1, j);
      NextDraw(PotAfter(calls, dof), PotAfter(calls + Repeated(c, n - 1), dof).value, c, n - 1);
    }
  }

  /** What tick `n` on a new row hands out. */
  lemma PartHandedOut(calls: seq<Call>, c: Call, dof: nat, n: nat, j: nat)
    requires Sized(calls, dof) && |c.row| == dof && j < dof && c.share >= 0.0 && n >= 1
    requires calls == [] || calls[|calls| - 1].key != c.key
    ensures Adds(RowStep(PotAfter(calls + Repeated(c, n - 1), dof), c.key, c.row, c.share).0[j], Whole(PotAfter(calls, dof), c, j),
                 PartOf(c.share, n - 1), PartOf(c.share, n))
  {
    if n == 1 {
      assert calls + Repeated(c, 0) == calls;
      NewKeyIsFresh(calls, dof, c.key);
      FirstDraw(PotAfter(calls, dof), c);
    } else {
      PotDrawnEvenly(calls, c, dof, n - 1, j);
      NextDraw(PotAfter(calls, dof), PotAfter(calls + Repeated(c, n - 1), dof).value, c, n - 1);
    }
  }

  /** What has been handed out since the row came. */
  ghost function OutSince(calls: seq<Call>, c: Call, dof: nat, n: nat, j: nat): real
    requires Sized(calls, dof) && |c.row| == dof && j < dof
  {
    HandedOut(calls + Repeated(c, n), dof, j) - HandedOut(calls, dof, j)
  }

  lemma OneMoreOut(calls: seq<Call>, c: Call, dof: nat, n: nat, j: nat)
    requires Sized(calls, dof) && |c.row| == dof && j < dof && n >= 1
    ensures OutSince(calls, c, dof, n, j)
         == OutSince(calls, c, dof, n - 1, j)
            + RowStep(PotAfter(calls + Repeated(c, n - 1), dof), c.key, c.row, c.share).0[j]
  {
    OneMoreRepeat(calls, c, n);
    OneMoreCall(calls + Repeated(c, n - 1), c, dof, j);
  }

  /** Parts handed out one after the other add up. */
  lemma {:induction false} PartsAddUp(total: nat -> real, part: nat -> real, whole: real, n: nat)
    requires total(0) == 0.0 && part(0) == 0.0 && forall i: nat :: i < n ==> Adds(total(i + 1) - total(i), whole, part(i), part(i + 1))
    ensures IsPart(total(n), part(n), whole)
  {
    if n > 0 {
      PartsAddUp(total, part, whole, n - 1);
      ShareOf(whole, part(n - 1), part(n));
    }
  }

  lemma AddsSince(calls: seq<Call>, c: Call, dof: nat, n: nat, j: nat)
    requires Sized(calls, dof) && |c.row| == dof && j < dof && c.share >= 0.0
    requires calls == [] || calls[|calls| - 1].key != c.key
    ensures Adds(OutSince(calls, c, dof, n + 1, j) - OutSince(calls, c, dof, n, j), Whole(PotAfter(calls, dof), c, j),
                 PartOf(c.share, n), PartOf(c.share, n + 1))
  {
    PartHandedOut(calls, c, dof, n + 1, j);
    OneMoreOut(calls, c, dof, n + 1, j);
  }

  ghost function Since(calls: seq<Call>, c: Call, dof: nat, j: nat): nat -> real
    requires Sized(calls, dof) && |c.row| == dof && j < dof
  {
    (n: nat) requires Sized(calls, dof) && |c.row| == dof && j < dof => OutSince(calls, c, dof, n, j)
  }

  ghost function Parts(share: real): nat -> real {
    (n: nat) => PartOf(share, n)
  }

  ghost predicate IsPart(total: real, f: real, whole: real) {
    total == f * whole
  }

  lemma SpreadsInParts(calls: seq<Call>, c: Call, dof: nat, n: nat, j: nat)
    requires Sized(calls, dof) && |c.row| == dof && j < dof && c.share >= 0.0
    requires calls == [] || calls[|calls| - 1].key != c.key
    ensures IsPart(OutSince(calls, c, dof, n, j), PartOf(c.share, n), Whole(PotAfter(calls, dof), c, j))
  {
    var total, part, whole := Since(calls, c, dof, j), Parts(c.share), Whole(PotAfter(calls, dof), c, j);
    forall i: nat | i < n
      ensures Adds(total(i + 1) - total(i), whole, part(i), part(i + 1))
    {
      AddsSince(calls, c, dof, i, j);
    }
    assert total(0) == 0.0 by {
      assert calls + Repeated(c, 0) == calls;
    }
    PartsAddUp(total, part, whole, n);
  }

  /** A row is spread evenly: after any run, `n` ticks of one share on a new row have handed out
      `n` shares of the row and of what was left of the one before, and of both no more than all. */
  lemma SpreadsEvenly(calls: seq<Call>, c: Call, dof: nat, n: nat, j: nat)
    requires Sized(calls, dof) && |c.row| == dof && j < dof && c.share >= 0.0
    requires calls == [] || calls[|calls| - 1].key != c.key
    ensures IsPart(OutSince(calls, c, dof, n, j), SharesOf(c.share, n), Whole(PotAfter(calls, dof), c, j))
  {
    SpreadsInParts(calls, c, dof, n, j);
    PartIsShares(c.share, n);
  }

  /** The first row, in shares of a tick: the row times the share in the first of them. */
  lemma FirstTickIsShare(c: Call, dof: nat, j: nat)
    requires |c.row| == dof && j < dof && 0.0 <= c.share <= 1.0
    ensures Sized([c], dof) && HandedOut([c], dof, j) == c.share * c.row[j]
  {
    SpreadsEvenly([], c, dof, 1, j);
    assert [] + Repeated(c, 1) == [c];
  }

  /** A share that is not positive hands out nothing. */
  lemma NoShareNoMotion(calls: seq<Call>, c: Call, dof: nat, j: nat)
    requires Sized(calls, dof) && |c.row| == dof && j < dof && c.share <= 0.0
    ensures Sized(calls + [c], dof) && HandedOut(calls + [c], dof, j) == HandedOut(calls, dof, j)
  {
    OneMoreCall(calls, c, dof, j);
  }

  // -- the object ---------------------------------------------------------------------------

  class ActionAnchor {
    const window: real
    var windowUntil: map<string, real>
    var rows: map<string, Pot>

    constructor (slewWindow: real)
      ensures window == slewWindow && windowUntil == map[] && rows == map[]
    {
      window, windowUntil, rows := slewWindow, map[], map[];
    }

    ghost predicate Valid(dof: nat)
      reads this
    {
      forall a :: a in rows ==> ValidPot(Some(rows[a]), dof)
    }

    function PotOf(arm: string): Option<Pot>
      reads this
    {
      if arm in rows then Some(rows[arm]) else None
    }

    /** A handback opens the slew window, an episode reset does not; either way, and on every
        other switch, a half-applied row is dropped. */
    method OnGateEvent(ev: TakeoverGate.GateEvent, ghost dof: nat)
      requires Valid(dof)
      modifies this
      ensures Valid(dof) && rows == old(rows) - {ev.arm}
      ensures windowUntil == if ev.mode.Policy? && ev.source != "episode_reset"
                             then old(windowUntil)[ev.arm := ev.t + window] else old(windowUntil)
    {
      if ev.mode.Policy? && ev.source != "episode_reset" {
        windowUntil := windowUntil[ev.arm := ev.t + window];
      }
      rows := rows - {ev.arm};
    }

    method Spread(arm: string, key: RowKey, row: Vec, share: real) returns (out: Vec)
      requires Valid(|row|)
      modifies this
      ensures Valid(|row|) && windowUntil == old(windowUntil)
      ensures arm in rows && (out, rows[arm]) == RowStep(old(PotOf(arm)), key, row, share)
      ensures rows.Keys == old(rows.Keys) + {arm} && forall a :: a in rows && a != arm ==> rows[a] == old(rows[a])
      ensures HandsOut(old(PotOf(arm)), key, row, share, out)
    {
      var pot := PotOf(arm);
      var full := Refilled(pot, key, row);
      var step := Portion(share, full.budget);
      rows := rows[arm := full.(budget := full.budget - step)];
      out := Scaled(full.eff, step);
      TickHandsOut(pot, key, row, share);
    }

    predicate InWindow(arm: string, now: real)
      reads this
    {
      arm in windowUntil && now < windowUntil[arm]
    }
  }
}
