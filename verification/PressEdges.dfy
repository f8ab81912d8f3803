/** Press edges of the hand controller (devices/tracker.py:175-400, 866-894) and the discrete
    actions the control loop fires for them (control/loop.py:1491-1546). */
module PressEdges {
  import opened Prelude

  /** Press edges remembered (devices/tracker.py:71). */
  const EDGE_HISTORY: nat := 8

  datatype Pad = PadLeft | PadRight | PadUp | PadDown

  datatype ControllerInput = TriggerClick | Click(dir: Pad) | MenuClick | GripClick

  /** Inputs as the driver reports them. */
  datatype Raw = Raw(trigger: bool, touch: bool, click: bool, x: real, y: real, grip: bool, menu: bool, system: bool)

  datatype Edge = Edge(number: int, input: Option<ControllerInput>)

  /** Adopted controller state: inputs, the held click's direction, the newest edges. */
  datatype Controller = Controller(raw: Raw, dir: Option<Pad>, edges: seq<Edge>)

  function EdgeSeq(edges: seq<Edge>): int {
    if edges == [] then 0 else edges[|edges| - 1].number
  }

  /** Direction by the dominant axis, none inside the deadzone. */
  function Classify(x: real, y: real, deadzone: real): Option<Pad> {
    if Abs(x) <= deadzone && Abs(y) <= deadzone then None
    else if Abs(x) >= Abs(y) then Some(if x > 0.0 then PadRight else PadLeft)
    else Some(if y > 0.0 then PadUp else PadDown)
  }

  /** An edge names its direction, or nothing for a click still inside the deadzone. */
  function ClickInput(dir: Option<Pad>): Option<ControllerInput> {
    if dir.None? then None else Some(Click(dir.value))
  }

  /** The trackpad's new edge, if any, and the click's direction from now on. */
  function PadEdge(prev: Option<Controller>, raw: Raw, deadzone: real): (seq<Option<ControllerInput>>, Option<Pad>) {
    var held := if prev.Some? then prev.value.dir else None;
    if !raw.click then ([], None)
    else if !(prev.Some? && prev.value.raw.click) then
      var dir := Classify(raw.x, raw.y, deadzone);
      ([ClickInput(dir)], dir)
    else if held.None? then
      var dir := Classify(raw.x, raw.y, deadzone);
      (if dir.Some? then [ClickInput(dir)] else [], dir)
    else ([], held)
  }

  /** All new press edges, in the order trackpad, menu, grip. */
  function NewInputs(prev: Option<Controller>, raw: Raw, deadzone: real): seq<Option<ControllerInput>> {
    PadEdge(prev, raw, deadzone).0
    + (if raw.menu && !(prev.Some? && prev.value.raw.menu) then [Some(MenuClick)] else [])
    + (if raw.grip && !(prev.Some? && prev.value.raw.grip) then [Some(GripClick)] else [])
  }

  function Numbered(inputs: seq<Option<ControllerInput>>, from: int): (edges: seq<Edge>)
    ensures |edges| == |inputs|
  {
    if inputs == [] then []
    else
      var n := |inputs| - 1;
      Numbered(inputs[..n], from) + [Edge(from + n + 1, inputs[n])]
  }

  /** `raw` adopted after `prev`. */
  function NoteEdges(prev: Option<Controller>, raw: Raw, deadzone: real): Controller {
    var history := if prev.Some? then prev.value.edges else [];
    var added := Numbered(NewInputs(prev, raw, deadzone), EdgeSeq(history));
    Controller(raw, PadEdge(prev, raw, deadzone).1, Newest(history + added, EDGE_HISTORY))
  }

  // -- the history is the end of the full log -------------------------------------------------

  /** Every press edge so far; the `i`-th entry is edge number `i + 1`. */
  type Log = seq<Option<ControllerInput>>

  /** Edges `lo + 1` to `hi` of the log. */
  function Stretch(log: Log, lo: nat, hi: nat): (edges: seq<Edge>)
    requires hi <= |log|
    ensures |edges| == if lo < hi then hi - lo else 0
    ensures forall k :: 0 <= k < |edges| ==> edges[k] == Edge(lo + k + 1, log[lo + k])
  {
    if lo >= hi then [] else Stretch(log, lo, hi - 1) + [Edge(hi, log[hi - 1])]
  }

  function Before(n: nat): nat {
    if n <= EDGE_HISTORY then 0 else n - EDGE_HISTORY
  }

  /** The newest edges of the log. */
  function Tail(log: Log, n: nat): seq<Edge>
    requires n <= |log|
  {
    Stretch(log, Before(n), n)
  }

  lemma {:induction false} NumberedAt(inputs: seq<Option<ControllerInput>>, from: int, k: nat)
    requires k < |inputs|
    ensures Numbered(inputs, from)[k] == Edge(from + k + 1, inputs[k])
    decreases |inputs|
  {
    if k < |inputs| - 1 {
      NumberedAt(inputs[..|inputs| - 1], from, k);
    }
  }

  lemma SeqOfTail(log: Log, n: nat)
    requires n <= |log|
    ensures EdgeSeq(Tail(log, n)) == n
  {
  }

  lemma StretchGrows(log: Log, added: Log, lo: nat)
    requires lo <= |log|
    ensures Stretch(log, lo, |log|) + Numbered(added, |log|) == Stretch(log + added, lo, |log + added|)
  {
    var one, two := Stretch(log, lo, |log|) + Numbered(added, |log|), Stretch(log + added, lo, |log + added|);
    forall k: nat | k < |one|
      ensures one[k] == two[k]
    {
      if k >= |log| - lo {
        NumberedAt(added, |log|, k - (|log| - lo));
      }
    }
  }

  lemma NewestOfStretch(log: Log, lo: nat)
    requires lo <= Before(|log|)
    ensures Newest(Stretch(log, lo, |log|), EDGE_HISTORY) == Tail(log, |log|)
  {
  }

  lemma TailGrows(log: Log, added: Log)
    ensures Newest(Tail(log, |log|) + Numbered(added, |log|), EDGE_HISTORY) == Tail(log + added, |log + added|)
  {
    StretchGrows(log, added, Before(|log|));
    NewestOfStretch(log + added, Before(|log|));
  }

  /** Adopting a state appends its press edges to the log, and keeps the newest of it. */
  lemma HistoryIsTheTail(log: Log, prev: Option<Controller>, raw: Raw, deadzone: real)
    requires if prev.Some? then prev.value.edges == Tail(log, |log|) else log == []
    ensures var longer := log + NewInputs(prev, raw, deadzone);
            NoteEdges(prev, raw, deadzone).edges == Tail(longer, |longer|)
  {
    SeqOfTail(log, |log|);
    TailGrows(log, NewInputs(prev, raw, deadzone));
  }

  // -- one click, one direction ---------------------------------------------------------------

  function Directions(inputs: seq<Option<ControllerInput>>): nat {
    if inputs == [] then 0
    else
      var n := |inputs| - 1;
      Directions(inputs[..n]) + if inputs[n].Some? && inputs[n].value.Click? then 1 else 0
  }

  lemma {:induction false} DirectionsAdd(a: seq<Option<ControllerInput>>, b: seq<Option<ControllerInput>>)
    ensures Directions(a + b) == Directions(a) + Directions(b)
  {
    if b == [] {
      assert a + b == a;
    } else {
      var n := |b| - 1;
      assert (a + b)[..|a + b| - 1] == a + b[..n];
      DirectionsAdd(a, b[..n]);
    }
  }

  /** Adopting a whole series of states: the controller and the edges they made. */
  ghost function Adopted(prev: Option<Controller>, raws: seq<Raw>, deadzone: real): (r: (Option<Controller>, Log))
    ensures raws != [] ==> r.0.Some? && r.0.value.raw == raws[|raws| - 1]
  {
    if raws == [] then (prev, [])
    else
      var n := |raws| - 1;
      var (mid, log) := Adopted(prev, raws[..n], deadzone);
      (Some(NoteEdges(mid, raws[n], deadzone)), log + NewInputs(mid, raws[n], deadzone))
  }

  lemma DirectionsOfNew(prev: Option<Controller>, raw: Raw, deadzone: real)
    ensures Directions(NewInputs(prev, raw, deadzone)) == Directions(PadEdge(prev, raw, deadzone).0)
  {
    var pad := PadEdge(prev, raw, deadzone).0;
    var menu := if raw.menu && !(prev.Some? && prev.value.raw.menu) then [Some(MenuClick)] else [];
    var grip := if raw.grip && !(prev.Some? && prev.value.raw.grip) then [Some(GripClick)] else [];
    DirectionsAdd(pad, menu);
    DirectionsAdd(pad + menu, grip);
    assert Directions(menu) == 0 && Directions(grip) == 0;
  }

  /** The first state of the click outside the deadzone decides the direction. */
  function Resolved(raws: seq<Raw>, deadzone: real): Option<Pad> {
    if raws == [] then None
    else
      var n := |raws| - 1;
      var before := Resolved(raws[..n], deadzone);
      if before.Some? then before else Classify(raws[n].x, raws[n].y, deadzone)
  }

  /** While one click is held, however the finger moves and whatever else is pressed, at most
      one edge names a direction: that of the first position outside the deadzone. */
  lemma {:induction false} OneDirectionPerClick(prev: Option<Controller>, raws: seq<Raw>, deadzone: real)
    requires prev.Some? ==> !prev.value.raw.click
    requires raws != [] && forall k :: 0 <= k < |raws| ==> raws[k].click
    ensures var (ctl, log) := Adopted(prev, raws, deadzone);
            ctl.value.dir == Resolved(raws, deadzone) && Directions(log) == if Resolved(raws, deadzone).Some? then 1 else 0
  {
    var n := |raws| - 1;
    var (mid, log) := Adopted(prev, raws[..n], deadzone);
    if n > 0 {
      OneDirectionPerClick(prev, raws[..n], deadzone);
    }
    DirectionsAdd(log, NewInputs(mid, raws[n], deadzone));
    DirectionsOfNew(mid, raws[n], deadzone);
    var pad := PadEdge(mid, raws[n], deadzone).0;
    if pad != [] {
      assert pad[..0] == [];
    }
  }

  /** Where on the pad each direction lies: beyond the deadzone on its own side and, in its axis, at
      least as far out as in the other; on the diagonals the horizontal wins. */
  lemma DirectionByPosition(x: real, y: real, deadzone: real)
    requires deadzone >= 0.0
    ensures Classify(x, y, deadzone).None? <==> -deadzone <= x <= deadzone && -deadzone <= y <= deadzone
    ensures Classify(x, y, deadzone) == Some(PadRight) <==> x > deadzone && -x <= y <= x
    ensures Classify(x, y, deadzone) == Some(PadLeft) <==> -x > deadzone && x <= y <= -x
    ensures Classify(x, y, deadzone) == Some(PadUp) <==> y > deadzone && -y < x < y
    ensures Classify(x, y, deadzone) == Some(PadDown) <==> -y > deadzone && y < x < -y
  {
  }

  /** How often the log names an input. */
  function Presses(log: Log, input: ControllerInput): nat {
    if log == [] then 0
    else
      var n := |log| - 1;
      Presses(log[..n], input) + if log[n] == Some(input) then 1 else 0
  }

  lemma {:induction false} PressesAdd(a: Log, b: Log, input: ControllerInput)
    ensures Presses(a + b, input) == Presses(a, input) + Presses(b, input)
  {
    if b == [] {
      assert a + b == a;
    } else {
      var n := |b| - 1;
      assert (a + b)[..|a + b| - 1] == a + b[..n];
      PressesAdd(a, b[..n], input);
    }
  }

  /** Menu or grip is down. The trigger is held only and makes no edges. */
  ghost predicate ButtonDown(r: Raw, input: ControllerInput) {
    (input.MenuClick? && r.menu) || (input.GripClick? && r.grip)
  }

  ghost predicate WasDown(prev: Option<Controller>, input: ControllerInput) {
    prev.Some? && ButtonDown(prev.value.raw, input)
  }

  /** How often the button went from up, or from nothing known, to down. */
  ghost function Rises(prev: Option<Controller>, raws: seq<Raw>, input: ControllerInput): nat {
    if raws == [] then 0
    else
      var n := |raws| - 1;
      var before := if n == 0 then WasDown(prev, input) else ButtonDown(raws[n - 1], input);
      Rises(prev, raws[..n], input) + if ButtonDown(raws[n], input) && !before then 1 else 0
  }

  lemma PadNamesDirections(prev: Option<Controller>, raw: Raw, deadzone: real, input: ControllerInput)
    requires !input.Click?
    ensures Presses(PadEdge(prev, raw, deadzone).0, input) == 0
  {
    var pad := PadEdge(prev, raw, deadzone).0;
    assert pad != [] ==> pad[..0] == [];
  }

  function Pressed(down: bool, input: ControllerInput): Log {
    if down then [Some(input)] else []
  }

  lemma OneEntry(down: bool, named: ControllerInput, input: ControllerInput)
    ensures Presses(Pressed(down, named), input) == if down && named == input then 1 else 0
  {
    assert down ==> Pressed(down, named)[..0] == [];
  }

  lemma OnePress(prev: Option<Controller>, raw: Raw, deadzone: real, input: ControllerInput)
    requires !input.Click?
    ensures Presses(NewInputs(prev, raw, deadzone), input) == if ButtonDown(raw, input) && !WasDown(prev, input) then 1 else 0
  {
    var pad := PadEdge(prev, raw, deadzone).0;
    var menu := Pressed(raw.menu && !(prev.Some? && prev.value.raw.menu), MenuClick);
    var grip := Pressed(raw.grip && !(prev.Some? && prev.value.raw.grip), GripClick);
    assert NewInputs(prev, raw, deadzone) == pad + menu + grip;
    PadNamesDirections(prev, raw, deadzone, input);
    PressesAdd(pad, menu, input);
    PressesAdd(pad + menu, grip, input);
    OneEntry(raw.menu && !(prev.Some? && prev.value.raw.menu), MenuClick, input);
    OneEntry(raw.grip && !(prev.Some? && prev.value.raw.grip), GripClick, input);
  }

  lemma PressOfLast(prev: Option<Controller>, raws: seq<Raw>, deadzone: real, input: ControllerInput)
    requires raws != [] && !input.Click?
    ensures Presses(Adopted(prev, raws, deadzone).1, input)
         == Presses(Adopted(prev, raws[..|raws| - 1], deadzone).1, input) + Rises(prev, raws, input) - Rises(prev, raws[..|raws| - 1], input)
  {
    var n := |raws| - 1;
    var (mid, log) := Adopted(prev, raws[..n], deadzone);
    OnePress(mid, raws[n], deadzone, input);
    PressesAdd(log, NewInputs(mid, raws[n], deadzone), input);
    assert n > 0 ==> raws[..n][n - 1] == raws[n - 1];
  }

  /** Over any series of states the log names menu and grip once for every time the button went
      down, and the trigger never. */
  lemma {:induction false} EveryPressIsLogged(prev: Option<Controller>, raws: seq<Raw>, deadzone: real, input: ControllerInput)
    requires !input.Click?
    ensures Presses(Adopted(prev, raws, deadzone).1, input) == Rises(prev, raws, input)
  {
    if raws != [] {
      EveryPressIsLogged(prev, raws[..|raws| - 1], deadzone, input);
      PressOfLast(prev, raws, deadzone, input);
    }
  }

  lemma PressOfClick(prev: Option<Controller>, raw: Raw, deadzone: real, d: Pad)
    ensures Presses(NewInputs(prev, raw, deadzone), Click(d)) == Presses(PadEdge(prev, raw, deadzone).0, Click(d))
  {
    var pad := PadEdge(prev, raw, deadzone).0;
    var menu := Pressed(raw.menu && !(prev.Some? && prev.value.raw.menu), MenuClick);
    var grip := Pressed(raw.grip && !(prev.Some? && prev.value.raw.grip), GripClick);
    assert NewInputs(prev, raw, deadzone) == pad + menu + grip;
    PressesAdd(pad, menu, Click(d));
    PressesAdd(pad + menu, grip, Click(d));
    OneEntry(raw.menu && !(prev.Some? && prev.value.raw.menu), MenuClick, Click(d));
    OneEntry(raw.grip && !(prev.Some? && prev.value.raw.grip), GripClick, Click(d));
  }

  /** A clicked pad without a direction names the one it is at now, if any; one with a direction
      nothing more. */
  lemma PadNames(prev: Option<Controller>, raw: Raw, deadzone: real, d: Pad)
    requires raw.click
    ensures var settled := prev.Some? && prev.value.raw.click && prev.value.dir.Some?;
            Presses(PadEdge(prev, raw, deadzone).0, Click(d)) == if !settled && Classify(raw.x, raw.y, deadzone) == Some(d) then 1 else 0
  {
    var pad := PadEdge(prev, raw, deadzone).0;
    assert |pad| <= 1;
    if pad != [] {
      assert pad == [pad[0]] && pad[..0] == [];
      assert Presses(pad, Click(d)) == if pad[0] == Some(Click(d)) then 1 else 0;
    }
  }

  /** The edge of a held click names exactly the direction of the first position outside the
      deadzone, once. */
  lemma {:induction false} DirectionIsNamed(prev: Option<Controller>, raws: seq<Raw>, deadzone: real, d: Pad)
    requires prev.Some? ==> !prev.value.raw.click
    requires raws != [] && forall k :: 0 <= k < |raws| ==> raws[k].click
    ensures Presses(Adopted(prev, raws, deadzone).1, Click(d)) == if Resolved(raws, deadzone) == Some(d) then 1 else 0
  {
    var n := |raws| - 1;
    var (mid, log) := Adopted(prev, raws[..n], deadzone);
    if n > 0 {
      DirectionIsNamed(prev, raws[..n], deadzone, d);
      OneDirectionPerClick(prev, raws[..n], deadzone);
    }
    PressesAdd(log, NewInputs(mid, raws[n], deadzone), Click(d));
    PressOfClick(mid, raws[n], deadzone, d);
    PadNames(mid, raws[n], deadzone, d);
  }

  // -- what the loop fires --------------------------------------------------------------------

  datatype Action = SwitchArm | SwitchArmPrev

  /** Inputs bound to the actions of the controller; none when unbound. */
  datatype ControllerMap = ControllerMap(
    clutch: Option<ControllerInput>,
    gripperOpen: Option<ControllerInput>,
    gripperClose: Option<ControllerInput>,
    railNeg: Option<ControllerInput>,
    railPos: Option<ControllerInput>,
    armNext: Option<ControllerInput>,
    armPrev: Option<ControllerInput>)

  function ActionFor(input: Option<ControllerInput>, m: ControllerMap): Option<Action> {
    if input.None? then None
    else if m.armNext == input then Some(SwitchArm)
    else if m.armPrev == input then Some(SwitchArmPrev)
    else None
  }

  datatype ClickAction = ClickAction(number: int, action: Action)

  function ActionOf(e: Edge, m: ControllerMap): (out: seq<ClickAction>)
    ensures |out| <= 1 && (out != [] ==> out[0].number == e.number)
  {
    var action := ActionFor(e.input, m);
    if action.Some? then [ClickAction(e.number, action.value)] else []
  }

  /** The discrete actions of remembered edges, oldest first. */
  function ClickActions(edges: seq<Edge>, m: ControllerMap): seq<ClickAction> {
    if edges == [] then [] else ClickActions(edges[..|edges| - 1], m) + ActionOf(edges[|edges| - 1], m)
  }

  /** Those newer than edge `seen`. */
  function Newer(actions: seq<ClickAction>, seen: int): seq<ClickAction> {
    if actions == [] then []
    else
      var n := |actions| - 1;
      Newer(actions[..n], seen) + if actions[n].number > seen then [actions[n]] else []
  }

  /** The discrete actions of edges `lo + 1` to `hi` of the log. */
  ghost function Bound(log: Log, lo: nat, hi: nat, m: ControllerMap): seq<ClickAction>
    requires hi <= |log|
  {
    if lo >= hi then [] else Bound(log, lo, hi - 1, m) + ActionOf(Edge(hi, log[hi - 1]), m)
  }

  lemma {:induction false} ActionsOfStretch(log: Log, lo: nat, hi: nat, m: ControllerMap)
    requires hi <= |log|
    ensures ClickActions(Stretch(log, lo, hi), m) == Bound(log, lo, hi, m)
  {
    if lo < hi {
      ActionsOfStretch(log, lo, hi - 1, m);
      assert Stretch(log, lo, hi)[..hi - 1 - lo] == Stretch(log, lo, hi - 1);
    }
  }

  lemma NewerOfAppended(front: seq<ClickAction>, last: seq<ClickAction>, seen: int)
    requires |last| <= 1
    ensures Newer(front + last, seen) == Newer(front, seen) + if last != [] && last[0].number > seen then last else []
  {
    if last != [] {
      assert (front + last)[..|front|] == front;
    } else {
      assert front + last == front;
    }
  }

  /** What is newer than `seen` among a stretch is the stretch from `seen` on. */
  lemma {:induction false} NewerOfBound(log: Log, lo: nat, hi: nat, m: ControllerMap, seen: nat)
    requires hi <= |log|
    ensures Newer(Bound(log, lo, hi, m), seen) == Bound(log, if lo < seen then seen else lo, hi, m)
  {
    if lo < hi {
      NewerOfBound(log, lo, hi - 1, m, seen);
      NewerOfAppended(Bound(log, lo, hi - 1, m), ActionOf(Edge(hi, log[hi - 1]), m), seen);
    }
  }

  lemma {:induction false} BoundSplits(log: Log, lo: nat, mid: nat, hi: nat, m: ControllerMap)
    requires lo <= mid <= hi <= |log|
    ensures Bound(log, lo, mid, m) + Bound(log, mid, hi, m) == Bound(log, lo, hi, m)
    decreases hi
  {
    if mid < hi {
      var last := ActionOf(Edge(hi, log[hi - 1]), m);
      BoundSplits(log, lo, mid, hi - 1, m);
      Regroup(Bound(log, lo, mid, m), Bound(log, mid, hi - 1, m), last, Bound(log, lo, hi - 1, m));
    }
  }

  lemma Regroup(a: seq<ClickAction>, b: seq<ClickAction>, c: seq<ClickAction>, ab: seq<ClickAction>)
    requires a + b == ab
    ensures a + (b + c) == ab + c
  {
  }

  lemma {:induction false} BoundOfPrefix(log: Log, added: Log, lo: nat, hi: nat, m: ControllerMap)
    requires hi <= |log|
    ensures Bound(log + added, lo, hi, m) == Bound(log, lo, hi, m)
  {
    if lo < hi {
      BoundOfPrefix(log, added, lo, hi - 1, m);
    }
  }

  lemma StretchOfPrefix(log: Log, added: Log, lo: nat, hi: nat)
    requires hi <= |log|
    ensures Stretch(log + added, lo, hi) == Stretch(log, lo, hi)
  {
  }

  ghost predicate Rising(actions: seq<ClickAction>) {
    forall i, j :: 0 <= i < j < |actions| ==> actions[i].number < actions[j].number
  }

  /** Actions in order, for edges after `after` up to `upTo`, each the one bound to its edge. */
  ghost predicate LaterActions(log: Log, m: ControllerMap, actions: seq<ClickAction>, after: int, upTo: int) {
    Rising(actions) && forall k :: 0 <= k < |actions| ==> LaterAction(log, m, actions[k], after, upTo)
  }

  ghost predicate LaterAction(log: Log, m: ControllerMap, a: ClickAction, after: int, upTo: int) {
    0 <= after < a.number <= upTo <= |log| && Binds(m, log[a.number - 1], a.action)
  }

  /** A press of the input bound to the next arm switches on, one of the input bound to the previous
      arm back, and where both are bound to one input it switches on. */
  ghost predicate Binds(m: ControllerMap, input: Option<ControllerInput>, action: Action) {
    && input.Some?
    && match action
       case SwitchArm => m.armNext == input
       case SwitchArmPrev => m.armPrev == input && m.armNext != input
  }

  /** The actions of a stretch are in order, inside it, and each belongs to its edge. */
  lemma {:induction false} BoundIsLater(log: Log, lo: nat, hi: nat, m: ControllerMap)
    requires hi <= |log|
    ensures LaterActions(log, m, Bound(log, lo, hi, m), lo, hi)
  {
    if lo < hi {
      BoundIsLater(log, lo, hi - 1, m);
      LaterAppends(log, m, Bound(log, lo, hi - 1, m), ActionOf(Edge(hi, log[hi - 1]), m), lo, hi - 1, hi);
    }
  }

  /** What comes later still goes behind. */
  lemma LaterAppends(log: Log, m: ControllerMap, front: seq<ClickAction>, more: seq<ClickAction>, after: int, mid: int, upTo: int)
    requires LaterActions(log, m, front, after, mid) && LaterActions(log, m, more, mid, upTo) && 0 <= after <= mid <= upTo <= |log|
    ensures LaterActions(log, m, front + more, after, upTo)
  {
    var all := front + more;
    forall k | 0 <= k < |all|
      ensures LaterAction(log, m, all[k], after, upTo)
      ensures k < |front| ==> all[k].number <= mid
      ensures k >= |front| ==> all[k].number > mid
    {
      if k < |front| {
        assert LaterAction(log, m, front[k], after, mid);
      } else {
        assert LaterAction(log, m, more[k - |front|], mid, upTo);
      }
    }
  }

  lemma LaterLoosens(log: Log, m: ControllerMap, actions: seq<ClickAction>, lo: int, after: int, upTo: int)
    requires LaterActions(log, m, actions, lo, upTo) && 0 <= after <= lo
    ensures LaterActions(log, m, actions, after, upTo)
  {
    forall k | 0 <= k < |actions|
      ensures LaterAction(log, m, actions[k], after, upTo)
    {
      assert LaterAction(log, m, actions[k], lo, upTo);
    }
  }

  // -- reader and loop together -----------------------------------------------------------------

  datatype Held = Clutch | GripperOpen | GripperClose | RailNeg | RailPos

  function ActiveInputs(c: Controller): set<ControllerInput> {
    (if c.raw.trigger then {TriggerClick} else {})
    + (if c.raw.click && c.dir.Some? then {Click(c.dir.value)} else {})
    + (if c.raw.menu then {MenuClick} else {})
    + (if c.raw.grip then {GripClick} else {})
  }

  function Code(input: Option<ControllerInput>, active: set<ControllerInput>, code: Held): set<Held> {
    if input.Some? && input.value in active then {code} else {}
  }

  function HeldCodes(c: Option<Controller>, m: ControllerMap): set<Held> {
    if c.None? then {}
    else
      var active := ActiveInputs(c.value);
      Code(m.clutch, active, Clutch) + Code(m.gripperOpen, active, GripperOpen) + Code(m.gripperClose, active, GripperClose)
      + Code(m.railNeg, active, RailNeg) + Code(m.railPos, active, RailPos)
  }

  /** The input is down: the trigger, the pad clicked in its direction, menu or grip. */
  ghost predicate IsDown(c: Controller, input: ControllerInput) {
    match input
    case TriggerClick => c.raw.trigger
    case Click(d) => c.raw.click && c.dir == Some(d)
    case MenuClick => c.raw.menu
    case GripClick => c.raw.grip
  }

  /** The code is held exactly while the input bound to it is down. */
  lemma HeldIsDown(c: Option<Controller>, m: ControllerMap, code: Held)
    ensures code in HeldCodes(c, m) <==>
              c.Some? && var bound := match code
                                      case Clutch => m.clutch
                                      case GripperOpen => m.gripperOpen
                                      case GripperClose => m.gripperClose
                                      case RailNeg => m.railNeg
                                      case RailPos => m.railPos;
                         bound.Some? && IsDown(c.value, bound.value)
  {
  }

  function Buttons(r: Raw): seq<bool> {
    [r.trigger, r.touch, r.click, r.grip, r.menu, r.system]
  }

  /** An input is re-published at once when a button or a held code changes. */
  function IsEdge(prev: Option<Controller>, next: Controller, m: ControllerMap): bool {
    HeldCodes(Some(next), m) != HeldCodes(prev, m) || prev.None? || Buttons(next.raw) != Buttons(prev.value.raw)
  }

  /** Exactly when a state is re-published: on the first one, when any of the six buttons changes, or
      when some code comes to be held or let go. */
  lemma EdgeExactly(prev: Option<Controller>, next: Controller, m: ControllerMap)
    ensures IsEdge(prev, next, m) <==>
              || prev.None?
              || (exists code :: code in HeldCodes(Some(next), m) <==> code !in HeldCodes(prev, m))
              || next.raw.trigger != prev.value.raw.trigger || next.raw.touch != prev.value.raw.touch
              || next.raw.click != prev.value.raw.click || next.raw.grip != prev.value.raw.grip
              || next.raw.menu != prev.value.raw.menu || next.raw.system != prev.value.raw.system
  {
    if prev.Some? {
      SameButtons(next.raw, prev.value.raw);
    }
    var now, before := HeldCodes(Some(next), m), HeldCodes(prev, m);
    assert now != before <==> exists code :: code in now <==> code !in before;
  }

  lemma SameButtons(a: Raw, b: Raw)
    ensures Buttons(a) == Buttons(b) <==>
              && a.trigger == b.trigger && a.touch == b.touch && a.click == b.click
              && a.grip == b.grip && a.menu == b.menu && a.system == b.system
  {
    if Buttons(a) == Buttons(b) {
      assert Buttons(a)[0] == a.trigger && Buttons(b)[0] == b.trigger;
      assert Buttons(a)[1] == a.touch && Buttons(b)[1] == b.touch;
      assert Buttons(a)[2] == a.click && Buttons(b)[2] == b.click;
      assert Buttons(a)[3] == a.grip && Buttons(b)[3] == b.grip;
      assert Buttons(a)[4] == a.menu && Buttons(b)[4] == b.menu;
      assert Buttons(a)[5] == a.system && Buttons(b)[5] == b.system;
    }
  }

  /** What the tracker slot holds about the controller. */
  datatype Sample = Sample(controller: Option<Controller>, actions: seq<ClickAction>)

  datatype Event = Input(raw: Raw) | Pose | Tick(isFresh: bool)

  /** The reader: adopted controller state, whether a pose was published, the depth-1 slot. */
  datatype Reader = Reader(controller: Option<Controller>, posed: bool, slot: Option<Sample>)

  /** Reader and loop: the newest edge the loop has read, and what it fired. */
  datatype World = World(reader: Reader, seen: Option<int>, fired: seq<ClickAction>)

  datatype Config = Config(m: ControllerMap, deadzone: real)

  function SampleOf(cfg: Config, c: Option<Controller>): Sample {
    Sample(c, if c.None? then [] else ClickActions(c.value.edges, cfg.m))
  }

  /** What one tick fires for the sample it reads. */
  function FiredBy(sample: Sample, seen: Option<int>, isFresh: bool): seq<ClickAction> {
    if sample.controller.None? || seen.None? || EdgeSeq(sample.controller.value.edges) == seen.value || !isFresh then []
    else Newer(sample.actions, seen.value)
  }

  function SeenAfter(sample: Sample): Option<int> {
    if sample.controller.None? then None else Some(EdgeSeq(sample.controller.value.edges))
  }

  function Adopt(cfg: Config, r: Reader, raw: Raw): Reader {
    var next := NoteEdges(r.controller, raw, cfg.deadzone);
    r.(controller := Some(next),
       slot := if IsEdge(r.controller, next, cfg.m) && r.posed then Some(SampleOf(cfg, Some(next))) else r.slot)
  }

  function Publish(cfg: Config, r: Reader): Reader {
    r.(posed := true, slot := Some(SampleOf(cfg, r.controller)))
  }

  function Step(cfg: Config, w: World, e: Event): World {
    match e
    case Input(raw) => w.(reader := Adopt(cfg, w.reader, raw))
    case Pose => w.(reader := Publish(cfg, w.reader))
    case Tick(isFresh) =>
      if w.reader.slot.None? then w
      else
        w.(seen := SeenAfter(w.reader.slot.value), fired := w.fired + FiredBy(w.reader.slot.value, w.seen, isFresh))
  }

  function Start(): World {
    World(Reader(None, false, None), None, [])
  }

  function Run(cfg: Config, es: seq<Event>): World {
    if es == [] then Start() else Step(cfg, Run(cfg, es[..|es| - 1]), es[|es| - 1])
  }

  /** Every press edge made by the inputs of a run. */
  ghost function LogOf(cfg: Config, es: seq<Event>): Log {
    if es == [] then []
    else
      var front, e := es[..|es| - 1], es[|es| - 1];
      LogOf(cfg, front) + if e.Input? then NewInputs(Run(cfg, front).reader.controller, e.raw, cfg.deadzone) else []
  }

  /** The sample was taken when the log was `n` edges long. */
  ghost predicate SampleAt(cfg: Config, s: Sample, log: Log, n: nat) {
    n <= |log| && s.controller.Some? && s.controller.value.edges == Tail(log, n) && s.actions == ClickActions(Tail(log, n), cfg.m)
  }

  /** The slot's sample never leads the log, and the loop never leads the sample. */
  ghost predicate SlotBehind(cfg: Config, w: World, log: Log) {
    w.reader.slot.Some? && w.reader.slot.value.controller.Some? ==>
      exists n: nat :: SampleAt(cfg, w.reader.slot.value, log, n) && (w.seen.Some? ==> w.seen.value <= n)
  }

  ghost predicate Remembers(w: World, log: Log) {
    if w.reader.controller.Some? then w.reader.controller.value.edges == Tail(log, |log|) else log == [] && w.seen.None?
  }

  ghost predicate SeenFromSlot(w: World) {
    w.seen.Some? ==> w.seen.value >= 0 && w.reader.slot.Some? && w.reader.slot.value.controller.Some?
  }

  ghost predicate SlotKnown(w: World) {
    w.reader.slot.Some? && w.reader.slot.value.controller.Some? ==> w.reader.controller.Some?
  }

  ghost predicate Consistent(cfg: Config, w: World, log: Log) {
    Remembers(w, log) && SlotBehind(cfg, w, log) && SeenFromSlot(w) && SlotKnown(w)
  }

  lemma SampleOfLonger(cfg: Config, s: Sample, log: Log, added: Log, n: nat)
    requires SampleAt(cfg, s, log, n)
    ensures SampleAt(cfg, s, log + added, n)
  {
    StretchOfPrefix(log, added, Before(n), n);
  }

  lemma InputIsConsistent(cfg: Config, w: World, log: Log, raw: Raw)
    requires Consistent(cfg, w, log)
    ensures Consistent(cfg, Step(cfg, w, Input(raw)), log + NewInputs(w.reader.controller, raw, cfg.deadzone))
  {
    var added := NewInputs(w.reader.controller, raw, cfg.deadzone);
    var longer, next := log + added, Step(cfg, w, Input(raw));
    HistoryIsTheTail(log, w.reader.controller, raw, cfg.deadzone);
    if next.reader.slot == w.reader.slot {
      if w.reader.slot.Some? && w.reader.slot.value.controller.Some? {
        var n: nat :| SampleAt(cfg, w.reader.slot.value, log, n) && (w.seen.Some? ==> w.seen.value <= n);
        SampleOfLonger(cfg, w.reader.slot.value, log, added, n);
      }
    } else {
      assert SampleAt(cfg, next.reader.slot.value, longer, |longer|);
      SeenIsInTheLog(cfg, w, log);
    }
  }

  lemma SeenIsInTheLog(cfg: Config, w: World, log: Log)
    requires Consistent(cfg, w, log)
    ensures w.seen.Some? ==> 0 <= w.seen.value <= |log|
  {
  }

  lemma PoseIsConsistent(cfg: Config, w: World, log: Log)
    requires Consistent(cfg, w, log)
    ensures Consistent(cfg, Step(cfg, w, Pose), log)
  {
    SeenIsInTheLog(cfg, w, log);
    if w.reader.controller.Some? {
      assert SampleAt(cfg, SampleOf(cfg, w.reader.controller), log, |log|);
    }
  }

  /** What a tick fires: the log from where the loop had read to where the sample is, as far
      back as the history goes; a tick on an old sample fires nothing. */
  lemma TickFires(cfg: Config, s: Sample, log: Log, n: nat, seen: nat, isFresh: bool)
    requires SampleAt(cfg, s, log, n) && seen <= n
    ensures SeenAfter(s) == Some(n)
    ensures FiredBy(s, Some(seen), isFresh) == if isFresh then Bound(log, if Before(n) < seen then seen else Before(n), n, cfg.m) else []
  {
    SeqOfTail(log, n);
    ActionsOfStretch(log, Before(n), n, cfg.m);
    NewerOfBound(log, Before(n), n, cfg.m, seen);
  }

  lemma TickIsConsistent(cfg: Config, w: World, log: Log, isFresh: bool)
    requires Consistent(cfg, w, log)
    ensures Consistent(cfg, Step(cfg, w, Tick(isFresh)), log)
  {
    if w.reader.slot.Some? && w.reader.slot.value.controller.Some? {
      var n: nat :| SampleAt(cfg, w.reader.slot.value, log, n) && (w.seen.Some? ==> w.seen.value <= n);
      SeqOfTail(log, n);
    }
  }

  /** Over every interleaving of inputs, poses and ticks: what is remembered is the end of the
      full log, whose edges are numbered 1, 2, 3 and so on. */
  lemma {:induction false} RunIsConsistent(cfg: Config, es: seq<Event>)
    ensures Consistent(cfg, Run(cfg, es), LogOf(cfg, es))
  {
    if es != [] {
      var front, e := es[..|es| - 1], es[|es| - 1];
      RunIsConsistent(cfg, front);
      var w, log := Run(cfg, front), LogOf(cfg, front);
      match e
      case Input(raw) => InputIsConsistent(cfg, w, log, raw);
      case Pose => PoseIsConsistent(cfg, w, log); assert log + [] == log;
      case Tick(isFresh) => TickIsConsistent(cfg, w, log, isFresh); assert log + [] == log;
    }
  }

  // -- at most once, and exactly once -----------------------------------------------------------

  /** Fired in order, each at most once, none after where the loop has read, and each the
      action bound to its edge. */
  ghost predicate FiredSoundly(cfg: Config, w: World, log: Log) {
    if w.seen.None? then w.fired == [] else LaterActions(log, cfg.m, w.fired, 0, w.seen.value)
  }

  lemma FiredIsLater(cfg: Config, s: Sample, log: Log, n: nat, seen: nat, isFresh: bool)
    requires SampleAt(cfg, s, log, n) && seen <= n
    ensures LaterActions(log, cfg.m, FiredBy(s, Some(seen), isFresh), seen, n)
  {
    TickFires(cfg, s, log, n, seen, isFresh);
    var lo := if Before(n) < seen then seen else Before(n);
    BoundIsLater(log, lo, n, cfg.m);
    LaterLoosens(log, cfg.m, Bound(log, lo, n, cfg.m), lo, seen, n);
  }

  lemma TickIsSound(cfg: Config, w: World, log: Log, isFresh: bool)
    requires Consistent(cfg, w, log) && FiredSoundly(cfg, w, log)
    ensures FiredSoundly(cfg, Step(cfg, w, Tick(isFresh)), log)
  {
    if w.reader.slot.Some? && w.reader.slot.value.controller.Some? {
      var n: nat :| SampleAt(cfg, w.reader.slot.value, log, n) && (w.seen.Some? ==> w.seen.value <= n);
      SeqOfTail(log, n);
      if w.seen.Some? {
        var more := FiredBy(w.reader.slot.value, w.seen, isFresh);
        FiredIsLater(cfg, w.reader.slot.value, log, n, w.seen.value, isFresh);
        LaterAppends(log, cfg.m, w.fired, more, 0, w.seen.value, n);
      }
    }
  }

  lemma LongerIsSound(cfg: Config, w: World, w': World, log: Log, added: Log)
    requires FiredSoundly(cfg, w, log) && w'.fired == w.fired && w'.seen == w.seen
    ensures FiredSoundly(cfg, w', log + added)
  {
    if w.seen.Some? {
      forall k | 0 <= k < |w.fired|
        ensures LaterAction(log + added, cfg.m, w.fired[k], 0, w.seen.value)
      {
        assert LaterAction(log, cfg.m, w.fired[k], 0, w.seen.value);
      }
    }
  }

  /** Over every interleaving a discrete action fires at most once per press edge, in the order
      of the presses, and never for an edge it is not bound to. */
  lemma {:induction false} FiresAtMostOnce(cfg: Config, es: seq<Event>)
    ensures FiredSoundly(cfg, Run(cfg, es), LogOf(cfg, es))
  {
    if es != [] {
      var front, e := es[..|es| - 1], es[|es| - 1];
      FiresAtMostOnce(cfg, front);
      RunIsConsistent(cfg, front);
      var w, log := Run(cfg, front), LogOf(cfg, front);
      if e.Tick? {
        TickIsSound(cfg, w, log, e.isFresh);
        assert log + [] == log;
      } else {
        LongerIsSound(cfg, w, Run(cfg, es), log, if e.Input? then NewInputs(w.reader.controller, e.raw, cfg.deadzone) else []);
      }
    }
  }

  /** How far the sample a tick reads has got. */
  ghost function ReadAt(w: World): Option<int> {
    if w.reader.slot.Some? then SeenAfter(w.reader.slot.value) else None
  }

  /** The counter the loop adopted silently at its first reading. */
  ghost function FirstSeen(cfg: Config, es: seq<Event>): Option<int> {
    if es == [] then None
    else
      var front, e := es[..|es| - 1], es[|es| - 1];
      if FirstSeen(cfg, front).Some? then FirstSeen(cfg, front)
      else if e.Tick? then ReadAt(Run(cfg, front))
      else None
  }

  /** Every tick reads a fresh sample, and at most eight edges fall between two reads. */
  ghost predicate Prompt(cfg: Config, es: seq<Event>) {
    es == [] ||
      var front, e := es[..|es| - 1], es[|es| - 1];
      && Prompt(cfg, front)
      && (e.Tick? ==>
            var w := Run(cfg, front);
            e.isFresh && (w.seen.Some? && ReadAt(w).Some? ==> ReadAt(w).value - w.seen.value <= EDGE_HISTORY))
  }

  ghost predicate FiredExactly(cfg: Config, w: World, log: Log, first: Option<int>) {
    if w.seen.None? then first.None? && w.fired == []
    else first.Some? && 0 <= first.value <= w.seen.value <= |log| && w.fired == Bound(log, first.value, w.seen.value, cfg.m)
  }

  lemma TickIsExact(cfg: Config, w: World, log: Log, first: Option<int>)
    requires Consistent(cfg, w, log) && FiredExactly(cfg, w, log, first)
    requires w.seen.Some? && ReadAt(w).Some? ==> ReadAt(w).value - w.seen.value <= EDGE_HISTORY
    ensures FiredExactly(cfg, Step(cfg, w, Tick(true)), log, if first.Some? then first else ReadAt(w))
  {
    if w.reader.slot.Some? && w.reader.slot.value.controller.Some? {
      var n: nat :| SampleAt(cfg, w.reader.slot.value, log, n) && (w.seen.Some? ==> w.seen.value <= n);
      SeqOfTail(log, n);
      if w.seen.Some? {
        MoreFired(cfg, w.reader.slot.value, log, first.value, w.seen.value, n);
      } else {
        NothingFired(w.reader.slot.value, log, n, cfg.m);
      }
    }
  }

  lemma MoreFired(cfg: Config, s: Sample, log: Log, first: int, seen: int, n: nat)
    requires SampleAt(cfg, s, log, n) && 0 <= first <= seen <= n && n - seen <= EDGE_HISTORY
    ensures SeenAfter(s) == Some(n)
    ensures Bound(log, first, seen, cfg.m) + FiredBy(s, Some(seen), true) == Bound(log, first, n, cfg.m)
  {
    TickFires(cfg, s, log, n, seen, true);
    BoundSplits(log, first, seen, n, cfg.m);
  }

  lemma NothingFired(s: Sample, log: Log, n: nat, m: ControllerMap)
    requires n <= |log|
    ensures FiredBy(s, None, true) == [] && Bound(log, n, n, m) == []
  {
  }

  lemma LongerIsExact(cfg: Config, w: World, w': World, log: Log, added: Log, first: Option<int>)
    requires FiredExactly(cfg, w, log, first) && w'.fired == w.fired && w'.seen == w.seen
    ensures FiredExactly(cfg, w', log + added, first)
  {
    if w.seen.Some? {
      BoundOfPrefix(log, added, first.value, w.seen.value, cfg.m);
    }
  }

  /** With fresh ticks that leave no more than eight edges between two reads, the actions fired
      are exactly those of the full log from the silently adopted edge to the last one read:
      every bound press fires once, in order. */
  lemma {:induction false} FiresExactlyOnce(cfg: Config, es: seq<Event>)
    requires Prompt(cfg, es)
    ensures FiredExactly(cfg, Run(cfg, es), LogOf(cfg, es), FirstSeen(cfg, es))
  {
    if es != [] {
      var front, e := es[..|es| - 1], es[|es| - 1];
      FiresExactlyOnce(cfg, front);
      RunIsConsistent(cfg, front);
      var w, log, first := Run(cfg, front), LogOf(cfg, front), FirstSeen(cfg, front);
      if e.Tick? {
        TickIsExact(cfg, w, log, first);
        assert log + [] == log;
      } else {
        LongerIsExact(cfg, w, Run(cfg, es), log, if e.Input? then NewInputs(w.reader.controller, e.raw, cfg.deadzone) else [], first);
      }
    }
  }

  /** The loop has fired the action for edge `n`, whichever it is bound to. */
  ghost predicate FiredFor(w: World, m: ControllerMap, log: Log, n: int)
    requires 0 < n <= |log|
  {
    && (ClickAction(n, SwitchArm) in w.fired <==> Binds(m, log[n - 1], SwitchArm))
    && (ClickAction(n, SwitchArmPrev) in w.fired <==> Binds(m, log[n - 1], SwitchArmPrev))
  }

  lemma OwnAction(e: Edge, m: ControllerMap, n: int, action: Action)
    ensures ClickAction(n, action) in ActionOf(e, m) <==> n == e.number && Binds(m, e.input, action)
  {
  }

  lemma NoneOutside(log: Log, m: ControllerMap, actions: seq<ClickAction>, after: int, upTo: int, n: int, action: Action)
    requires LaterActions(log, m, actions, after, upTo) && !(after < n <= upTo)
    ensures ClickAction(n, action) !in actions
  {
    forall k | 0 <= k < |actions|
      ensures actions[k] != ClickAction(n, action)
    {
      assert LaterAction(log, m, actions[k], after, upTo);
    }
  }

  lemma {:induction false} BoundHas(log: Log, lo: nat, hi: nat, m: ControllerMap, n: nat, action: Action)
    requires lo < n <= hi <= |log|
    ensures ClickAction(n, action) in Bound(log, lo, hi, m) <==> Binds(m, log[n - 1], action)
  {
    OwnAction(Edge(hi, log[hi - 1]), m, n, action);
    if n < hi {
      BoundHas(log, lo, hi - 1, m, n, action);
    } else {
      BoundIsLater(log, lo, hi - 1, m);
      NoneOutside(log, m, Bound(log, lo, hi - 1, m), lo, hi - 1, n, action);
    }
  }

  /** Under the same premise, press by press: from the silently adopted edge to the last one read,
      the arm is switched on for exactly the presses bound to the next arm and back for exactly
      those bound to the previous one, and for no other edge. */
  lemma EveryPressFires(cfg: Config, es: seq<Event>, n: nat)
    requires Prompt(cfg, es) && Run(cfg, es).seen.Some? && FirstSeen(cfg, es).Some?
    ensures 0 < n <= |LogOf(cfg, es)| && FirstSeen(cfg, es).value < n <= Run(cfg, es).seen.value ==>
              FiredFor(Run(cfg, es), cfg.m, LogOf(cfg, es), n)
    ensures !(FirstSeen(cfg, es).value < n <= Run(cfg, es).seen.value) ==>
              ClickAction(n, SwitchArm) !in Run(cfg, es).fired && ClickAction(n, SwitchArmPrev) !in Run(cfg, es).fired
  {
    FiresExactlyOnce(cfg, es);
    var log, first, seen := LogOf(cfg, es), FirstSeen(cfg, es).value, Run(cfg, es).seen.value;
    if first < n <= seen {
      BoundHas(log, first, seen, cfg.m, n, SwitchArm);
      BoundHas(log, first, seen, cfg.m, n, SwitchArmPrev);
    } else {
      BoundIsLater(log, first, seen, cfg.m);
      NoneOutside(log, cfg.m, Run(cfg, es).fired, first, seen, n, SwitchArm);
      NoneOutside(log, cfg.m, Run(cfg, es).fired, first, seen, n, SwitchArmPrev);
    }
  }

  // -- the objects ------------------------------------------------------------------------------

  class TrackerReader {
    const cfg: Config
    var controller: Option<Controller>
    var heldCodes: set<Held>
    var clickActions: seq<ClickAction>
    var posed: bool
    var slot: Option<Sample>

    constructor (c: Config)
      ensures cfg == c && Valid() && Value() == Start().reader
    {
      cfg, controller, heldCodes, clickActions, posed, slot := c, None, {}, [], false, None;
    }

    ghost predicate Valid()
      reads this
    {
      heldCodes == HeldCodes(controller, cfg.m) && Sample(controller, clickActions) == SampleOf(cfg, controller)
    }

    ghost function Value(): Reader
      reads this
    {
      Reader(controller, posed, slot)
    }

    /** A new controller state; true when the last pose was re-published for it. */
    method OnController(raw: Raw) returns (published: bool)
      requires Valid()
      modifies this
      ensures Valid() && Value() == Adopt(cfg, old(Value()), raw)
      ensures published <==> old(posed) && IsEdge(old(controller), NoteEdges(old(controller), raw, cfg.deadzone), cfg.m)
    {
      var prev, prevCodes := controller, heldCodes;
      var next := NoteEdges(prev, raw, cfg.deadzone);
      var codes := HeldCodes(Some(next), cfg.m);
      controller := Some(next);
      heldCodes := codes;
      clickActions := ClickActions(next.edges, cfg.m);
      var edge := codes != prevCodes || prev.None? || Buttons(next.raw) != Buttons(prev.value.raw);
      if !edge || !posed {
        return false;
      }
      slot := Some(Sample(controller, clickActions));
      published := true;
    }

    method OnPose()
      requires Valid()
      modifies this
      ensures Valid() && Value() == Publish(cfg, old(Value()))
    {
      posed := true;
      slot := Some(Sample(controller, clickActions));
    }
  }

  /** The control loop's side: the newest counter it has read, and what it fired. */
  class DeviceClicks {
    var edgeSeqSeen: Option<int>
    var fired: seq<ClickAction>

    constructor ()
      ensures edgeSeqSeen == None && fired == []
    {
      edgeSeqSeen, fired := None, [];
    }

    method DeviceClickEdge(sample: Sample, isFresh: bool)
      modifies this
      ensures fired == old(fired) + FiredBy(sample, old(edgeSeqSeen), isFresh)
      ensures edgeSeqSeen == SeenAfter(sample)
    {
      if sample.controller.None? {
        edgeSeqSeen := None;
        return;
      }
      var newest := EdgeSeq(sample.controller.value.edges);
      var seen := edgeSeqSeen;
      edgeSeqSeen := Some(newest);
      if seen.None? || newest == seen.value || !isFresh {
        return;
      }
      for i := 0 to |sample.actions|
        invariant edgeSeqSeen == Some(newest)
        invariant fired == old(fired) + Newer(sample.actions[..i], seen.value)
      {
        NewerOfAppended(sample.actions[..i], [sample.actions[i]], seen.value);
        assert sample.actions[..i + 1] == sample.actions[..i] + [sample.actions[i]];
        if sample.actions[i].number > seen.value {
          fired := fired + [sample.actions[i]];
        }
      }
      assert sample.actions[..|sample.actions|] == sample.actions;
    }
  }
}
