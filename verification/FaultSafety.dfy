/** One arm through driver faults (control/loop.py:412-423, 486-551, 1003-1121) with its sender
    as a second thread (control/arm_sender.py:46-107): no posture is commanded while the arm is
    stopped, when a gripper target is, and exactly when something from before the fault can
    still reach the driver after it. */
module FaultSafety {
  import opened Prelude
  import opened JointCap

  /** When a value was put: how many faults the arm had had, and whether one stopped it. */
  datatype Tag = Tag(faults: nat, whileFaulted: bool)

  datatype Tagged<T> = Tagged(value: T, tag: Tag)

  /** Where the control thread is in its tick. */
  datatype Phase =
    | BetweenTicks
    | Sampled(live: bool)
    | Draining
    | Resolving
    | Gating(asked: Vec)
    | Dispatching(asked: Vec, out: Vec)
    | AfterDispatch

  /** Where the sender thread is in its loop. */
  datatype SenderPc =
    | Waiting
    | Holding(got: Option<Tagged<Vec>>)
    | Sending(got: Option<Tagged<Vec>>)
    | AtGripper
    | GripperChosen(grip: Tagged<real>)
    | GripperSending(grip: Tagged<real>)

  /** The manager's plan as this arm sees it. */
  datatype Plan = NoPlan | OwnPlan(interruptible: bool) | OtherPlan(interruptible: bool)

  /** `deferred` is the gripper target the running plan applies when it is done. */
  datatype Loop = Loop(
    phase: Phase,
    lastCmd: Vec,
    faulted: bool,
    recovering: bool,
    reseeded: bool,
    plan: Plan,
    deferred: Option<real>)

  datatype Sender = Sender(pc: SenderPc, paused: bool, lastGrip: Option<real>)

  /** The depth-1 command slot with its freshness, and the gripper slot. */
  datatype Slots = Slots(joints: Option<Tagged<Vec>>, unread: bool, grip: Option<Tagged<real>>)

  /** Something handed to the driver: when its value was put, and whether the arm was stopped
      and how many faults it had had when it was sent. */
  datatype Sent = Sent(tag: Tag, stopped: bool, faults: nat)

  /** What the statements refer to: faults and ticks so far, everything sent, gripper targets
put, those put while the arm was faulted, whether a plan ever named the arm while it was
      faulted, tick and posture of the newest re-seed and whether the arm was commanded since,
      and how far the sender has got since it was paused. */
  datatype History = History(
    faults: nat,
    tick: nat,
    sent: seq<Sent>,
    gripPuts: nat,
    faultedPuts: nat,
    namedFaulted: bool,
    reseedTick: nat,
    reseedQ: Vec,
    commanded: bool,
    tookPaused: bool,
    passedPaused: bool)

  datatype World = World(loop: Loop, sender: Sender, slots: Slots, h: History)

  datatype Step =
    | SampleInputs(live: bool)
    | UpdateRecovering
    | Fault
    | Recovered(measured: Option<Vec>)
    | DrainDone
    | Resolve(wanted: Vec)
    | Gate(answer: Vec -> Vec)
    | Dispatch
    | PutGripper(frac: real)
    | ExecutePlan(own: bool, moving: bool, interruptible: bool, target: Option<real>)
    | PlanDone
    | CancelPlans
    | EndTick
    | Take
    | Decide
    | SendJoints
    | ChooseGripper
    | RecordGripper
    | SendGripper

  /** Is the arm given no new command? */
  predicate Stopped(l: Loop) {
    l.faulted || l.recovering
  }

  /** The capped posture when a tick wants `q`. */
  function Capped(c: LoopCaps, q: Vec, qLast: Vec): Vec {
    if ValidBound(c) && Posture(q) && |q| == |qLast| then CapJointStep(c, q, qLast).0 else q
  }

  /** Keys, policies, replays and recorded tracks move the gripper of an arm that is not stopped;
      a plan is refused while another runs or when it moves a stopped arm, but the targets it
      carries are looked at by nobody. */
  ghost predicate Enabled(w: World, s: Step) {
    match s
    case SampleInputs(_) => w.loop.phase.BetweenTicks?
    case UpdateRecovering => w.loop.phase.Sampled?
    case Fault => w.loop.phase.Draining?
    case Recovered(_) => w.loop.phase.Draining?
    case DrainDone => w.loop.phase.Draining?
    case Resolve(_) => w.loop.phase.Resolving?
    case Gate(_) => w.loop.phase.Gating?
    case Dispatch => w.loop.phase.Dispatching?
    case PutGripper(_) => !Stopped(w.loop) && (w.loop.phase.Resolving? || w.loop.phase.AfterDispatch?)
    case ExecutePlan(own, moving, _, _) =>
      w.loop.phase.BetweenTicks? && w.loop.plan.NoPlan? && (own ==> moving && !Stopped(w.loop))
    case PlanDone => w.loop.phase.Dispatching? && !w.loop.plan.NoPlan? && (w.loop.plan.OwnPlan? ==> !Stopped(w.loop))
    case CancelPlans => true
    case EndTick => w.loop.phase.AfterDispatch?
    case Take => w.sender.pc.Waiting?
    case Decide => w.sender.pc.Holding?
    case SendJoints => w.sender.pc.Sending?
    case ChooseGripper => w.sender.pc.AtGripper?
    case RecordGripper => w.sender.pc.GripperChosen?
    case SendGripper => w.sender.pc.GripperSending?
  }

  predicate MayBeInterrupted(p: Plan) {
    !p.NoPlan? && p.interruptible
  }

  /** A fault ends an interruptible plan with what it has deferred, and the arm's own plan. */
  function PlanAtFault(l: Loop): Loop {
    if MayBeInterrupted(l.plan) then l.(plan := NoPlan, deferred := None)
    else if l.plan.OwnPlan? then l.(plan := NoPlan)
    else l
  }

  /** The driver stopped the arm: the sender pauses and drops the gripper target in its slot. */
  function OnFault(w: World): World {
    w.(loop := PlanAtFault(w.loop).(faulted := true, recovering := false),
       sender := w.sender.(paused := true,
                           lastGrip := if w.slots.grip.Some? then Some(w.slots.grip.value.value) else w.sender.lastGrip),
       h := w.h.(faults := w.h.faults + 1, tookPaused := false, passedPaused := false))
  }

  /** The driver holds the measured posture again. The re-seed happens once per tick; when it
      fails the arm stays stopped. */
  function OnRecovered(w: World, measured: Option<Vec>): World {
    if !w.loop.reseeded && measured.None? then w
    else
      var seed := if w.loop.reseeded then w.loop.lastCmd else measured.value;
      w.(loop := w.loop.(lastCmd := seed, reseeded := true, faulted := false, recovering := true),
         sender := w.sender.(paused := false),
         h := w.h.(reseedTick := w.h.tick, reseedQ := seed, commanded := false))
  }

  function OnDispatch(w: World): World
    requires w.loop.phase.Dispatching?
  {
    var out := w.loop.phase.out;
    var loop := w.loop.(phase := AfterDispatch, lastCmd := out);
    if w.loop.faulted then w.(loop := loop)
    else
      w.(loop := loop,
         slots := w.slots.(joints := Some(Tagged(out, Now(w))), unread := true),
         h := w.h.(commanded := true))
  }

  function Now(w: World): Tag {
    Tag(w.h.faults, w.loop.faulted)
  }

  /** A gripper target into the slot, whoever puts it. */
  function Put(w: World, frac: real): World {
    w.(slots := w.slots.(grip := Some(Tagged(frac, Now(w)))),
       h := w.h.(gripPuts := w.h.gripPuts + 1, faultedPuts := w.h.faultedPuts + if w.loop.faulted then 1 else 0))
  }

  /** An accepted plan, its target for this arm deferred to the arrival or applied at once. */
  function OnExecutePlan(w: World, own: bool, moving: bool, interruptible: bool, target: Option<real>): World {
    var plan := if !moving then NoPlan else if own then OwnPlan(interruptible) else OtherPlan(interruptible);
    var begun := w.(loop := w.loop.(plan := plan, deferred := if moving && interruptible then target else None),
                    h := w.h.(namedFaulted := w.h.namedFaulted || (target.Some? && w.loop.faulted)));
    if target.Some? && !(moving && interruptible) then Put(begun, target.value) else begun
  }

  function OnPlanDone(w: World): World {
    var done := w.(loop := w.loop.(plan := NoPlan, deferred := None));
    if w.loop.deferred.Some? then Put(done, w.loop.deferred.value) else done
  }

  function Log(w: World, tag: Tag): History {
    w.h.(sent := w.h.sent + [Sent(tag, w.sender.paused, w.h.faults)])
  }

  function SenderStep(w: World, s: Step): World {
    match s
    case Take =>
      w.(sender := w.sender.(pc := Holding(if w.slots.unread then w.slots.joints else None)),
         slots := w.slots.(unread := false),
         h := w.h.(tookPaused := w.h.tookPaused || w.sender.paused))
    case Decide =>
      if !w.sender.pc.Holding? then w
      else if w.sender.paused then w.(sender := w.sender.(pc := Waiting), h := w.h.(passedPaused := w.h.tookPaused))
      else w.(sender := w.sender.(pc := Sending(w.sender.pc.got)))
    case SendJoints =>
      if !w.sender.pc.Sending? then w
      else
        w.(sender := w.sender.(pc := AtGripper),
           h := if w.sender.pc.got.Some? then Log(w, w.sender.pc.got.value.tag) else w.h)
    case ChooseGripper =>
      var grip := w.slots.grip;
      w.(sender := w.sender.(pc := if grip.Some? && Some(grip.value.value) != w.sender.lastGrip && !w.sender.paused
                                   then GripperChosen(grip.value) else Waiting))
    case RecordGripper =>
      if !w.sender.pc.GripperChosen? then w
      else w.(sender := w.sender.(pc := GripperSending(w.sender.pc.grip), lastGrip := Some(w.sender.pc.grip.value)))
    case SendGripper =>
      if !w.sender.pc.GripperSending? then w
      else w.(sender := w.sender.(pc := Waiting), h := Log(w, w.sender.pc.grip.tag))
    case _ => w
  }

  function ControlStep(c: LoopCaps, w: World, s: Step): World {
    match s
    case SampleInputs(live) => w.(loop := w.loop.(phase := Sampled(live)), h := w.h.(tick := w.h.tick + 1))
    case UpdateRecovering =>
      if !w.loop.phase.Sampled? then w
      else w.(loop := w.loop.(phase := Draining, reseeded := false, recovering := w.loop.recovering && w.loop.phase.live))
    case Fault => OnFault(w)
    case Recovered(measured) => OnRecovered(w, measured)
    case DrainDone => w.(loop := w.loop.(phase := Resolving))
    case Resolve(wanted) =>
      w.(loop := w.loop.(phase := Gating(Capped(c, if Stopped(w.loop) then w.loop.lastCmd else wanted, w.loop.lastCmd))))
    case Gate(answer) =>
      if !w.loop.phase.Gating? then w
      else w.(loop := w.loop.(phase := Dispatching(w.loop.phase.asked, answer(w.loop.phase.asked))))
    case Dispatch => if w.loop.phase.Dispatching? then OnDispatch(w) else w
    case PutGripper(frac) => Put(w, frac)
    case ExecutePlan(own, moving, interruptible, target) => OnExecutePlan(w, own, moving, interruptible, target)
    case PlanDone => OnPlanDone(w)
    case CancelPlans => w.(loop := w.loop.(plan := NoPlan, deferred := None))
    case EndTick => w.(loop := w.loop.(phase := BetweenTicks))
    case _ => w
  }

  predicate OfSender(s: Step) {
    s.Take? || s.Decide? || s.SendJoints? || s.ChooseGripper? || s.RecordGripper? || s.SendGripper?
  }

  function Next(c: LoopCaps, w: World, s: Step): World {
    if OfSender(s) then SenderStep(w, s) else ControlStep(c, w, s)
  }

  ghost function Start(q: Vec): World {
    World(Loop(BetweenTicks, q, false, false, false, NoPlan, None), Sender(Waiting, false, None), Slots(None, false, None),
          History(0, 0, [], 0, 0, false, 0, q, true, false, false))
  }

  /** The world after these steps, and whether each of them could be taken. */
  ghost function After(c: LoopCaps, w: World, steps: seq<Step>): World {
    if steps == [] then w else Next(c, After(c, w, steps[..|steps| - 1]), steps[|steps| - 1])
  }

  ghost predicate PossibleFrom(c: LoopCaps, w: World, steps: seq<Step>) {
    steps != [] ==>
      PossibleFrom(c, w, steps[..|steps| - 1]) && Enabled(After(c, w, steps[..|steps| - 1]), steps[|steps| - 1])
  }

  ghost function Run(c: LoopCaps, q: Vec, steps: seq<Step>): World {
    After(c, Start(q), steps)
  }

  ghost predicate Possible(c: LoopCaps, q: Vec, steps: seq<Step>) {
    PossibleFrom(c, Start(q), steps)
  }

  // -- stopping, re-seeding, recovering ---------------------------------------------------------

  ghost predicate Separate(w: World) {
    !(w.loop.faulted && w.loop.recovering) && (w.sender.paused <==> w.loop.faulted)
  }

  /** Until the first command after a recovery the arm holds the posture it was re-seeded with,
      within the tick that re-seeded it. */
  ghost predicate HoldsReseeded(c: LoopCaps, w: World) {
    !w.h.commanded && !w.loop.faulted ==>
      && w.loop.recovering && w.loop.lastCmd == w.h.reseedQ && w.h.reseedTick == w.h.tick
      && match w.loop.phase
         case Draining => true
         case Resolving => true
         case Gating(asked) => asked == Capped(c, w.h.reseedQ, w.h.reseedQ)
         case Dispatching(asked, _) => asked == Capped(c, w.h.reseedQ, w.h.reseedQ)
         case _ => false
  }

  ghost predicate RecoversLater(w: World) {
    w.loop.recovering ==>
      w.h.reseedTick <= w.h.tick && (w.loop.phase.Sampled? ==> w.h.reseedTick < w.h.tick)
  }

  /** A target is deferred by an interruptible plan only, and one for a faulted arm was named
      while the arm was faulted. */
  ghost predicate DefersRightly(w: World) {
    && (w.loop.deferred.Some? ==> MayBeInterrupted(w.loop.plan))
    && (w.loop.deferred.Some? && w.loop.faulted ==> w.h.namedFaulted)
  }

  ghost predicate Keeps(c: LoopCaps, w: World) {
    Separate(w) && HoldsReseeded(c, w) && RecoversLater(w) && DefersRightly(w)
  }

  lemma SenderKeeps(c: LoopCaps, w: World, s: Step)
    requires Keeps(c, w) && OfSender(s)
    ensures Keeps(c, SenderStep(w, s))
  {
  }

  lemma ControlKeeps(c: LoopCaps, w: World, s: Step)
    requires Keeps(c, w) && !OfSender(s) && Enabled(w, s)
    ensures Keeps(c, ControlStep(c, w, s))
  {
  }

  /** Over every interleaving of ticks, plans, driver events and sender steps: never faulted and
      recovering at once, the sender paused exactly while faulted, and the arm held at its
      re-seeded posture until its first command. */
  lemma {:induction false} RunKeeps(c: LoopCaps, q: Vec, steps: seq<Step>)
    requires Possible(c, q, steps)
    ensures Keeps(c, Run(c, q, steps))
  {
    if steps != [] {
      var front, s := steps[..|steps| - 1], steps[|steps| - 1];
      RunKeeps(c, q, front);
      if OfSender(s) {
        SenderKeeps(c, Run(c, q, front), s);
      } else {
        ControlKeeps(c, Run(c, q, front), s);
      }
    }
  }

  /** No step puts a posture for a faulted arm: slot and freshness stay as they are. */
  lemma NoPostureWhileFaulted(c: LoopCaps, w: World, s: Step)
    requires Enabled(w, s) && w.loop.faulted
    ensures Next(c, w, s).slots.joints == w.slots.joints && (Next(c, w, s).slots.unread ==> w.slots.unread)
  {
  }

  /** The first command after a recovery is the gate's answer to the capped hold of the posture
      the arm was re-seeded with. */
  lemma FirstCommandIsTheHold(c: LoopCaps, q: Vec, steps: seq<Step>, answer: Vec -> Vec)
    requires Possible(c, q, steps) && Enabled(Run(c, q, steps), Gate(answer))
    requires var w := Run(c, q, steps); !w.h.commanded && !w.loop.faulted
    ensures var w := Run(c, q, steps);
            var put := Next(c, Next(c, w, Gate(answer)), Dispatch);
            && put.slots.joints == Some(Tagged(answer(Capped(c, w.h.reseedQ, w.h.reseedQ)), Tag(w.h.faults, false)))
            && put.loop.recovering && put.h.commanded
  {
    RunKeeps(c, q, steps);
  }

  /** Holding a posture passes the cap, but for a carriage outside its travel, which is brought
      back into it. */
  lemma CappedHold(c: LoopCaps, q: Vec)
    requires ValidBound(c) && c.dqMax > 0.0 && Posture(q)
    ensures Capped(c, q, q)[..N_JOINTS] == q[..N_JOINTS]
    ensures |q| > N_JOINTS ==> Capped(c, q, q)[N_JOINTS] == Clamp(q[N_JOINTS], 0.0, RAIL_TRAVEL_M)
  {
    var f := CapKeepsDirection(c, q, q);
    if |q| > N_JOINTS {
      var x := q[N_JOINTS];
      assert Clamp(x, x - c.dqMax, x + c.dqMax) == x;
    }
    var out := CapJointStep(c, q, q).0;
    forall j | 0 <= j < N_JOINTS
      ensures out[j] == q[j]
    {
      assert JointStep(out, q)[j] == f * JointStep(q, q)[j];
    }
  }

  /** An arm leaves RECOVERING in a later tick than its re-seed, on inputs sampled after it that
      hold nothing live. */
  lemma RecoveringEndsOnLaterInputs(c: LoopCaps, q: Vec, steps: seq<Step>, s: Step)
    requires Possible(c, q, steps) && Enabled(Run(c, q, steps), s)
    requires Run(c, q, steps).loop.recovering && !Next(c, Run(c, q, steps), s).loop.recovering && !s.Fault?
    ensures var w := Run(c, q, steps);
            s.UpdateRecovering? && w.loop.phase == Sampled(false) && w.h.reseedTick < w.h.tick
  {
    RunKeeps(c, q, steps);
  }

  // -- gripper targets for a stopped arm --------------------------------------------------------

  /** The steps that put a target with no regard to faults: a plan that does not defer it, and
      the end of one that did. */
  ghost predicate AppliesTarget(w: World, s: Step) {
    || (s.ExecutePlan? && s.target.Some? && !(s.moving && s.interruptible))
    || (s.PlanDone? && w.loop.deferred.Some?)
  }

  /** Exactly when a step puts a gripper target for a stopped arm: when a plan's target falls
      due; and if the arm is faulted, a plan named it in its targets while it was. */
  lemma PutsForAStoppedArm(c: LoopCaps, q: Vec, steps: seq<Step>, s: Step)
    requires Possible(c, q, steps) && Enabled(Run(c, q, steps), s) && Stopped(Run(c, q, steps).loop)
    ensures var w := Run(c, q, steps);
            && (Next(c, w, s).h.gripPuts > w.h.gripPuts <==> AppliesTarget(w, s))
            && (AppliesTarget(w, s) && w.loop.faulted ==> Next(c, w, s).h.namedFaulted)
            && (!AppliesTarget(w, s) ==> Next(c, w, s).slots.grip == w.slots.grip)
  {
    RunKeeps(c, q, steps);
  }

  /** Step `n` puts a target for the faulted arm. */
  ghost predicate AppliesAt(c: LoopCaps, q: Vec, steps: seq<Step>, n: nat) {
    n < |steps| && Run(c, q, steps[..n]).loop.faulted && AppliesTarget(Run(c, q, steps[..n]), steps[n])
  }

  ghost predicate Applies(c: LoopCaps, q: Vec, steps: seq<Step>) {
    exists n: nat :: AppliesAt(c, q, steps, n)
  }

  lemma AppliesFront(c: LoopCaps, q: Vec, steps: seq<Step>)
    requires steps != []
    ensures Applies(c, q, steps) <==> Applies(c, q, steps[..|steps| - 1]) || AppliesAt(c, q, steps, |steps| - 1)
  {
    var front := steps[..|steps| - 1];
    forall n: nat | n < |front|
      ensures AppliesAt(c, q, front, n) <==> AppliesAt(c, q, steps, n)
    {
      assert front[..n] == steps[..n];
    }
  }

  ghost predicate CountsPut(w: World, next: World, s: Step) {
    && next.h.faultedPuts == w.h.faultedPuts + (if w.loop.faulted && AppliesTarget(w, s) then 1 else 0)
    && (w.h.namedFaulted ==> next.h.namedFaulted)
  }

  lemma SenderCountsNothing(w: World, s: Step)
    requires OfSender(s)
    ensures CountsPut(w, SenderStep(w, s), s)
  {
  }

  lemma ControlCountsPuts(c: LoopCaps, w: World, s: Step)
    requires !OfSender(s) && Enabled(w, s)
    ensures CountsPut(w, ControlStep(c, w, s), s)
  {
  }

  /** Over every run: a target was put for the faulted arm exactly if a plan's target fell due
      while it was faulted, and never unless a plan named the arm while it was. So nothing is
      put as long as the manager names no faulted arm in a plan's targets. */
  lemma {:induction false} FaultedPutsExactly(c: LoopCaps, q: Vec, steps: seq<Step>)
    requires Possible(c, q, steps)
    ensures Run(c, q, steps).h.faultedPuts > 0 <==> Applies(c, q, steps)
    ensures Run(c, q, steps).h.faultedPuts > 0 ==> Run(c, q, steps).h.namedFaulted
  {
    if steps != [] {
      var front, s := steps[..|steps| - 1], steps[|steps| - 1];
      FaultedPutsExactly(c, q, front);
      if OfSender(s) {
        SenderCountsNothing(Run(c, q, front), s);
      } else {
        ControlCountsPuts(c, Run(c, q, front), s);
      }
      AppliesFront(c, q, steps);
      if Run(c, q, front).loop.faulted {
        PutsForAStoppedArm(c, q, front, s);
      }
    }
  }

  // -- what can still be sent -------------------------------------------------------------------

  type Marked = Tag -> bool

  /** Put before the newest of `faults` faults. */
  ghost function Old(faults: nat): Marked {
    (t: Tag) => t.faults != faults
  }

  /** Put while a fault stopped the arm. */
  ghost function Queued(): Marked {
    (t: Tag) => t.whileFaulted
  }

  ghost predicate Calm(steps: seq<Step>) {
    forall i :: 0 <= i < |steps| ==> !steps[i].Fault?
  }

  ghost predicate SendsNew(w: World, end: World, marked: Marked) {
    exists i :: |w.h.sent| <= i < |end.h.sent| && !end.h.sent[i].stopped && marked(end.h.sent[i].tag)
  }

  /** Without another fault, may a marked value still be sent to the running arm? */
  ghost predicate CanStillSend(c: LoopCaps, w: World, marked: Marked) {
    exists steps :: PossibleFrom(c, w, steps) && Calm(steps) && SendsNew(w, After(c, w, steps), marked)
  }

  ghost predicate MarkedIn<T>(x: Option<Tagged<T>>, marked: Marked) {
    x.Some? && marked(x.value.tag)
  }

  /** What the sender has in hand. */
  ghost predicate InHand(pc: SenderPc, marked: Marked) {
    match pc
    case Holding(got) => MarkedIn(got, marked)
    case Sending(got) => MarkedIn(got, marked)
    case GripperChosen(grip) => marked(grip.tag)
    case GripperSending(grip) => marked(grip.tag)
    case _ => false
  }

  /** The gripper value the sender's next test compares with. */
  ghost function Noted(s: Sender): Option<real> {
    if s.pc.GripperChosen? then Some(s.pc.grip.value) else s.lastGrip
  }

  ghost predicate Undropped(w: World, marked: Marked) {
    MarkedIn(w.slots.grip, marked) && Some(w.slots.grip.value.value) != Noted(w.sender)
  }

  /** An unread posture, something in the sender's hand, or a gripper target it has not noted. */
  ghost predicate Pending(w: World, marked: Marked) {
    (w.slots.unread && MarkedIn(w.slots.joints, marked)) || InHand(w.sender.pc, marked) || Undropped(w, marked)
  }

  /** Whatever is put before the next fault is not marked. */
  ghost predicate NewUnmarked(w: World, marked: Marked) {
    !marked(Tag(w.h.faults, false)) && (w.loop.faulted ==> !marked(Tag(w.h.faults, true)))
  }

  /** Slots, gripper note and sender as they were. */
  ghost predicate SenderUntouched(w: World, end: World) {
    end.sender.pc == w.sender.pc && end.sender.lastGrip == w.sender.lastGrip && end.slots == w.slots && end.h.sent == w.h.sent
  }

  /** The steps of the control thread that put something. */
  predicate MayPut(s: Step) {
    s.Dispatch? || s.PutGripper? || s.ExecutePlan? || s.PlanDone?
  }

  lemma PutsLeaveUnmarked(c: LoopCaps, w: World, s: Step, marked: Marked)
    requires !Pending(w, marked) && NewUnmarked(w, marked) && MayPut(s)
    ensures !Pending(ControlStep(c, w, s), marked) && NewUnmarked(ControlStep(c, w, s), marked)
    ensures ControlStep(c, w, s).h.sent == w.h.sent
  {
    var next := ControlStep(c, w, s);
    if s.Dispatch? {
      OnlyPostureNew(w, next, marked);
    } else {
      OnlyTargetNew(w, next, marked);
    }
  }

  lemma OnlyPostureNew(w: World, next: World, marked: Marked)
    requires !Pending(w, marked) && NewUnmarked(w, marked)
    requires next.sender == w.sender && next.slots.grip == w.slots.grip && next.h.faults == w.h.faults
    requires next.loop.faulted == w.loop.faulted
    requires next.slots == w.slots || (next.slots.joints.Some? && next.slots.joints.value.tag == Now(w))
    ensures !Pending(next, marked) && NewUnmarked(next, marked)
  {
  }

  lemma OnlyTargetNew(w: World, next: World, marked: Marked)
    requires !Pending(w, marked) && NewUnmarked(w, marked)
    requires next.sender == w.sender && next.slots.joints == w.slots.joints && next.slots.unread == w.slots.unread
    requires next.h.faults == w.h.faults && next.loop.faulted == w.loop.faulted
    requires next.slots.grip == w.slots.grip || (next.slots.grip.Some? && next.slots.grip.value.tag == Now(w))
    ensures !Pending(next, marked) && NewUnmarked(next, marked)
  {
  }

  lemma OthersPutNothing(c: LoopCaps, w: World, s: Step)
    requires !MayPut(s) && !OfSender(s) && !s.Fault?
    ensures SenderUntouched(w, ControlStep(c, w, s)) && ControlStep(c, w, s).h.faults == w.h.faults
    ensures ControlStep(c, w, s).loop.faulted ==> w.loop.faulted
  {
  }

  lemma ControlLeavesUnmarked(c: LoopCaps, w: World, s: Step, marked: Marked)
    requires !Pending(w, marked) && NewUnmarked(w, marked) && !OfSender(s) && !s.Fault?
    ensures !Pending(ControlStep(c, w, s), marked) && NewUnmarked(ControlStep(c, w, s), marked)
    ensures ControlStep(c, w, s).h.sent == w.h.sent
  {
    if MayPut(s) {
      PutsLeaveUnmarked(c, w, s, marked);
    } else {
      OthersPutNothing(c, w, s);
    }
  }

  lemma SenderLeavesUnmarked(c: LoopCaps, w: World, s: Step, marked: Marked)
    requires !Pending(w, marked) && NewUnmarked(w, marked) && OfSender(s) && Enabled(w, s)
    ensures !Pending(SenderStep(w, s), marked) && NewUnmarked(SenderStep(w, s), marked)
    ensures !SendsNew(w, SenderStep(w, s), marked) && |SenderStep(w, s).h.sent| >= |w.h.sent|
    ensures SenderStep(w, s).h.sent[..|w.h.sent|] == w.h.sent
  {
  }

  lemma {:induction false} NothingPendingNothingSent(c: LoopCaps, w: World, steps: seq<Step>, marked: Marked)
    requires !Pending(w, marked) && NewUnmarked(w, marked) && PossibleFrom(c, w, steps) && Calm(steps)
    ensures var end := After(c, w, steps);
            !Pending(end, marked) && NewUnmarked(end, marked) && !SendsNew(w, end, marked) && |end.h.sent| >= |w.h.sent|
  {
    if steps != [] {
      var front, s := steps[..|steps| - 1], steps[|steps| - 1];
      assert Calm(front);
      NothingPendingNothingSent(c, w, front, marked);
      var mid := After(c, w, front);
      if OfSender(s) {
        SenderLeavesUnmarked(c, mid, s, marked);
        JoinedSends(w, mid, SenderStep(mid, s), marked);
      } else {
        ControlLeavesUnmarked(c, mid, s, marked);
      }
    }
  }

  lemma JoinedSends(w: World, mid: World, end: World, marked: Marked)
    requires |w.h.sent| <= |mid.h.sent| <= |end.h.sent| && end.h.sent[..|mid.h.sent|] == mid.h.sent
    ensures SendsNew(w, end, marked) <==> SendsNew(w, mid, marked) || SendsNew(mid, end, marked)
  {
    assert forall i :: 0 <= i < |mid.h.sent| ==> end.h.sent[i] == mid.h.sent[i];
    if SendsNew(w, mid, marked) {
      var i :| |w.h.sent| <= i < |mid.h.sent| && !mid.h.sent[i].stopped && marked(mid.h.sent[i].tag);
      assert !end.h.sent[i].stopped && marked(end.h.sent[i].tag);
    }
  }

  // -- and is sent when nothing comes between ---------------------------------------------------

  /** `steps` lead from `w` to `end`. */
  ghost predicate Trail(c: LoopCaps, w: World, steps: seq<Step>, end: World) {
    PossibleFrom(c, w, steps) && After(c, w, steps) == end
  }

  lemma Go(c: LoopCaps, w: World, steps: seq<Step>, mid: World, s: Step)
    requires Trail(c, w, steps, mid) && Enabled(mid, s)
    ensures Trail(c, w, steps + [s], Next(c, mid, s))
    ensures Calm(steps) && !s.Fault? ==> Calm(steps + [s])
  {
    assert (steps + [s])[..|steps|] == steps;
  }

  function ToDrain(p: Phase): nat {
    match p
    case Draining => 0
    case Sampled(_) => 1
    case BetweenTicks => 2
    case AfterDispatch => 3
    case Dispatching(_, _) => 4
    case Gating(_) => 5
    case Resolving => 6
  }

  /** The next step of the control thread of a faulted arm on its way to the driver events. */
  ghost function Onward(w: World): Step {
    match w.loop.phase
    case Draining => Recovered(Some(w.loop.lastCmd))
    case Sampled(_) => UpdateRecovering
    case BetweenTicks => SampleInputs(false)
    case AfterDispatch => EndTick
    case Dispatching(_, _) => Dispatch
    case Gating(_) => Gate((v: Vec) => v)
    case Resolving => Resolve(w.loop.lastCmd)
  }

  lemma OnwardIsHarmless(c: LoopCaps, w: World)
    requires Separate(w) && w.loop.faulted
    ensures Enabled(w, Onward(w)) && !OfSender(Onward(w)) && !Onward(w).Fault?
    ensures var next := Next(c, w, Onward(w));
            && SenderUntouched(w, next) && Separate(next)
            && if w.loop.phase.Draining? then !next.loop.faulted else next.loop.faulted && ToDrain(next.loop.phase) < ToDrain(w.loop.phase)
  {
  }

  /** A faulted arm may recover before the sender takes another step. */
  lemma {:induction false} MayRecover(c: LoopCaps, w: World, steps: seq<Step>, mid: World) returns (more: seq<Step>, end: World)
    requires Trail(c, w, steps, mid) && Calm(steps) && Separate(mid)
    ensures Trail(c, w, more, end) && Calm(more) && Separate(end) && !end.loop.faulted && SenderUntouched(mid, end)
    decreases mid.loop.faulted, ToDrain(mid.loop.phase)
  {
    if !mid.loop.faulted {
      more, end := steps, mid;
    } else {
      OnwardIsHarmless(c, mid);
      Go(c, w, steps, mid, Onward(mid));
      more, end := MayRecover(c, w, steps + [Onward(mid)], Next(c, mid, Onward(mid)));
    }
  }

  /** The sender's only next step. */
  ghost function SendersTurn(pc: SenderPc): Step {
    match pc
    case Waiting => Take
    case Holding(_) => Decide
    case Sending(_) => SendJoints
    case AtGripper => ChooseGripper
    case GripperChosen(_) => RecordGripper
    case GripperSending(_) => SendGripper
  }

  /** Steps of an undisturbed sender until what is pending is sent, at most. */
  ghost function Distance(w: World, marked: Marked): nat {
    var unread, grip := w.slots.unread && MarkedIn(w.slots.joints, marked), Undropped(w, marked);
    match w.sender.pc
    case GripperSending(g) => if marked(g.tag) then 1 else if unread then 4 else 7
    case GripperChosen(g) => if marked(g.tag) then 2 else if unread then 5 else 8
    case AtGripper => if grip then 3 else 6
    case Sending(got) => if MarkedIn(got, marked) then 1 else if grip then 4 else 7
    case Holding(got) => if MarkedIn(got, marked) then 2 else if grip then 5 else 8
    case Waiting => if unread then 3 else 6
  }

  ghost predicate GoesOn(w: World, next: World, marked: Marked) {
    && Separate(next) && !next.loop.faulted && |w.h.sent| <= |next.h.sent| && next.h.sent[..|w.h.sent|] == w.h.sent
    && (SendsNew(w, next, marked) || (Pending(next, marked) && Distance(next, marked) < Distance(w, marked)))
  }

  /** A step in which something is handed to the driver. */
  lemma HandingOver(c: LoopCaps, w: World, marked: Marked)
    requires Separate(w) && !w.loop.faulted && Pending(w, marked) && (w.sender.pc.Sending? || w.sender.pc.GripperSending?)
    ensures GoesOn(w, SenderStep(w, SendersTurn(w.sender.pc)), marked)
  {
    var next := SenderStep(w, SendersTurn(w.sender.pc));
    if InHand(w.sender.pc, marked) {
      assert next.h.sent[|w.h.sent|].tag == if w.sender.pc.Sending? then w.sender.pc.got.value.tag else w.sender.pc.grip.tag;
      assert SendsNew(w, next, marked);
    }
  }

  lemma TakingUp(c: LoopCaps, w: World, marked: Marked)
    requires Separate(w) && !w.loop.faulted && Pending(w, marked) && (w.sender.pc.Waiting? || w.sender.pc.Holding?)
    ensures GoesOn(w, SenderStep(w, SendersTurn(w.sender.pc)), marked)
  {
  }

  lemma Choosing(c: LoopCaps, w: World, marked: Marked)
    requires Separate(w) && !w.loop.faulted && Pending(w, marked) && (w.sender.pc.AtGripper? || w.sender.pc.GripperChosen?)
    ensures GoesOn(w, SenderStep(w, SendersTurn(w.sender.pc)), marked)
  {
  }

  lemma TurnGoesOn(c: LoopCaps, w: World, marked: Marked)
    requires Separate(w) && !w.loop.faulted && Pending(w, marked)
    ensures Enabled(w, SendersTurn(w.sender.pc)) && GoesOn(w, Next(c, w, SendersTurn(w.sender.pc)), marked)
  {
    match w.sender.pc
    case Waiting => TakingUp(c, w, marked);
    case Holding(_) => TakingUp(c, w, marked);
    case Sending(_) => HandingOver(c, w, marked);
    case GripperSending(_) => HandingOver(c, w, marked);
    case AtGripper => Choosing(c, w, marked);
    case GripperChosen(_) => Choosing(c, w, marked);
  }

  lemma {:induction false} PendingIsSent(c: LoopCaps, w: World, steps: seq<Step>, mid: World, marked: Marked)
      returns (more: seq<Step>, end: World)
    requires Trail(c, w, steps, mid) && Calm(steps) && Separate(mid) && !mid.loop.faulted && Pending(mid, marked)
    ensures Trail(c, w, more, end) && Calm(more) && SendsNew(mid, end, marked)
    ensures |mid.h.sent| <= |end.h.sent| && end.h.sent[..|mid.h.sent|] == mid.h.sent
    decreases Distance(mid, marked)
  {
    var s := SendersTurn(mid.sender.pc);
    var next := Next(c, mid, s);
    TurnGoesOn(c, mid, marked);
    Go(c, w, steps, mid, s);
    if SendsNew(mid, next, marked) {
      more, end := steps + [s], next;
    } else {
      more, end := PendingIsSent(c, w, steps + [s], next, marked);
      assert end.h.sent[..|mid.h.sent|] == end.h.sent[..|next.h.sent|][..|mid.h.sent|];
      JoinedSends(mid, next, end, marked);
    }
  }

  /** Exactly when a marked value can still reach the driver of the running arm before another
      fault: when it is unread in the command slot, in the sender's hand, or in the gripper slot
      without the sender's note. */
  lemma SendableIsPending(c: LoopCaps, w: World, marked: Marked)
    requires Separate(w) && NewUnmarked(w, marked)
    ensures CanStillSend(c, w, marked) <==> Pending(w, marked)
  {
    if Pending(w, marked) {
      assert Trail(c, w, [], w);
      var steps, mid := MayRecover(c, w, [], w);
      var more, end := PendingIsSent(c, w, steps, mid, marked);
      assert SendsNew(w, end, marked);
    }
    if CanStillSend(c, w, marked) && !Pending(w, marked) {
      var steps :| PossibleFrom(c, w, steps) && Calm(steps) && SendsNew(w, After(c, w, steps), marked);
      NothingPendingNothingSent(c, w, steps, marked);
    }
  }

  // -- nothing from before the fault ------------------------------------------------------------

  ghost predicate PutBefore<T>(x: Option<Tagged<T>>, faults: nat) {
    x.Some? ==> x.value.tag.faults <= faults
  }

  /** No tag is from the future. */
  ghost predicate TagsAreKnown(w: World) {
    && PutBefore(w.slots.joints, w.h.faults) && PutBefore(w.slots.grip, w.h.faults)
    && match w.sender.pc
       case Holding(got) => PutBefore(got, w.h.faults)
       case Sending(got) => PutBefore(got, w.h.faults)
       case GripperChosen(grip) => grip.tag.faults <= w.h.faults
       case GripperSending(grip) => grip.tag.faults <= w.h.faults
       case _ => true
  }

  lemma TagsStayKnown(c: LoopCaps, w: World, s: Step)
    requires TagsAreKnown(w)
    ensures TagsAreKnown(Next(c, w, s))
  {
  }

  lemma {:induction false} RunKnowsTags(c: LoopCaps, q: Vec, steps: seq<Step>)
    ensures TagsAreKnown(Run(c, q, steps))
  {
    if steps != [] {
      RunKnowsTags(c, q, steps[..|steps| - 1]);
      TagsStayKnown(c, Run(c, q, steps[..|steps| - 1]), steps[|steps| - 1]);
    }
  }

  ghost predicate EmptyHanded(pc: SenderPc) {
    match pc
    case Holding(got) => got.None?
    case Sending(got) => got.None?
    case GripperChosen(_) => false
    case GripperSending(_) => false
    case _ => true
  }

  /** At a fault: something put before it can still be sent after the recovery exactly if a
      posture is unread or the sender has something in hand; what rests in the gripper slot is
      dropped. */
  lemma WhatAFaultLeaves(c: LoopCaps, q: Vec, steps: seq<Step>)
    requires Possible(c, q, steps) && Enabled(Run(c, q, steps), Fault)
    ensures var w := Run(c, q, steps);
            CanStillSend(c, Next(c, w, Fault), Old(w.h.faults + 1))
            <==> (w.slots.unread && w.slots.joints.Some?) || !EmptyHanded(w.sender.pc)
  {
    var w := Run(c, q, steps);
    RunKeeps(c, q, steps);
    RunKnowsTags(c, q, steps);
    SendableIsPending(c, Next(c, w, Fault), Old(w.h.faults + 1));
  }

  /** At a recovery: something put before the fault can still be sent exactly if it is pending
      then. */
  lemma WhatARecoveryLeaves(c: LoopCaps, q: Vec, steps: seq<Step>, measured: Option<Vec>)
    requires Possible(c, q, steps) && Enabled(Run(c, q, steps), Recovered(measured))
    ensures var w := Run(c, q, steps);
            CanStillSend(c, Next(c, w, Recovered(measured)), Old(w.h.faults)) <==> Pending(w, Old(w.h.faults))
  {
    var w := Run(c, q, steps);
    RunKeeps(c, q, steps);
    SendableIsPending(c, Next(c, w, Recovered(measured)), Old(w.h.faults));
  }

  /** A gripper target put while a fault stopped the arm can be sent once it runs again exactly
      if it is still the one in the slot and not noted, or already in the sender's hand. */
  lemma WhatWasQueued(c: LoopCaps, q: Vec, steps: seq<Step>)
    requires Possible(c, q, steps) && !Run(c, q, steps).loop.faulted
    ensures CanStillSend(c, Run(c, q, steps), Queued()) <==> Pending(Run(c, q, steps), Queued())
  {
    RunKeeps(c, q, steps);
    SendableIsPending(c, Run(c, q, steps), Queued());
  }

  /** Every recovery finds nothing pending of before the fault. */
  ghost predicate CleanAt(w: World, s: Step) {
    s.Recovered? && w.loop.faulted ==> !Pending(w, Old(w.h.faults))
  }

  ghost predicate Clean(c: LoopCaps, q: Vec, steps: seq<Step>) {
    steps != [] ==>
      Clean(c, q, steps[..|steps| - 1]) && CleanAt(Run(c, q, steps[..|steps| - 1]), steps[|steps| - 1])
  }

  ghost predicate SentIsCurrent(w: World) {
    forall i :: 0 <= i < |w.h.sent| ==> !w.h.sent[i].stopped ==> w.h.sent[i].tag.faults == w.h.sent[i].faults
  }

  ghost predicate NothingOld(w: World) {
    !w.loop.faulted ==> !Pending(w, Old(w.h.faults))
  }

  lemma ControlIsCurrent(c: LoopCaps, w: World, s: Step)
    requires NothingOld(w) && SentIsCurrent(w) && !OfSender(s) && CleanAt(w, s)
    ensures NothingOld(ControlStep(c, w, s)) && SentIsCurrent(ControlStep(c, w, s))
  {
    if !s.Fault? && !w.loop.faulted {
      ControlLeavesUnmarked(c, w, s, Old(w.h.faults));
    }
  }

  lemma SenderIsCurrent(c: LoopCaps, w: World, s: Step)
    requires Separate(w) && NothingOld(w) && SentIsCurrent(w) && OfSender(s) && Enabled(w, s)
    ensures NothingOld(SenderStep(w, s)) && SentIsCurrent(SenderStep(w, s))
  {
    if !w.loop.faulted {
      SenderLeavesUnmarked(c, w, s, Old(w.h.faults));
    }
  }

  /** Over every interleaving whose recoveries find nothing pending, nothing put before a fault
      reaches the driver after the recovery, neither a posture nor a gripper value. */
  lemma {:induction false} NothingOldIsSent(c: LoopCaps, q: Vec, steps: seq<Step>)
    requires Possible(c, q, steps) && Clean(c, q, steps)
    ensures NothingOld(Run(c, q, steps)) && SentIsCurrent(Run(c, q, steps))
  {
    if steps != [] {
      var front, s := steps[..|steps| - 1], steps[|steps| - 1];
      RunKeeps(c, q, front);
      NothingOldIsSent(c, q, front);
      if OfSender(s) {
        SenderIsCurrent(c, Run(c, q, front), s);
      } else {
        ControlIsCurrent(c, Run(c, q, front), s);
      }
    }
  }

  /** The paused sender passed its loop before every recovery, and no fault fell between its
      choice of a gripper value and its note of it. */
  ghost predicate TimelyAt(w: World, s: Step) {
    (s.Recovered? && w.loop.faulted ==> w.h.passedPaused) && (s.Fault? ==> !w.sender.pc.GripperChosen?)
  }

  ghost predicate Timely(c: LoopCaps, q: Vec, steps: seq<Step>) {
    steps != [] ==>
      Timely(c, q, steps[..|steps| - 1]) && TimelyAt(Run(c, q, steps[..|steps| - 1]), steps[|steps| - 1])
  }

  ghost predicate EmptiedOut(w: World) {
    && (w.loop.faulted && w.h.tookPaused ==> !w.slots.unread)
    && (w.loop.faulted && w.h.passedPaused ==> w.h.tookPaused && EmptyHanded(w.sender.pc))
    && !Undropped(w, Old(w.h.faults))
  }

  lemma ControlKeepsEmptied(c: LoopCaps, w: World, s: Step)
    requires EmptiedOut(w) && TimelyAt(w, s) && !OfSender(s)
    ensures EmptiedOut(ControlStep(c, w, s))
  {
  }

  lemma SenderKeepsEmptied(w: World, s: Step)
    requires EmptiedOut(w) && Separate(w) && OfSender(s) && Enabled(w, s)
    ensures EmptiedOut(SenderStep(w, s))
  {
  }

  /** One pass of the paused sender is enough for a clean recovery, unless the fault split its
      gripper step. */
  lemma {:induction false} TimelyIsClean(c: LoopCaps, q: Vec, steps: seq<Step>)
    requires Possible(c, q, steps) && Timely(c, q, steps)
    ensures EmptiedOut(Run(c, q, steps)) && Clean(c, q, steps)
  {
    if steps != [] {
      var front, s := steps[..|steps| - 1], steps[|steps| - 1];
      RunKeeps(c, q, front);
      TimelyIsClean(c, q, front);
      if OfSender(s) {
        SenderKeepsEmptied(Run(c, q, front), s);
      } else {
        ControlKeepsEmptied(c, Run(c, q, front), s);
      }
    }
  }

  // -- why the recovery must be clean -----------------------------------------------------------

  lemma GoOn(c: LoopCaps, w: World, steps: seq<Step>, mid: World, s: Step) returns (more: seq<Step>, next: World)
    requires Trail(c, w, steps, mid) && Enabled(mid, s)
    ensures Trail(c, w, more, next) && next == Next(c, mid, s)
  {
    Go(c, w, steps, mid, s);
    more, next := steps + [s], Next(c, mid, s);
  }

  /** The control thread alone, from one tick's gripper step to the driver events of the next. */
  lemma NextDrain(c: LoopCaps, q: Vec, steps0: seq<Step>, w0: World) returns (steps: seq<Step>, w: World)
    requires Trail(c, Start(q), steps0, w0) && w0.loop.phase.AfterDispatch? && !Stopped(w0.loop)
    ensures Trail(c, Start(q), steps, w) && w.loop.phase.Draining? && !Stopped(w.loop) && w.loop.plan == w0.loop.plan
    ensures w.sender == w0.sender && w.slots == w0.slots && w.h == w0.h.(tick := w.h.tick)
  {
    steps, w := GoOn(c, Start(q), steps0, w0, EndTick);
    steps, w := GoOn(c, Start(q), steps, w, SampleInputs(false));
    steps, w := GoOn(c, Start(q), steps, w, UpdateRecovering);
  }

  /** The first tick of a run: a posture is put, the sender has not taken it yet. */
  lemma FirstTick(c: LoopCaps, q: Vec) returns (steps: seq<Step>, w: World)
    ensures Trail(c, Start(q), steps, w) && w.loop.phase.AfterDispatch? && !Stopped(w.loop) && w.loop.plan.NoPlan?
    ensures w.slots.unread && w.slots.joints.Some? && w.slots.joints.value.tag == Tag(0, false) && w.slots.grip.None?
    ensures w.sender == Sender(Waiting, false, None) && w.h.sent == [] && w.h.faults == 0 && w.h.faultedPuts == 0
  {
    steps, w := GoOn(c, Start(q), [], Start(q), SampleInputs(false));
    steps, w := GoOn(c, Start(q), steps, w, UpdateRecovering);
    steps, w := GoOn(c, Start(q), steps, w, DrainDone);
    steps, w := GoOn(c, Start(q), steps, w, Resolve(q));
    steps, w := GoOn(c, Start(q), steps, w, Gate((v: Vec) => v));
    steps, w := GoOn(c, Start(q), steps, w, Dispatch);
  }

  /** Fault and recovery drained in one go leave a posture of before the fault in the slot, and
      a sender quicker than the tick's dispatch hands it to the driver. */
  lemma RecoveryInOneDrain(c: LoopCaps, q: Vec) returns (steps: seq<Step>)
    ensures Possible(c, q, steps) && Run(c, q, steps).h.sent == [Sent(Tag(0, false), false, 1)]
  {
    var w;
    steps, w := FirstTick(c, q);
    steps, w := NextDrain(c, q, steps, w);
    steps, w := GoOn(c, Start(q), steps, w, Fault);
    steps, w := GoOn(c, Start(q), steps, w, Recovered(Some(q)));
    steps, w := GoOn(c, Start(q), steps, w, Take);
    steps, w := GoOn(c, Start(q), steps, w, Decide);
    steps, w := GoOn(c, Start(q), steps, w, SendJoints);
  }

  /** The sender has chosen one gripper value when the control thread puts another. */
  lemma ChosenBeforeTheNext(c: LoopCaps, q: Vec, one: real, two: real) returns (steps: seq<Step>, w: World)
    ensures Trail(c, Start(q), steps, w) && w.loop.phase.AfterDispatch? && !Stopped(w.loop)
    ensures w.sender == Sender(GripperChosen(Tagged(one, Tag(0, false))), false, None) && w.h.faults == 0 && |w.h.sent| == 1
    ensures !w.slots.unread && w.slots.grip == Some(Tagged(two, Tag(0, false)))
  {
    steps, w := FirstTick(c, q);
    steps, w := GoOn(c, Start(q), steps, w, PutGripper(one));
    steps, w := GoOn(c, Start(q), steps, w, Take);
    steps, w := GoOn(c, Start(q), steps, w, Decide);
    steps, w := GoOn(c, Start(q), steps, w, SendJoints);
    steps, w := GoOn(c, Start(q), steps, w, ChooseGripper);
    steps, w := GoOn(c, Start(q), steps, w, PutGripper(two));
  }

  /** The sender of a stopped arm passes its loop, and the arm recovers in the same tick. */
  lemma PassThenRecover(c: LoopCaps, q: Vec, steps0: seq<Step>, w0: World) returns (steps: seq<Step>, w: World)
    requires Trail(c, Start(q), steps0, w0) && w0.loop.phase.Draining? && w0.loop.faulted && w0.sender.paused && w0.sender.pc.Waiting?
    ensures Trail(c, Start(q), steps, w) && !w.loop.faulted && !w.sender.paused && w.h.passedPaused && !w.slots.unread
    ensures w.sender == w0.sender.(paused := false) && w.slots.grip == w0.slots.grip && w.h.sent == w0.h.sent && w.h.faults == w0.h.faults
    ensures w.h.faultedPuts == w0.h.faultedPuts
  {
    steps, w := GoOn(c, Start(q), steps0, w0, Take);
    steps, w := GoOn(c, Start(q), steps, w, Decide);
    steps, w := GoOn(c, Start(q), steps, w, Recovered(Some(q)));
  }

  /** The running sender's next pass sends the gripper target in its slot. */
  lemma SendTheTarget(c: LoopCaps, q: Vec, steps0: seq<Step>, w0: World) returns (steps: seq<Step>, w: World)
    requires Trail(c, Start(q), steps0, w0) && w0.sender.pc.Waiting? && !w0.sender.paused && !w0.slots.unread
    requires w0.slots.grip.Some? && Some(w0.slots.grip.value.value) != w0.sender.lastGrip
    ensures Trail(c, Start(q), steps, w) && w.h.sent == w0.h.sent + [Sent(w0.slots.grip.value.tag, false, w0.h.faults)]
    ensures w.h.passedPaused == w0.h.passedPaused && w.h.faultedPuts == w0.h.faultedPuts
  {
    steps, w := IdlePass(c, q, steps0, w0);
    steps, w := GoOn(c, Start(q), steps, w, ChooseGripper);
    steps, w := GoOn(c, Start(q), steps, w, RecordGripper);
    steps, w := GoOn(c, Start(q), steps, w, SendGripper);
  }

  /** With nothing unread the running sender gets to its gripper step. */
  lemma IdlePass(c: LoopCaps, q: Vec, steps0: seq<Step>, w0: World) returns (steps: seq<Step>, w: World)
    requires Trail(c, Start(q), steps0, w0) && w0.sender.pc.Waiting? && !w0.sender.paused && !w0.slots.unread
    ensures Trail(c, Start(q), steps, w) && w.sender == w0.sender.(pc := AtGripper) && w.slots == w0.slots && w.h == w0.h
  {
    steps, w := GoOn(c, Start(q), steps0, w0, Take);
    steps, w := GoOn(c, Start(q), steps, w, Decide);
    steps, w := GoOn(c, Start(q), steps, w, SendJoints);
  }

  lemma SplitByTheFault(c: LoopCaps, q: Vec, one: real, two: real) returns (steps: seq<Step>, w: World)
    ensures Trail(c, Start(q), steps, w) && w.loop.phase.Draining? && w.loop.faulted
    ensures w.sender == Sender(Waiting, true, Some(one)) && w.h.faults == 1 && |w.h.sent| == 2
    ensures !w.slots.unread && w.slots.grip == Some(Tagged(two, Tag(0, false)))
  {
    steps, w := ChosenBeforeTheNext(c, q, one, two);
    steps, w := NextDrain(c, q, steps, w);
    steps, w := GoOn(c, Start(q), steps, w, Fault);
    steps, w := GoOn(c, Start(q), steps, w, RecordGripper);
    steps, w := GoOn(c, Start(q), steps, w, SendGripper);
  }

  /** A fault between the sender's choice of a gripper value and its note of it undoes the
      dropping of a newer one, and that one is sent after the recovery, although the paused
      sender passed its loop. */
  lemma FaultBetweenChoiceAndNote(c: LoopCaps, q: Vec, one: real, two: real) returns (steps: seq<Step>)
    requires one != two
    ensures Possible(c, q, steps)
    ensures var w := Run(c, q, steps);
            w.h.passedPaused && |w.h.sent| == 3 && w.h.sent[2] == Sent(Tag(0, false), false, 1)
  {
    var w;
    steps, w := SplitByTheFault(c, q, one, two);
    steps, w := PassThenRecover(c, q, steps, w);
    steps, w := SendTheTarget(c, q, steps, w);
  }

  lemma FaultInTheSecondTick(c: LoopCaps, q: Vec) returns (steps: seq<Step>, w: World)
    ensures Trail(c, Start(q), steps, w) && w.loop.phase.Draining? && w.loop.faulted && w.loop.plan.NoPlan?
    ensures w.sender == Sender(Waiting, true, None) && w.h.faults == 1 && w.h.sent == [] && w.h.faultedPuts == 0
  {
    steps, w := FirstTick(c, q);
    steps, w := NextDrain(c, q, steps, w);
    steps, w := GoOn(c, Start(q), steps, w, Fault);
  }

  /** A plan of another arm that names the faulted arm in its gripper targets has the target
      waiting for the arm, and it is sent as soon as the arm runs again. */
  lemma QueuedTargetIsSent(c: LoopCaps, q: Vec, frac: real) returns (steps: seq<Step>)
    ensures Possible(c, q, steps) && Applies(c, q, steps)
    ensures var w := Run(c, q, steps);
            w.h.faultedPuts == 1 && |w.h.sent| == 1 && w.h.sent[0] == Sent(Tag(1, true), false, 1)
  {
    var w;
    steps, w := FaultInTheSecondTick(c, q);
    steps, w := TargetWhileFaulted(c, q, steps, w, frac);
    steps, w := PassThenRecover(c, q, steps, w);
    steps, w := SendTheTarget(c, q, steps, w);
    FaultedPutsExactly(c, q, steps);
  }

  /** The faulted arm holds through the tick, and at the start of the next a plan names it. */
  lemma TargetWhileFaulted(c: LoopCaps, q: Vec, steps0: seq<Step>, w0: World, frac: real) returns (steps: seq<Step>, w: World)
    requires Trail(c, Start(q), steps0, w0) && w0.loop.phase.Draining? && w0.loop.faulted && w0.loop.plan.NoPlan?
    ensures Trail(c, Start(q), steps, w) && w.loop.phase.Draining? && w.loop.faulted
    ensures w.slots == w0.slots.(grip := Some(Tagged(frac, Tag(w0.h.faults, true)))) && w.sender == w0.sender
    ensures w.h.faultedPuts == w0.h.faultedPuts + 1 && w.h.sent == w0.h.sent && w.h.faults == w0.h.faults
  {
    steps, w := HoldThroughTheTick(c, q, steps0, w0);
    steps, w := GoOn(c, Start(q), steps, w, ExecutePlan(false, true, false, Some(frac)));
    steps, w := GoOn(c, Start(q), steps, w, SampleInputs(false));
    steps, w := GoOn(c, Start(q), steps, w, UpdateRecovering);
  }

  lemma HoldThroughTheTick(c: LoopCaps, q: Vec, steps0: seq<Step>, w0: World) returns (steps: seq<Step>, w: World)
    requires Trail(c, Start(q), steps0, w0) && w0.loop.phase.Draining? && w0.loop.faulted && w0.loop.plan.NoPlan?
    ensures Trail(c, Start(q), steps, w) && w.loop.phase.BetweenTicks? && w.loop.faulted && w.loop.plan.NoPlan?
    ensures w.slots == w0.slots && w.sender == w0.sender && w.h == w0.h
  {
    steps, w := HoldToTheGate(c, q, steps0, w0);
    steps, w := GoOn(c, Start(q), steps, w, Dispatch);
    steps, w := GoOn(c, Start(q), steps, w, EndTick);
  }

  lemma HoldToTheGate(c: LoopCaps, q: Vec, steps0: seq<Step>, w0: World) returns (steps: seq<Step>, w: World)
    requires Trail(c, Start(q), steps0, w0) && w0.loop.phase.Draining?
    ensures Trail(c, Start(q), steps, w) && w.loop.phase.Dispatching? && w.loop == w0.loop.(phase := w.loop.phase)
    ensures w.slots == w0.slots && w.sender == w0.sender && w.h == w0.h
  {
    steps, w := GoOn(c, Start(q), steps0, w0, DrainDone);
    steps, w := GoOn(c, Start(q), steps, w, Resolve(q));
    steps, w := GoOn(c, Start(q), steps, w, Gate((v: Vec) => v));
  }

  // -- the objects ------------------------------------------------------------------------------

  datatype DriverEvent = DriverFault(arm: string) | DriverRecovered(arm: string, measured: Option<Vec>) | OtherEvent(arm: string)

  /** What the loop keeps for all arms. */
  datatype Book = Book(faulted: set<string>, recovering: set<string>, lastCmd: map<string, Vec>, reseeded: set<string>)

  function OnEvent(b: Book, session: set<string>, e: DriverEvent): Book {
    if e.arm !in session then b
    else
      match e
      case DriverFault(a) => b.(faulted := b.faulted + {a}, recovering := b.recovering - {a})
      case DriverRecovered(a, measured) =>
        if a !in b.reseeded && measured.None? then b
        else
          var seeded := if a in b.reseeded then b else b.(lastCmd := b.lastCmd[a := measured.value], reseeded := b.reseeded + {a});
          seeded.(faulted := b.faulted - {a}, recovering := b.recovering + {a})
      case OtherEvent(_) => b
  }

  function Drained(b: Book, session: set<string>, events: seq<DriverEvent>): Book {
    if events == [] then b else OnEvent(Drained(b, session, events[..|events| - 1]), session, events[|events| - 1])
  }

  ghost predicate ArmView(b: Book, a: string, l: Loop) {
    && a in b.lastCmd && l.lastCmd == b.lastCmd[a]
    && (l.faulted <==> a in b.faulted) && (l.recovering <==> a in b.recovering) && (l.reseeded <==> a in b.reseeded)
  }

  /** Each arm sees its own events as the one-arm machine does, and no others. */
  lemma EventsArePerArm(b: Book, session: set<string>, e: DriverEvent, a: string, w: World)
    requires a in session && ArmView(b, a, w.loop)
    ensures ArmView(OnEvent(b, session, e), a,
                    if e.arm != a || e.OtherEvent? then w.loop
                    else if e.DriverFault? then OnFault(w).loop
                    else OnRecovered(w, e.measured).loop)
  {
  }

  class FaultBook {
    const session: set<string>
    var faulted: set<string>
    var recovering: set<string>
    var lastCmd: map<string, Vec>

    ghost predicate Valid()
      reads this
    {
      faulted !! recovering && faulted + recovering <= session && lastCmd.Keys == session
    }

    constructor (seed: map<string, Vec>)
      ensures Valid() && session == seed.Keys && lastCmd == seed && faulted == {} && recovering == {}
    {
      session, lastCmd, faulted, recovering := seed.Keys, seed, {}, {};
    }

    /** Driver events in order, one re-seed per arm and call. */
    method DrainDriverEvents(events: seq<DriverEvent>)
      requires Valid()
      modifies this
      ensures Valid()
      ensures var b := Drained(Book(old(faulted), old(recovering), old(lastCmd), {}), session, events);
              faulted == b.faulted && recovering == b.recovering && lastCmd == b.lastCmd
    {
      var reseeded: set<string> := {};
      for i := 0 to |events|
        invariant Valid()
        invariant Book(faulted, recovering, lastCmd, reseeded)
               == Drained(Book(old(faulted), old(recovering), old(lastCmd), {}), session, events[..i])
      {
        assert events[..i + 1][..i] == events[..i];
        reseeded := Apply(events[i], reseeded);
      }
      assert events[..|events|] == events;
    }

    method Apply(e: DriverEvent, reseeded: set<string>) returns (now: set<string>)
      requires Valid()
      modifies this
      ensures Valid()
      ensures Book(faulted, recovering, lastCmd, now) == OnEvent(Book(old(faulted), old(recovering), old(lastCmd), reseeded), session, e)
    {
      now := reseeded;
      if e.arm !in session || e.OtherEvent? {
        return;
      }
      if e.DriverFault? {
        faulted, recovering := faulted + {e.arm}, recovering - {e.arm};
        return;
      }
      if e.arm !in reseeded {
        if e.measured.None? {
          return;
        }
        lastCmd := lastCmd[e.arm := e.measured.value];
        now := reseeded + {e.arm};
      }
      faulted, recovering := faulted - {e.arm}, recovering + {e.arm};
    }

    /** Recovering arms run again once no input is live. */
    method UpdateRecoveringArms(live: bool)
      requires Valid()
      modifies this`recovering
      ensures Valid() && recovering == if live then old(recovering) else {}
    {
      if recovering == {} || live {
        return;
      }
      recovering := {};
    }
  }

  class ArmSender {
    var gripSlot: Option<real>
    var lastGrip: Option<real>
    var paused: bool
    var sentCount: nat
    var joints: seq<Vec>
    var grips: seq<real>

    constructor ()
      ensures gripSlot == None && lastGrip == None && !paused && sentCount == 0 && joints == [] && grips == []
    {
      gripSlot, lastGrip, paused, sentCount, joints, grips := None, None, false, 0, [], [];
    }

    method PutGripperTarget(frac: real)
      modifies this`gripSlot
      ensures gripSlot == Some(frac)
    {
      gripSlot := Some(frac);
    }

    /** Nothing is dispatched from now on, and the target in the slot never will be. */
    method PauseSender()
      modifies this`paused, this`lastGrip
      ensures paused && lastGrip == if gripSlot.Some? then gripSlot else old(lastGrip)
    {
      paused := true;
      if gripSlot.Some? {
        lastGrip := gripSlot;
      }
    }

    method ResumeSender()
      modifies this`paused
      ensures !paused
    {
      paused := false;
    }

    /** One undisturbed pass of the sender's loop with what the command slot had fresh. */
    method Pass(got: Option<Vec>)
      modifies this
      ensures paused == old(paused) && gripSlot == old(gripSlot)
      ensures paused ==> joints == old(joints) && grips == old(grips) && lastGrip == old(lastGrip) && sentCount == old(sentCount)
      ensures !paused ==> joints == old(joints) + (if got.Some? then [got.value] else [])
      ensures !paused ==> sentCount == old(sentCount) + if got.Some? then 1 else 0
      ensures !paused ==> grips == old(grips) + if gripSlot.Some? && gripSlot != old(lastGrip) then [gripSlot.value] else []
      ensures !paused && gripSlot.Some? ==> lastGrip == gripSlot
    {
      if paused {
        return;
      }
      if got.Some? {
        joints := joints + [got.value];
        sentCount := sentCount + 1;
      }
      if gripSlot.Some? && gripSlot != lastGrip {
        lastGrip := gripSlot;
        grips := grips + [gripSlot.value];
      }
    }
  }
}
