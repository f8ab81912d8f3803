/** The life of a plan in the control loop (control/loop.py:772-802, 952-978, 1160-1193,
    1588-1740, 1851-2133): who is executing what, when a plan is done, and when a plan the
    safety gate holds is given up. */
module PlanLifecycle {
  import opened Prelude
  import opened JointCap

  datatype PlanState = Planning | Executing | Failed

  datatype Status = AtPlanning | AtExecuting | AtDone | AtCancelled | AtFailed

  /** An arm whose executor handed back its goal this tick. */
  datatype Arrival = Arrival(arm: string, goal: Vec)

  /** The loop's plan bookkeeping. Only the statements read the last three: `workers` are the arms
      of gotos still being planned off the thread, `orphans` those whose goto was given up while
      it was planned and whose result is still to come, and `together` records that the running
      plan was loaded as a playback of several arms. */
  datatype Book = Book(
    state: map<string, PlanState>,
    plans: map<string, seq<Vec>>,
    arriving: seq<Arrival>,
    replay: Option<set<string>>,
    status: Option<Status>,
    interruptible: bool,
    reason: Option<string>,
    holdSince: Option<real>,
    workers: multiset<string>,
    orphans: multiset<string>,
    together: bool)

  predicate MotionActive(b: Book) {
    b.plans != map[] || b.replay.Some?
  }

  function Driven(b: Book): set<string> {
    if b.replay.Some? then b.replay.value else {}
  }

  predicate InFlight(b: Book) {
    b.plans != map[] || exists a :: a in b.state && (b.state[a] == Planning || b.state[a] == Executing)
  }

  /** One motion at a time on the whole loop. */
  predicate IsBusy(b: Book) {
    b.replay.Some? || b.plans != map[] || exists a :: a in b.state && b.state[a] == Planning
  }

  function CancelPlans(b: Book, reason: string): Book {
    b.(state := b.state - b.plans.Keys - Driven(b), plans := map[], arriving := [], replay := None,
       status := Some(AtCancelled), reason := Some(reason), interruptible := false, holdSince := None)
  }

  /** Operator input cancels an interruptible motion. */
  function Interrupted(b: Book, reason: string): Book {
    if b.interruptible && MotionActive(b) then CancelPlans(b, reason) else b
  }

  function Load(b: Book, arm: string, wps: seq<Vec>): Book {
    b.(plans := b.plans[arm := wps], state := b.state[arm := Executing])
  }

  /** A goto of one arm: planned by a worker. */
  function Goto(b: Book, arm: string): Book {
    var free := Interrupted(b, "jog");
    if arm in free.plans || (arm in free.state && free.state[arm] == Planning) || InFlight(free) then free
    else free.(state := free.state[arm := Planning], status := Some(AtPlanning), workers := free.workers + multiset{arm})
  }

  /** What a planning result does: load the waypoints, or mark the arm failed; with a plan
      running the result is dropped. */
  function Answered(b: Book, arm: string, wps: Option<seq<Vec>>): Book {
    if wps.None? then b.(state := b.state[arm := Failed], status := Some(AtFailed))
    else if b.plans != map[] then b.(state := b.state[arm := Failed])
    else Load(b, arm, wps.value).(status := Some(AtExecuting), together := false)
  }

  /** A worker is back with waypoints, or with none when planning failed. */
  function PlanReady(b: Book, arm: string, wps: Option<seq<Vec>>): Book {
    Answered(CameBack(b, arm), arm, wps)
  }

  /** One result less to come: that of the arm being planned, if it is. */
  function CameBack(b: Book, arm: string): Book {
    var waited := arm in b.workers;
    b.(workers := if waited then b.workers - multiset{arm} else b.workers,
       orphans := if waited then b.orphans else b.orphans - multiset{arm})
  }

  function Begun(b: Book, interruptible: bool): Book {
    b.(reason := None, holdSince := None, interruptible := interruptible)
  }

  /** A plan made by the manager, for one arm at most; without waypoints it is done at once. */
  function ExecutePlan(b: Book, plan: Option<(string, seq<Vec>)>, interruptible: bool, refused: bool): Book {
    if refused || IsBusy(b) then b
    else if plan.None? then Begun(b, false).(status := Some(AtDone))
    else Load(Begun(b, interruptible), plan.value.0, plan.value.1).(status := Some(AtExecuting), together := false)
  }

  function AllExecuting(arms: set<string>): (state: map<string, PlanState>)
    ensures state.Keys == arms && forall a :: a in arms ==> state[a] == Executing
  {
    map a | a in arms :: Executing
  }

  function LoadAll(b: Book, wps: map<string, seq<Vec>>): Book {
    b.(plans := b.plans + wps, state := b.state + AllExecuting(wps.Keys))
  }

  /** A recorded trajectory of several arms at once. */
  function PlaybackPath(b: Book, wps: map<string, seq<Vec>>, refused: bool): Book {
    if refused || wps == map[] || IsBusy(b) then b
    else LoadAll(Begun(b, true), wps).(status := Some(AtExecuting), together := |wps| > 1)
  }

  /** A recorded action column. */
  function ReplayActions(b: Book, arms: set<string>, refused: bool): Book {
    if refused || arms == {} || IsBusy(b) then b
    else
      Begun(b, true).(replay := Some(arms), state := b.state + AllExecuting(arms), status := Some(AtExecuting), together := false)
  }

  /** A worker nobody waits for any more. */
  function GivenUp(b: Book, arm: string): Book {
    if arm in b.workers then b.(workers := b.workers - multiset{arm}, orphans := b.orphans + multiset{arm}) else b
  }

  /** The driver stopped an arm: an interruptible motion ends on every arm, otherwise the arm
      loses its own plan. */
  function DriverFault(b: Book, arm: string): Book {
    if b.interruptible && MotionActive(b) then CancelPlans(b, "driver fault")
    else if arm in b.plans || arm in b.state then
      var left := GivenUp(b, arm).(plans := b.plans - {arm}, state := b.state - {arm}, reason := Some("driver fault"));
      if left.plans == map[] then left.(status := Some(AtCancelled)) else left
    else b
  }

  // -- arrivals -------------------------------------------------------------------------------

  const CLOSE_ATOL := 0.000000001
  const CLOSE_RTOL := 0.00001

  /** Element-wise closeness with the library's default relative part. */
  predicate AllClose(a: Vec, b: Vec) {
    |a| == |b| && forall j :: 0 <= j < |a| ==> Abs(a[j] - b[j]) <= CLOSE_ATOL + CLOSE_RTOL * Abs(b[j])
  }

  /** Only the carriage is off, pinned at the end of its travel the goal lies beyond. */
  predicate ClampedRailGoal(out: Vec, goal: Vec) {
    && |out| > N_JOINTS && |goal| > N_JOINTS && AllClose(out[..N_JOINTS], goal[..N_JOINTS])
    && var rail, want := out[N_JOINTS], goal[N_JOINTS];
       (Abs(rail) <= CLOSE_ATOL && want < 0.0) || (Abs(rail - RAIL_TRAVEL_M) <= CLOSE_ATOL && want > RAIL_TRAVEL_M)
  }

  /** What a tick's gate decision leaves: per-arm output, and whether it blocked. */
  datatype Decision = Decision(out: map<string, Vec>, blocked: bool)

  /** Has the arm arrived, given what it was last commanded? */
  predicate Arrived(d: Decision, last: map<string, Vec>, a: Arrival) {
    && a.arm in d.out
    && (AllClose(d.out[a.arm], a.goal)
        || (!d.blocked && a.arm in last && AllClose(d.out[a.arm], last[a.arm]) && ClampedRailGoal(d.out[a.arm], a.goal)))
  }

  function Finish(b: Book, arm: string): Book {
    var left := b.(state := b.state - {arm});
    if b.plans == map[] then left.(status := Some(AtDone), interruptible := false, holdSince := None) else left
  }

  /** One arrival: cancelled since, finished, or the goal back into the executor. */
  function Confirmed(b: Book, d: Decision, last: map<string, Vec>, a: Arrival): Book {
    if !(a.arm in b.state && b.state[a.arm] == Executing) then b
    else if Arrived(d, last, a) then Finish(b, a.arm)
    else b.(plans := b.plans[a.arm := [a.goal]])
  }

  function ConfirmAll(b: Book, d: Decision, last: map<string, Vec>, arrivals: seq<Arrival>): Book {
    if arrivals == [] then b
    else Confirmed(ConfirmAll(b, d, last, arrivals[..|arrivals| - 1]), d, last, arrivals[|arrivals| - 1])
  }

  function ConfirmArrivals(b: Book, d: Decision, last: map<string, Vec>): Book {
    ConfirmAll(b.(arriving := []), d, last, b.arriving)
  }

  // -- the gate-hold watch --------------------------------------------------------------------

  predicate Held(d: Decision, last: map<string, Vec>, arms: set<string>) {
    d.blocked && forall a :: a in arms ==> a in d.out && a in last && d.out[a] == last[a]
  }

  function MotionArms(b: Book): set<string> {
    b.plans.Keys + Driven(b)
  }

  function GateWatch(b: Book, d: Decision, last: map<string, Vec>, now: real, limit: real): Book {
    if !Held(d, last, MotionArms(b)) then b.(holdSince := None)
    else
      var since := if b.holdSince.None? then now else b.holdSince.value;
      if now - since < limit then b.(holdSince := Some(since)) else CancelPlans(b, "held by the safety gate")
  }

  function FinishReplay(b: Book): Book {
    if b.replay.None? then b
    else
      b.(replay := None, state := b.state - b.replay.value, status := Some(AtDone), interruptible := false, holdSince := None)
  }

  // -- a tick -----------------------------------------------------------------------------------

  /** What a tick brings: arms whose executor hands back the goal, whether a step of the replay
      raised, the gate's decision, the last commands, the time, whether the replay's rows ran out,
      which failed states expire. */
  datatype TickInput = TickInput(
    arrivals: seq<Arrival>,
    replayFails: bool,
    decision: Decision,
    last: map<string, Vec>,
    now: real,
    replayOver: bool,
    expired: set<string>)

  ghost predicate GoodTick(b: Book, t: TickInput) {
    && (forall i :: 0 <= i < |t.arrivals| ==> t.arrivals[i].arm in b.plans)
    && (forall i, j :: 0 <= i < j < |t.arrivals| ==> t.arrivals[i].arm != t.arrivals[j].arm)
    && (t.replayFails ==> exists a :: a in Driven(b) && a !in b.plans)
    && forall a :: a in t.expired && a in b.state ==> b.state[a] == Failed
  }

  function ArmsOf(arrivals: seq<Arrival>): (s: set<string>)
    ensures forall a :: a in s <==> exists i :: 0 <= i < |arrivals| && arrivals[i].arm == a
  {
    set i | 0 <= i < |arrivals| :: arrivals[i].arm
  }

  /** The executor's step for every plan arm: those at their goal leave it. */
  function Stepped(b: Book, arrivals: seq<Arrival>): Book {
    b.(plans := b.plans - ArmsOf(arrivals), arriving := arrivals)
  }

  /** What resolving the arms leaves: a replay step that raises cancels every motion, and the
      arrivals found before it are forgotten. */
  function Resolved(b: Book, t: TickInput): Book {
    if t.replayFails then CancelPlans(Stepped(b, t.arrivals), "replay step failed") else Stepped(b, t.arrivals)
  }

  /** After the gate: arrivals, then the watch over what still moves, then the replay's end. */
  function AfterGate(b: Book, t: TickInput, limit: real): Book {
    var confirmed := ConfirmArrivals(b, t.decision, t.last);
    var watched := if MotionActive(confirmed) then GateWatch(confirmed, t.decision, t.last, t.now, limit) else confirmed;
    if t.replayOver then FinishReplay(watched) else watched
  }

  function Expire(b: Book, expired: set<string>): Book {
    b.(state := b.state - (expired * (set a | a in b.state && b.state[a] == Failed)))
  }

  function Tick(b: Book, t: TickInput, limit: real): Book {
    Expire(AfterGate(Resolved(b, t), t, limit), t.expired)
  }

  datatype Event =
    | OnGoto(arm: string)
    | OnPlanReady(arm: string, wps: Option<seq<Vec>>)
    | OnExecutePlan(plan: Option<(string, seq<Vec>)>, interruptible: bool, refused: bool)
    | OnPlayback(paths: map<string, seq<Vec>>, refused: bool)
    | OnReplay(arms: set<string>, refused: bool)
    | OnFault(arm: string)
    | OnCancel(reason: string)
    | OnInput(reason: string)
    | OnTick(t: TickInput)

  function Step(b: Book, e: Event, limit: real): Book {
    match e
    case OnGoto(arm) => Goto(b, arm)
    case OnPlanReady(arm, wps) => PlanReady(b, arm, wps)
    case OnExecutePlan(plan, interruptible, refused) => ExecutePlan(b, plan, interruptible, refused)
    case OnPlayback(wps, refused) => PlaybackPath(b, wps, refused)
    case OnReplay(arms, refused) => ReplayActions(b, arms, refused)
    case OnFault(arm) => DriverFault(b, arm)
    case OnCancel(reason) => if MotionActive(b) then CancelPlans(b, reason) else b
    case OnInput(reason) => Interrupted(b, reason)
    case OnTick(t) => Tick(b, t, limit)
  }

  /** Results come from workers. */
  ghost predicate Allowed(b: Book, e: Event) {
    match e
    case OnPlanReady(arm, _) => arm in b.workers || arm in b.orphans
    case OnTick(t) => GoodTick(b, t)
    case _ => true
  }

  const START := Book(map[], map[], [], None, None, false, None, None, multiset{}, multiset{}, false)

  ghost function Run(es: seq<Event>, limit: real): Book {
    if es == [] then START else Step(Run(es[..|es| - 1], limit), es[|es| - 1], limit)
  }

  ghost predicate Possible(es: seq<Event>, limit: real) {
    es != [] ==> Possible(es[..|es| - 1], limit) && Allowed(Run(es[..|es| - 1], limit), es[|es| - 1])
  }

  // -- who is executing -------------------------------------------------------------------------

  ghost predicate IsExecuting(b: Book, a: string) {
    a in b.state && b.state[a] == Executing
  }

  ghost predicate IsPlanning(b: Book, a: string) {
    a in b.state && b.state[a] == Planning
  }

  ghost predicate Moves(b: Book, a: string) {
    a in b.plans || a in Driven(b) || a in ArmsOf(b.arriving)
  }

  /** An arm is `executing` exactly while the executor holds waypoints for it, the replay drives
      it, or its goal is before the gate. */
  ghost predicate ExecutingMoves(b: Book) {
    forall a :: IsExecuting(b, a) <==> Moves(b, a)
  }

  ghost predicate OneAtATime(b: Book) {
    !b.together ==> forall a, c :: (a in b.plans || a in ArmsOf(b.arriving)) && (c in b.plans || c in ArmsOf(b.arriving)) ==> a == c
  }

  ghost predicate OneMotion(b: Book) {
    && (b.replay.Some? ==> b.plans == map[] && b.arriving == [] && b.interruptible && b.workers == multiset{})
    && (b.workers != multiset{} ==> b.plans == map[] && b.arriving == [])
    && |b.workers| <= 1
    && (forall a :: IsPlanning(b, a) <==> a in b.workers)
  }

  ghost predicate Sound(b: Book) {
    ExecutingMoves(b) && OneAtATime(b) && OneMotion(b)
  }

  ghost predicate Settled(b: Book) {
    Sound(b) && b.arriving == []
  }

  /** A worker is under way exactly while some arm is being planned. */
  lemma WorkersPlan(b: Book)
    requires OneMotion(b)
    ensures b.workers == multiset{} <==> forall a :: !IsPlanning(b, a)
  {
    if b.workers != multiset{} {
      var a :| a in b.workers;
      assert IsPlanning(b, a);
    }
  }

  lemma EmptyBusy(b: Book)
    requires Settled(b) && !IsBusy(b)
    ensures b.workers == multiset{} && forall a :: !Moves(b, a) && !IsExecuting(b, a) && !IsPlanning(b, a)
  {
    WorkersPlan(b);
  }

  lemma CancelIsSettled(b: Book, reason: string)
    requires Settled(b) && MotionActive(b)
    ensures Settled(CancelPlans(b, reason)) && !MotionActive(CancelPlans(b, reason))
    ensures forall a :: !IsExecuting(CancelPlans(b, reason), a)
  {
    var next := CancelPlans(b, reason);
    assert b.workers == multiset{};
    forall a
      ensures !IsExecuting(next, a) && !Moves(next, a) && !IsPlanning(next, a)
    {
      assert IsExecuting(b, a) <==> Moves(b, a);
      assert IsPlanning(b, a) <==> a in b.workers;
    }
  }

  lemma InterruptIsSettled(b: Book, reason: string)
    requires Settled(b)
    ensures Settled(Interrupted(b, reason))
    ensures b.replay.Some? ==> Interrupted(b, reason).replay.None?
  {
    if b.interruptible && MotionActive(b) {
      CancelIsSettled(b, reason);
    }
  }

  lemma LoadIsSettled(b: Book, next: Book, arm: string, wps: seq<Vec>)
    requires Settled(b) && b.plans == map[] && b.replay.None?
    requires next.plans == map[arm := wps] && next.state == b.state[arm := Executing]
    requires next.arriving == [] && next.replay.None? && next.workers == multiset{}
    requires forall a :: IsPlanning(b, a) ==> a == arm
    ensures Settled(next)
  {
    forall a
      ensures IsExecuting(next, a) <==> Moves(next, a)
      ensures !IsPlanning(next, a)
    {
      assert IsExecuting(b, a) <==> Moves(b, a);
      assert a != arm ==> (IsPlanning(next, a) <==> IsPlanning(b, a));
    }
  }

  lemma GotoIsSettled(b: Book, arm: string)
    requires Settled(b)
    ensures Settled(Goto(b, arm))
  {
    var free := Interrupted(b, "jog");
    InterruptIsSettled(b, "jog");
    if !(arm in free.plans || (arm in free.state && free.state[arm] == Planning) || InFlight(free)) {
      var next := Goto(b, arm);
      WorkersPlan(free);
      forall a
        ensures IsExecuting(next, a) <==> Moves(next, a)
        ensures IsPlanning(next, a) <==> a in next.workers
      {
        assert IsExecuting(free, a) <==> Moves(free, a);
        assert IsPlanning(free, a) <==> a in free.workers;
      }
    }
  }

  lemma OneWorker(b: Book, arm: string)
    requires Settled(b) && arm in b.workers
    ensures b.workers == multiset{arm} && b.plans == map[] && b.replay.None? && IsPlanning(b, arm)
    ensures forall a :: IsPlanning(b, a) ==> a == arm
  {
    assert IsPlanning(b, arm);
    var rest := b.workers - multiset{arm};
    assert b.workers == rest + multiset{arm};
    assert |rest| == 0;
  }

  /** One result less to come changes nothing else. */
  lemma CameBackLeaves(b: Book, arm: string)
    ensures var c := CameBack(b, arm);
            && c.state == b.state && c.plans == b.plans && c.arriving == b.arriving && c.replay == b.replay
            && c.status == b.status && c.interruptible == b.interruptible && c.holdSince == b.holdSince && c.together == b.together
  {
  }

  /** The result the arm waits for. */
  lemma PlanReadyIsSettled(b: Book, arm: string, wps: Option<seq<Vec>>)
    requires Settled(b) && arm in b.workers
    ensures Settled(PlanReady(b, arm, wps))
  {
    OneWorker(b, arm);
    var next := PlanReady(b, arm, wps);
    if wps.Some? {
      LoadIsSettled(b, next, arm, wps.value);
    } else {
      forall a
        ensures IsExecuting(next, a) <==> Moves(next, a)
        ensures !IsPlanning(next, a)
      {
        assert IsExecuting(b, a) <==> Moves(b, a);
        assert a != arm ==> (IsPlanning(next, a) <==> IsPlanning(b, a));
      }
    }
  }

  /** A result nobody waits for does no harm: it loads a plan while nothing moves or is planned,
      or marks an arm failed that is not executing. */
  ghost predicate HarmlessResult(b: Book, arm: string, wps: Option<seq<Vec>>) {
    if wps.Some? && b.plans == map[] then b.replay.None? && b.workers == multiset{} else !IsExecuting(b, arm)
  }

  lemma OrphanLoads(b: Book, arm: string, wps: seq<Vec>)
    requires Settled(b) && arm !in b.workers && b.plans == map[]
    ensures Settled(PlanReady(b, arm, Some(wps))) <==> b.replay.None? && b.workers == multiset{}
  {
    var next := PlanReady(b, arm, Some(wps));
    assert next.plans == map[arm := wps] && arm in next.plans;
    if b.replay.None? && b.workers == multiset{} {
      LoadIsSettled(b, next, arm, wps);
    }
  }

  lemma OrphanFails(b: Book, arm: string, wps: Option<seq<Vec>>)
    requires Settled(b) && arm !in b.workers && (wps.None? || b.plans != map[])
    ensures Settled(PlanReady(b, arm, wps)) <==> !IsExecuting(b, arm)
  {
    var next := PlanReady(b, arm, wps);
    assert IsExecuting(b, arm) <==> Moves(b, arm);
    assert !IsPlanning(b, arm);
    MarkedFailed(b, next, arm);
    if !IsExecuting(b, arm) {
      SameMotions(b, next);
    }
  }

  lemma MarkedFailed(b: Book, next: Book, arm: string)
    requires ExecutingMoves(b) && next.state == b.state[arm := Failed] && !IsPlanning(b, arm)
    requires next.plans == b.plans && next.replay == b.replay && next.arriving == b.arriving
    ensures forall a :: IsPlanning(next, a) <==> IsPlanning(b, a)
    ensures forall a :: Moves(next, a) <==> Moves(b, a)
    ensures ExecutingMoves(next) <==> !IsExecuting(b, arm)
  {
    forall a
      ensures a != arm ==> (IsExecuting(next, a) <==> IsExecuting(b, a))
      ensures Moves(next, a) <==> Moves(b, a)
      ensures IsPlanning(next, a) <==> IsPlanning(b, a)
    {
    }
    assert !IsExecuting(next, arm);
    assert IsExecuting(b, arm) <==> Moves(b, arm);
  }

  /** Exactly when a result nobody waits for keeps the books settled. */
  lemma OrphanedResult(b: Book, arm: string, wps: Option<seq<Vec>>)
    requires Settled(b) && arm !in b.workers
    ensures Settled(PlanReady(b, arm, wps)) <==> HarmlessResult(b, arm, wps)
  {
    if wps.Some? && b.plans == map[] {
      OrphanLoads(b, arm, wps.value);
    } else {
      OrphanFails(b, arm, wps);
    }
  }

  ghost predicate Harmless(b: Book, e: Event) {
    e.OnPlanReady? && e.arm !in b.workers ==> HarmlessResult(b, e.arm, e.wps)
  }

  lemma ExecutePlanIsSettled(b: Book, plan: Option<(string, seq<Vec>)>, interruptible: bool, refused: bool)
    requires Settled(b)
    ensures Settled(ExecutePlan(b, plan, interruptible, refused))
  {
    if !refused && !IsBusy(b) {
      EmptyBusy(b);
      var next := ExecutePlan(b, plan, interruptible, refused);
      if plan.Some? {
        LoadIsSettled(b, next, plan.value.0, plan.value.1);
      } else {
        forall a
          ensures IsExecuting(next, a) <==> Moves(next, a)
          ensures IsPlanning(next, a) <==> a in next.workers
        {
          assert IsExecuting(b, a) <==> Moves(b, a);
          assert IsPlanning(b, a) <==> a in b.workers;
        }
      }
    }
  }

  lemma AtMostOne(arms: set<string>)
    requires |arms| <= 1
    ensures forall a, c :: a in arms && c in arms ==> a == c
  {
    forall a, c | a in arms && c in arms
      ensures a == c
    {
      if a != c {
        assert {a, c} <= arms && |{a, c}| == 2;
        Fewer({a, c}, arms);
      }
    }
  }

  lemma {:induction false} Fewer(small: set<string>, large: set<string>)
    requires small <= large
    ensures |small| <= |large|
  {
    if small != {} {
      var a :| a in small;
      Fewer(small - {a}, large - {a});
    }
  }

  lemma ManyAreSettled(b: Book, next: Book, arms: set<string>)
    requires Settled(b) && !IsBusy(b) && next.arriving == [] && next.workers == b.workers
    requires next.state == b.state + AllExecuting(arms)
    requires next.plans.Keys + Driven(next) == arms && (next.replay.Some? ==> next.plans == map[] && next.interruptible)
    requires next.together || next.plans == map[] || |arms| <= 1
    ensures Settled(next)
  {
    EmptyBusy(b);
    if |arms| <= 1 {
      AtMostOne(arms);
    }
    forall a
      ensures IsExecuting(next, a) <==> Moves(next, a)
      ensures !IsPlanning(next, a)
    {
      assert IsExecuting(b, a) <==> Moves(b, a);
      assert IsPlanning(b, a) <==> a in b.workers;
    }
  }

  lemma PlaybackIsSettled(b: Book, paths: map<string, seq<Vec>>, refused: bool)
    requires Settled(b)
    ensures Settled(PlaybackPath(b, paths, refused))
  {
    if !(refused || paths == map[] || IsBusy(b)) {
      OnlyPaths(b, paths);
      ManyAreSettled(b, PlaybackPath(b, paths, refused), paths.Keys);
    }
  }

  lemma OnlyPaths(b: Book, paths: map<string, seq<Vec>>)
    requires b.plans == map[]
    ensures b.plans + paths == paths && |paths| == |paths.Keys|
  {
  }

  lemma ReplayIsSettled(b: Book, arms: set<string>, refused: bool)
    requires Settled(b)
    ensures Settled(ReplayActions(b, arms, refused))
  {
    if !(refused || arms == {} || IsBusy(b)) {
      ManyAreSettled(b, ReplayActions(b, arms, refused), arms);
    }
  }

  lemma PlanningFaultIsSettled(b: Book, arm: string)
    requires Settled(b) && arm in b.workers && !(b.interruptible && MotionActive(b))
    ensures Settled(DriverFault(b, arm))
  {
    OneWorker(b, arm);
    var next := DriverFault(b, arm);
    assert next.workers == multiset{} && next.plans == map[] && next.state == b.state - {arm};
    forall a
      ensures IsExecuting(next, a) <==> Moves(next, a)
      ensures !IsPlanning(next, a)
    {
      assert IsExecuting(b, a) <==> Moves(b, a);
      assert IsPlanning(b, a) ==> a == arm;
    }
  }

  lemma PlanFaultIsSettled(b: Book, arm: string)
    requires Settled(b) && arm !in b.workers && !(b.interruptible && MotionActive(b))
    ensures Settled(DriverFault(b, arm))
  {
    var next := DriverFault(b, arm);
    assert next.workers == b.workers && next.replay == b.replay;
    forall a
      ensures IsExecuting(next, a) <==> Moves(next, a)
      ensures IsPlanning(next, a) <==> a in next.workers
    {
      assert IsExecuting(b, a) <==> Moves(b, a);
      assert IsPlanning(b, a) <==> a in b.workers;
    }
  }

  lemma DriverFaultIsSettled(b: Book, arm: string)
    requires Settled(b)
    ensures Settled(DriverFault(b, arm))
  {
    if b.interruptible && MotionActive(b) {
      CancelIsSettled(b, "driver fault");
    } else if arm in b.workers {
      PlanningFaultIsSettled(b, arm);
    } else {
      PlanFaultIsSettled(b, arm);
    }
  }

  // -- a tick keeps the books -------------------------------------------------------------------

  /** The same motions under way: what moved in one book moves in the other, and nothing
      started. */
  lemma SameMotions(b: Book, next: Book)
    requires Sound(b) && next.replay == b.replay && next.workers == b.workers && next.together == b.together
    requires next.interruptible == b.interruptible && (b.plans == map[] && b.arriving == [] ==> next.plans == map[] && next.arriving == [])
    requires forall x :: x in next.plans || x in ArmsOf(next.arriving) ==> x in b.plans || x in ArmsOf(b.arriving)
    requires forall x :: IsExecuting(next, x) <==> Moves(next, x)
    requires forall x :: IsPlanning(next, x) <==> IsPlanning(b, x)
    ensures Sound(next)
  {
  }

  lemma SteppedIsSound(b: Book, t: TickInput)
    requires Settled(b) && GoodTick(b, t)
    ensures Sound(Stepped(b, t.arrivals))
  {
    var next := Stepped(b, t.arrivals);
    assert |t.arrivals| > 0 ==> t.arrivals[0].arm in b.plans;
    forall x
      ensures IsExecuting(next, x) <==> Moves(next, x)
      ensures IsPlanning(next, x) <==> IsPlanning(b, x)
    {
      assert IsExecuting(b, x) <==> Moves(b, x);
    }
    SameMotions(b, next);
  }

  /** Halfway through the arrivals: the first ones confirmed, the others still waiting. */
  ghost predicate Halfway(b: Book, waiting: seq<Arrival>) {
    Sound(b.(arriving := waiting))
  }

  ghost predicate Apart(arrivals: seq<Arrival>) {
    forall i, j :: 0 <= i < j < |arrivals| ==> arrivals[i].arm != arrivals[j].arm
  }

  lemma ArmsOfCons(a: Arrival, waiting: seq<Arrival>, x: string)
    ensures x in ArmsOf([a] + waiting) <==> x == a.arm || x in ArmsOf(waiting)
  {
    assert ([a] + waiting)[0] == a;
    assert forall i :: 0 <= i < |waiting| ==> ([a] + waiting)[i + 1] == waiting[i];
  }

  /** A finished arm stops executing; the rest goes on as it was. */
  lemma FinishIsSound(b: Book, arm: string, waiting: seq<Arrival>, a: Arrival)
    requires Halfway(b, [a] + waiting) && a.arm == arm && arm !in ArmsOf(waiting) && arm !in b.plans
    ensures Halfway(Finish(b, arm), waiting)
  {
    var before, after := b.(arriving := [a] + waiting), Finish(b, arm).(arriving := waiting);
    assert before.arriving != [];
    forall x
      ensures IsExecuting(after, x) <==> Moves(after, x)
      ensures IsPlanning(after, x) <==> IsPlanning(before, x)
      ensures x in after.plans || x in ArmsOf(after.arriving) ==> x in before.plans || x in ArmsOf(before.arriving)
    {
      ArmsOfCons(a, waiting, x);
      ArmsOfCons(a, waiting, arm);
      assert IsExecuting(before, x) <==> Moves(before, x);
      assert IsExecuting(before, arm) <==> Moves(before, arm);
    }
    SameMotions(before, after.(interruptible := before.interruptible));
  }

  /** A goal the gate held goes back into the executor, and the arm is executing as before. */
  lemma ReloadIsSound(b: Book, waiting: seq<Arrival>, a: Arrival)
    requires Halfway(b, [a] + waiting) && a.arm !in ArmsOf(waiting) && a.arm !in b.plans
    ensures Halfway(b.(plans := b.plans[a.arm := [a.goal]]), waiting)
  {
    var before, after := b.(arriving := [a] + waiting), b.(plans := b.plans[a.arm := [a.goal]], arriving := waiting);
    assert before.arriving != [];
    forall x
      ensures IsExecuting(after, x) <==> Moves(after, x)
      ensures IsPlanning(after, x) <==> IsPlanning(before, x)
      ensures x in after.plans || x in ArmsOf(after.arriving) ==> x in before.plans || x in ArmsOf(before.arriving)
    {
      ArmsOfCons(a, waiting, x);
      assert IsExecuting(before, x) <==> Moves(before, x);
    }
    SameMotions(before, after);
  }

  lemma ConfirmedIsSound(b: Book, d: Decision, last: map<string, Vec>, a: Arrival, waiting: seq<Arrival>)
    requires Halfway(b, [a] + waiting) && a.arm !in ArmsOf(waiting) && a.arm !in b.plans
    ensures Halfway(Confirmed(b, d, last, a), waiting)
    ensures Confirmed(b, d, last, a) == if Arrived(d, last, a) then Finish(b, a.arm) else b.(plans := b.plans[a.arm := [a.goal]])
  {
    ArmsOfCons(a, waiting, a.arm);
    var before := b.(arriving := [a] + waiting);
    assert IsExecuting(before, a.arm) <==> Moves(before, a.arm);
    if Arrived(d, last, a) {
      FinishIsSound(b, a.arm, waiting, a);
    } else {
      ReloadIsSound(b, waiting, a);
    }
  }

  /** The arms still to be confirmed are out of the executor. */
  ghost predicate AreOut(b: Book, all: seq<Arrival>, n: nat) {
    forall i :: n <= i < |all| ==> all[i].arm !in b.plans
  }

  lemma Waiting(all: seq<Arrival>, n: nat)
    requires 0 < n <= |all| && Apart(all)
    ensures all[n - 1..] == [all[n - 1]] + all[n..] && all[n - 1].arm !in ArmsOf(all[n..])
  {
    assert forall i :: 0 <= i < |all[n..]| ==> all[n..][i] == all[n + i];
  }

  lemma StillOut(mid: Book, d: Decision, last: map<string, Vec>, all: seq<Arrival>, n: nat)
    requires 0 < n <= |all| && Apart(all) && AreOut(mid, all, n - 1)
    ensures AreOut(Confirmed(mid, d, last, all[n - 1]), all, n)
  {
  }

  lemma {:induction false} ConfirmAllIsSound(b: Book, d: Decision, last: map<string, Vec>, all: seq<Arrival>, n: nat)
    requires n <= |all| && Apart(all) && Halfway(b, all) && AreOut(b, all, 0)
    ensures Halfway(ConfirmAll(b, d, last, all[..n]), all[n..]) && AreOut(ConfirmAll(b, d, last, all[..n]), all, n)
  {
    if n == 0 {
      assert all[0..] == all;
    } else {
      ConfirmAllIsSound(b, d, last, all, n - 1);
      var mid := ConfirmAll(b, d, last, all[..n - 1]);
      assert all[..n][..n - 1] == all[..n - 1];
      Waiting(all, n);
      ConfirmedIsSound(mid, d, last, all[n - 1], all[n..]);
      StillOut(mid, d, last, all, n);
    }
  }

  lemma ConfirmArrivalsIsSettled(b: Book, d: Decision, last: map<string, Vec>)
    requires Sound(b) && Apart(b.arriving) && forall i :: 0 <= i < |b.arriving| ==> b.arriving[i].arm !in b.plans
    ensures Settled(ConfirmArrivals(b, d, last))
  {
    var start := b.(arriving := []);
    assert start.(arriving := b.arriving) == b;
    ConfirmAllIsSound(start, d, last, b.arriving, |b.arriving|);
    assert b.arriving[..|b.arriving|] == b.arriving && b.arriving[|b.arriving|..] == [];
    ConfirmKeepsArriving(start, d, last, b.arriving);
    var next := ConfirmArrivals(b, d, last);
    assert next.(arriving := []) == next;
  }

  lemma {:induction false} ConfirmKeepsArriving(b: Book, d: Decision, last: map<string, Vec>, arrivals: seq<Arrival>)
    ensures ConfirmAll(b, d, last, arrivals).arriving == b.arriving
  {
    if arrivals != [] {
      ConfirmKeepsArriving(b, d, last, arrivals[..|arrivals| - 1]);
    }
  }

  /** Status, reason and clock are no part of the invariant. */
  lemma ClockIsSettled(b: Book, since: Option<real>)
    requires Settled(b)
    ensures Settled(b.(holdSince := since))
  {
    var next := b.(holdSince := since);
    forall x
      ensures IsExecuting(next, x) <==> Moves(next, x)
      ensures IsPlanning(next, x) <==> IsPlanning(b, x)
    {
      assert IsExecuting(b, x) <==> Moves(b, x);
    }
    SameMotions(b, next);
  }

  lemma GateWatchIsSettled(b: Book, d: Decision, last: map<string, Vec>, now: real, limit: real)
    requires Settled(b) && MotionActive(b)
    ensures Settled(GateWatch(b, d, last, now, limit))
  {
    CancelIsSettled(b, "held by the safety gate");
    ClockIsSettled(b, None);
    ClockIsSettled(b, Some(if b.holdSince.None? then now else b.holdSince.value));
  }

  lemma FinishReplayIsSettled(b: Book)
    requires Settled(b)
    ensures Settled(FinishReplay(b))
  {
    if b.replay.Some? {
      var next := FinishReplay(b);
      forall x
        ensures IsExecuting(next, x) <==> Moves(next, x)
        ensures IsPlanning(next, x) <==> x in next.workers
      {
        assert IsExecuting(b, x) <==> Moves(b, x);
        assert IsPlanning(b, x) <==> x in b.workers;
      }
    }
  }

  lemma ExpireIsSettled(b: Book, expired: set<string>)
    requires Settled(b)
    ensures Settled(Expire(b, expired))
  {
    var next := Expire(b, expired);
    forall x
      ensures IsExecuting(next, x) <==> Moves(next, x)
      ensures IsPlanning(next, x) <==> IsPlanning(b, x)
    {
      assert IsExecuting(b, x) <==> Moves(b, x);
    }
    SameMotions(b, next);
  }

  lemma AfterGateIsSettled(b: Book, t: TickInput, limit: real)
    requires Sound(b) && Apart(b.arriving) && forall i :: 0 <= i < |b.arriving| ==> b.arriving[i].arm !in b.plans
    ensures Settled(AfterGate(b, t, limit))
  {
    ConfirmArrivalsIsSettled(b, t.decision, t.last);
    var confirmed := ConfirmArrivals(b, t.decision, t.last);
    if MotionActive(confirmed) {
      GateWatchIsSettled(confirmed, t.decision, t.last, t.now, limit);
    }
    FinishReplayIsSettled(if MotionActive(confirmed) then GateWatch(confirmed, t.decision, t.last, t.now, limit) else confirmed);
  }

  /** A settled replay runs alone, so its failing step ends it and nothing else. */
  lemma ResolvedIsSound(b: Book, t: TickInput)
    requires Settled(b) && GoodTick(b, t)
    ensures Sound(Resolved(b, t)) && Apart(Resolved(b, t).arriving)
    ensures forall i :: 0 <= i < |Resolved(b, t).arriving| ==> Resolved(b, t).arriving[i].arm !in Resolved(b, t).plans
  {
    if t.replayFails {
      OnlyPlansArrive(b, t);
      assert Stepped(b, t.arrivals) == b by {
        assert ArmsOf([]) == {};
        assert b.plans - {} == b.plans;
      }
      CancelIsSettled(b, "replay step failed");
    } else {
      SteppedIsSound(b, t);
    }
  }

  lemma TickIsSettled(b: Book, t: TickInput, limit: real)
    requires Settled(b) && GoodTick(b, t)
    ensures Settled(Tick(b, t, limit))
  {
    ResolvedIsSound(b, t);
    AfterGateIsSettled(Resolved(b, t), t, limit);
    ExpireIsSettled(AfterGate(Resolved(b, t), t, limit), t.expired);
  }

  /** An event keeps the books settled exactly if it is no harmful result. */
  lemma StepIsSettled(b: Book, e: Event, limit: real)
    requires Settled(b) && Allowed(b, e)
    ensures Settled(Step(b, e, limit)) <==> Harmless(b, e)
  {
    match e
    case OnGoto(arm) => GotoIsSettled(b, arm);
    case OnPlanReady(arm, wps) =>
      if arm in b.workers {
        PlanReadyIsSettled(b, arm, wps);
      } else {
        OrphanedResult(b, arm, wps);
      }
    case OnExecutePlan(plan, interruptible, refused) => ExecutePlanIsSettled(b, plan, interruptible, refused);
    case OnPlayback(paths, refused) => PlaybackIsSettled(b, paths, refused);
    case OnReplay(arms, refused) => ReplayIsSettled(b, arms, refused);
    case OnFault(arm) => DriverFaultIsSettled(b, arm);
    case OnCancel(reason) =>
      if MotionActive(b) {
        CancelIsSettled(b, reason);
      }
    case OnInput(reason) => InterruptIsSettled(b, reason);
    case OnTick(t) => TickIsSettled(b, t, limit);
  }

  lemma StartIsSettled()
    ensures Settled(START)
  {
    assert forall a :: !Moves(START, a) && !IsExecuting(START, a) && !IsPlanning(START, a);
  }

  /** The books are settled after every event of the run. */
  ghost predicate AlwaysSettled(es: seq<Event>, limit: real) {
    Settled(Run(es, limit)) && (es != [] ==> AlwaysSettled(es[..|es| - 1], limit))
  }

  ghost predicate AllHarmless(es: seq<Event>, limit: real) {
    es != [] ==> AllHarmless(es[..|es| - 1], limit) && Harmless(Run(es[..|es| - 1], limit), es[|es| - 1])
  }

  /** At every tick end: an arm is `executing` exactly while the executor holds waypoints for it
      or the replay drives it; a replay and a plan never run together; at most one arm is in the
      executor unless a playback put several there; and while a goto is being planned nothing
      moves. Over every run this holds throughout exactly if no result of a goto given up by a
      driver fault comes back while a motion or another goto is under way. */
  lemma {:induction false} BooksStaySettled(es: seq<Event>, limit: real)
    requires Possible(es, limit)
    ensures AlwaysSettled(es, limit) <==> AllHarmless(es, limit)
    ensures AllHarmless(es, limit) ==> Settled(Run(es, limit))
  {
    StartIsSettled();
    if es != [] {
      BooksStaySettled(es[..|es| - 1], limit);
      if AllHarmless(es[..|es| - 1], limit) {
        StepIsSettled(Run(es[..|es| - 1], limit), es[|es| - 1], limit);
      }
    }
  }

  /** No driver fault hits an arm whose goto is being planned. */
  ghost predicate Spared(es: seq<Event>, limit: real) {
    es != [] ==>
      && Spared(es[..|es| - 1], limit)
      && (es[|es| - 1].OnFault? ==> !IsPlanning(Run(es[..|es| - 1], limit), es[|es| - 1].arm))
  }

  lemma NobodyOrphaned(b: Book, e: Event, limit: real)
    requires Settled(b) && b.orphans == multiset{} && (e.OnFault? ==> !IsPlanning(b, e.arm))
    ensures Step(b, e, limit).orphans == multiset{}
  {
    match e
    case OnFault(arm) =>
      assert IsPlanning(b, arm) <==> arm in b.workers;
      FaultOrphans(b, arm);
    case OnTick(t) => TickLeavesWorkers(b, t, limit);
    case OnPlanReady(arm, wps) => ResultOrphans(b, arm, wps);
    case _ =>
  }

  lemma FaultOrphans(b: Book, arm: string)
    requires arm !in b.workers
    ensures DriverFault(b, arm).orphans == b.orphans
  {
  }

  lemma ResultOrphans(b: Book, arm: string, wps: Option<seq<Vec>>)
    requires b.orphans == multiset{}
    ensures PlanReady(b, arm, wps).orphans == multiset{}
  {
  }

  lemma TickLeavesWorkers(b: Book, t: TickInput, limit: real)
    ensures Tick(b, t, limit).workers == b.workers && Tick(b, t, limit).orphans == b.orphans
  {
    var r := Resolved(b, t);
    ConfirmLeavesWorkers(r.(arriving := []), t.decision, t.last, r.arriving);
    WatchLeavesWorkers(ConfirmArrivals(r, t.decision, t.last), t, limit);
  }

  lemma WatchLeavesWorkers(b: Book, t: TickInput, limit: real)
    ensures GateWatch(b, t.decision, t.last, t.now, limit).workers == b.workers
    ensures GateWatch(b, t.decision, t.last, t.now, limit).orphans == b.orphans
  {
  }

  lemma {:induction false} ConfirmLeavesWorkers(b: Book, d: Decision, last: map<string, Vec>, arrivals: seq<Arrival>)
    ensures ConfirmAll(b, d, last, arrivals).workers == b.workers && ConfirmAll(b, d, last, arrivals).orphans == b.orphans
  {
    if arrivals != [] {
      ConfirmLeavesWorkers(b, d, last, arrivals[..|arrivals| - 1]);
    }
  }

  /** Then no result is orphaned, and the books stay settled. */
  lemma {:induction false} SparedIsHarmless(es: seq<Event>, limit: real)
    requires Possible(es, limit) && Spared(es, limit)
    ensures AllHarmless(es, limit) && Run(es, limit).orphans == multiset{}
  {
    if es != [] {
      SparedIsHarmless(es[..|es| - 1], limit);
      BooksStaySettled(es[..|es| - 1], limit);
      NobodyOrphaned(Run(es[..|es| - 1], limit), es[|es| - 1], limit);
    }
  }

  // -- what the arrivals of a tick leave ----------------------------------------------------------

  /** The first arrival whose arm still counts as executing. */
  ghost predicate FirstLive(b: Book, all: seq<Arrival>, i: nat) {
    i < |all| && IsExecuting(b, all[i].arm) && forall k :: 0 <= k < i ==> !IsExecuting(b, all[k].arm)
  }

  /** Among the first `n` arrivals, the arm is executing and held short of its goal. */
  ghost predicate HeldBack(b: Book, d: Decision, last: map<string, Vec>, all: seq<Arrival>, n: nat, x: string)
    requires n <= |all|
  {
    IsExecuting(b, x) && exists i :: 0 <= i < n && all[i].arm == x && !Arrived(d, last, all[i])
  }

  /** Among the first `n` arrivals, the arm is at its goal. */
  ghost predicate Through(d: Decision, last: map<string, Vec>, all: seq<Arrival>, n: nat, x: string)
    requires n <= |all|
  {
    exists i :: 0 <= i < n && all[i].arm == x && Arrived(d, last, all[i])
  }

  /** With an empty executor, the first executing arrival is confirmed. */
  ghost predicate FirstDone(b: Book, d: Decision, last: map<string, Vec>, all: seq<Arrival>, n: nat)
    requires n <= |all|
  {
    b.plans == map[] && exists i :: 0 <= i < n && FirstLive(b, all, i) && Arrived(d, last, all[i])
  }

  /** What the first `n` arrivals leave: the held ones are in the executor again, the confirmed
      ones no longer execute. */
  ghost predicate Tally(b: Book, next: Book, d: Decision, last: map<string, Vec>, all: seq<Arrival>, n: nat)
    requires n <= |all|
  {
    && (forall x :: x in next.plans <==> x in b.plans || HeldBack(b, d, last, all, n, x))
    && (forall x :: IsExecuting(next, x) <==> IsExecuting(b, x) && !Through(d, last, all, n, x))
  }

  /** The plan counts as done, and its clock stops, exactly if the executor was empty and the
      first executing arrival was confirmed. */
  ghost predicate CountsAsDone(b: Book, next: Book, d: Decision, last: map<string, Vec>, all: seq<Arrival>, n: nat)
    requires n <= |all|
  {
    && next.replay == b.replay && next.reason == b.reason && next.arriving == b.arriving
    && if FirstDone(b, d, last, all, n) then
         next.status == Some(AtDone) && next.holdSince == None
       else
         next.status == b.status && next.holdSince == b.holdSince
  }

  lemma HeldOneMore(b: Book, d: Decision, last: map<string, Vec>, all: seq<Arrival>, n: nat, x: string)
    requires 0 < n <= |all|
    ensures HeldBack(b, d, last, all, n, x) <==>
              HeldBack(b, d, last, all, n - 1, x) || (all[n - 1].arm == x && IsExecuting(b, x) && !Arrived(d, last, all[n - 1]))
  {
  }

  lemma ThroughOneMore(d: Decision, last: map<string, Vec>, all: seq<Arrival>, n: nat, x: string)
    requires 0 < n <= |all|
    ensures Through(d, last, all, n, x) <==>
              Through(d, last, all, n - 1, x) || (all[n - 1].arm == x && Arrived(d, last, all[n - 1]))
  {
  }

  lemma DoneOneMore(b: Book, d: Decision, last: map<string, Vec>, all: seq<Arrival>, n: nat)
    requires 0 < n <= |all|
    ensures FirstDone(b, d, last, all, n) <==>
              FirstDone(b, d, last, all, n - 1) || (b.plans == map[] && FirstLive(b, all, n - 1) && Arrived(d, last, all[n - 1]))
  {
  }

  /** An arm that waits is executing as before. */
  lemma WaitsUnchanged(b: Book, mid: Book, d: Decision, last: map<string, Vec>, all: seq<Arrival>, n: nat)
    requires n < |all| && Apart(all) && Tally(b, mid, d, last, all, n)
    ensures IsExecuting(mid, all[n].arm) <==> IsExecuting(b, all[n].arm)
  {
    assert !Through(d, last, all, n, all[n].arm);
  }

  lemma TallyStep(b: Book, mid: Book, d: Decision, last: map<string, Vec>, all: seq<Arrival>, n: nat)
    requires 0 < n <= |all| && Apart(all) && Tally(b, mid, d, last, all, n - 1)
    ensures Tally(b, Confirmed(mid, d, last, all[n - 1]), d, last, all, n)
  {
    WaitsUnchanged(b, mid, d, last, all, n - 1);
    var next := Confirmed(mid, d, last, all[n - 1]);
    forall x
      ensures x in next.plans <==> x in b.plans || HeldBack(b, d, last, all, n, x)
      ensures IsExecuting(next, x) <==> IsExecuting(b, x) && !Through(d, last, all, n, x)
    {
      HeldOneMore(b, d, last, all, n, x);
      ThroughOneMore(d, last, all, n, x);
    }
  }

  /** Nothing is in the executor exactly if nothing was and no executing arrival was held. */
  lemma EmptyAfter(b: Book, mid: Book, d: Decision, last: map<string, Vec>, all: seq<Arrival>, n: nat)
    requires n <= |all| && Tally(b, mid, d, last, all, n)
    ensures mid.plans == map[] <==> b.plans == map[] && forall x :: !HeldBack(b, d, last, all, n, x)
  {
    if b.plans == map[] && forall x :: !HeldBack(b, d, last, all, n, x) {
      assert forall x :: x !in mid.plans;
    }
    if mid.plans == map[] {
      assert forall x :: x in b.plans ==> x in mid.plans;
      assert forall x :: HeldBack(b, d, last, all, n, x) ==> x in mid.plans;
    }
  }

  lemma DoneStep(b: Book, mid: Book, d: Decision, last: map<string, Vec>, all: seq<Arrival>, n: nat)
    requires 0 < n <= |all| && Apart(all) && Tally(b, mid, d, last, all, n - 1) && CountsAsDone(b, mid, d, last, all, n - 1)
    ensures CountsAsDone(b, Confirmed(mid, d, last, all[n - 1]), d, last, all, n)
  {
    WaitsUnchanged(b, mid, d, last, all, n - 1);
    DoneOneMore(b, d, last, all, n);
    EmptyAfter(b, mid, d, last, all, n - 1);
    if b.plans == map[] && IsExecuting(b, all[n - 1].arm) && Arrived(d, last, all[n - 1]) && !FirstDone(b, d, last, all, n - 1) {
      FirstOrHeld(b, d, last, all, n - 1);
    }
  }

  /** Unless the first executing arrival before `n` was confirmed, one was held or none executes. */
  lemma FirstOrHeld(b: Book, d: Decision, last: map<string, Vec>, all: seq<Arrival>, n: nat)
    requires n < |all| && IsExecuting(b, all[n].arm) && !FirstDone(b, d, last, all, n) && b.plans == map[]
    ensures FirstLive(b, all, n) <==> forall x :: !HeldBack(b, d, last, all, n, x)
  {
    if !FirstLive(b, all, n) {
      var k :| 0 <= k < n && IsExecuting(b, all[k].arm);
      var i := LeastLive(b, all, k);
      assert FirstLive(b, all, i) && i < n;
      assert !Arrived(d, last, all[i]);
      assert HeldBack(b, d, last, all, n, all[i].arm);
    }
  }

  lemma {:induction false} LeastLive(b: Book, all: seq<Arrival>, k: nat) returns (i: nat)
    requires k < |all| && IsExecuting(b, all[k].arm)
    ensures FirstLive(b, all, i) && i <= k
  {
    if j: nat :| j < k && IsExecuting(b, all[j].arm) {
      i := LeastLive(b, all, j);
    } else {
      i := k;
    }
  }

  lemma {:induction false} ConfirmTally(b: Book, d: Decision, last: map<string, Vec>, all: seq<Arrival>, n: nat)
    requires n <= |all| && Apart(all)
    ensures Tally(b, ConfirmAll(b, d, last, all[..n]), d, last, all, n)
    ensures CountsAsDone(b, ConfirmAll(b, d, last, all[..n]), d, last, all, n)
  {
    if n > 0 {
      ConfirmTally(b, d, last, all, n - 1);
      assert all[..n][..n - 1] == all[..n - 1];
      var mid := ConfirmAll(b, d, last, all[..n - 1]);
      TallyStep(b, mid, d, last, all, n);
      DoneStep(b, mid, d, last, all, n);
    }
  }

  // -- what a tick leaves -------------------------------------------------------------------------

  ghost function ConfirmedAt(b: Book, t: TickInput): Book {
    ConfirmArrivals(Resolved(b, t), t.decision, t.last)
  }

  /** The tick's arrivals empty the executor and the first of them that executes is confirmed. */
  ghost predicate DoneIn(b: Book, t: TickInput) {
    !t.replayFails && FirstDone(Stepped(b, t.arrivals), t.decision, t.last, t.arrivals, |t.arrivals|)
  }

  /** An executing arm arrived and is held. */
  ghost predicate HeldOne(b: Book, t: TickInput) {
    exists x :: HeldBack(b, t.decision, t.last, t.arrivals, |t.arrivals|, x)
  }

  /** The executor is not empty behind the gate: not all its arms arrived, or one was held. */
  ghost predicate StillLoaded(b: Book, t: TickInput) {
    Stepped(b, t.arrivals).plans != map[] || HeldOne(b, t)
  }

  ghost predicate ReplayOver(b: Book, t: TickInput) {
    t.replayOver && b.replay.Some?
  }

  /** An arm goes on executing: it was, its goal did not come through, and no replay that ends
      drove it. */
  ghost predicate Lingers(b: Book, t: TickInput, x: string) {
    && IsExecuting(b, x) && !Through(t.decision, t.last, t.arrivals, |t.arrivals|, x)
    && !(ReplayOver(b, t) && x in Driven(b))
  }

  /** What the arrivals of a tick without a failing step leave. */
  ghost predicate ArrivalsDone(b: Book, t: TickInput, c: Book) {
    && c.replay == b.replay && c.reason == b.reason && c.arriving == []
    && c.status == (if DoneIn(b, t) then Some(AtDone) else b.status)
    && c.holdSince == (if DoneIn(b, t) then None else b.holdSince)
    && (c.plans != map[] <==> StillLoaded(b, t))
    && (forall x :: x in c.plans ==> x in b.plans)
    && (forall x :: IsExecuting(c, x) <==> IsExecuting(b, x) && !Through(t.decision, t.last, t.arrivals, |t.arrivals|, x))
  }

  lemma ArrivalsAreDone(b: Book, t: TickInput)
    requires GoodTick(b, t) && !t.replayFails
    ensures ArrivalsDone(b, t, ConfirmedAt(b, t))
  {
    var stepped, c := Stepped(b, t.arrivals).(arriving := []), ConfirmedAt(b, t);
    ArrivalsTally(b, t);
    EmptyAfter(stepped, c, t.decision, t.last, t.arrivals, |t.arrivals|);
    SameTally(b, t);
    forall x | x in c.plans
      ensures x in b.plans
    {
      assert x in stepped.plans || HeldBack(stepped, t.decision, t.last, t.arrivals, |t.arrivals|, x);
    }
  }

  lemma ArrivalsTally(b: Book, t: TickInput)
    requires GoodTick(b, t) && !t.replayFails
    ensures var stepped := Stepped(b, t.arrivals).(arriving := []);
            && Tally(stepped, ConfirmedAt(b, t), t.decision, t.last, t.arrivals, |t.arrivals|)
            && CountsAsDone(stepped, ConfirmedAt(b, t), t.decision, t.last, t.arrivals, |t.arrivals|)
  {
    ConfirmTally(Stepped(b, t.arrivals).(arriving := []), t.decision, t.last, t.arrivals, |t.arrivals|);
    assert t.arrivals[..|t.arrivals|] == t.arrivals;
  }

  /** The executor's step changes nobody's state. */
  lemma SameTally(b: Book, t: TickInput)
    ensures var stepped := Stepped(b, t.arrivals);
            && FirstDone(stepped.(arriving := []), t.decision, t.last, t.arrivals, |t.arrivals|)
               == FirstDone(stepped, t.decision, t.last, t.arrivals, |t.arrivals|)
            && forall x :: HeldBack(stepped.(arriving := []), t.decision, t.last, t.arrivals, |t.arrivals|, x)
                           <==> HeldBack(b, t.decision, t.last, t.arrivals, |t.arrivals|, x)
  {
    var stepped := Stepped(b, t.arrivals);
    assert forall i: nat :: FirstLive(stepped.(arriving := []), t.arrivals, i) <==> FirstLive(stepped, t.arrivals, i);
  }

  /** A failing replay step: everything is cancelled, and nobody arrives. */
  lemma FailedTick(b: Book, t: TickInput, limit: real)
    requires t.replayFails
    ensures var next := Tick(b, t, limit);
            && next.status == Some(AtCancelled) && next.holdSince == None && !MotionActive(next) && next.arriving == []
            && next.reason == Some("replay step failed") && !MotionActive(ConfirmedAt(b, t))
            && forall x :: IsExecuting(next, x) <==> IsExecuting(b, x) && x !in Stepped(b, t.arrivals).plans && x !in Driven(b)
  {
    var r := Resolved(b, t);
    assert ConfirmArrivals(r, t.decision, t.last) == r.(arriving := []);
    ExpireLeaves(AfterGate(r, t, limit), t.expired);
  }

  lemma ExpireLeaves(b: Book, expired: set<string>)
    ensures forall x :: IsExecuting(Expire(b, expired), x) <==> IsExecuting(b, x)
  {
  }

  /** What a tick leaves of a book: status, clock, motion, and who executes. */
  ghost predicate TickLeaves(b: Book, t: TickInput, limit: real, c: Book, next: Book) {
    if !MotionActive(c) then
      next.status == c.status && next.holdSince == c.holdSince && next.reason == c.reason && !MotionActive(next)
      && forall x :: IsExecuting(next, x) <==> IsExecuting(c, x)
    else if Cancels(b, t, limit) then
      next.status == Some(AtCancelled) && next.holdSince == None && !MotionActive(next)
      && next.reason == Some("held by the safety gate")
      && forall x :: IsExecuting(next, x) <==> IsExecuting(c, x) && x !in MotionArms(c)
    else if ReplayOver(b, t) then
      next.status == Some(AtDone) && next.holdSince == None && next.replay == None && next.plans == c.plans && next.reason == c.reason
      && forall x :: IsExecuting(next, x) <==> IsExecuting(c, x) && x !in Driven(b)
    else
      next.status == c.status && next.holdSince == Clock(c.holdSince, Seen(b, t)) && next.replay == c.replay
      && next.plans == c.plans && next.reason == c.reason
      && forall x :: IsExecuting(next, x) <==> IsExecuting(c, x)
  }

  /** The book behind the arrivals, the watch and the replay's end. */
  ghost function Left(b: Book, t: TickInput, limit: real): Book {
    var c := ConfirmedAt(b, t);
    if !MotionActive(c) then c
    else if Cancels(b, t, limit) then CancelPlans(c, "held by the safety gate")
    else
      var ticked := c.(holdSince := Clock(c.holdSince, Seen(b, t)));
      if t.replayOver then FinishReplay(ticked) else ticked
  }

  lemma TickIsLeft(b: Book, t: TickInput, limit: real)
    ensures Tick(b, t, limit) == Expire(Left(b, t, limit), t.expired)
  {
    if MotionActive(ConfirmedAt(b, t)) {
      GateWatchByClock(b, t, limit);
    }
  }

  lemma TickOutcome(b: Book, t: TickInput, limit: real)
    requires GoodTick(b, t) && !t.replayFails
    ensures ArrivalsDone(b, t, ConfirmedAt(b, t)) && TickLeaves(b, t, limit, ConfirmedAt(b, t), Tick(b, t, limit))
  {
    ArrivalsAreDone(b, t);
    TickIsLeft(b, t, limit);
    ExpireLeaves(Left(b, t, limit), t.expired);
    LeftOutcome(b, t, limit);
  }

  lemma LeftOutcome(b: Book, t: TickInput, limit: real)
    requires ConfirmedAt(b, t).replay == b.replay
    ensures TickLeaves(b, t, limit, ConfirmedAt(b, t), Left(b, t, limit))
  {
  }

  lemma OnlyPlansArrive(b: Book, t: TickInput)
    requires GoodTick(b, t)
    ensures t.arrivals != [] ==> b.plans != map[]
    ensures t.arrivals == [] ==> Stepped(b, t.arrivals).plans == b.plans && !HeldOne(b, t)
    ensures t.replayFails ==> b.replay.Some?
    ensures |t.arrivals| > 1 ==> exists x, y :: x in b.plans && y in b.plans && x != y
  {
    if t.arrivals == [] {
      assert ArmsOf(t.arrivals) == {};
    } else {
      assert t.arrivals[0].arm in b.plans;
      assert |t.arrivals| > 1 ==> t.arrivals[1].arm in b.plans;
    }
  }

  // -- when a motion is done, over a run ----------------------------------------------------------

  ghost predicate TurnsDone(b: Book, next: Book) {
    b.status != Some(AtDone) && next.status == Some(AtDone)
  }

  ghost predicate SomeExecutes(b: Book) {
    exists x :: IsExecuting(b, x)
  }

  ghost predicate TickDone(b: Book, t: TickInput, limit: real) {
    !t.replayFails && !Cancels(b, t, limit) && (DoneIn(b, t) || ReplayOver(b, t))
  }

  /** The ways a motion or an empty plan gets done. */
  ghost predicate GetsDone(b: Book, e: Event, limit: real) {
    match e
    case OnTick(t) => TickDone(b, t, limit)
    case OnExecutePlan(plan, _, refused) => plan.None? && !refused && !IsBusy(b)
    case _ => false
  }

  /** Done, and yet something moves on: a replay that is not over, or behind the arrival that was
      confirmed or the replay that ended a plan that is not. */
  ghost predicate DoneThoughMoving(b: Book, e: Event, limit: real) {
    && e.OnTick? && TickDone(b, e.t, limit)
    && if ReplayOver(b, e.t) then StillLoaded(b, e.t) else b.replay.Some? || HeldOne(b, e.t)
  }

  /** Done, and yet an arm is said to execute. */
  ghost predicate DoneThoughExecuting(b: Book, e: Event, limit: real) {
    match e
    case OnTick(t) => TickDone(b, t, limit) && exists x :: Lingers(b, t, x)
    case _ => GetsDone(b, e, limit) && SomeExecutes(b)
  }

  lemma TickTurnsDone(b: Book, t: TickInput, limit: real)
    requires GoodTick(b, t) && b.status != Some(AtDone)
    ensures Tick(b, t, limit).status == Some(AtDone) <==> TickDone(b, t, limit)
    ensures TickDone(b, t, limit) ==>
              && (MotionActive(Tick(b, t, limit)) <==> DoneThoughMoving(b, OnTick(t), limit))
              && forall x :: IsExecuting(Tick(b, t, limit), x) <==> Lingers(b, t, x)
  {
    if t.replayFails {
      FailedTick(b, t, limit);
    } else {
      TickOutcome(b, t, limit);
    }
  }

  lemma CommandIsDone(b: Book, e: Event, limit: real)
    requires b.status != Some(AtDone) && !e.OnTick?
    ensures Step(b, e, limit).status == Some(AtDone) <==> GetsDone(b, e, limit)
    ensures GetsDone(b, e, limit) ==> !MotionActive(Step(b, e, limit)) && Step(b, e, limit).state == b.state
  {
    match e
    case OnGoto(arm) => GotoIsNotDone(b, arm);
    case OnFault(arm) => FaultIsNotDone(b, arm);
    case _ =>
  }

  lemma GotoIsNotDone(b: Book, arm: string)
    requires b.status != Some(AtDone)
    ensures Goto(b, arm).status != Some(AtDone)
  {
  }

  lemma FaultIsNotDone(b: Book, arm: string)
    requires b.status != Some(AtDone)
    ensures DriverFault(b, arm).status != Some(AtDone)
  {
  }

  /** Over every run, by every event: exactly when the status turns `done`, exactly when it does
      while something moves on, and exactly when it does while an arm is said to execute. */
  lemma DoneTooEarly(es: seq<Event>, e: Event, limit: real)
    requires Possible(es, limit) && Allowed(Run(es, limit), e)
    ensures var (b, next) := (Run(es, limit), Step(Run(es, limit), e, limit));
            && (TurnsDone(b, next) <==> b.status != Some(AtDone) && GetsDone(b, e, limit))
            && (TurnsDone(b, next) && MotionActive(next) <==> b.status != Some(AtDone) && DoneThoughMoving(b, e, limit))
            && (TurnsDone(b, next) && SomeExecutes(next) <==> b.status != Some(AtDone) && DoneThoughExecuting(b, e, limit))
  {
    var b := Run(es, limit);
    if b.status != Some(AtDone) {
      if e.OnTick? {
        TickTurnsDone(b, e.t, limit);
      } else {
        CommandIsDone(b, e, limit);
        SameState(b, Step(b, e, limit));
      }
    }
  }

  lemma SameState(b: Book, next: Book)
    ensures b.state == next.state ==> (SomeExecutes(b) <==> SomeExecutes(next))
  {
    if b.state == next.state {
      assert forall x :: IsExecuting(b, x) <==> IsExecuting(next, x);
    }
  }

  /** The plan's arm is at its goal: the goal came out of the gate, or the arm sits unblocked and
      unmoved at the end of the travel its carriage goal lies beyond. */
  ghost predicate SoleArrival(b: Book, t: TickInput) {
    && |t.arrivals| == 1 && b.plans.Keys == {t.arrivals[0].arm} && !t.replayFails
    && IsExecuting(b, t.arrivals[0].arm) && Arrived(t.decision, t.last, t.arrivals[0])
  }

  ghost predicate OneLoaded(b: Book) {
    forall a, c :: a in b.plans && c in b.plans ==> a == c
  }

  lemma OneArmDone(b: Book, t: TickInput)
    requires GoodTick(b, t) && OneLoaded(b)
    ensures DoneIn(b, t) <==> SoleArrival(b, t)
    ensures SoleArrival(b, t) ==> !StillLoaded(b, t)
  {
    OnlyPlansArrive(b, t);
    var stepped := Stepped(b, t.arrivals);
    if DoneIn(b, t) {
      var i: nat :| i < |t.arrivals| && FirstLive(stepped, t.arrivals, i) && Arrived(t.decision, t.last, t.arrivals[i]);
      assert t.arrivals[i].arm in b.plans;
      assert b.plans.Keys == {t.arrivals[i].arm};
      assert IsExecuting(b, t.arrivals[i].arm);
    }
    if SoleArrival(b, t) {
      assert t.arrivals[0].arm in ArmsOf(t.arrivals);
      assert stepped.plans.Keys == {};
      assert stepped.plans == map[];
      assert IsExecuting(stepped, t.arrivals[0].arm);
      assert FirstLive(stepped, t.arrivals, 0);
    }
  }

  /** Over every run: with one arm at most in the executor, the status turns `done` exactly in a
      tick in which that arm is at its goal behind the gate or a replay's rows run out, or when
      the manager sends a plan without waypoints; never by anything else. A held goal is back in
      the executor, or the watch gave the plan up. */
  lemma SinglePlanIsDone(es: seq<Event>, e: Event, limit: real)
    requires Possible(es, limit) && Allowed(Run(es, limit), e)
    requires OneLoaded(Run(es, limit)) && Run(es, limit).status != Some(AtDone)
    ensures var (b, next) := (Run(es, limit), Step(Run(es, limit), e, limit));
            match e
            case OnTick(t) =>
              && (next.status == Some(AtDone) <==>
                    !t.replayFails && !Cancels(b, t, limit) && (SoleArrival(b, t) || ReplayOver(b, t)))
              && (SoleArrival(b, t) && b.replay.None? ==> !Cancels(b, t, limit) && !MotionActive(next))
              && (HeldOne(b, t) && !t.replayFails ==> Cancels(b, t, limit) || next.plans != map[])
            case _ => next.status == Some(AtDone) <==> GetsDone(b, e, limit)
  {
    var b := Run(es, limit);
    if e.OnTick? {
      TickTurnsDone(b, e.t, limit);
      OneArmDone(b, e.t);
      if !e.t.replayFails {
        TickOutcome(b, e.t, limit);
      }
    } else {
      CommandIsDone(b, e, limit);
    }
  }

  // -- what counts as arrived ---------------------------------------------------------------------

  /** The carriage command cannot leave its travel: once at an end, it stays there. */
  lemma BeyondTravelIsPinned(c: LoopCaps, q: Vec, qLast: Vec)
    requires ValidBound(c) && c.dqMax > 0.0 && |q| == |qLast| == N_JOINTS + 1
    ensures qLast[N_JOINTS] == RAIL_TRAVEL_M && q[N_JOINTS] >= RAIL_TRAVEL_M ==> CapJointStep(c, q, qLast).0[N_JOINTS] == RAIL_TRAVEL_M
    ensures qLast[N_JOINTS] == 0.0 && q[N_JOINTS] <= 0.0 ==> CapJointStep(c, q, qLast).0[N_JOINTS] == 0.0
  {
  }

  /** A goal whose carriage lies beyond the travel is not waited for: with the joints at the goal
      and the carriage at that end, the tick's own capped command, let through, is an arrival. */
  lemma PinnedGoalArrives(c: LoopCaps, goal: Vec, at: Vec, arm: string, d: Decision, last: map<string, Vec>)
    requires ValidBound(c) && c.dqMax > 0.0 && |goal| == |at| == N_JOINTS + 1 && at[..N_JOINTS] == goal[..N_JOINTS]
    requires (at[N_JOINTS] == RAIL_TRAVEL_M && goal[N_JOINTS] > RAIL_TRAVEL_M) || (at[N_JOINTS] == 0.0 && goal[N_JOINTS] < 0.0)
    requires !d.blocked && arm in d.out && d.out[arm] == CapJointStep(c, goal, at).0 && arm in last && last[arm] == at
    ensures d.out[arm] == at && Arrived(d, last, Arrival(arm, goal))
  {
    BeyondTravelIsPinned(c, goal, at);
    var f := CapKeepsDirection(c, goal, at);
    var out := CapJointStep(c, goal, at).0;
    forall j | 0 <= j < N_JOINTS
      ensures out[j] == at[j] && goal[j] == at[j]
    {
      assert goal[j] == goal[..N_JOINTS][j] && at[j] == at[..N_JOINTS][j];
      assert JointStep(out, at)[j] == f * JointStep(goal, at)[j];
    }
  }

  /** The relative part of the closeness test: an output four micrometres short of the carriage
      goal counts as arrived, four thousand times the tolerance the comments speak of. */
  lemma ArrivedOffTheGoal(arm: string)
    ensures var goal := [0.0, 0.0, 0.0, 0.0, 0.0, 0.0, 0.0, 0.5];
            var out := [0.0, 0.0, 0.0, 0.0, 0.0, 0.0, 0.0, 0.499996];
            && Abs(out[N_JOINTS] - goal[N_JOINTS]) == 4000.0 * CLOSE_ATOL
            && Arrived(Decision(map[arm := out], false), map[], Arrival(arm, goal))
  {
  }

  /** In slot `j` the output is within a nanometre or nanoradian of the goal and a hundred
      thousandth of it. */
  ghost predicate SlotReached(out: Vec, goal: Vec, j: int)
    requires 0 <= j < |out| == |goal|
  {
    Abs(out[j] - goal[j]) <= 0.000000001 + 0.00001 * Abs(goal[j])
  }

  /** The output reached the goal in every slot, carriage included. */
  ghost predicate GoalReached(out: Vec, goal: Vec) {
    |out| == |goal| && forall j :: 0 <= j < |out| ==> SlotReached(out, goal, j)
  }

  /** The output reached the goal in the seven joints, the arm has not moved, and the carriage is
      within a nanometre of the end of its travel the goal lies beyond. */
  ghost predicate StuckAtTheEnd(out: Vec, last: Vec, goal: Vec) {
    && |out| > 7 && |goal| > 7 && GoalReached(out[..7], goal[..7]) && GoalReached(out, last)
    && ((-0.000000001 <= out[7] <= 0.000000001 && goal[7] < 0.0) || (0.649999999 <= out[7] <= 0.650000001 && goal[7] > 0.65))
  }

  /** Exactly when an arrival is confirmed, slot by slot. */
  lemma ArrivedExactly(d: Decision, last: map<string, Vec>, a: Arrival)
    ensures Arrived(d, last, a) <==>
              && a.arm in d.out
              && (GoalReached(d.out[a.arm], a.goal)
                  || (!d.blocked && a.arm in last && StuckAtTheEnd(d.out[a.arm], last[a.arm], a.goal)))
  {
    if a.arm in d.out {
      CloseBySlots(d.out[a.arm], a.goal);
      if a.arm in last {
        CloseBySlots(d.out[a.arm], last[a.arm]);
        EndBySlots(d.out[a.arm], last[a.arm], a.goal);
      }
    }
  }

  lemma CloseBySlots(out: Vec, goal: Vec)
    ensures AllClose(out, goal) <==> GoalReached(out, goal)
  {
    if |out| == |goal| {
      forall j | 0 <= j < |out|
        ensures SlotReached(out, goal, j) <==> Abs(out[j] - goal[j]) <= CLOSE_ATOL + CLOSE_RTOL * Abs(goal[j])
      {
      }
    }
  }

  lemma EndBySlots(out: Vec, last: Vec, goal: Vec)
    ensures AllClose(out, last) && ClampedRailGoal(out, goal) <==> StuckAtTheEnd(out, last, goal)
  {
    CloseBySlots(out, last);
    if |out| > 7 && |goal| > 7 {
      CloseBySlots(out[..7], goal[..7]);
      assert AllClose(out[..N_JOINTS], goal[..N_JOINTS]) <==> GoalReached(out[..7], goal[..7]);
      assert Abs(out[7]) <= CLOSE_ATOL <==> -0.000000001 <= out[7] <= 0.000000001;
      assert Abs(out[7] - RAIL_TRAVEL_M) <= CLOSE_ATOL <==> 0.649999999 <= out[7] <= 0.650000001;
      assert AllClose(out, last) && ClampedRailGoal(out, goal) ==> StuckAtTheEnd(out, last, goal);
    }
  }

  /** Of an executing arm that arrives: it goes on executing, its goal in the executor again, unless
      the gated output reached the goal in every slot or is stuck at the end beyond which it lies. */
  ghost predicate StaysExecuting(b: Book, next: Book, d: Decision, last: map<string, Vec>, a: Arrival) {
    IsExecuting(b, a.arm) ==>
      var through := a.arm in d.out
                     && (GoalReached(d.out[a.arm], a.goal)
                         || (!d.blocked && a.arm in last && StuckAtTheEnd(d.out[a.arm], last[a.arm], a.goal)));
      (IsExecuting(next, a.arm) <==> !through) && (!through ==> a.arm in next.plans)
  }

  lemma SlotBySlot(b: Book, d: Decision, last: map<string, Vec>)
    ensures Apart(b.arriving) ==> forall i :: 0 <= i < |b.arriving| ==> StaysExecuting(b, ConfirmArrivals(b, d, last), d, last, b.arriving[i])
  {
    if Apart(b.arriving) {
      var all := b.arriving;
      ConfirmTally(b.(arriving := []), d, last, all, |all|);
      assert all[..|all|] == all;
      forall i | 0 <= i < |all|
        ensures StaysExecuting(b, ConfirmArrivals(b, d, last), d, last, all[i])
      {
        ArrivedExactly(d, last, all[i]);
        ThroughAt(d, last, all, i);
        if IsExecuting(b, all[i].arm) && !Arrived(d, last, all[i]) {
          HeldAt(b.(arriving := []), d, last, all, i);
        }
      }
    }
  }

  lemma ThroughAt(d: Decision, last: map<string, Vec>, all: seq<Arrival>, i: nat)
    requires i < |all| && Apart(all)
    ensures Through(d, last, all, |all|, all[i].arm) <==> Arrived(d, last, all[i])
  {
  }

  lemma HeldAt(b: Book, d: Decision, last: map<string, Vec>, all: seq<Arrival>, i: nat)
    requires i < |all| && IsExecuting(b, all[i].arm) && !Arrived(d, last, all[i])
    ensures HeldBack(b, d, last, all, |all|, all[i].arm)
  {
  }

  /** Over every run, with one arm executing a plan and nothing else moving: the status turns `done`
      in a tick exactly if that arm's executor hands back its goal and the gated output reached it
      in every slot, or the arm sits unblocked and unmoved at the end of the travel with the joints
      at the goal. */
  lemma SinglePlanArrives(es: seq<Event>, t: TickInput, arm: string, limit: real)
    requires Possible(es, limit) && GoodTick(Run(es, limit), t)
    requires Run(es, limit).plans.Keys == {arm} && IsExecuting(Run(es, limit), arm) && Run(es, limit).replay.None?
    requires Run(es, limit).status != Some(AtDone)
    ensures Tick(Run(es, limit), t, limit).status == Some(AtDone) <==>
              && |t.arrivals| == 1 && arm in t.decision.out
              && (GoalReached(t.decision.out[arm], t.arrivals[0].goal)
                  || (!t.decision.blocked && arm in t.last && StuckAtTheEnd(t.decision.out[arm], t.last[arm], t.arrivals[0].goal)))
  {
    var b := Run(es, limit);
    SinglePlanIsDone(es, OnTick(t), limit);
    OnlyPlansArrive(b, t);
    if t.arrivals != [] {
      assert t.arrivals[0].arm in b.plans;
      ArrivedExactly(t.decision, t.last, t.arrivals[0]);
    }
  }

  // -- said to execute, and nothing moves it ------------------------------------------------------

  ghost predicate Stale(b: Book, x: string) {
    IsExecuting(b, x) && !Moves(b, x)
  }

  /** A failing replay step makes the loop forget that the arm arrived. */
  ghost predicate Swallows(b: Book, e: Event, x: string) {
    e.OnTick? && e.t.replayFails && x in ArmsOf(e.t.arrivals) && IsExecuting(b, x) && x !in Driven(b)
  }

  /** Exactly when an arm comes to be said to execute while nothing moves it. */
  lemma StaleBegins(b: Book, e: Event, x: string, limit: real)
    requires b.arriving == [] && Allowed(b, e) && !Stale(b, x)
    ensures Stale(Step(b, e, limit), x) <==> Swallows(b, e, x)
  {
    match e
    case OnTick(t) => StaleTick(b, t, x, limit);
    case OnGoto(arm) => StaleGoto(b, arm, x);
    case OnFault(arm) => StaleFault(b, arm, x);
    case OnPlanReady(arm, wps) => StaleResult(b, arm, wps, x);
    case _ => StaleCommand(b, e, x, limit);
  }

  lemma StaleCommand(b: Book, e: Event, x: string, limit: real)
    requires b.arriving == [] && !Stale(b, x) && (e.OnExecutePlan? || e.OnPlayback? || e.OnReplay? || e.OnCancel? || e.OnInput?)
    ensures !Stale(Step(b, e, limit), x)
  {
  }

  lemma StaleGoto(b: Book, arm: string, x: string)
    requires b.arriving == [] && !Stale(b, x)
    ensures !Stale(Goto(b, arm), x)
  {
  }

  lemma StaleFault(b: Book, arm: string, x: string)
    requires b.arriving == [] && !Stale(b, x)
    ensures !Stale(DriverFault(b, arm), x)
  {
  }

  lemma StaleResult(b: Book, arm: string, wps: Option<seq<Vec>>, x: string)
    requires b.arriving == [] && !Stale(b, x)
    ensures !Stale(PlanReady(b, arm, wps), x)
  {
    CameBackLeaves(b, arm);
    StaleAnswer(CameBack(b, arm), arm, wps, x);
  }

  lemma StaleAnswer(b: Book, arm: string, wps: Option<seq<Vec>>, x: string)
    requires b.arriving == [] && !Stale(b, x)
    ensures !Stale(Answered(b, arm, wps), x)
  {
  }

  lemma StaleTick(b: Book, t: TickInput, x: string, limit: real)
    requires b.arriving == [] && GoodTick(b, t) && !Stale(b, x)
    ensures Stale(Tick(b, t, limit), x) <==> Swallows(b, OnTick(t), x)
  {
    if t.replayFails {
      FailedTick(b, t, limit);
    } else {
      TickOutcome(b, t, limit);
      StaleConfirmed(b, t, x);
      StaleLeft(b, t, x, limit, ConfirmedAt(b, t), Tick(b, t, limit));
    }
  }

  lemma StaleLeft(b: Book, t: TickInput, x: string, limit: real, c: Book, next: Book)
    requires TickLeaves(b, t, limit, c, next) && c.arriving == [] && c.replay == b.replay && !Stale(c, x)
    ensures !Stale(next, x)
  {
  }

  lemma StaleConfirmed(b: Book, t: TickInput, x: string)
    requires b.arriving == [] && GoodTick(b, t) && !Stale(b, x) && !t.replayFails
    ensures !Stale(ConfirmedAt(b, t), x)
  {
    var stepped := Stepped(b, t.arrivals).(arriving := []);
    ArrivalsTally(b, t);
    if IsExecuting(b, x) && x in ArmsOf(t.arrivals) {
      var i :| 0 <= i < |t.arrivals| && t.arrivals[i].arm == x;
      assert IsExecuting(stepped, x);
      assert Arrived(t.decision, t.last, t.arrivals[i]) ==> Through(t.decision, t.last, t.arrivals, |t.arrivals|, x);
      assert !Arrived(t.decision, t.last, t.arrivals[i]) ==> HeldBack(stepped, t.decision, t.last, t.arrivals, |t.arrivals|, x);
    }
  }

  lemma NobodyStale(b: Book)
    requires b.arriving == [] && forall x :: !Stale(b, x)
    ensures forall x :: IsExecuting(b, x) ==> Moves(b, x)
    ensures SomeExecutes(b) ==> MotionActive(b)
  {
    forall x | IsExecuting(b, x)
      ensures Moves(b, x) && MotionActive(b)
    {
      assert !Stale(b, x);
    }
  }

  lemma {:induction false} NobodyArriving(es: seq<Event>, limit: real)
    requires Possible(es, limit)
    ensures Run(es, limit).arriving == []
  {
    if es != [] {
      var front, e := es[..|es| - 1], es[|es| - 1];
      NobodyArriving(front, limit);
      StepClearsArrivals(Run(front, limit), e, limit);
    }
  }

  lemma StepClearsArrivals(b: Book, e: Event, limit: real)
    requires b.arriving == [] && Allowed(b, e)
    ensures Step(b, e, limit).arriving == []
  {
    match e
    case OnTick(t) => TickClearsArrivals(b, t, limit);
    case OnPlanReady(arm, wps) => ResultClearsArrivals(b, arm, wps);
    case OnFault(arm) => FaultClearsArrivals(b, arm);
    case _ =>
  }

  lemma TickClearsArrivals(b: Book, t: TickInput, limit: real)
    ensures Tick(b, t, limit).arriving == []
  {
    var r := Resolved(b, t);
    ConfirmKeepsArriving(r.(arriving := []), t.decision, t.last, r.arriving);
    WatchClearsArrivals(ConfirmArrivals(r, t.decision, t.last), t, limit);
  }

  lemma WatchClearsArrivals(b: Book, t: TickInput, limit: real)
    requires b.arriving == []
    ensures GateWatch(b, t.decision, t.last, t.now, limit).arriving == []
  {
  }

  lemma ResultClearsArrivals(b: Book, arm: string, wps: Option<seq<Vec>>)
    ensures PlanReady(b, arm, wps).arriving == b.arriving
  {
    CameBackLeaves(b, arm);
    AnswerClearsArrivals(CameBack(b, arm), arm, wps);
  }

  lemma AnswerClearsArrivals(b: Book, arm: string, wps: Option<seq<Vec>>)
    ensures Answered(b, arm, wps).arriving == b.arriving
  {
  }

  lemma FaultClearsArrivals(b: Book, arm: string)
    requires b.arriving == []
    ensures DriverFault(b, arm).arriving == []
  {
  }

  /** No tick of the run forgot an arrival. */
  ghost predicate NothingSwallowed(es: seq<Event>, limit: real) {
    es != [] ==>
      NothingSwallowed(es[..|es| - 1], limit) && SwallowsNobody(Run(es[..|es| - 1], limit), es[|es| - 1])
  }

  ghost predicate SwallowsNobody(b: Book, e: Event) {
    forall x :: !Swallows(b, e, x)
  }

  /** Over every run in which no failing replay step comes after an arrival of the same tick, an
      arm said to execute moves; so a plan without waypoints is never done too early, and any
      other `done` with an arm executing is one with something moving on. */
  lemma {:induction false} ExecutingArmsMove(es: seq<Event>, limit: real)
    requires Possible(es, limit) && NothingSwallowed(es, limit)
    ensures forall x :: IsExecuting(Run(es, limit), x) ==> Moves(Run(es, limit), x)
    ensures SomeExecutes(Run(es, limit)) ==> MotionActive(Run(es, limit))
  {
    if es == [] {
      StartIsSettled();
      assert forall x :: !Stale(START, x);
    } else {
      var front, e := es[..|es| - 1], es[|es| - 1];
      ExecutingArmsMove(front, limit);
      NobodyArriving(front, limit);
      forall x
        ensures !Stale(Run(es, limit), x)
      {
        assert !Swallows(Run(front, limit), e, x);
        assert !Stale(Run(front, limit), x);
        StaleBegins(Run(front, limit), e, x, limit);
      }
    }
    NobodyArriving(es, limit);
    NobodyStale(Run(es, limit));
  }

  // -- when a held plan is given up ---------------------------------------------------------------

  /** One tick of the watch: was everything that moves held, and when. */
  datatype Observation = Observation(held: bool, now: real)

  function Clock(since: Option<real>, o: Observation): Option<real> {
    if !o.held then None else if since.None? then Some(o.now) else since
  }

  ghost function ClockAfter(os: seq<Observation>): Option<real> {
    if os == [] then None else Clock(ClockAfter(os[..|os| - 1]), os[|os| - 1])
  }

  /** The unbroken held stretch that ends with the last tick starts with tick `j`. */
  ghost predicate Stretch(os: seq<Observation>, j: nat) {
    j < |os| && (forall k :: j <= k < |os| ==> os[k].held) && (j > 0 ==> !os[j - 1].held)
  }

  lemma {:induction false} ClockIsStretch(os: seq<Observation>) returns (j: nat)
    ensures ClockAfter(os).None? <==> (os == [] || !os[|os| - 1].held)
    ensures ClockAfter(os).Some? ==> Stretch(os, j) && ClockAfter(os) == Some(os[j].now)
  {
    j := 0;
    if os != [] && os[|os| - 1].held {
      var front := os[..|os| - 1];
      j := ClockIsStretch(front);
      if ClockAfter(front).None? {
        j := |os| - 1;
      } else {
        assert forall k :: 0 <= k < |front| ==> front[k] == os[k];
      }
    }
  }

  lemma NoLaterStart(os: seq<Observation>, i: nat, j: nat)
    requires Stretch(os, i) && i < j < |os|
    ensures !Stretch(os, j)
  {
    assert os[j - 1].held;
  }

  lemma StretchIsUnique(os: seq<Observation>, i: nat, j: nat)
    requires Stretch(os, i) && Stretch(os, j)
    ensures i == j
  {
    if i < j {
      NoLaterStart(os, i, j);
    } else if j < i {
      NoLaterStart(os, j, i);
    }
  }

  ghost function Seen(b: Book, t: TickInput): Observation {
    Observation(Held(t.decision, t.last, MotionArms(ConfirmedAt(b, t))), t.now)
  }

  /** Does the watch cancel in this tick? It only looks while something moves behind the
      arrivals. */
  ghost predicate Cancels(b: Book, t: TickInput, limit: real) {
    MotionActive(ConfirmedAt(b, t)) && TooLong(ConfirmedAt(b, t).holdSince, Seen(b, t), limit)
  }

  lemma GateWatchByClock(b: Book, t: TickInput, limit: real)
    requires MotionActive(ConfirmedAt(b, t))
    ensures var confirmed := ConfirmedAt(b, t);
            GateWatch(confirmed, t.decision, t.last, t.now, limit)
            == if Cancels(b, t, limit) then CancelPlans(confirmed, "held by the safety gate")
               else confirmed.(holdSince := Clock(confirmed.holdSince, Seen(b, t)))
  {
  }

  /** The newest observation ends an unbroken held stretch at least `limit` long. */
  ghost predicate LongStretch(os: seq<Observation>, limit: real) {
    os != [] && exists j: nat :: Stretch(os, j) && os[|os| - 1].now - os[j].now >= limit
  }

  ghost predicate TooLong(since: Option<real>, o: Observation, limit: real) {
    o.held && o.now - Clock(since, o).value >= limit
  }

  lemma TooLongIsLongStretch(os: seq<Observation>, limit: real)
    requires os != []
    ensures TooLong(ClockAfter(os[..|os| - 1]), os[|os| - 1], limit) <==> LongStretch(os, limit)
  {
    var o := os[|os| - 1];
    if o.held {
      var j := ClockIsStretch(os);
      assert Stretch(os, j);
      forall i: nat | Stretch(os, i)
        ensures i == j
      {
        StretchIsUnique(os, i, j);
      }
    } else {
      forall j: nat | j < |os|
        ensures !Stretch(os, j)
      {
        assert !os[|os| - 1].held;
      }
    }
  }

  /** The manager starts a motion, or sends a plan without waypoints. */
  ghost predicate Begins(b: Book, e: Event) {
    match e
    case OnExecutePlan(_, _, refused) => !refused && !IsBusy(b)
    case OnPlayback(paths, refused) => !refused && paths != map[] && !IsBusy(b)
    case OnReplay(arms, refused) => !refused && arms != {} && !IsBusy(b)
    case _ => false
  }

  /** An event between ticks that ends the motion by cancelling it. */
  ghost predicate Cuts(b: Book, e: Event) {
    match e
    case OnGoto(_) => b.interruptible && MotionActive(b)
    case OnFault(_) => b.interruptible && MotionActive(b)
    case OnInput(_) => b.interruptible && MotionActive(b)
    case OnCancel(_) => MotionActive(b)
    case _ => false
  }

  lemma BetweenTicks(b: Book, e: Event, limit: real)
    requires !e.OnTick?
    ensures Step(b, e, limit).holdSince == if Begins(b, e) || Cuts(b, e) then None else b.holdSince
  {
    match e
    case OnGoto(arm) => GotoAndClock(b, arm);
    case OnPlanReady(arm, wps) => ResultAndClock(b, arm, wps);
    case OnExecutePlan(plan, interruptible, refused) => PlanAndClock(b, plan, interruptible, refused);
    case OnFault(arm) => FaultAndClock(b, arm);
    case _ =>
  }

  lemma GotoAndClock(b: Book, arm: string)
    ensures Goto(b, arm).holdSince == if b.interruptible && MotionActive(b) then None else b.holdSince
  {
  }

  lemma ResultAndClock(b: Book, arm: string, wps: Option<seq<Vec>>)
    ensures PlanReady(b, arm, wps).holdSince == b.holdSince
  {
  }

  lemma PlanAndClock(b: Book, plan: Option<(string, seq<Vec>)>, interruptible: bool, refused: bool)
    ensures ExecutePlan(b, plan, interruptible, refused).holdSince == if !refused && !IsBusy(b) then None else b.holdSince
  {
  }

  lemma FaultAndClock(b: Book, arm: string)
    ensures DriverFault(b, arm).holdSince == if b.interruptible && MotionActive(b) then None else b.holdSince
  {
  }

  /** What the watch has seen since the clock was last stopped: by the start of a motion of the
      manager's, a cancellation, or a tick that calls the motion done. */
  ghost function Watched(es: seq<Event>, limit: real): seq<Observation> {
    if es == [] then []
    else
      var front, e := es[..|es| - 1], es[|es| - 1];
      var b := Run(front, limit);
      match e
      case OnTick(t) => WatchedIn(b, t, Watched(front, limit), limit)
      case _ => if Begins(b, e) || Cuts(b, e) then [] else Watched(front, limit)
  }

  ghost function WatchedIn(b: Book, t: TickInput, before: seq<Observation>, limit: real): seq<Observation> {
    var base := if DoneIn(b, t) || t.replayFails then [] else before;
    if !MotionActive(ConfirmedAt(b, t)) then base
    else if Cancels(b, t, limit) || ReplayOver(b, t) then []
    else base + [Seen(b, t)]
  }

  lemma ClockInTick(b: Book, t: TickInput, before: seq<Observation>, limit: real)
    requires GoodTick(b, t) && b.holdSince == ClockAfter(before)
    ensures Tick(b, t, limit).holdSince == ClockAfter(WatchedIn(b, t, before, limit))
  {
    if t.replayFails {
      FailedTick(b, t, limit);
    } else {
      TickOutcome(b, t, limit);
      var base := if DoneIn(b, t) then [] else before;
      assert (base + [Seen(b, t)])[..|base|] == base;
    }
  }

  lemma {:induction false} ClockFollows(es: seq<Event>, limit: real)
    requires Possible(es, limit)
    ensures Run(es, limit).holdSince == ClockAfter(Watched(es, limit))
  {
    if es != [] {
      var front, e := es[..|es| - 1], es[|es| - 1];
      ClockFollows(front, limit);
      if e.OnTick? {
        ClockInTick(Run(front, limit), e.t, Watched(front, limit), limit);
      } else {
        BetweenTicks(Run(front, limit), e, limit);
      }
    }
  }

  /** What the watch has to go by in this tick: nothing, if the tick's arrivals stopped the clock. */
  ghost function Reckoned(es: seq<Event>, t: TickInput, limit: real): seq<Observation> {
    (if DoneIn(Run(es, limit), t) then [] else Watched(es, limit)) + [Seen(Run(es, limit), t)]
  }

  /** Over every run, whatever comes between the ticks: the watch gives a motion up in a tick
      exactly when something moves behind the tick's arrivals and the tick ends an unbroken stretch
      of held ticks, since the clock was last stopped, that spans at least the limit. */
  lemma GivesUpAfterTheLimit(es: seq<Event>, t: TickInput, limit: real)
    requires Possible(es, limit) && GoodTick(Run(es, limit), t)
    ensures Cancels(Run(es, limit), t, limit) <==>
              MotionActive(ConfirmedAt(Run(es, limit), t)) && LongStretch(Reckoned(es, t, limit), limit)
    ensures Cancels(Run(es, limit), t, limit) ==>
              Tick(Run(es, limit), t, limit).reason == Some("held by the safety gate") && !MotionActive(Tick(Run(es, limit), t, limit))
    ensures !Cancels(Run(es, limit), t, limit) && !t.replayFails ==> Tick(Run(es, limit), t, limit).reason == Run(es, limit).reason
  {
    var b, os := Run(es, limit), Reckoned(es, t, limit);
    if t.replayFails {
      FailedTick(b, t, limit);
    } else {
      ClockFollows(es, limit);
      TickOutcome(b, t, limit);
      assert os[..|os| - 1] == if DoneIn(b, t) then [] else Watched(es, limit);
      TooLongIsLongStretch(os, limit);
    }
  }

  // -- a clock left running -----------------------------------------------------------------------

  /** The last arms in the executor arrive and none of them counts as executing any more. */
  ghost predicate AllDropped(b: Book, t: TickInput) {
    && b.replay.None? && Stepped(b, t.arrivals).plans == map[]
    && forall i :: 0 <= i < |t.arrivals| ==> !IsExecuting(b, t.arrivals[i].arm)
  }

  ghost predicate SparesTheClock(b: Book, e: Event) {
    match e
    case OnFault(_) => !b.interruptible
    case OnTick(t) => AllDropped(b, t)
    case _ => false
  }

  /** Of all the ways a motion ends, two leave the clock as it was: a driver fault on its own last
      plan, and arrivals all of which are dropped because their arms were marked failed meanwhile;
      every other one stops it. */
  lemma EndOfMotion(b: Book, e: Event, limit: real)
    requires Allowed(b, e) && MotionActive(b) && !MotionActive(Step(b, e, limit))
    ensures Step(b, e, limit).holdSince == if SparesTheClock(b, e) then b.holdSince else None
  {
    if e.OnTick? {
      EndInTick(b, e.t, limit);
    } else {
      BetweenTicks(b, e, limit);
      if e.OnPlanReady? {
        ResultMoves(b, e.arm, e.wps);
      }
    }
  }

  lemma EndInTick(b: Book, t: TickInput, limit: real)
    requires GoodTick(b, t) && MotionActive(b) && !MotionActive(Tick(b, t, limit))
    ensures Tick(b, t, limit).holdSince == if AllDropped(b, t) then b.holdSince else None
  {
    if t.replayFails {
      FailedTick(b, t, limit);
    } else {
      TickOutcome(b, t, limit);
      if !MotionActive(ConfirmedAt(b, t)) {
        DoneOrDropped(b, t);
      } else if AllDropped(b, t) {
        NothingHeld(b, t);
      }
    }
  }

  lemma NothingHeld(b: Book, t: TickInput)
    requires AllDropped(b, t)
    ensures !StillLoaded(b, t) && !DoneIn(b, t)
  {
    var stepped := Stepped(b, t.arrivals);
    assert forall x :: IsExecuting(stepped, x) <==> IsExecuting(b, x);
    assert forall i: nat :: !FirstLive(stepped, t.arrivals, i);
  }

  /** Arrivals that leave nothing moving: the first executing one came through, or none executes. */
  lemma DoneOrDropped(b: Book, t: TickInput)
    requires !t.replayFails && b.replay.None? && !StillLoaded(b, t)
    ensures DoneIn(b, t) <==> !AllDropped(b, t)
  {
    var stepped := Stepped(b, t.arrivals);
    assert forall x :: IsExecuting(stepped, x) <==> IsExecuting(b, x);
    if AllDropped(b, t) {
      NothingHeld(b, t);
    } else {
      var k: nat :| k < |t.arrivals| && IsExecuting(stepped, t.arrivals[k].arm);
      var i := LeastLive(stepped, t.arrivals, k);
      assert !HeldBack(b, t.decision, t.last, t.arrivals, |t.arrivals|, t.arrivals[i].arm);
      assert Arrived(t.decision, t.last, t.arrivals[i]);
    }
  }

  lemma ResultMoves(b: Book, arm: string, wps: Option<seq<Vec>>)
    requires MotionActive(b)
    ensures MotionActive(PlanReady(b, arm, wps))
  {
    if b.plans == map[] && wps.Some? {
      assert arm in PlanReady(b, arm, wps).plans;
    }
  }

  /** While nothing moves the clock stays as it is, until the manager begins something. */
  lemma IdleStep(b: Book, e: Event, limit: real)
    requires Allowed(b, e) && !MotionActive(b) && !MotionActive(Step(b, e, limit))
    ensures Step(b, e, limit).holdSince == if Begins(b, e) then None else b.holdSince
  {
    if e.OnTick? {
      OnlyPlansArrive(b, e.t);
      TickOutcome(b, e.t, limit);
      assert !DoneIn(b, e.t);
    } else {
      BetweenTicks(b, e, limit);
    }
  }

  /** Event `n` was of the kinds that leave the clock as it is, with the clock running. */
  ghost predicate LeavesClock(es: seq<Event>, n: nat, limit: real) {
    n < |es| && MotionActive(Run(es[..n], limit)) && SparesTheClock(Run(es[..n], limit), es[n]) && Run(es[..n], limit).holdSince.Some?
  }

  /** After `j` events nothing moves, and the next is no start of the manager's. */
  ghost predicate StillAt(es: seq<Event>, j: nat, limit: real) {
    && j <= |es| && !MotionActive(Run(es[..j], limit))
    && (j < |es| ==> !Begins(Run(es[..j], limit), es[j]))
  }

  ghost function Still(es: seq<Event>, limit: real): nat -> bool {
    (j: nat) => StillAt(es, j, limit)
  }

  /** Event `n` took the last plan away with its clock running, and since then nothing moved and
      the manager began nothing. */
  ghost predicate LeftRunning(es: seq<Event>, n: nat, limit: real) {
    LeavesClock(es, n, limit) && AllOf(Still(es, limit), n, |es|)
  }

  ghost predicate AllOf(p: nat -> bool, n: nat, m: nat) {
    forall j: nat :: n < j <= m ==> p(j)
  }

  lemma AllOfLonger(p: nat -> bool, q: nat -> bool, n: nat, m: nat)
    requires n < m && (forall j: nat :: j < m ==> (p(j) <==> q(j))) && (p(m) ==> q(m))
    ensures AllOf(p, n, m + 1) <==> AllOf(q, n, m) && p(m) && p(m + 1)
  {
  }

  lemma StillEarlier(es: seq<Event>, j: nat, limit: real)
    requires es != [] && j < |es| - 1
    ensures StillAt(es, j, limit) <==> StillAt(es[..|es| - 1], j, limit)
  {
    assert es[..|es| - 1][..j] == es[..j];
  }

  lemma StillAtLast(es: seq<Event>, limit: real)
    requires es != []
    ensures StillAt(es, |es|, limit) <==> !MotionActive(Run(es, limit))
    ensures StillAt(es[..|es| - 1], |es| - 1, limit) <==> !MotionActive(Run(es[..|es| - 1], limit))
    ensures StillAt(es, |es| - 1, limit) <==>
              !MotionActive(Run(es[..|es| - 1], limit)) && !Begins(Run(es[..|es| - 1], limit), es[|es| - 1])
  {
    assert es[..|es|] == es && es[..|es| - 1][..|es| - 1] == es[..|es| - 1];
  }

  lemma LeavesEarlier(es: seq<Event>, n: nat, limit: real)
    requires es != [] && n < |es| - 1
    ensures LeavesClock(es, n, limit) <==> LeavesClock(es[..|es| - 1], n, limit)
    ensures es[..|es| - 1][..n] == es[..n]
  {
    assert es[..|es| - 1][..n] == es[..n];
  }

  lemma StillLonger(es: seq<Event>, n: nat, limit: real)
    requires es != [] && n < |es| - 1
    ensures AllOf(Still(es, limit), n, |es|) <==>
              AllOf(Still(es[..|es| - 1], limit), n, |es| - 1) && StillAt(es, |es| - 1, limit) && StillAt(es, |es|, limit)
  {
    StillAtLast(es, limit);
    forall j: nat | j < |es| - 1
      ensures Still(es, limit)(j) <==> Still(es[..|es| - 1], limit)(j)
    {
      StillEarlier(es, j, limit);
    }
    AllOfLonger(Still(es, limit), Still(es[..|es| - 1], limit), n, |es| - 1);
  }

  /** What one more event does to a clock left earlier. */
  lemma LeftEarlier(es: seq<Event>, n: nat, limit: real)
    requires es != [] && n < |es| - 1
    ensures LeftRunning(es, n, limit) <==>
              LeftRunning(es[..|es| - 1], n, limit) && StillAt(es, |es| - 1, limit) && StillAt(es, |es|, limit)
  {
    LeavesEarlier(es, n, limit);
    StillLonger(es, n, limit);
  }

  lemma LeftNow(es: seq<Event>, limit: real)
    requires es != []
    ensures LeftRunning(es, |es| - 1, limit) <==> LeavesClock(es, |es| - 1, limit) && StillAt(es, |es|, limit)
    ensures forall n: nat :: n >= |es| ==> !LeftRunning(es, n, limit)
  {
    OneMore(Still(es, limit), |es| - 1);
  }

  lemma OneMore(p: nat -> bool, n: nat)
    ensures AllOf(p, n, n + 1) <==> p(n + 1)
  {
  }

  ghost predicate LeftBySome(es: seq<Event>, limit: real) {
    exists n: nat :: LeftRunning(es, n, limit)
  }

  ghost predicate ClockOfThat(es: seq<Event>, limit: real, since: Option<real>) {
    forall n: nat :: LeftRunning(es, n, limit) ==> since == Run(es[..n], limit).holdSince
  }

  lemma EndedNow(es: seq<Event>, limit: real)
    requires es != [] && MotionActive(Run(es[..|es| - 1], limit)) && !MotionActive(Run(es, limit))
    ensures LeftBySome(es, limit) <==> LeavesClock(es, |es| - 1, limit)
    ensures ClockOfThat(es, limit, Run(es[..|es| - 1], limit).holdSince)
  {
    LeftNow(es, limit);
    StillAtLast(es, limit);
    forall n: nat
      ensures LeftRunning(es, n, limit) ==> n == |es| - 1
    {
      if n < |es| - 1 {
        LeftEarlier(es, n, limit);
      }
    }
  }

  lemma EndedBefore(es: seq<Event>, limit: real)
    requires es != [] && !MotionActive(Run(es[..|es| - 1], limit)) && !MotionActive(Run(es, limit))
    ensures LeftBySome(es, limit) <==>
              LeftBySome(es[..|es| - 1], limit) && !Begins(Run(es[..|es| - 1], limit), es[|es| - 1])
    ensures forall since :: ClockOfThat(es[..|es| - 1], limit, since) ==> ClockOfThat(es, limit, since)
  {
    var front := es[..|es| - 1];
    LeftNow(es, limit);
    StillAtLast(es, limit);
    LeftNowhereAfter(front, limit);
    assert es[..|es| - 1] == front;
    forall n: nat
      ensures LeftRunning(es, n, limit) <==> LeftRunning(front, n, limit) && !Begins(Run(front, limit), es[|es| - 1])
      ensures LeftRunning(es, n, limit) ==> front[..n] == es[..n]
    {
      if n < |es| - 1 {
        LeftEarlier(es, n, limit);
        LeavesEarlier(es, n, limit);
      } else if n == |es| - 1 {
        assert es[..n] == front;
      }
    }
  }

  lemma LeftNowhereAfter(es: seq<Event>, limit: real)
    ensures forall n: nat :: n >= |es| ==> !LeftRunning(es, n, limit)
  {
  }

  /** Exactly when the clock runs while nothing moves, over every run: when a driver fault took the
      last plan away, or the last arrivals were dropped, with the clock running, and nothing moved
      or was begun since; the clock then still shows the start of that motion's held stretch. */
  lemma {:induction false} IdleClock(es: seq<Event>, limit: real)
    requires Possible(es, limit) && !MotionActive(Run(es, limit))
    ensures Run(es, limit).holdSince.Some? <==> LeftBySome(es, limit)
    ensures ClockOfThat(es, limit, Run(es, limit).holdSince)
  {
    if es == [] {
      LeftNowhereAfter(es, limit);
    } else {
      var front, e := es[..|es| - 1], es[|es| - 1];
      if MotionActive(Run(front, limit)) {
        EndOfMotion(Run(front, limit), e, limit);
        EndedNow(es, limit);
      } else {
        IdleClock(front, limit);
        IdleStep(Run(front, limit), e, limit);
        EndedBefore(es, limit);
      }
    }
  }

  /** A goto that is loaded while nothing moves begins with whatever clock it finds: its first
      tick cancels it exactly if the arm is held in it and that clock, or the tick itself without
      one, is the limit ago. */
  lemma GotosFirstTick(b: Book, arm: string, wps: seq<Vec>, t: TickInput, limit: real)
    requires !MotionActive(b) && GoodTick(PlanReady(b, arm, Some(wps)), t) && !DoneIn(PlanReady(b, arm, Some(wps)), t)
    ensures var loaded := PlanReady(b, arm, Some(wps));
            && (Cancels(loaded, t, limit) <==>
                  Held(t.decision, t.last, {arm}) && t.now - (if b.holdSince.Some? then b.holdSince.value else t.now) >= limit)
            && (Cancels(loaded, t, limit) ==> Tick(loaded, t, limit).status == Some(AtCancelled) && !MotionActive(Tick(loaded, t, limit)))
  {
    GotoIsLoaded(b, arm, wps);
    OneArmsTick(PlanReady(b, arm, Some(wps)), arm, t, limit);
  }

  lemma GotoIsLoaded(b: Book, arm: string, wps: seq<Vec>)
    requires !MotionActive(b)
    ensures var loaded := PlanReady(b, arm, Some(wps));
            && loaded.plans == map[arm := wps] && IsExecuting(loaded, arm) && loaded.replay.None? && loaded.holdSince == b.holdSince
            && loaded.status == Some(AtExecuting)
  {
    CameBackLeaves(b, arm);
    AnswerIsLoaded(CameBack(b, arm), arm, wps);
  }

  lemma AnswerIsLoaded(b: Book, arm: string, wps: seq<Vec>)
    requires !MotionActive(b)
    ensures var loaded := Answered(b, arm, Some(wps));
            && loaded.plans == map[arm := wps] && IsExecuting(loaded, arm) && loaded.replay.None? && loaded.holdSince == b.holdSince
            && loaded.status == Some(AtExecuting)
  {
  }

  lemma OneArmsTick(b: Book, arm: string, t: TickInput, limit: real)
    requires b.plans.Keys == {arm} && IsExecuting(b, arm) && b.replay.None? && GoodTick(b, t) && !DoneIn(b, t)
    ensures Cancels(b, t, limit) <==>
              Held(t.decision, t.last, {arm}) && t.now - (if b.holdSince.Some? then b.holdSince.value else t.now) >= limit
    ensures Cancels(b, t, limit) ==> Tick(b, t, limit).status == Some(AtCancelled) && !MotionActive(Tick(b, t, limit))
  {
    OnlyPlansArrive(b, t);
    TickOutcome(b, t, limit);
    StillMoves(b, t, arm);
    assert MotionArms(ConfirmedAt(b, t)) == {arm};
  }

  lemma StillMoves(b: Book, t: TickInput, arm: string)
    requires GoodTick(b, t) && !t.replayFails && b.plans.Keys == {arm} && IsExecuting(b, arm) && !DoneIn(b, t)
    ensures ConfirmedAt(b, t).plans.Keys == {arm}
  {
    ArrivalsAreDone(b, t);
    OneArmDone(b, t);
    if t.arrivals != [] {
      assert t.arrivals[0].arm in b.plans;
      assert |t.arrivals| == 1;
      assert HeldBack(b, t.decision, t.last, t.arrivals, |t.arrivals|, arm);
    } else {
      OnlyPlansArrive(b, t);
    }
    var c := ConfirmedAt(b, t);
    assert c.plans != map[];
    var x :| x in c.plans;
    assert x in b.plans;
  }

  // -- runs that fail -------------------------------------------------------------------------------

  lemma RunOn(es: seq<Event>, e: Event, limit: real)
    ensures Run(es + [e], limit) == Step(Run(es, limit), e, limit)
    ensures Possible(es + [e], limit) <==> Possible(es, limit) && Allowed(Run(es, limit), e)
    ensures AllHarmless(es + [e], limit) <==> AllHarmless(es, limit) && Harmless(Run(es, limit), e)
  {
    assert (es + [e])[..|es|] == es;
  }

  function QuietTick(d: Decision, last: map<string, Vec>, now: real): TickInput {
    TickInput([], false, d, last, now, false, {})
  }

  /** A tick in which these arms arrive and nothing else happens. */
  function ArrivalTick(arrivals: seq<Arrival>, d: Decision): TickInput {
    TickInput(arrivals, false, d, map[], 0.0, false, {})
  }

  /** A goto planned for one arm, which then faults. */
  lemma GotoAndFault(arm: string, limit: real)
    ensures var es := [OnGoto(arm)] + [OnFault(arm)];
            && Possible(es, limit) && AllHarmless(es, limit)
            && Run(es, limit) == START.(orphans := multiset{arm}, status := Some(AtCancelled), reason := Some("driver fault"))
  {
    RunOn([], OnGoto(arm), limit);
    assert [] + [OnGoto(arm)] == [OnGoto(arm)];
    RunOn([OnGoto(arm)], OnFault(arm), limit);
    var b := Run([OnGoto(arm)], limit);
    assert b.state == map[arm := Planning] && b.workers == multiset{arm};
    var next := Run([OnGoto(arm)] + [OnFault(arm)], limit);
    assert next.state == map[] && next.plans == map[] && next.workers == multiset{};
  }

  /** The result of a goto given up by a fault marks the arm failed while a later plan drives it. */
  lemma OrphanMarksFailed(arm: string, wps: seq<Vec>, limit: real) returns (es: seq<Event>)
    ensures Possible(es, limit) && !AlwaysSettled(es, limit)
    ensures var end := Run(es, limit);
            && end.plans == map[arm := wps] && end.state == map[arm := Failed] && end.replay.None? && end.arriving == []
            && end.holdSince.None? && end.workers == multiset{}
  {
    GotoAndFault(arm, limit);
    es := [OnGoto(arm)] + [OnFault(arm)];
    RunOn(es, OnExecutePlan(Some((arm, wps)), false, false), limit);
    es := es + [OnExecutePlan(Some((arm, wps)), false, false)];
    assert Run(es, limit).plans == map[arm := wps] && IsExecuting(Run(es, limit), arm);
    RunOn(es, OnPlanReady(arm, Some(wps)), limit);
    es := es + [OnPlanReady(arm, Some(wps))];
    BooksStaySettled(es, limit);
  }

  /** It loads a plan beside a running replay: only the executor is looked at before the load. */
  lemma OrphanLoadsBesideReplay(arm: string, other: string, wps: seq<Vec>, limit: real) returns (es: seq<Event>)
    ensures Possible(es, limit) && !AlwaysSettled(es, limit) && BesideReplay(Run(es, limit), arm, other, wps)
  {
    GotoAndFault(arm, limit);
    es := [OnGoto(arm)] + [OnFault(arm)];
    RunOn(es, OnReplay({other}, false), limit);
    es := es + [OnReplay({other}, false)];
    var b := Run(es, limit);
    assert b.replay == Some({other}) && b.plans == map[] && b.orphans == multiset{arm} && b.workers == multiset{};
    RunOn(es, OnPlanReady(arm, Some(wps)), limit);
    LoadedBeside(b, arm, other, wps);
    es := es + [OnPlanReady(arm, Some(wps))];
    BooksStaySettled(es, limit);
  }

  ghost predicate BesideReplay(b: Book, arm: string, other: string, wps: seq<Vec>) {
    && b.plans == map[arm := wps] && b.replay == Some({other}) && b.arriving == []
    && IsExecuting(b, arm) && IsExecuting(b, other) && b.status == Some(AtExecuting) && forall x :: !IsPlanning(b, x)
  }

  lemma LoadedBeside(b: Book, arm: string, other: string, wps: seq<Vec>)
    requires b.plans == map[] && b.replay == Some({other}) && b.arriving == [] && IsExecuting(b, other)
    requires arm !in b.workers && forall x :: !IsPlanning(b, x)
    ensures BesideReplay(PlanReady(b, arm, Some(wps)), arm, other, wps)
    ensures !HarmlessResult(b, arm, Some(wps))
  {
    CameBackLeaves(b, arm);
    forall x
      ensures !IsPlanning(PlanReady(b, arm, Some(wps)), x)
    {
      assert !IsPlanning(b, x);
    }
  }

  /** Two arms of a playback arrive in one tick, the first is confirmed and the second held: the
      motion is called done and the second arm is still in the executor. */
  lemma DoneWithOneHeld(x: Arrival, y: Arrival, out: Vec, limit: real) returns (es: seq<Event>)
    requires x.arm != y.arm && !AllClose(out, y.goal)
    ensures Possible(es, limit)
    ensures Run(es, limit).status == Some(AtDone) && MotionActive(Run(es, limit)) && IsExecuting(Run(es, limit), y.arm)
  {
    var played := OnPlayback(map[x.arm := [x.goal], y.arm := [y.goal]], false);
    var t := ArrivalTick([x, y], Decision(map[x.arm := x.goal, y.arm := out], true));
    es := [] + [played];
    RunOn([], played, limit);
    RunOn(es, OnTick(t), limit);
    TwoPlayed(x, y);
    OneHeldTick(Run(es, limit), t, x, y, limit);
    es := es + [OnTick(t)];
  }

  lemma TwoPlayed(x: Arrival, y: Arrival)
    requires x.arm != y.arm
    ensures var b := PlaybackPath(START, map[x.arm := [x.goal], y.arm := [y.goal]], false);
            && b.plans.Keys == {x.arm, y.arm} && IsExecuting(b, x.arm) && IsExecuting(b, y.arm) && b.status == Some(AtExecuting)
            && b.replay.None?
  {
    var paths := map[x.arm := [x.goal], y.arm := [y.goal]];
    assert paths.Keys == {x.arm, y.arm};
    assert START.plans + paths == paths;
  }

  lemma OneHeldTick(b: Book, t: TickInput, x: Arrival, y: Arrival, limit: real)
    requires t.arrivals == [x, y] && x.arm != y.arm && b.plans.Keys == {x.arm, y.arm} && !t.replayFails && t.expired == {}
    requires IsExecuting(b, x.arm) && IsExecuting(b, y.arm) && b.status != Some(AtDone) && b.replay.None?
    requires Arrived(t.decision, t.last, x) && !Arrived(t.decision, t.last, y) && t.last == map[]
    ensures GoodTick(b, t)
    ensures var next := Tick(b, t, limit); next.status == Some(AtDone) && MotionActive(next) && IsExecuting(next, y.arm)
  {
    OneOfTwo(b, t, x, y);
    TickOutcome(b, t, limit);
    NeverHeld(b, t, limit);
    TickTurnsDone(b, t, limit);
    assert Lingers(b, t, y.arm);
  }

  lemma OneOfTwo(b: Book, t: TickInput, x: Arrival, y: Arrival)
    requires t.arrivals == [x, y] && x.arm != y.arm && b.plans.Keys == {x.arm, y.arm} && !t.replayFails && t.expired == {}
    requires IsExecuting(b, x.arm) && IsExecuting(b, y.arm) && Arrived(t.decision, t.last, x) && !Arrived(t.decision, t.last, y)
    ensures GoodTick(b, t) && DoneIn(b, t) && HeldOne(b, t) && !Through(t.decision, t.last, t.arrivals, 2, y.arm)
  {
    var stepped := Stepped(b, t.arrivals);
    assert t.arrivals[0].arm == x.arm && t.arrivals[1].arm == y.arm;
    assert stepped.plans.Keys == {};
    assert stepped.plans == map[];
    assert IsExecuting(stepped, x.arm);
    assert FirstLive(stepped, t.arrivals, 0);
    assert HeldBack(b, t.decision, t.last, t.arrivals, 2, y.arm);
  }

  /** Without last commands, or unblocked, no arm is held. */
  lemma NeverHeld(b: Book, t: TickInput, limit: real)
    requires !t.decision.blocked || (t.last == map[] && ConfirmedAt(b, t).replay.None?)
    ensures !Cancels(b, t, limit)
  {
    if t.decision.blocked && MotionActive(ConfirmedAt(b, t)) {
      var a :| a in ConfirmedAt(b, t).plans;
      assert a in MotionArms(ConfirmedAt(b, t)) && a !in t.last;
    }
  }

  /** A plan loaded beside a replay arrives: the status says done while the replay drives on. */
  lemma DoneBesideReplay(arm: string, other: string, goal: Vec, limit: real) returns (es: seq<Event>)
    requires arm != other
    ensures Possible(es, limit)
    ensures var end := Run(es, limit); end.status == Some(AtDone) && MotionActive(end) && IsExecuting(end, other)
  {
    es := OrphanLoadsBesideReplay(arm, other, [goal], limit);
    var t := ArrivalTick([Arrival(arm, goal)], Decision(map[arm := goal], false));
    RunOn(es, OnTick(t), limit);
    ArrivesBeside(Run(es, limit), arm, other, [goal], t, limit);
    es := es + [OnTick(t)];
  }

  lemma ArrivesBeside(b: Book, arm: string, other: string, wps: seq<Vec>, t: TickInput, limit: real)
    requires arm != other && BesideReplay(b, arm, other, wps) && !t.replayFails && !t.replayOver && t.expired == {}
    requires |t.arrivals| == 1 && t.arrivals[0].arm == arm && Arrived(t.decision, t.last, t.arrivals[0]) && !t.decision.blocked
    ensures GoodTick(b, t)
    ensures var next := Tick(b, t, limit); next.status == Some(AtDone) && MotionActive(next) && IsExecuting(next, other)
  {
    assert b.plans.Keys == {arm};
    OneArmDone(b, t);
    NeverHeld(b, t, limit);
    TickTurnsDone(b, t, limit);
    assert Lingers(b, t, other);
  }

  /** The replay's rows run out first: the status says done while the plan is in the executor. */
  lemma ReplayEndsBesidePlan(arm: string, other: string, wps: seq<Vec>, limit: real) returns (es: seq<Event>)
    requires arm != other
    ensures Possible(es, limit)
    ensures var end := Run(es, limit); end.status == Some(AtDone) && MotionActive(end) && IsExecuting(end, arm)
  {
    es := OrphanLoadsBesideReplay(arm, other, wps, limit);
    var t := TickInput([], false, Decision(map[], false), map[], 0.0, true, {});
    RunOn(es, OnTick(t), limit);
    RowsRunOut(Run(es, limit), arm, other, wps, t, limit);
    es := es + [OnTick(t)];
  }

  lemma RowsRunOut(b: Book, arm: string, other: string, wps: seq<Vec>, t: TickInput, limit: real)
    requires arm != other && BesideReplay(b, arm, other, wps) && !t.replayFails && t.replayOver && t.expired == {}
    requires t.arrivals == [] && !t.decision.blocked
    ensures GoodTick(b, t)
    ensures var next := Tick(b, t, limit); next.status == Some(AtDone) && MotionActive(next) && IsExecuting(next, arm)
  {
    assert arm in b.plans;
    OnlyPlansArrive(b, t);
    NeverHeld(b, t, limit);
    TickTurnsDone(b, t, limit);
    assert Lingers(b, t, arm);
  }

  /** The plan arrives in a tick in which the replay's step raises: its arm is said to execute,
      nothing moves it, and a plan without waypoints is done beside it. */
  lemma SwallowedArrival(arm: string, other: string, goal: Vec, limit: real) returns (es: seq<Event>)
    requires arm != other
    ensures Possible(es, limit) && Stale(Run(es, limit), arm) && !MotionActive(Run(es, limit))
    ensures var end := Run(es + [OnExecutePlan(None, false, false)], limit);
            Possible(es + [OnExecutePlan(None, false, false)], limit) && end.status == Some(AtDone) && IsExecuting(end, arm)
  {
    es := OrphanLoadsBesideReplay(arm, other, [goal], limit);
    var t := TickInput([Arrival(arm, goal)], true, Decision(map[], false), map[], 0.0, false, {});
    RunOn(es, OnTick(t), limit);
    FailsBeside(Run(es, limit), arm, other, [goal], t, limit);
    es := es + [OnTick(t)];
    RunOn(es, OnExecutePlan(None, false, false), limit);
  }

  lemma FailsBeside(b: Book, arm: string, other: string, wps: seq<Vec>, t: TickInput, limit: real)
    requires arm != other && BesideReplay(b, arm, other, wps) && t.replayFails && t.expired == {}
    requires |t.arrivals| == 1 && t.arrivals[0].arm == arm
    ensures GoodTick(b, t)
    ensures var next := Tick(b, t, limit); Stale(next, arm) && !MotionActive(next) && !IsBusy(next)
  {
    assert other in Driven(b) && other !in b.plans;
    assert arm in ArmsOf(t.arrivals);
    StaleTick(b, t, arm, limit);
    FailedTick(b, t, limit);
    forall x | x in Tick(b, t, limit).state
      ensures Tick(b, t, limit).state[x] != Planning
    {
      TickPlansNobody(b, t, limit, x);
      assert !IsPlanning(b, x);
    }
  }

  lemma {:induction false} ConfirmPlansNobody(b: Book, d: Decision, last: map<string, Vec>, arrivals: seq<Arrival>, x: string)
    ensures IsPlanning(ConfirmAll(b, d, last, arrivals), x) ==> IsPlanning(b, x)
  {
    if arrivals != [] {
      ConfirmPlansNobody(b, d, last, arrivals[..|arrivals| - 1], x);
    }
  }

  lemma TickPlansNobody(b: Book, t: TickInput, limit: real, x: string)
    ensures IsPlanning(Tick(b, t, limit), x) ==> IsPlanning(b, x)
  {
    var r := Resolved(b, t);
    ConfirmPlansNobody(r.(arriving := []), t.decision, t.last, r.arriving, x);
    TickIsLeft(b, t, limit);
    LeftPlansNobody(b, t, limit, x);
  }

  lemma LeftPlansNobody(b: Book, t: TickInput, limit: real, x: string)
    ensures IsPlanning(Left(b, t, limit), x) ==> IsPlanning(ConfirmedAt(b, t), x)
  {
  }

  /** A plan the gate holds in its first tick is taken away by a driver fault of its arm. */
  lemma HeldAndFaulted(arm: string, wps: seq<Vec>, d: Decision, last: map<string, Vec>, now: real, limit: real) returns (es: seq<Event>)
    requires Held(d, last, {arm}) && limit > 0.0
    ensures Possible(es, limit) && es != [] && es[|es| - 1].OnFault?
    ensures Run(es, limit) == START.(status := Some(AtCancelled), reason := Some("driver fault"), holdSince := Some(now))
  {
    var tick := OnTick(QuietTick(d, last, now));
    var b;
    es, b := PlanFromStart(arm, wps, limit);
    RunOn(es, tick, limit);
    HeldTick(b, arm, wps, d, last, now, limit);
    RunOn(es + [tick], OnFault(arm), limit);
    es := es + [tick] + [OnFault(arm)];
    LastPlanFaulted(b.(holdSince := Some(now)), arm, wps);
  }

  lemma PlanFromStart(arm: string, wps: seq<Vec>, limit: real) returns (es: seq<Event>, b: Book)
    ensures Possible(es, limit) && AllHarmless(es, limit) && Run(es, limit) == b
    ensures b == START.(plans := map[arm := wps], state := map[arm := Executing], status := Some(AtExecuting))
  {
    var plan := OnExecutePlan(Some((arm, wps)), false, false);
    RunOn([], plan, limit);
    es, b := [] + [plan], Run([] + [plan], limit);
  }

  lemma LastPlanFaulted(b: Book, arm: string, wps: seq<Vec>)
    requires b.plans == map[arm := wps] && b.state == map[arm := Executing] && !b.interruptible && b.workers == multiset{}
    ensures DriverFault(b, arm) == b.(plans := map[], state := map[], reason := Some("driver fault"), status := Some(AtCancelled))
  {
    assert b.plans - {arm} == map[] && b.state - {arm} == map[];
  }

  lemma HeldTick(b: Book, arm: string, wps: seq<Vec>, d: Decision, last: map<string, Vec>, now: real, limit: real)
    requires b.plans == map[arm := wps] && b.replay.None? && b.arriving == [] && b.holdSince.None?
    requires Held(d, last, {arm}) && limit > 0.0
    ensures Tick(b, QuietTick(d, last, now), limit) == b.(holdSince := Some(now))
  {
    assert ArmsOf([]) == {};
    var c := ConfirmedAt(b, QuietTick(d, last, now));
    assert b.plans - ArmsOf([]) == b.plans;
    assert c == b;
    assert MotionArms(c) == {arm};
    var next := Tick(b, QuietTick(d, last, now), limit);
    assert next.state == b.state;
  }

  /** A plan whose arm was marked failed is held in one tick and arrives in the next, as one with
      two waypoints within a step does, and the arrival is dropped: nothing moves, no fault hit a
      moving arm, and the clock runs. */
  lemma HeldAndDropped(arm: string, wps: seq<Vec>, d: Decision, last: map<string, Vec>, now: real, limit: real) returns (es: seq<Event>)
    requires Held(d, last, {arm}) && limit > 0.0 && wps != []
    ensures Possible(es, limit) && es != [] && es[|es| - 1].OnTick? && LeavesClock(es, |es| - 1, limit)
    ensures Idle(Run(es, limit)) && Run(es, limit).holdSince == Some(now)
  {
    es := HeldThoughFailed(arm, wps, d, last, now, limit);
    var t := ArrivalTick([Arrival(arm, wps[|wps| - 1])], d);
    RunOn(es, OnTick(t), limit);
    LastDropped(Run(es, limit), arm, t, limit);
    LeavesAtLast(es, OnTick(t), limit);
    es := es + [OnTick(t)];
  }

  lemma HeldThoughFailed(arm: string, wps: seq<Vec>, d: Decision, last: map<string, Vec>, now: real, limit: real) returns (es: seq<Event>)
    requires Held(d, last, {arm}) && limit > 0.0
    ensures Possible(es, limit)
    ensures var end := Run(es, limit);
            end.plans == map[arm := wps] && end.state == map[arm := Failed] && end.replay.None? && end.holdSince == Some(now)
  {
    es := OrphanMarksFailed(arm, wps, limit);
    var tick := OnTick(QuietTick(d, last, now));
    RunOn(es, tick, limit);
    HeldTick(Run(es, limit), arm, wps, d, last, now, limit);
    es := es + [tick];
  }

  lemma LeavesAtLast(es: seq<Event>, e: Event, limit: real)
    requires MotionActive(Run(es, limit)) && SparesTheClock(Run(es, limit), e) && Run(es, limit).holdSince.Some?
    ensures LeavesClock(es + [e], |es|, limit)
  {
    assert (es + [e])[..|es|] == es;
  }

  lemma LastDropped(b: Book, arm: string, t: TickInput, limit: real)
    requires b.plans.Keys == {arm} && b.state == map[arm := Failed] && b.replay.None?
    requires |t.arrivals| == 1 && t.arrivals[0].arm == arm && !t.replayFails && t.expired == {}
    ensures GoodTick(b, t) && AllDropped(b, t) && Idle(Tick(b, t, limit)) && Tick(b, t, limit).holdSince == b.holdSince
  {
    assert arm in ArmsOf(t.arrivals);
    assert Stepped(b, t.arrivals).plans.Keys == {};
    assert Stepped(b, t.arrivals).plans == map[];
    NothingHeld(b, t);
    TickOutcome(b, t, limit);
    forall x
      ensures !IsPlanning(Tick(b, t, limit), x)
    {
      TickPlansNobody(b, t, limit, x);
    }
  }

  /** Nothing moves, executes or is planned. */
  ghost predicate Idle(b: Book) {
    !MotionActive(b) && forall x :: !IsExecuting(b, x) && !IsPlanning(b, x)
  }

  /** From a book at rest whose clock runs, a goto is cancelled in its own first held tick. */
  lemma GotoOnThatClock(es: seq<Event>, arm: string, wps: seq<Vec>, d: Decision, last: map<string, Vec>, now: real, limit: real)
    requires Possible(es, limit) && Idle(Run(es, limit)) && Run(es, limit).holdSince.Some?
    requires Held(d, last, {arm}) && now - Run(es, limit).holdSince.value >= limit
    ensures GotoIsCut(es, arm, wps, QuietTick(d, last, now), limit)
  {
    var asked := es + [OnGoto(arm)];
    var loaded := asked + [OnPlanReady(arm, Some(wps))];
    RunOn(es, OnGoto(arm), limit);
    GotoAsked(Run(es, limit), arm);
    RunOn(asked, OnPlanReady(arm, Some(wps)), limit);
    RunOn(loaded, OnTick(QuietTick(d, last, now)), limit);
    CutAtOnce(Run(asked, limit), arm, wps, QuietTick(d, last, now), limit);
  }

  lemma CutAtOnce(b: Book, arm: string, wps: seq<Vec>, t: TickInput, limit: real)
    requires !MotionActive(b) && b.holdSince.Some? && t.arrivals == [] && !t.replayFails && t.expired == {}
    requires Held(t.decision, t.last, {arm}) && t.now - b.holdSince.value >= limit
    ensures var loaded := PlanReady(b, arm, Some(wps));
            && loaded.plans == map[arm := wps] && loaded.status == Some(AtExecuting) && GoodTick(loaded, t)
            && Tick(loaded, t, limit).status == Some(AtCancelled) && !MotionActive(Tick(loaded, t, limit))
  {
    GotoIsLoaded(b, arm, wps);
    GotosFirstTick(b, arm, wps, t, limit);
  }

  lemma GotoAsked(b: Book, arm: string)
    requires Idle(b)
    ensures var next := Goto(b, arm); arm in next.workers && !MotionActive(next) && next.holdSince == b.holdSince
  {
    assert !IsPlanning(b, arm);
    assert !InFlight(b) by {
      forall a | a in b.state
        ensures b.state[a] != Planning && b.state[a] != Executing
      {
        assert !IsExecuting(b, a) && !IsPlanning(b, a);
      }
    }
  }

  /** After the run, a goto of the arm is accepted, planned and loaded, and its first tick, held,
      gives it up. */
  ghost predicate GotoIsCut(es: seq<Event>, arm: string, wps: seq<Vec>, t: TickInput, limit: real) {
    var loaded := es + [OnGoto(arm)] + [OnPlanReady(arm, Some(wps))];
    && Possible(loaded + [OnTick(t)], limit)
    && Run(loaded, limit).plans == map[arm := wps] && Run(loaded, limit).status == Some(AtExecuting)
    && Run(loaded + [OnTick(t)], limit).status == Some(AtCancelled) && !MotionActive(Run(loaded + [OnTick(t)], limit))
  }

  /** A goto inherits the held stretch of an earlier plan, one a driver fault took away or one
      whose arrival was dropped: it is cancelled in its own first held tick. */
  lemma GotoInheritsTheClock(arm: string, wps: seq<Vec>, d: Decision, last: map<string, Vec>, t0: real, t1: real, limit: real)
      returns (faulted: seq<Event>, dropped: seq<Event>)
    requires Held(d, last, {arm}) && limit > 0.0 && t1 - t0 >= limit && wps != []
    ensures GotoIsCut(faulted, arm, wps, QuietTick(d, last, t1), limit) && faulted != [] && faulted[|faulted| - 1].OnFault?
    ensures GotoIsCut(dropped, arm, wps, QuietTick(d, last, t1), limit) && dropped != [] && dropped[|dropped| - 1].OnTick?
  {
    faulted := HeldAndFaulted(arm, wps, d, last, t0, limit);
    GotoOnThatClock(faulted, arm, wps, d, last, t1, limit);
    dropped := HeldAndDropped(arm, wps, d, last, t0, limit);
    GotoOnThatClock(dropped, arm, wps, d, last, t1, limit);
  }

  // -- the object -------------------------------------------------------------------------------

  predicate SameLength(paths: map<string, seq<Vec>>) {
    forall a, b :: a in paths && b in paths ==> |paths[a]| == |paths[b]|
  }

  class PlanBook {
    var planState: map<string, PlanState>
    var plans: map<string, seq<Vec>>
    var planArriving: seq<Arrival>
    var replay: Option<set<string>>
    var planStatus: Option<Status>
    var planInterruptible: bool
    var planCancelReason: Option<string>
    var planGateHoldSince: Option<real>
    ghost var workers: multiset<string>
    ghost var orphans: multiset<string>
    ghost var together: bool

    constructor ()
      ensures Value() == START
    {
      planState, plans, planArriving, replay, planStatus := map[], map[], [], None, None;
      planInterruptible, planCancelReason, planGateHoldSince := false, None, None;
      workers, orphans, together := multiset{}, multiset{}, false;
    }

    ghost function Value(): Book
      reads this
    {
      Book(planState, plans, planArriving, replay, planStatus, planInterruptible, planCancelReason, planGateHoldSince,
           workers, orphans, together)
    }

    predicate InMotion()
      reads this
    {
      plans != map[] || replay.Some?
    }

    method ClearReplay()
      modifies this`replay, this`planState
      ensures replay == None && planState == old(planState) - Driven(old(Value()))
    {
      if replay.Some? {
        planState := planState - replay.value;
        replay := None;
      }
    }

    method CancelAllPlans(reason: string)
      modifies this
      ensures Value() == CancelPlans(old(Value()), reason)
    {
      DropMotions();
      planStatus, planCancelReason := Some(AtCancelled), Some(reason);
      planInterruptible, planArriving, planGateHoldSince := false, [], None;
    }

    /** Nothing is in the executor or driven by a replay any more, nor said to execute. */
    method DropMotions()
      modifies this`planState, this`plans, this`replay
      ensures plans == map[] && replay == None
      ensures planState == old(planState) - old(plans).Keys - Driven(old(Value()))
    {
      planState := planState - plans.Keys;
      plans := map[];
      ClearReplay();
    }

    method InterruptPlanFor(reason: string)
      modifies this
      ensures Value() == Interrupted(old(Value()), reason)
    {
      if planInterruptible && InMotion() {
        CancelAllPlans(reason);
      }
    }

    /** Refused while an episode is recorded, for an unknown arm and for a goal of the wrong width;
        without a planner refused too, but only after an interruptible motion was cut. */
    method OpGoto(arm: string, goal: Vec, dofs: map<string, nat>, recording: bool, hasPlanner: bool) returns (accepted: bool)
      modifies this
      ensures recording || arm !in dofs || |goal| != dofs[arm] ==> !accepted && Value() == old(Value())
      ensures !(recording || arm !in dofs || |goal| != dofs[arm]) ==>
                && Value() == (if hasPlanner then Goto(old(Value()), arm) else Interrupted(old(Value()), "jog"))
                && (accepted <==> hasPlanner && !old(InFlight(Interrupted(Value(), "jog"))))
    {
      if recording || arm !in dofs || |goal| != dofs[arm] {
        return false;
      }
      InterruptPlanFor("jog");
      if arm in plans || (arm in planState && planState[arm] == Planning) {
        return false;
      }
      if plans != map[] || exists a :: a in planState && (planState[a] == Planning || planState[a] == Executing) {
        return false;
      }
      if !hasPlanner {
        return false;
      }
      BeginGoto(arm);
      accepted := true;
    }

    method BeginGoto(arm: string)
      modifies this`planState, this`planStatus, this`workers
      ensures planState == old(planState)[arm := Planning] && planStatus == Some(AtPlanning) && workers == old(workers) + multiset{arm}
    {
      planState := planState[arm := Planning];
      planStatus := Some(AtPlanning);
      workers := workers + multiset{arm};
    }

    /** A worker's result, or its failure. */
    method OpPlanReady(arm: string, wps: Option<seq<Vec>>)
      modifies this
      ensures Value() == PlanReady(old(Value()), arm, wps)
    {
      WorkerIsBack(arm);
      TakeResult(arm, wps);
    }

    method TakeResult(arm: string, wps: Option<seq<Vec>>)
      modifies this
      ensures Value() == Answered(old(Value()), arm, wps)
    {
      if wps.None? {
        planStatus := Some(AtFailed);
      }
      if wps.None? || plans != map[] {
        planState := planState[arm := Failed];
      } else {
        LoadPlan(arm, wps.value);
      }
    }

    ghost method WorkerIsBack(arm: string)
      modifies this`workers, this`orphans
      ensures Value() == CameBack(old(Value()), arm)
    {
      if arm in workers {
        workers := workers - multiset{arm};
      } else {
        orphans := orphans - multiset{arm};
      }
    }

    ghost method GiveUpOn(arm: string)
      modifies this`workers, this`orphans
      ensures Value() == GivenUp(old(Value()), arm)
    {
      if arm in workers {
        workers, orphans := workers - multiset{arm}, orphans + multiset{arm};
      }
    }

    method LoadPlan(arm: string, wps: seq<Vec>)
      modifies this`plans, this`planState, this`planStatus, this`together
      ensures plans == old(plans)[arm := wps] && planState == old(planState)[arm := Executing]
      ensures planStatus == Some(AtExecuting) && !together
    {
      plans, planState := plans[arm := wps], planState[arm := Executing];
      planStatus := Some(AtExecuting);
      together := false;
    }

    /** One motion at a time, plans and replays alike. */
    method BusyNow() returns (busy: bool)
      ensures busy == IsBusy(Value())
    {
      busy := replay.Some? || plans != map[] || exists a :: a in planState && planState[a] == Planning;
    }

    method LoadPaths(paths: map<string, seq<Vec>>)
      modifies this`plans, this`planState
      ensures plans == old(plans) + paths && planState == old(planState) + AllExecuting(paths.Keys)
    {
      var todo := paths.Keys;
      while todo != {}
        invariant todo <= paths.Keys
        invariant forall a :: a in plans <==> a in old(plans) || (a in paths && a !in todo)
        invariant forall a :: a in planState <==> a in old(planState) || (a in paths && a !in todo)
        invariant forall a :: a in plans ==> plans[a] == if a in paths && a !in todo then paths[a] else old(plans)[a]
        invariant forall a :: a in planState ==> planState[a] == if a in paths && a !in todo then Executing else old(planState)[a]
        decreases todo
      {
        var a :| a in todo;
        plans, planState := plans[a := paths[a]], planState[a := Executing];
        todo := todo - {a};
      }
    }

    /** Refused without paths, with paths of different lengths, for unknown or stopped arms and
        while anything moves or is planned. */
    method OpPlaybackPath(paths: map<string, seq<Vec>>, session: set<string>, stopped: set<string>) returns (accepted: bool)
      modifies this
      ensures accepted <==> paths != map[] && (forall a, b :: a in paths && b in paths ==> |paths[a]| == |paths[b]|) && paths.Keys <= session - stopped && !old(IsBusy(Value()))
      ensures Value() == PlaybackPath(old(Value()), paths, !accepted)
    {
      var busy := BusyNow();
      if paths == map[] || !SameLength(paths) || !(paths.Keys <= session - stopped) || busy {
        return false;
      }
      BeginPlayback(paths);
      accepted := true;
    }

    method BeginPlayback(paths: map<string, seq<Vec>>)
      modifies this`plans, this`planState, this`planCancelReason, this`planGateHoldSince, this`planInterruptible, this`planStatus,
               this`together
      ensures plans == old(plans) + paths && planState == old(planState) + AllExecuting(paths.Keys)
      ensures planCancelReason == None && planGateHoldSince == None && planInterruptible
      ensures planStatus == Some(AtExecuting) && together == (|paths| > 1)
    {
      planCancelReason, planGateHoldSince, planInterruptible := None, None, true;
      LoadPaths(paths);
      planStatus := Some(AtExecuting);
      together := |paths| > 1;
    }

    /** A plan the manager made; more than one arm's waypoints, an unknown or a stopped arm are
        refused. */
    method OpExecutePlan(waypoints: map<string, seq<Vec>>, session: set<string>, stopped: set<string>, interruptible: bool)
      returns (accepted: bool)
      modifies this
      ensures |waypoints| > 1 || !(waypoints.Keys <= session - stopped) || old(IsBusy(Value())) <==> !accepted
      ensures !accepted ==> Value() == old(Value())
      ensures accepted && waypoints == map[] ==> Value() == ExecutePlan(old(Value()), None, interruptible, false)
      ensures accepted && waypoints != map[] ==>
                exists a :: a in waypoints && Value() == ExecutePlan(old(Value()), Some((a, waypoints[a])), interruptible, false)
    {
      var busy := BusyNow();
      if |waypoints| > 1 || !(waypoints.Keys <= session - stopped) || busy {
        return false;
      }
      accepted := true;
      if waypoints == map[] {
        planCancelReason, planGateHoldSince, planInterruptible := None, None, false;
        planStatus := Some(AtDone);
        return;
      }
      var a :| a in waypoints;
      BeginPlan(a, waypoints[a], interruptible);
    }

    method BeginPlan(arm: string, wps: seq<Vec>, interruptible: bool)
      modifies this
      ensures Value() == Load(Begun(old(Value()), interruptible), arm, wps).(status := Some(AtExecuting), together := false)
    {
      planCancelReason, planGateHoldSince, planInterruptible := None, None, interruptible;
      LoadPlan(arm, wps);
    }

    /** Refused by a loop that cannot replay, without arms, for unknown or stopped arms and while
        anything moves or is planned. */
    method OpReplayActions(arms: set<string>, session: set<string>, stopped: set<string>, canReplay: bool) returns (accepted: bool)
      modifies this
      ensures accepted <==> canReplay && arms != {} && arms <= session - stopped && !old(IsBusy(Value()))
      ensures Value() == ReplayActions(old(Value()), arms, !accepted)
    {
      var busy := BusyNow();
      if !canReplay || arms == {} || !(arms <= session - stopped) || busy {
        return false;
      }
      BeginReplay(arms);
      accepted := true;
    }

    method BeginReplay(arms: set<string>)
      modifies this`replay, this`planState, this`planCancelReason, this`planGateHoldSince, this`planInterruptible, this`planStatus,
               this`together
      ensures replay == Some(arms) && planState == old(planState) + AllExecuting(arms) && !together
      ensures planCancelReason == None && planGateHoldSince == None && planInterruptible && planStatus == Some(AtExecuting)
    {
      together := false;
      planCancelReason, planGateHoldSince, planInterruptible := None, None, true;
      replay := Some(arms);
      planState := planState + AllExecuting(arms);
      planStatus := Some(AtExecuting);
    }

    method OnDriverFault(arm: string)
      modifies this
      ensures Value() == DriverFault(old(Value()), arm)
    {
      if planInterruptible && InMotion() {
        CancelAllPlans("driver fault");
        return;
      }
      LosePlanOf(arm);
    }

    method LosePlanOf(arm: string)
      modifies this
      ensures arm !in old(plans) && arm !in old(planState) ==> Value() == old(Value())
      ensures arm in old(plans) || arm in old(planState) ==>
                var left := GivenUp(old(Value()), arm).(plans := old(plans) - {arm}, state := old(planState) - {arm}, reason := Some("driver fault"));
                Value() == if left.plans == map[] then left.(status := Some(AtCancelled)) else left
    {
      if arm in plans || arm in planState {
        GiveUpOn(arm);
        LoseOwnPlan(arm);
      }
    }

    method LoseOwnPlan(arm: string)
      modifies this`plans, this`planState, this`planCancelReason, this`planStatus
      ensures plans == old(plans) - {arm} && planState == old(planState) - {arm} && planCancelReason == Some("driver fault")
      ensures planStatus == if plans == map[] then Some(AtCancelled) else old(planStatus)
    {
      plans, planState := plans - {arm}, planState - {arm};
      planCancelReason := Some("driver fault");
      if plans == map[] {
        planStatus := Some(AtCancelled);
      }
    }

    method FinishPlan(arm: string)
      modifies this
      ensures Value() == Finish(old(Value()), arm)
    {
      planState := planState - {arm};
      if plans == map[] {
        planStatus, planInterruptible, planGateHoldSince := Some(AtDone), false, None;
      }
    }

    method ConfirmOne(d: Decision, last: map<string, Vec>, a: Arrival)
      modifies this
      ensures Value() == Confirmed(old(Value()), d, last, a)
    {
      if a.arm !in planState || planState[a.arm] != Executing {
        return;
      }
      if a.arm !in d.out {
        plans := plans[a.arm := [a.goal]];
        return;
      }
      var out := d.out[a.arm];
      if AllClose(out, a.goal) {
        FinishPlan(a.arm);
        return;
      }
      var progressed := a.arm !in last || !AllClose(out, last[a.arm]);
      if !d.blocked && !progressed && ClampedRailGoal(out, a.goal) {
        FinishPlan(a.arm);
      } else {
        plans := plans[a.arm := [a.goal]];
      }
    }

    /** After the gate: each arm whose executor handed back its goal. */
    method ConfirmPlanArrivals(d: Decision, last: map<string, Vec>)
      modifies this
      ensures Value() == ConfirmArrivals(old(Value()), d, last)
      ensures Apart(old(planArriving)) ==> forall i :: 0 <= i < |old(planArriving)| ==>
                StaysExecuting(old(Value()), Value(), d, last, old(planArriving)[i])
    {
      SlotBySlot(Value(), d, last);
      ConfirmEach(d, last);
    }

    method ConfirmEach(d: Decision, last: map<string, Vec>)
      modifies this
      ensures Value() == ConfirmArrivals(old(Value()), d, last)
    {
      var arrivals := planArriving;
      planArriving := [];
      for i := 0 to |arrivals|
        invariant Value() == ConfirmAll(old(Value()).(arriving := []), d, last, arrivals[..i])
      {
        assert arrivals[..i + 1][..i] == arrivals[..i];
        ConfirmOne(d, last, arrivals[i]);
      }
      assert arrivals[..|arrivals|] == arrivals;
    }

    /** Blocked, and every arm's output is its last command. */
    method NothingMoved(d: Decision, last: map<string, Vec>, arms: set<string>) returns (held: bool)
      ensures held <==> Held(d, last, arms)
    {
      if !d.blocked {
        return false;
      }
      var todo := arms;
      while todo != {}
        invariant todo <= arms
        invariant forall a :: a in arms && a !in todo ==> a in d.out && a in last && d.out[a] == last[a]
        decreases todo
      {
        var a :| a in todo;
        if a !in d.out || a !in last || d.out[a] != last[a] {
          return false;
        }
        todo := todo - {a};
      }
      held := true;
    }

    method PlanGateWatch(d: Decision, last: map<string, Vec>, now: real, limit: real)
      modifies this
      ensures Value() == GateWatch(old(Value()), d, last, now, limit)
    {
      var held := NothingMoved(d, last, plans.Keys + (if replay.Some? then replay.value else {}));
      if !held {
        planGateHoldSince := None;
        return;
      }
      if planGateHoldSince.None? {
        planGateHoldSince := Some(now);
      }
      if now - planGateHoldSince.value < limit {
        return;
      }
      CancelAllPlans("held by the safety gate");
    }

    method FinishRunningReplay()
      modifies this
      ensures Value() == FinishReplay(old(Value()))
    {
      if replay.None? {
        return;
      }
      ClearReplay();
      planStatus, planInterruptible, planGateHoldSince := Some(AtDone), false, None;
    }

    /** The part of a tick behind the gate. */
    method RunAfterGate(t: TickInput, limit: real)
      modifies this
      ensures Value() == AfterGate(old(Value()), t, limit)
    {
      ConfirmPlanArrivals(t.decision, t.last);
      var moving := InMotion();
      if moving {
        PlanGateWatch(t.decision, t.last, t.now, limit);
      }
      if t.replayOver {
        FinishRunningReplay();
      }
    }
  }
}
