/** Homing a linear track as a background job (devices/rail_homing.py:325-500, 662-1000): one
    arm at a time over every interleaving of requests, job threads and sessions, and the
    read-only monitor handed back exactly once by whoever took it. */
module RailHoming {
  import opened Prelude

  /** Where a job's thread is. */
  datatype Stage =
    | Waiting
    | Connecting
    | Connected
    | Closed
    | Failing
    | GaveUp
    | MonitorBack(ok: bool)
    | Recorded(ok: bool)
    | Ended(ok: bool)

  /** One job: its stage, its two flags, and how often it paused and resumed the monitor. */
  datatype Job = Job(stage: Stage, ownsBoxes: bool, pausedMonitor: bool, pauses: nat, resumes: nat)

  function NewJob(): Job {
    Job(Waiting, false, false, 0, 0)
  }

  predicate Terminal(j: Job) {
    j.stage.Ended?
  }

  predicate Owns(j: Job) {
    j.ownsBoxes && !Terminal(j)
  }

  datatype JobStep = Connect | ConnectDone | Fail | Teardown(ok: bool) | GiveUp | ResumeMonitor | Finish | SetPhase

  /** May the thread take this step from where it is? Anything may raise before the result is
      recorded; a connected job leaves through its teardown. */
  predicate JobEnabled(j: Job, s: JobStep) {
    match s
    case Connect => j.stage.Waiting?
    case ConnectDone => j.stage.Connecting?
    case Fail => j.stage.Waiting? || j.stage.Connecting? || j.stage.Closed? || j.stage == MonitorBack(true)
    case Teardown(_) => j.stage.Connected?
    case GiveUp => j.stage.Failing?
    case ResumeMonitor => j.stage.Closed? || j.stage.GaveUp?
    case Finish => j.stage.MonitorBack?
    case SetPhase => j.stage.Recorded?
  }

  /** A step of the thread; `free` says whether the cell may be taken over. */
  function JobTake(j: Job, s: JobStep, free: bool): Job {
    match s
    case Connect =>
      if free then j.(stage := Connecting, ownsBoxes := true, pausedMonitor := true, pauses := j.pauses + 1)
      else j.(stage := Failing)
    case ConnectDone => j.(stage := Connected)
    case Fail => j.(stage := Failing)
    case Teardown(ok) => j.(stage := if ok then Closed else Failing, ownsBoxes := false)
    case GiveUp => j.(stage := GaveUp, ownsBoxes := false)
    case ResumeMonitor =>
      j.(stage := MonitorBack(j.stage.Closed?), pausedMonitor := false,
         resumes := if j.pausedMonitor then j.resumes + 1 else j.resumes)
    case Finish => if j.stage.MonitorBack? then j.(stage := Recorded(j.stage.ok), ownsBoxes := false) else j
    case SetPhase => if j.stage.Recorded? then j.(stage := Ended(j.stage.ok)) else j
  }

  // -- the service --------------------------------------------------------------------------

  /** A maintenance request: being evaluated with its arm reserved, or over. */
  datatype Request = Evaluating(arm: string) | Over

  datatype World = World(pending: set<string>, requests: map<nat, Request>, jobs: map<string, Job>, session: bool)

  ghost predicate Live(w: World, a: string) {
    a in w.jobs && !Terminal(w.jobs[a])
  }

  /** An arm with a request pending or a job running. */
  ghost predicate Busy(w: World, a: string) {
    a in w.pending || Live(w, a)
  }

  ghost predicate SomeOwner(w: World) {
    exists a :: a in w.jobs && Owns(w.jobs[a])
  }

  ghost predicate CellIsFree(w: World, arm: string) {
    !w.session && !SomeOwner(w) && forall a :: Busy(w, a) ==> a == arm
  }

  datatype Step =
    | Reserve(id: nat, arm: string)
    | Commit(id: nat)
    | Release(id: nat)
    | OfJob(arm: string, s: JobStep)
    | StartSession
    | EndSession

  ghost predicate Enabled(w: World, s: Step) {
    match s
    case Reserve(id, arm) => id !in w.requests
    case Commit(id) => id in w.requests && w.requests[id].Evaluating?
    case Release(id) => id in w.requests && w.requests[id].Evaluating?
    case OfJob(arm, js) => arm in w.jobs && JobEnabled(w.jobs[arm], js)
    case StartSession => true
    case EndSession => true
  }

  /** One atomic step. A reservation is refused while any arm is busy, a session while one is,
      and a commit that finds a live job of its arm leaves the request to be released. */
  ghost function Take(w: World, s: Step): World
    requires Enabled(w, s)
  {
    match s
    case Reserve(id, arm) =>
      if exists a :: Busy(w, a) then w
      else w.(pending := w.pending + {arm}, requests := w.requests[id := Evaluating(arm)])
    case Commit(id) =>
      var arm := w.requests[id].arm;
      if Live(w, arm) then w
      else w.(jobs := w.jobs[arm := NewJob()], pending := w.pending - {arm}, requests := w.requests[id := Over])
    case Release(id) =>
      w.(pending := w.pending - {w.requests[id].arm}, requests := w.requests[id := Over])
    case OfJob(arm, js) => w.(jobs := w.jobs[arm := JobTake(w.jobs[arm], js, CellIsFree(w, arm))])
    case StartSession => if exists a :: Busy(w, a) then w else w.(session := true)
    case EndSession => w.(session := false)
  }

  ghost predicate Possible(w: World, steps: seq<Step>)
    decreases |steps|, 0
  {
    steps == [] || (Possible(w, steps[..|steps| - 1]) && Enabled(After(w, steps[..|steps| - 1]), steps[|steps| - 1]))
  }

  ghost function After(w: World, steps: seq<Step>): World
    requires Possible(w, steps)
    decreases |steps|, 1
  {
    if steps == [] then w else Take(After(w, steps[..|steps| - 1]), steps[|steps| - 1])
  }

  const START := World({}, map[], map[], false)

  // -- what every run keeps -------------------------------------------------------------------

  /** One arm at a time, and a reserved arm has no live job. */
  ghost predicate OneBusyArm(w: World) {
    && (forall a, b :: Busy(w, a) && Busy(w, b) ==> a == b)
    && (forall a :: a in w.pending ==> !Live(w, a))
  }

  /** The reservation belongs to the one request being evaluated. */
  ghost predicate RequestsHoldPending(w: World) {
    && (forall i :: i in w.requests && w.requests[i].Evaluating? ==> w.requests[i].arm in w.pending)
    && (forall i, k :: i in w.requests && k in w.requests && w.requests[i].Evaluating? && w.requests[k].Evaluating? ==> i == k)
    && (forall a :: a in w.pending ==> exists i :: i in w.requests && w.requests[i] == Evaluating(a))
  }

  /** What holds of a job wherever its thread is: the boxes are held only between connect and
      teardown, and the monitor is handed back once for every time it was taken, after the
      boxes. */
  ghost predicate JobIsRight(j: Job) {
    && j.pauses <= 1 && j.resumes <= j.pauses
    && (j.pausedMonitor <==> j.pauses == 1 && j.resumes == 0)
    && (j.resumes == 1 ==> !j.ownsBoxes)
    && match j.stage
       case Waiting => !j.ownsBoxes && j.pauses == 0
       case Connecting => j.ownsBoxes && j.pausedMonitor
       case Connected => j.ownsBoxes && j.pausedMonitor
       case Closed => !j.ownsBoxes && j.pausedMonitor
       case Failing => j.ownsBoxes ==> j.pausedMonitor
       case GaveUp => !j.ownsBoxes
       case MonitorBack(_) => !j.ownsBoxes && !j.pausedMonitor
       case Recorded(_) => !j.ownsBoxes && !j.pausedMonitor
       case Ended(_) => !j.ownsBoxes && !j.pausedMonitor
  }

  ghost predicate JobsAreRight(w: World) {
    (forall a :: a in w.jobs ==> JobIsRight(w.jobs[a])) && (w.session ==> !SomeOwner(w))
  }

  ghost predicate Keeps(w: World) {
    OneBusyArm(w) && RequestsHoldPending(w) && JobsAreRight(w)
  }

  lemma JobStepIsRight(j: Job, s: JobStep, free: bool)
    requires JobIsRight(j) && JobEnabled(j, s)
    ensures JobIsRight(JobTake(j, s, free))
    ensures Terminal(JobTake(j, s, free)) ==> !Terminal(j)
    ensures !Terminal(j)
    ensures Owns(JobTake(j, s, free)) ==> Owns(j) || (s.Connect? && free)
  {
  }

  lemma JobStepKeeps(w: World, arm: string, js: JobStep)
    requires Keeps(w) && Enabled(w, OfJob(arm, js))
    ensures Keeps(Take(w, OfJob(arm, js)))
  {
    var free := CellIsFree(w, arm);
    JobStepIsRight(w.jobs[arm], js, free);
    var next := Take(w, OfJob(arm, js));
    forall a | Busy(next, a)
      ensures Busy(w, a)
    {
    }
  }

  lemma OwnerIsBusy(w: World, a: string)
    requires a in w.jobs && Owns(w.jobs[a])
    ensures Busy(w, a)
  {
  }

  lemma ReserveKeeps(w: World, id: nat, arm: string)
    requires Keeps(w) && id !in w.requests
    ensures Keeps(Take(w, Reserve(id, arm)))
  {
    if !exists a :: Busy(w, a) {
      var next := Take(w, Reserve(id, arm));
      assert forall a :: Busy(next, a) ==> a == arm || Busy(w, a);
      assert forall a :: a in w.pending ==> Busy(w, a);
      assert forall i :: i in w.requests && w.requests[i].Evaluating? ==> Busy(w, w.requests[i].arm);
      assert next.pending == {arm} && next.requests[id] == Evaluating(arm);
      assert forall a :: Live(next, a) ==> Busy(w, a);
      assert SomeOwner(next) ==> SomeOwner(w);
    }
  }

  lemma CommitKeeps(w: World, id: nat)
    requires Keeps(w) && Enabled(w, Commit(id))
    ensures Keeps(Take(w, Commit(id)))
  {
    var arm := w.requests[id].arm;
    var next := Take(w, Commit(id));
    assert Busy(w, arm);
    assert forall a :: Busy(next, a) ==> a == arm || Busy(w, a);
    forall a | a in next.jobs && Owns(next.jobs[a])
      ensures a in w.jobs && Owns(w.jobs[a])
    {
    }
  }

  lemma ReleaseKeeps(w: World, id: nat)
    requires Keeps(w) && Enabled(w, Release(id))
    ensures Keeps(Take(w, Release(id)))
  {
    var arm := w.requests[id].arm;
    var next := Take(w, Release(id));
    assert Busy(w, arm);
    assert forall a :: Busy(next, a) ==> Busy(w, a);
    forall a | a in w.pending
      ensures a == arm
    {
      assert Busy(w, a);
    }
  }

  lemma SessionKeeps(w: World)
    requires Keeps(w)
    ensures Keeps(Take(w, StartSession)) && Keeps(Take(w, EndSession))
  {
    var on, off := w.(session := true), w.(session := false);
    assert forall a :: Busy(on, a) <==> Busy(w, a);
    assert forall a :: Busy(off, a) <==> Busy(w, a);
    if SomeOwner(w) {
      var a :| a in w.jobs && Owns(w.jobs[a]);
      OwnerIsBusy(w, a);
    }
  }

  lemma TakeKeeps(w: World, s: Step)
    requires Keeps(w) && Enabled(w, s)
    ensures Keeps(Take(w, s))
  {
    match s
    case OfJob(arm, js) => JobStepKeeps(w, arm, js);
    case Reserve(id, arm) => ReserveKeeps(w, id, arm);
    case Commit(id) => CommitKeeps(w, id);
    case Release(id) => ReleaseKeeps(w, id);
    case StartSession => SessionKeeps(w);
    case EndSession => SessionKeeps(w);
  }

  lemma {:induction false} RunKeeps(steps: seq<Step>)
    requires Possible(START, steps)
    ensures Keeps(After(START, steps))
  {
    if steps != [] {
      RunKeeps(steps[..|steps| - 1]);
      TakeKeeps(After(START, steps[..|steps| - 1]), steps[|steps| - 1]);
    }
  }

  /** Over every interleaving at most one arm is reserved or has a job running, at most one job
      holds the boxes, and none while a session runs. */
  lemma OneAtATime(steps: seq<Step>, a: string, b: string)
    requires Possible(START, steps)
    ensures var w := After(START, steps);
            && (Busy(w, a) && Busy(w, b) ==> a == b)
            && (a in w.jobs && b in w.jobs && Owns(w.jobs[a]) && Owns(w.jobs[b]) ==> a == b)
            && (w.session && a in w.jobs ==> !Owns(w.jobs[a]))
  {
    RunKeeps(steps);
    var w := After(START, steps);
    if a in w.jobs && b in w.jobs && Owns(w.jobs[a]) && Owns(w.jobs[b]) {
      OwnerIsBusy(w, a);
      OwnerIsBusy(w, b);
    }
  }

  /** A job that has ended resumed the monitor exactly as often as it paused it, once or never;
      no job ever resumes it twice, or while it holds the boxes, or without having paused it. */
  lemma MonitorComesBackOnce(steps: seq<Step>, a: string)
    requires Possible(START, steps) && a in After(START, steps).jobs
    ensures var j := After(START, steps).jobs[a];
            && j.resumes <= j.pauses <= 1
            && (Terminal(j) ==> j.resumes == j.pauses && !j.ownsBoxes)
            && (JobEnabled(j, ResumeMonitor) ==> !j.ownsBoxes)
            && (j.ownsBoxes ==> j.pauses == 1 && j.resumes == 0)
  {
    RunKeeps(steps);
  }

  /** A live job is never overwritten: a request that holds the reservation finds none. */
  lemma CommitNeverOverwrites(steps: seq<Step>, id: nat)
    requires Possible(START, steps) && Enabled(After(START, steps), Commit(id))
    ensures var w := After(START, steps); !Live(w, w.requests[id].arm)
  {
    RunKeeps(steps);
  }

  /** Between two requests nothing stays reserved: an arm is reserved exactly while a request
      for it is being evaluated. */
  lemma ReservedWhileEvaluated(steps: seq<Step>, a: string)
    requires Possible(START, steps)
    ensures var w := After(START, steps); a in w.pending <==> exists i :: i in w.requests && w.requests[i] == Evaluating(a)
  {
    RunKeeps(steps);
  }

  // -- the objects ------------------------------------------------------------------------------

  class RailHomingJob {
    const armId: string
    var stage: Stage
    var ownsBoxes: bool
    var pausedMonitor: bool
    ghost var pauses: nat
    ghost var resumes: nat

    constructor (arm: string)
      ensures armId == arm && Value() == NewJob()
    {
      armId, stage, ownsBoxes, pausedMonitor := arm, Waiting, false, false;
      pauses, resumes := 0, 0;
    }

    ghost function Value(): Job
      reads this
    {
      Job(stage, ownsBoxes, pausedMonitor, pauses, resumes)
    }

    predicate IsTerminal()
      reads this
    {
      stage.Ended?
    }

    /** Under the manager's lock: refuse, or take the boxes and pause the monitor. */
    method DoConnect(sessionActive: bool, otherOwner: bool, otherArm: Option<string>) returns (connected: bool)
      requires stage.Waiting?
      modifies this
      ensures connected <==> !sessionActive && !otherOwner && (otherArm.None? || otherArm.value == armId)
      ensures Value() == JobTake(old(Value()), Connect, connected)
    {
      if sessionActive || otherOwner || (otherArm.Some? && otherArm.value != armId) {
        stage := Failing;
        return false;
      }
      ownsBoxes, pausedMonitor := true, true;
      pauses := pauses + 1;
      stage := Connecting;
      connected := true;
    }

    method DoTeardown(ok: bool)
      requires stage.Connected?
      modifies this
      ensures Value() == JobTake(old(Value()), Teardown(ok), false)
    {
      ownsBoxes := false;
      stage := if ok then Closed else Failing;
    }

    method DoGiveUp()
      requires stage.Failing?
      modifies this
      ensures Value() == JobTake(old(Value()), GiveUp, false)
    {
      ownsBoxes := false;
      stage := GaveUp;
    }

    /** Resumes the monitor if this job paused it and has not resumed it yet. */
    method DoResumeMonitor() returns (resumed: bool)
      requires stage.Closed? || stage.GaveUp?
      modifies this
      ensures Value() == JobTake(old(Value()), ResumeMonitor, false) && resumed == old(pausedMonitor)
    {
      resumed := pausedMonitor;
      pausedMonitor := false;
      if resumed {
        resumes := resumes + 1;
      }
      stage := MonitorBack(stage.Closed?);
    }

    method DoFinish() returns (ok: bool)
      requires stage.MonitorBack?
      modifies this
      ensures Value() == JobTake(old(Value()), Finish, false) && ok == old(stage).ok
    {
      ok := stage.ok;
      ownsBoxes := false;
      stage := Recorded(ok);
    }
  }

  class RailHomingService {
    var jobs: map<string, RailHomingJob>
    var pending: set<string>

    constructor ()
      ensures jobs == map[] && pending == {}
    {
      jobs, pending := map[], {};
    }

    /** The arm whose request is pending or whose job is not terminal. */
    method BusyArm() returns (busy: Option<string>)
      ensures busy.None? <==> pending == {} && forall a :: a in jobs ==> jobs[a].stage.Ended?
      ensures busy.Some? ==> busy.value in pending || (busy.value in jobs && !jobs[busy.value].stage.Ended?)
    {
      if pending != {} {
        var a :| a in pending;
        return Some(a);
      }
      var todo := jobs.Keys;
      while todo != {}
        invariant todo <= jobs.Keys
        invariant forall a :: a in jobs && a !in todo ==> jobs[a].stage.Ended?
        decreases todo
      {
        var a :| a in todo;
        if !jobs[a].IsTerminal() {
          return Some(a);
        }
        todo := todo - {a};
      }
      busy := None;
    }

    method DoReserve(arm: string) returns (ok: bool)
      modifies this`pending
      ensures ok <==> old(pending) == {} && forall a :: a in jobs ==> jobs[a].stage.Ended?
      ensures pending == if ok then old(pending) + {arm} else old(pending)
    {
      var busy := BusyArm();
      ok := busy.None?;
      if ok {
        pending := pending + {arm};
      }
    }

    method DoRelease(arm: string)
      modifies this`pending
      ensures pending == old(pending) - {arm}
    {
      pending := pending - {arm};
    }

    /** The reservation becomes the job, unless a live job of this arm is in the way. */
    method DoCommit(arm: string, job: RailHomingJob) returns (ok: bool)
      requires arm in pending && job.stage.Waiting?
      modifies this
      ensures ok <==> (old(arm in jobs) ==> old(jobs[arm].stage.Ended?))
      ensures ok ==> jobs == old(jobs)[arm := job] && pending == old(pending) - {arm}
      ensures !ok ==> jobs == old(jobs) && pending == old(pending)
    {
      if arm in jobs && !jobs[arm].IsTerminal() {
        return false;
      }
      jobs := jobs[arm := job];
      pending := pending - {arm};
      ok := true;
    }
  }
}
