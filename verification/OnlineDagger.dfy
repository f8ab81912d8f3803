/** The coordinator of an Online DAgger session (dagger/online_dagger.py:193-372, 495-612):
    its phase, its counters, and the session file it resumes from. */
module OnlineDagger {
  import opened Prelude

  /** Rows of the trainer log that are kept (dagger/online_dagger.py:75). */
  const TRAINER_LOG_MAX: nat := 200

  datatype TrainerState = Idle | Preparing | Ready | Training | Failed

  datatype TrainerStatus = TrainerStatus(session: Option<string>, state: TrainerState, version: int, detail: string)

  datatype Phase = WaitingTrainer | Rollout | InTraining | InError

  datatype Config = Config(sessionId: string, waitForReady: bool, pauseWhileTraining: bool, staleS: real)

  datatype Row = Row(episode: string, novice: int, expert: int, version: Option<int>, spool: Option<string>, at: string)

  /** A log row is a trainer state or a policy swap. */
  datatype Logged = OfTrainer(state: TrainerState) | Swapped

  datatype LogRow = LogRow(what: Logged, version: Option<int>, detail: string, at: string)

  datatype State = State(
    phase: Phase,
    rolloutsSaved: int,
    expert: int,
    novice: int,
    rollouts: seq<Row>,
    log: seq<LogRow>,
    trainer: Option<TrainerStatus>,
    trainerT: Option<real>,
    loggedState: Option<TrainerState>,
    seenReady: bool,
    acting: Option<int>)

  function StartPhase(cfg: Config): Phase {
    if cfg.waitForReady then WaitingTrainer else Rollout
  }

  function Fresh(cfg: Config, version: Option<int>): State {
    State(StartPhase(cfg), 0, 0, 0, [], [], None, None, None, false, version)
  }

  // -- what arrives -------------------------------------------------------------------------

  datatype Event =
    | Status(status: TrainerStatus, t: real, at: string)
    | SpecVersion(version: int, at: string)
    | Saved(episode: string, novice: int, expert: int, spool: Option<string>, at: string)
    | Discarded

  function PhaseFor(cfg: Config, state: TrainerState, seenReady: bool): Phase {
    if state == Failed then InError
    else if state == Training && cfg.pauseWhileTraining then InTraining
    else if state == Ready || seenReady || !cfg.waitForReady then Rollout
    else WaitingTrainer
  }

  function WithLog(st: State, row: LogRow): State {
    st.(log := Newest(st.log + [row], TRAINER_LOG_MAX))
  }

  predicate IsForeign(cfg: Config, s: TrainerStatus) {
    s.session.Some? && s.session.value != cfg.sessionId
  }

  predicate IsOwn(cfg: Config, s: TrainerStatus) {
    s.session == Some(cfg.sessionId)
  }

  function OnStatus(cfg: Config, st: State, s: TrainerStatus, t: real, at: string): State {
    if st.trainerT.Some? && t < st.trainerT.value then st
    else if IsForeign(cfg, s) then st
    else
      var heard := st.(trainer := Some(s), trainerT := Some(t));
      if !IsOwn(cfg, s) then heard
      else
        var filed :=
          if st.loggedState == Some(s.state) then heard
          else WithLog(heard.(loggedState := Some(s.state)), LogRow(OfTrainer(s.state), Some(s.version), s.detail, at));
        var ready := st.seenReady || s.state == Ready;
        filed.(seenReady := ready, phase := PhaseFor(cfg, s.state, ready))
  }

  function OnVersion(st: State, v: int, at: string): State {
    if st.acting == Some(v) then st
    else
      var next := st.(acting := Some(v));
      if st.acting.None? then next else WithLog(next, LogRow(Swapped, Some(v), "policy swapped", at))
  }

  function OnSaved(st: State, e: Event): State
    requires e.Saved?
  {
    st.(rolloutsSaved := st.rolloutsSaved + 1,
        expert := st.expert + e.expert,
        novice := st.novice + e.novice,
        rollouts := st.rollouts + [Row(e.episode, e.novice, e.expert, st.acting, e.spool, e.at)])
  }

  function Step(cfg: Config, st: State, e: Event): State {
    match e
    case Status(s, t, at) => OnStatus(cfg, st, s, t, at)
    case SpecVersion(v, at) => OnVersion(st, v, at)
    case Saved(_, _, _, _, _) => OnSaved(st, e)
    case Discarded => st
  }

  function Run(cfg: Config, base: State, es: seq<Event>): State {
    if es == [] then base else Step(cfg, Run(cfg, base, es[..|es| - 1]), es[|es| - 1])
  }

  // -- the phase is a function of the newest own status ----------------------------------------

  ghost predicate Heard(cfg: Config, e: Event) {
    e.Status? && !IsForeign(cfg, e.status)
  }

  /** Event `k` was taken: no status heard before it is newer. */
  ghost predicate Taken(cfg: Config, es: seq<Event>, k: nat)
    requires k < |es|
  {
    Heard(cfg, es[k]) && forall j :: 0 <= j < k && Heard(cfg, es[j]) ==> es[j].t <= es[k].t
  }

  ghost predicate TakenOwn(cfg: Config, es: seq<Event>, k: nat)
    requires k < |es|
  {
    Taken(cfg, es, k) && IsOwn(cfg, es[k].status)
  }

  ghost predicate ReadySeen(cfg: Config, es: seq<Event>, n: nat)
    requires n <= |es|
  {
    exists k :: 0 <= k < n && TakenOwn(cfg, es, k) && es[k].status.state == Ready
  }

  ghost predicate NewestOwn(cfg: Config, es: seq<Event>, k: nat)
    requires k < |es|
  {
    TakenOwn(cfg, es, k) && forall j :: k < j < |es| ==> !TakenOwn(cfg, es, j)
  }

  ghost predicate NoneOwn(cfg: Config, es: seq<Event>) {
    forall j :: 0 <= j < |es| ==> !TakenOwn(cfg, es, j)
  }

  /** The newest time heard bounds all of them. */
  ghost predicate TimeIsNewest(cfg: Config, st: State, es: seq<Event>) {
    && (st.trainerT.None? ==> forall j :: 0 <= j < |es| ==> !Heard(cfg, es[j]))
    && (st.trainerT.Some? ==>
          && (forall j :: 0 <= j < |es| && Heard(cfg, es[j]) ==> es[j].t <= st.trainerT.value)
          && exists j :: 0 <= j < |es| && Heard(cfg, es[j]) && es[j].t == st.trainerT.value)
  }

  ghost predicate PhaseIsRight(cfg: Config, st: State, es: seq<Event>) {
    && (st.seenReady <==> ReadySeen(cfg, es, |es|))
    && (NoneOwn(cfg, es) ==> st.phase == if cfg.waitForReady then WaitingTrainer else Rollout)
    && (forall k :: 0 <= k < |es| && NewestOwn(cfg, es, k) ==> PhaseMeans(cfg, es[k].status.state, st.seenReady, st.phase))
  }

  /** What each phase says of the newest own status: a failed trainer is an error, a training one
      pauses the rollouts if configured; otherwise they wait only until one was ever ready, if they
      have to wait at all. */
  ghost predicate PhaseMeans(cfg: Config, state: TrainerState, everReady: bool, phase: Phase) {
    && (phase == InError <==> state == Failed)
    && (phase == InTraining <==> state == Training && cfg.pauseWhileTraining)
    && (phase == WaitingTrainer <==>
          cfg.waitForReady && !everReady && (state == Idle || state == Preparing || (state == Training && !cfg.pauseWhileTraining)))
  }

  lemma TakenFront(cfg: Config, es: seq<Event>, k: nat)
    requires es != [] && k < |es| - 1
    ensures TakenOwn(cfg, es[..|es| - 1], k) <==> TakenOwn(cfg, es, k)
  {
  }

  lemma TakenIffNewest(cfg: Config, st: State, es: seq<Event>)
    requires es != [] && TimeIsNewest(cfg, st, es[..|es| - 1])
    ensures Taken(cfg, es, |es| - 1) <==>
              (Heard(cfg, es[|es| - 1]) && !(st.trainerT.Some? && es[|es| - 1].t < st.trainerT.value))
  {
    var front := es[..|es| - 1];
    assert forall j :: 0 <= j < |front| ==> front[j] == es[j];
  }

  lemma TimeStep(cfg: Config, st: State, es: seq<Event>)
    requires es != [] && TimeIsNewest(cfg, st, es[..|es| - 1])
    ensures TimeIsNewest(cfg, Step(cfg, st, es[|es| - 1]), es)
  {
    var front, e := es[..|es| - 1], es[|es| - 1];
    assert forall j :: 0 <= j < |front| ==> front[j] == es[j];
    if st.trainerT.Some? {
      var j :| 0 <= j < |front| && Heard(cfg, front[j]) && front[j].t == st.trainerT.value;
      assert Heard(cfg, es[j]);
    }
    if Heard(cfg, e) {
      assert Heard(cfg, es[|es| - 1]);
    }
  }

  lemma ReadyStep(cfg: Config, es: seq<Event>)
    requires es != []
    ensures ReadySeen(cfg, es, |es|) <==>
              ReadySeen(cfg, es[..|es| - 1], |es| - 1) || (TakenOwn(cfg, es, |es| - 1) && es[|es| - 1].status.state == Ready)
  {
    var front, n := es[..|es| - 1], |es| - 1;
    if ReadySeen(cfg, front, n) {
      var k :| 0 <= k < n && TakenOwn(cfg, front, k) && front[k].status.state == Ready;
      TakenFront(cfg, es, k);
    }
    if ReadySeen(cfg, es, |es|) {
      var k :| 0 <= k < |es| && TakenOwn(cfg, es, k) && es[k].status.state == Ready;
      if k < n {
        TakenFront(cfg, es, k);
      }
    }
  }

  lemma StatusStep(cfg: Config, st: State, e: Event, taken: bool)
    requires taken <==> Heard(cfg, e) && IsOwn(cfg, e.status) && !(st.trainerT.Some? && e.t < st.trainerT.value)
    ensures var next := Step(cfg, st, e);
            if taken then
              && next.seenReady == (st.seenReady || e.status.state == Ready)
              && PhaseMeans(cfg, e.status.state, next.seenReady, next.phase)
            else next.seenReady == st.seenReady && next.phase == st.phase
  {
  }

  lemma PhaseStep(cfg: Config, st: State, es: seq<Event>)
    requires es != [] && TimeIsNewest(cfg, st, es[..|es| - 1]) && PhaseIsRight(cfg, st, es[..|es| - 1])
    ensures PhaseIsRight(cfg, Step(cfg, st, es[|es| - 1]), es)
  {
    var front, n := es[..|es| - 1], |es| - 1;
    TakenIffNewest(cfg, st, es);
    ReadyStep(cfg, es);
    StatusStep(cfg, st, es[n], TakenOwn(cfg, es, n));
    forall k: nat | k < n
      ensures TakenOwn(cfg, front, k) <==> TakenOwn(cfg, es, k)
    {
      TakenFront(cfg, es, k);
    }
    if !TakenOwn(cfg, es, n) {
      forall k | 0 <= k < |es| && NewestOwn(cfg, es, k)
        ensures k < n && NewestOwn(cfg, front, k)
      {
        TakenFront(cfg, es, k);
      }
    }
  }

  /** Over every run from a fresh session: the phase is decided by the newest status taken for
      this session and the latch, which tells whether one of them was ever `ready`; without
      such a status it is the configured start. Older, foreign and anonymous statuses decide
      nothing. */
  lemma {:induction false} PhaseFollowsNewestStatus(cfg: Config, base: State, es: seq<Event>)
    requires base.phase == StartPhase(cfg) && !base.seenReady && base.trainerT.None?
    ensures PhaseIsRight(cfg, Run(cfg, base, es), es) && TimeIsNewest(cfg, Run(cfg, base, es), es)
  {
    if es != [] {
      var front := es[..|es| - 1];
      PhaseFollowsNewestStatus(cfg, base, front);
      TimeStep(cfg, Run(cfg, base, front), es);
      PhaseStep(cfg, Run(cfg, base, front), es);
    }
  }

  // -- counters -------------------------------------------------------------------------------

  ghost function SavedCount(es: seq<Event>): nat {
    if es == [] then 0 else SavedCount(es[..|es| - 1]) + if es[|es| - 1].Saved? then 1 else 0
  }

  ghost function ExpertFrames(rows: seq<Row>): int {
    if rows == [] then 0 else ExpertFrames(rows[..|rows| - 1]) + rows[|rows| - 1].expert
  }

  ghost function NoviceFrames(rows: seq<Row>): int {
    if rows == [] then 0 else NoviceFrames(rows[..|rows| - 1]) + rows[|rows| - 1].novice
  }

  /** The session's totals are what it resumed with plus the rows saved since. */
  ghost predicate Totals(base: State, st: State, saved: nat) {
    && |st.rollouts| == |base.rollouts| + saved && base.rollouts <= st.rollouts
    && st.rolloutsSaved == base.rolloutsSaved + saved
    && st.expert == base.expert + ExpertFrames(st.rollouts[|base.rollouts|..])
    && st.novice == base.novice + NoviceFrames(st.rollouts[|base.rollouts|..])
  }

  lemma SavedAddsARow(base: State, st: State, saved: nat, e: Event)
    requires e.Saved? && Totals(base, st, saved)
    ensures Totals(base, OnSaved(st, e), saved + 1)
  {
    var n := |base.rollouts|;
    var rows, next := st.rollouts[n..], OnSaved(st, e).rollouts[n..];
    assert next[..|next| - 1] == rows;
  }

  /** Frame totals equal the resumed base plus the sum over the newly saved rows, and the count
      moves by one for each of them. */
  lemma {:induction false} TotalsAddUp(cfg: Config, base: State, es: seq<Event>)
    ensures Totals(base, Run(cfg, base, es), SavedCount(es))
  {
    if es != [] {
      var st, e := Run(cfg, base, es[..|es| - 1]), es[|es| - 1];
      TotalsAddUp(cfg, base, es[..|es| - 1]);
      if e.Saved? {
        SavedAddsARow(base, st, SavedCount(es[..|es| - 1]), e);
      }
    }
  }

  /** The newest version announced, or the one the session began with. */
  ghost function ActingAfter(base: State, es: seq<Event>): Option<int> {
    if es == [] then base.acting
    else if es[|es| - 1].SpecVersion? then Some(es[|es| - 1].version)
    else ActingAfter(base, es[..|es| - 1])
  }

  /** One row per save, with the frames, spool and time of the save and the version acting then. */
  ghost function SavedRows(base: State, es: seq<Event>): seq<Row> {
    if es == [] then []
    else
      var front, e := es[..|es| - 1], es[|es| - 1];
      SavedRows(base, front)
      + if e.Saved? then [Row(e.episode, e.novice, e.expert, ActingAfter(base, front), e.spool, e.at)] else []
  }

  /** Over every run the rows are those it resumed with and one for each save, in order. */
  lemma {:induction false} EverySaveIsARow(cfg: Config, base: State, es: seq<Event>)
    ensures Run(cfg, base, es).acting == ActingAfter(base, es)
    ensures Run(cfg, base, es).rollouts == base.rollouts + SavedRows(base, es)
  {
    if es != [] {
      EverySaveIsARow(cfg, base, es[..|es| - 1]);
    }
  }

  // -- sidecar and event ------------------------------------------------------------------------

  /** The block both the episode's sidecar and its event carry. */
  datatype Block = Block(rolloutsSaved: int, version: Option<int>, novice: int, expert: int)

  function SidecarBlock(st: State, novice: int, expert: int): Block {
    Block(st.rolloutsSaved + 1, st.acting, novice, expert)
  }

  function SavedBlock(st: State, e: Event): Block
    requires e.Saved?
  {
    Block(OnSaved(st, e).rolloutsSaved, st.acting, e.novice, e.expert)
  }

  lemma {:induction false} NoSaveNoCount(cfg: Config, base: State, es: seq<Event>)
    requires forall k :: 0 <= k < |es| ==> !es[k].Saved?
    ensures Run(cfg, base, es).rolloutsSaved == base.rolloutsSaved && Run(cfg, base, es).rollouts == base.rollouts
  {
    if es != [] {
      NoSaveNoCount(cfg, base, es[..|es| - 1]);
    }
  }

  /** Whatever arrives between writing the sidecar and the save's event, short of another save,
      the two carry the same count; the policy version agrees too unless a new one came. */
  lemma SidecarAgreesWithEvent(cfg: Config, st: State, between: seq<Event>, e: Event)
    requires e.Saved? && forall k :: 0 <= k < |between| ==> !between[k].Saved?
    ensures SavedBlock(Run(cfg, st, between), e).rolloutsSaved == SidecarBlock(st, e.novice, e.expert).rolloutsSaved
    ensures SavedBlock(Run(cfg, st, between), e) == SidecarBlock(st, e.novice, e.expert) <==> Run(cfg, st, between).acting == st.acting
  {
    NoSaveNoCount(cfg, st, between);
  }

  // -- the log ----------------------------------------------------------------------------------

  /** The log as it would be if nothing was ever cut off. */
  ghost function FullLog(cfg: Config, base: State, es: seq<Event>): seq<LogRow> {
    if es == [] then base.log
    else
      var st, e := Run(cfg, base, es[..|es| - 1]), es[|es| - 1];
      var full := FullLog(cfg, base, es[..|es| - 1]);
      if LogsARow(cfg, st, e) then full + [RowFor(e)] else full
  }

  /** A trainer row tells its state, version and detail, a swap the new version. */
  ghost function RowFor(e: Event): LogRow
    requires e.Status? || e.SpecVersion?
  {
    match e
    case Status(s, _, at) => LogRow(OfTrainer(s.state), Some(s.version), s.detail, at)
    case SpecVersion(v, at) => LogRow(Swapped, Some(v), "policy swapped", at)
  }

  ghost predicate LogsARow(cfg: Config, st: State, e: Event) {
    match e
    case Status(s, t, _) =>
      !(st.trainerT.Some? && t < st.trainerT.value) && IsOwn(cfg, s) && st.loggedState != Some(s.state)
    case SpecVersion(v, _) => st.acting.Some? && st.acting != Some(v)
    case _ => false
  }

  lemma StepLogs(cfg: Config, st: State, e: Event)
    requires |st.log| <= TRAINER_LOG_MAX
    ensures Step(cfg, st, e).log == if LogsARow(cfg, st, e) then Newest(st.log + [RowFor(e)], TRAINER_LOG_MAX) else st.log
  {
  }

  lemma NewestOfNewest(full: seq<LogRow>, kept: seq<LogRow>, row: LogRow)
    requires kept == Newest(full, TRAINER_LOG_MAX)
    ensures Newest(kept + [row], TRAINER_LOG_MAX) == Newest(full + [row], TRAINER_LOG_MAX)
  {
  }

  /** The kept log is the end of the full one, 200 rows at most. */
  lemma {:induction false} LogIsTheTail(cfg: Config, base: State, es: seq<Event>)
    requires |base.log| <= TRAINER_LOG_MAX
    ensures Run(cfg, base, es).log == Newest(FullLog(cfg, base, es), TRAINER_LOG_MAX)
  {
    if es != [] {
      var front, e := es[..|es| - 1], es[|es| - 1];
      LogIsTheTail(cfg, base, front);
      StepLogs(cfg, Run(cfg, base, front), e);
      if LogsARow(cfg, Run(cfg, base, front), e) {
        NewestOfNewest(FullLog(cfg, base, front), Run(cfg, base, front).log, RowFor(e));
      }
    }
  }

  // -- the session file -------------------------------------------------------------------------

  /** `session.json` as far as it is read back; any field may be missing. */
  datatype Current = Current(rolloutsSaved: Option<int>, expert: Option<int>, novice: Option<int>)

  datatype Doc = Doc(rollouts: Option<seq<Row>>, log: Option<seq<LogRow>>, current: Option<Current>)

  function ToJson(st: State): Doc {
    Doc(Some(st.rollouts), Some(Newest(st.log, TRAINER_LOG_MAX)),
        Some(Current(Some(st.rolloutsSaved), Some(st.expert), Some(st.novice))))
  }

  function OrZero(x: Option<int>): int {
    if x.None? then 0 else x.value
  }

  /** A coordinator just made, resuming from a file. */
  function FromJson(cfg: Config, st: State, doc: Doc): State {
    var rows := if doc.rollouts.None? then [] else doc.rollouts.value;
    var log := if doc.log.None? then [] else doc.log.value;
    var cur := if doc.current.None? then Current(None, None, None) else doc.current.value;
    var count := if cur.rolloutsSaved.None? then |rows| else cur.rolloutsSaved.value;
    st.(rollouts := rows,
        log := Newest(log, TRAINER_LOG_MAX),
        rolloutsSaved := if count < |rows| then |rows| else count,
        expert := OrZero(cur.expert),
        novice := OrZero(cur.novice),
        phase := StartPhase(cfg),
        seenReady := false)
  }

  /** What a resumed session must carry on with. */
  ghost predicate SameRecord(a: State, b: State) {
    && a.rollouts == b.rollouts && a.rolloutsSaved == b.rolloutsSaved && a.expert == b.expert && a.novice == b.novice
    && a.log == b.log
  }

  /** Reading back what was written restores rows, counters and log exactly when no more rows
      than rollouts were counted; the phase starts over. */
  lemma FileRoundTrip(cfg: Config, st: State, reader: State)
    requires |st.log| <= TRAINER_LOG_MAX
    ensures SameRecord(FromJson(cfg, reader, ToJson(st)), st) <==> st.rolloutsSaved >= |st.rollouts|
    ensures var back := FromJson(cfg, reader, ToJson(st));
            back.phase == (if cfg.waitForReady then WaitingTrainer else Rollout) && !back.seenReady
  {
  }

  /** A file without its counters: every row counts as a rollout, and no frames are known. */
  lemma CountersMayBeMissing(cfg: Config, rows: seq<Row>, log: Option<seq<LogRow>>, reader: State)
    ensures var back := FromJson(cfg, reader, Doc(Some(rows), log, None));
            back.rollouts == rows && back.rolloutsSaved == |rows| && back.expert == 0 && back.novice == 0
    ensures FromJson(cfg, reader, Doc(None, None, None)).rollouts == [] && FromJson(cfg, reader, Doc(None, None, None)).log == []
  {
  }

  /** Sessions: begun fresh, continued by events, and written and resumed any number of times. */
  datatype Life = Begin(version: Option<int>) | Continue(before: Life, es: seq<Event>) | Resume(before: Life, version: Option<int>)

  ghost function Lived(cfg: Config, life: Life): State
    decreases life
  {
    match life
    case Begin(v) => Fresh(cfg, v)
    case Continue(before, es) => Run(cfg, Lived(cfg, before), es)
    case Resume(before, v) => FromJson(cfg, Fresh(cfg, v), ToJson(Lived(cfg, before)))
  }

  /** Every session the coordinator can be in counts at least as many rollouts as it has rows,
      so every resume restores the record in full. */
  lemma {:induction false} ResumeRestores(cfg: Config, life: Life, version: Option<int>)
    ensures Lived(cfg, life).rolloutsSaved >= |Lived(cfg, life).rollouts| && |Lived(cfg, life).log| <= TRAINER_LOG_MAX
    ensures SameRecord(Lived(cfg, Resume(life, version)), Lived(cfg, life))
    decreases life
  {
    match life {
      case Begin(v) =>
      case Continue(before, es) =>
        ResumeRestores(cfg, before, None);
        TotalsAddUp(cfg, Lived(cfg, before), es);
        LogIsTheTail(cfg, Lived(cfg, before), es);
      case Resume(before, v) =>
        ResumeRestores(cfg, before, v);
    }
    FileRoundTrip(cfg, Lived(cfg, life), Fresh(cfg, version));
  }

  // -- may a rollout begin ------------------------------------------------------------------------

  datatype Refusal = NoTrainer | TrainerError | WaitingForReady | TrainingInProgress

  predicate TrainerAlive(cfg: Config, st: State, now: real) {
    st.trainerT.Some? && st.trainer.Some? && now - st.trainerT.value <= cfg.staleS
  }

  function RefuseEpisodeNew(cfg: Config, st: State, now: real): Option<Refusal> {
    if !TrainerAlive(cfg, st, now) then Some(NoTrainer)
    else
      match st.phase
      case InError => Some(TrainerError)
      case WaitingTrainer => Some(WaitingForReady)
      case InTraining => Some(TrainingInProgress)
      case Rollout => None
  }

  /** A rollout may begin exactly while some status of the trainer, own or anonymous, is fresh
      and the newest own one, if any, is not an error, not a pausing training, and `ready` was
      seen or is not waited for. */
  lemma RolloutAllowed(cfg: Config, version: Option<int>, es: seq<Event>, now: real)
    ensures var st := Run(cfg, Fresh(cfg, version), es);
            RefuseEpisodeNew(cfg, st, now).None? <==>
              && (exists k :: 0 <= k < |es| && Heard(cfg, es[k]) && now - es[k].t <= cfg.staleS)
              && (NoneOwn(cfg, es) ==> !cfg.waitForReady)
              && (forall k :: 0 <= k < |es| && NewestOwn(cfg, es, k) ==>
                    && es[k].status.state != Failed && !(es[k].status.state == Training && cfg.pauseWhileTraining)
                    && (cfg.waitForReady ==> ReadySeen(cfg, es, |es|)))
    ensures var st := Run(cfg, Fresh(cfg, version), es);
            RefuseEpisodeNew(cfg, st, now) == Some(NoTrainer) <==>
              !exists k :: 0 <= k < |es| && Heard(cfg, es[k]) && now - es[k].t <= cfg.staleS
  {
    var st := Run(cfg, Fresh(cfg, version), es);
    PhaseFollowsNewestStatus(cfg, Fresh(cfg, version), es);
    TrainerIsKnown(cfg, Fresh(cfg, version), es);
    SomeNewest(cfg, es, |es|);
    if st.trainerT.Some? {
      var j :| 0 <= j < |es| && Heard(cfg, es[j]) && es[j].t == st.trainerT.value;
    }
  }

  lemma {:induction false} TrainerIsKnown(cfg: Config, base: State, es: seq<Event>)
    requires base.trainer.Some? <==> base.trainerT.Some?
    ensures Run(cfg, base, es).trainer.Some? <==> Run(cfg, base, es).trainerT.Some?
  {
    if es != [] {
      TrainerIsKnown(cfg, base, es[..|es| - 1]);
    }
  }

  lemma {:induction false} SomeNewest(cfg: Config, es: seq<Event>, n: nat)
    requires n <= |es| && forall j :: n <= j < |es| ==> !TakenOwn(cfg, es, j)
    ensures NoneOwn(cfg, es) || exists k :: 0 <= k < |es| && NewestOwn(cfg, es, k)
  {
    if n > 0 {
      if TakenOwn(cfg, es, n - 1) {
        assert NewestOwn(cfg, es, n - 1);
      } else {
        SomeNewest(cfg, es, n - 1);
      }
    }
  }

  // -- the object ---------------------------------------------------------------------------------

  class OnlineDaggerCoordinator {
    const cfg: Config
    var phase: Phase
    var rolloutsSaved: int
    var expertFrames: int
    var noviceFrames: int
    var rollouts: seq<Row>
    var trainerLog: seq<LogRow>
    var trainer: Option<TrainerStatus>
    var trainerT: Option<real>
    var loggedState: Option<TrainerState>
    var trainerSeenReady: bool
    var acting: Option<int>
    var eventsPublished: nat

    constructor (c: Config, version: Option<int>)
      ensures cfg == c && Value() == Fresh(c, version) && eventsPublished == 0
    {
      cfg := c;
      phase := if c.waitForReady then WaitingTrainer else Rollout;
      rolloutsSaved, expertFrames, noviceFrames, rollouts, trainerLog := 0, 0, 0, [], [];
      trainer, trainerT, loggedState, trainerSeenReady, acting := None, None, None, false, version;
      eventsPublished := 0;
    }

    ghost function Value(): State
      reads this
    {
      State(phase, rolloutsSaved, expertFrames, noviceFrames, rollouts, trainerLog, trainer, trainerT, loggedState,
            trainerSeenReady, acting)
    }

    /** A row behind the others, the oldest cut off beyond the limit. */
    method File(row: LogRow)
      modifies this`trainerLog
      ensures trainerLog == Newest(old(trainerLog) + [row], TRAINER_LOG_MAX)
    {
      trainerLog := trainerLog + [row];
      if |trainerLog| > TRAINER_LOG_MAX {
        trainerLog := trainerLog[|trainerLog| - TRAINER_LOG_MAX..];
      }
    }

    method OnTrainerStatus(msg: TrainerStatus, t: real, at: string)
      modifies this
      ensures Value() == Step(cfg, old(Value()), Status(msg, t, at)) && eventsPublished == old(eventsPublished)
    {
      if trainerT.Some? && t < trainerT.value {
        return;
      }
      if msg.session.Some? && msg.session.value != cfg.sessionId {
        return;
      }
      trainer, trainerT := Some(msg), Some(t);
      if msg.session != Some(cfg.sessionId) {
        return;
      }
      if loggedState != Some(msg.state) {
        loggedState := Some(msg.state);
        File(LogRow(OfTrainer(msg.state), Some(msg.version), msg.detail, at));
      }
      if msg.state == Ready {
        trainerSeenReady := true;
      }
      phase := PhaseFor(cfg, msg.state, trainerSeenReady);
    }

    method OnSpecVersion(v: int, at: string)
      modifies this
      ensures Value() == Step(cfg, old(Value()), SpecVersion(v, at)) && eventsPublished == old(eventsPublished)
    {
      var before := acting;
      if before == Some(v) {
        return;
      }
      acting := Some(v);
      if before.Some? {
        File(LogRow(Swapped, Some(v), "policy swapped", at));
      }
    }

    method OnEpisodeSaved(episode: string, novice: int, expert: int, spool: Option<string>, at: string) returns (block: Block)
      modifies this
      ensures Value() == Step(cfg, old(Value()), Saved(episode, novice, expert, spool, at))
      ensures block == SavedBlock(old(Value()), Saved(episode, novice, expert, spool, at))
      ensures eventsPublished == old(eventsPublished) + 1
    {
      rolloutsSaved := rolloutsSaved + 1;
      expertFrames := expertFrames + expert;
      noviceFrames := noviceFrames + novice;
      rollouts := rollouts + [Row(episode, novice, expert, acting, spool, at)];
      block := Block(rolloutsSaved, acting, novice, expert);
      eventsPublished := eventsPublished + 1;
    }

    method FromSessionJson(doc: Doc)
      modifies this
      ensures Value() == FromJson(cfg, old(Value()), doc) && eventsPublished == old(eventsPublished)
    {
      rollouts := if doc.rollouts.Some? then doc.rollouts.value else [];
      trainerLog := Newest(if doc.log.Some? then doc.log.value else [], TRAINER_LOG_MAX);
      RestoreCounters(if doc.current.Some? then doc.current.value else Current(None, None, None));
      phase := if cfg.waitForReady then WaitingTrainer else Rollout;
      trainerSeenReady := false;
    }

    method RestoreCounters(cur: Current)
      modifies this`rolloutsSaved, this`expertFrames, this`noviceFrames
      ensures rolloutsSaved == if cur.rolloutsSaved.Some? && cur.rolloutsSaved.value > |rollouts| then cur.rolloutsSaved.value
                               else |rollouts|
      ensures expertFrames == OrZero(cur.expert) && noviceFrames == OrZero(cur.novice)
    {
      rolloutsSaved := |rollouts|;
      if cur.rolloutsSaved.Some? && cur.rolloutsSaved.value > rolloutsSaved {
        rolloutsSaved := cur.rolloutsSaved.value;
      }
      expertFrames, noviceFrames := OrZero(cur.expert), OrZero(cur.novice);
    }
  }
}
