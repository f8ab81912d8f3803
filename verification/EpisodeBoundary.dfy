/** Episode boundaries (dagger/loop.py:113-225, 604-618) over every interleaving of the control
    thread and the recorder thread (recorder/thread.py:152-199, 343-470): which episodes get
    one, and that none gets two. */
module EpisodeBoundary {
  import opened Prelude
  import opened TakeoverGate

  datatype RecState = Idle | Recording | Saving

  /** What a reader of the recorder sees; an idle recorder may be returning to start. */
  datatype Status = AtIdle | AtReturning | AtRecording | AtSaving

  datatype EpisodeOp = Save | Discard

  datatype Recorder = Recorder(state: RecState, returning: bool, pending: Option<EpisodeOp>, calledBack: bool, degraded: bool)

  /** Where the control thread is: between commands, with a recorder state just read, or past
      the settlement of that read. */
  datatype Pc = Ready | HasRead(status: Status, opening: bool) | MayOpen | MayResolve

  /** Bookkeeping of the executor. */
  datatype Book = Book(prev: Option<Status>, savedBoundary: bool, taken: bool)

  /** Only the statements read these. Episodes are numbered from 1: how many were begun, how many
      the control thread saw recording, the newest one at the last settled read; those whose save
      was called back and those among them the next boundary is for; those read recording or
      saving by a settlement that left no boundary taken; those whose saving was the last thing read
      before the saving, or the save callback, of the next one; and the boundaries that ran, each
      with the episodes it is for. */
  datatype History = History(
    begun: nat,
    seen: nat,
    prevEp: nat,
    called: set<nat>,
    owed: set<nat>,
    free: set<nat>,
    passedOver: set<nat>,
    boundaries: seq<set<nat>>)

  /** Both threads and the gate. */
  datatype World = World(rec: Recorder, book: Book, pc: Pc, gate: Gate, h: History)

  predicate Open(s: Option<Status>) {
    s == Some(AtRecording) || s == Some(AtSaving)
  }

  function StatusOf(r: Recorder): Status {
    match r.state
    case Idle => if r.returning then AtReturning else AtIdle
    case Recording => AtRecording
    case Saving => AtSaving
  }

  // -- settling one read ----------------------------------------------------------------------

  /** Does this read close an episode no boundary has run for? */
  predicate Discarded(b: Book, s: Status) {
    var reopened := b.prev == Some(AtSaving) && s == AtRecording;
    Open(b.prev) && (!Open(Some(s)) || reopened) && !b.savedBoundary && !b.taken
  }

  predicate RunsBoundary(b: Book, s: Status) {
    b.savedBoundary || Discarded(b, s)
  }

  predicate OpensEpisode(b: Book, s: Status) {
    s == AtRecording && b.prev != Some(AtRecording)
  }

  function SettledBook(b: Book, s: Status): Book {
    Book(Some(s), false, if OpensEpisode(b, s) then false else b.taken || RunsBoundary(b, s))
  }

  /** The episodes a boundary is for: those called back, or else the one the last read saw. */
  ghost function BoundaryFor(b: Book, h: History): set<nat> {
    if b.savedBoundary then h.owed else {h.prevEp}
  }

  ghost function SettledHistory(b: Book, h: History, s: Status): History {
    var freed := (s == AtRecording || s == AtSaving) && !SettledBook(b, s).taken;
    var jumped := b.prev == Some(AtSaving) && h.prevEp != h.begun && (s == AtSaving || h.begun in h.owed);
    h.(seen := if OpensEpisode(b, s) then h.seen + 1 else h.seen,
       prevEp := h.begun,
       owed := {},
       free := if freed then h.free + {h.begun} else h.free,
       passedOver := if jumped then h.passedOver + {h.prevEp} else h.passedOver,
       boundaries := if RunsBoundary(b, s) then h.boundaries + [BoundaryFor(b, h)] else h.boundaries)
  }

  ghost function Settle(w: World, arms: seq<string>, s: Status): (r: World)
    requires forall a :: a in arms ==> a in w.gate.mode
    ensures r.gate.mode.Keys == w.gate.mode.Keys
  {
    w.(book := SettledBook(w.book, s),
       gate := if RunsBoundary(w.book, s) then Reset(w.gate, arms) else w.gate,
       h := SettledHistory(w.book, w.h, s))
  }

  // -- the steps of both threads ----------------------------------------------------------------

  datatype Action =
    | ReadForTick
    | ReadForNew
    | SettleRead
    | RequestNew(starts: bool)
    | RequestSave(empty: bool)
    | RequestDiscard
    | Resolve(t: real)
    | GateToggle(arm: string, t: real, source: string)
    | SetReturning(active: bool)
    | SaveCallback
    | Flip(degrade: bool)

  ghost predicate CanOpen(r: Recorder) {
    !r.degraded && r.pending.None? && r.state == Idle && !r.returning
  }

  /** May this step be taken now? Commands are handled between ticks. */
  ghost predicate Enabled(w: World, a: Action) {
    match a
    case ReadForTick => w.pc.Ready?
    case ReadForNew => w.pc.Ready?
    case SettleRead => w.pc.HasRead?
    case RequestNew(_) => w.pc.MayOpen?
    case RequestSave(_) => w.pc.Ready?
    case RequestDiscard => w.pc.Ready?
    case Resolve(_) => w.pc.MayResolve?
    case GateToggle(_, _, _) => w.pc.Ready?
    case SetReturning(_) => true
    case SaveCallback => w.rec.pending == Some(Save) && !w.rec.calledBack
    case Flip(degrade) => w.rec.pending.Some? && (degrade ==> w.rec.pending == Some(Save) && !w.rec.calledBack)
  }

  predicate CanClose(r: Recorder) {
    !r.degraded && r.pending.None? && r.state == Recording
  }

  ghost function Take(w: World, arms: seq<string>, blend: real, a: Action): (r: World)
    requires forall x :: x in arms ==> x in w.gate.mode
    ensures forall x :: x in arms ==> x in r.gate.mode
  {
    match a
    case ReadForTick => w.(pc := HasRead(StatusOf(w.rec), false))
    case ReadForNew => w.(pc := HasRead(StatusOf(w.rec), true))
    case SettleRead =>
      if w.pc.HasRead? then Settle(w, arms, w.pc.status).(pc := if w.pc.opening then MayOpen else MayResolve) else w
    case RequestNew(starts) =>
      if CanOpen(w.rec) && starts then
        w.(rec := w.rec.(state := Recording), h := w.h.(begun := w.h.begun + 1), pc := Ready)
      else w.(pc := Ready)
    case RequestSave(empty) =>
      if CanClose(w.rec) && !empty then w.(rec := w.rec.(state := Saving, pending := Some(Save), calledBack := false)) else w
    case RequestDiscard =>
      if CanClose(w.rec) then w.(rec := w.rec.(state := Saving, pending := Some(Discard), calledBack := false)) else w
    case Resolve(t) => w.(gate := Tick(w.gate, arms, |arms|, t, blend), pc := Ready)
    case GateToggle(arm, t, source) => w.(gate := Toggle(w.gate, arms, arm, t, source).0)
    case SetReturning(active) => w.(rec := w.rec.(returning := active))
    case SaveCallback =>
      w.(rec := w.rec.(calledBack := true), book := w.book.(savedBoundary := true),
         h := w.h.(called := w.h.called + {w.h.begun}, owed := w.h.owed + {w.h.begun}))
    case Flip(degrade) =>
      w.(rec := w.rec.(state := Idle, pending := None, calledBack := false, degraded := w.rec.degraded || degrade))
  }

  ghost function Start(arms: seq<string>): World {
    World(Recorder(Idle, false, None, false, false), Book(None, false, false), Ready, Initial(arms),
          History(0, 0, 0, {}, {}, {}, {}, []))
  }

  /** The state after a run; a run may take only enabled steps. */
  ghost function Run(arms: seq<string>, blend: real, steps: seq<Action>): (w: World)
    ensures forall x :: x in arms ==> x in w.gate.mode
  {
    if steps == [] then Start(arms) else Take(Run(arms, blend, steps[..|steps| - 1]), arms, blend, steps[|steps| - 1])
  }

  ghost predicate Possible(arms: seq<string>, blend: real, steps: seq<Action>) {
    steps != [] ==>
      Possible(arms, blend, steps[..|steps| - 1]) && Enabled(Run(arms, blend, steps[..|steps| - 1]), steps[|steps| - 1])
  }

  // -- which episodes get a boundary ------------------------------------------------------------

  ghost predicate Got(h: History, k: nat) {
    exists i :: 0 <= i < |h.boundaries| && k in h.boundaries[i]
  }

  /** No read of this episode is outstanding: a later one was read, or it was read as closed. */
  ghost predicate IsOver(w: World, k: nat) {
    1 <= k && (k < w.h.prevEp || (k == w.h.prevEp && !Open(w.book.prev)))
  }

  /** Its save was called back, or it was read open while no boundary was taken and was not passed
      over for the next episode. */
  ghost predicate Deserves(h: History, k: nat) {
    k in h.called || (k in h.free && k !in h.passedOver)
  }

  ghost predicate NoneTwice(h: History) {
    forall i, j :: 0 <= i < j < |h.boundaries| ==> h.boundaries[i] !! h.boundaries[j]
  }

  /** The episode counter against the reads. */
  ghost predicate ReadsAreRight(w: World) {
    && w.h.prevEp <= w.h.begun <= w.h.prevEp + 1
    && (Open(w.book.prev) ==> w.h.prevEp >= 1)
    && (w.book.prev == Some(AtRecording) ==> w.h.prevEp == w.h.begun)
    && (w.book.prev == Some(AtSaving) && w.rec.state == Recording ==> w.h.prevEp < w.h.begun)
    && (w.rec.state != Idle ==> w.h.begun >= 1)
    && (!Open(w.book.prev) && w.h.prevEp == w.h.begun ==> w.rec.state == Idle)
    && (w.rec.pending.Some? <==> w.rec.state == Saving)
    && (w.rec.calledBack ==> w.rec.pending == Some(Save))
    && match w.pc
       case HasRead(AtIdle, _) => w.rec.state == Idle
       case HasRead(AtReturning, _) => w.rec.state == Idle
       case HasRead(AtRecording, _) => w.rec.state == Recording
       case HasRead(AtSaving, _) => w.rec.state != Recording && w.h.begun >= 1 && (!Open(w.book.prev) ==> w.h.prevEp < w.h.begun)
       case MayOpen => w.h.prevEp == w.h.begun && (w.book.prev == Some(AtRecording) ==> w.rec.state == Recording)
       case MayResolve => w.h.prevEp == w.h.begun
       case Ready => true
  }

  /** The save callbacks against the boundaries. */
  ghost predicate CallsAreRight(w: World) {
    && (w.book.savedBoundary <==> w.h.owed != {})
    && (forall k :: k in w.h.called ==> 1 <= k <= w.h.begun && (k in w.h.owed || Got(w.h, k)))
    && (forall k :: k in w.h.owed ==> k in w.h.called && !Got(w.h, k))
    && (w.h.begun in w.h.called ==> w.rec.state == Idle || w.rec.calledBack)
    && (forall k :: k in w.h.owed && k < w.h.prevEp ==> false)
    && (!Open(w.book.prev) && w.h.prevEp in w.h.owed ==> false)
  }

  /** Reads and boundaries. */
  ghost predicate BoundariesAreRight(w: World) {
    && (forall k: nat :: Got(w.h, k) ==> 1 <= k <= w.h.prevEp && Deserves(w.h, k))
    && (forall k :: k in w.h.free ==> 1 <= k <= w.h.prevEp)
    && (forall k :: k in w.h.passedOver ==> k < w.h.prevEp)
    && (forall k: nat :: IsOver(w, k) && Deserves(w.h, k) ==> Got(w.h, k))
    && (Open(w.book.prev) ==> (w.book.taken <==> !(w.h.prevEp in w.h.free && !Got(w.h, w.h.prevEp))))
    && (w.rec.state != Idle && Got(w.h, w.h.begun) ==> w.h.begun in w.h.called)
    && (Open(w.book.prev) && Got(w.h, w.h.prevEp) ==> w.h.prevEp in w.h.called)
    && NoneTwice(w.h)
  }

  ghost predicate Keeps(w: World) {
    ReadsAreRight(w) && CallsAreRight(w) && BoundariesAreRight(w)
  }

  lemma GotAppended(h: History, more: seq<set<nat>>, k: nat)
    ensures Got(h.(boundaries := h.boundaries + more), k) <==> Got(h, k) || exists i :: 0 <= i < |more| && k in more[i]
  {
    var longer := h.boundaries + more;
    assert forall i :: 0 <= i < |h.boundaries| ==> longer[i] == h.boundaries[i];
    assert forall i :: 0 <= i < |more| ==> longer[|h.boundaries| + i] == more[i];
  }

  /** What a settlement gives boundaries to. */
  lemma GotAfter(b: Book, h: History, s: Status, k: nat)
    ensures Got(SettledHistory(b, h, s), k) <==> Got(h, k) || (RunsBoundary(b, s) && k in BoundaryFor(b, h))
  {
    var next := SettledHistory(b, h, s);
    var more := if RunsBoundary(b, s) then [BoundaryFor(b, h)] else [];
    assert next.boundaries == h.boundaries + more;
    assert RunsBoundary(b, s) ==> more[0] == BoundaryFor(b, h);
    assert Got(next, k) <==> Got(h.(boundaries := h.boundaries + more), k);
    GotAppended(h, more, k);
  }

  ghost function Settled(w: World): World
    requires w.pc.HasRead?
  {
    w.(book := SettledBook(w.book, w.pc.status), h := SettledHistory(w.book, w.h, w.pc.status), pc := MayResolve)
  }

  lemma SettleReads(w: World)
    requires Keeps(w) && w.pc.HasRead?
    ensures ReadsAreRight(Settled(w)) && ReadsAreRight(Settled(w).(pc := MayOpen))
  {
  }

  lemma SettleCalls(w: World)
    requires Keeps(w) && w.pc.HasRead?
    ensures CallsAreRight(Settled(w))
  {
    forall k: nat
      ensures Got(Settled(w).h, k) <==> Got(w.h, k) || (RunsBoundary(w.book, w.pc.status) && k in BoundaryFor(w.book, w.h))
    {
      GotAfter(w.book, w.h, w.pc.status, k);
    }
  }

  lemma SettleDeserves(w: World, k: nat)
    requires Keeps(w) && w.pc.HasRead? && Got(Settled(w).h, k)
    ensures 1 <= k <= w.h.begun && Deserves(Settled(w).h, k)
  {
    GotAfter(w.book, w.h, w.pc.status, k);
  }

  lemma SettleGives(w: World, k: nat)
    requires Keeps(w) && w.pc.HasRead? && IsOver(Settled(w), k) && Deserves(Settled(w).h, k)
    ensures Got(Settled(w).h, k)
  {
    GotAfter(w.book, w.h, w.pc.status, k);
  }

  lemma SettleTaken(w: World)
    requires Keeps(w) && w.pc.HasRead? && Open(Some(w.pc.status))
    ensures var n := Settled(w); n.book.taken <==> !(n.h.prevEp in n.h.free && !Got(n.h, n.h.prevEp))
  {
    GotAfter(w.book, w.h, w.pc.status, w.h.begun);
  }

  lemma SettleTwice(w: World)
    requires Keeps(w) && w.pc.HasRead?
    ensures NoneTwice(Settled(w).h)
  {
    if RunsBoundary(w.book, w.pc.status) {
      var late := BoundaryFor(w.book, w.h);
      forall i | 0 <= i < |w.h.boundaries|
        ensures w.h.boundaries[i] !! late
      {
        assert forall k: nat :: k in w.h.boundaries[i] ==> Got(w.h, k);
      }
    }
  }

  lemma SettleBoundaries(w: World)
    requires Keeps(w) && w.pc.HasRead?
    ensures BoundariesAreRight(Settled(w))
  {
    var n := Settled(w);
    forall k: nat
      ensures Got(n.h, k) ==> 1 <= k <= n.h.prevEp && Deserves(n.h, k)
      ensures IsOver(n, k) && Deserves(n.h, k) ==> Got(n.h, k)
    {
      if Got(n.h, k) {
        SettleDeserves(w, k);
      } else if IsOver(n, k) && Deserves(n.h, k) {
        SettleGives(w, k);
      }
    }
    if Open(Some(w.pc.status)) {
      SettleTaken(w);
    }
    SettleTwice(w);
    GotAfter(w.book, w.h, w.pc.status, w.h.begun);
  }

  lemma SettleKeeps(w: World, arms: seq<string>)
    requires Keeps(w) && w.pc.HasRead? && forall a :: a in arms ==> a in w.gate.mode
    ensures forall pc :: pc == MayOpen || pc == MayResolve ==> Keeps(Settle(w, arms, w.pc.status).(pc := pc))
  {
    SettleReads(w);
    SettleCalls(w);
    SettleBoundaries(w);
    forall pc | pc == MayOpen || pc == MayResolve
      ensures Keeps(Settle(w, arms, w.pc.status).(pc := pc))
    {
      SameHistory(Settled(w), Settle(w, arms, w.pc.status).(pc := pc));
    }
  }

  /** The law does not look at gate or program counter. */
  lemma SameHistory(w: World, n: World)
    requires CallsAreRight(w) && BoundariesAreRight(w) && n.h == w.h && n.book == w.book && n.rec == w.rec
    ensures CallsAreRight(n) && BoundariesAreRight(n)
  {
    assert forall k: nat :: IsOver(n, k) <==> IsOver(w, k);
  }

  lemma CallbackKeeps(w: World, arms: seq<string>, blend: real)
    requires Keeps(w) && Enabled(w, SaveCallback) && forall x :: x in arms ==> x in w.gate.mode
    ensures Keeps(Take(w, arms, blend, SaveCallback))
  {
    var n := Take(w, arms, blend, SaveCallback);
    assert forall k: nat :: Got(n.h, k) <==> Got(w.h, k);
    assert forall k: nat :: IsOver(n, k) <==> IsOver(w, k);
    assert !Got(w.h, w.h.begun);
  }

  /** A step that leaves books and history alone but for the episode begun. */
  lemma RecorderKeeps(w: World, n: World)
    requires CallsAreRight(w) && BoundariesAreRight(w) && ReadsAreRight(n) && n.book == w.book && n.h == w.h.(begun := n.h.begun)
    requires n.h.begun == w.h.begun || (n.h.begun == w.h.begun + 1 && w.h.prevEp == w.h.begun)
    requires n.h.begun == w.h.begun && n.rec.state != Idle ==> w.rec.state != Idle && (w.rec.calledBack ==> n.rec.calledBack)
    ensures CallsAreRight(n) && BoundariesAreRight(n)
  {
    assert forall k: nat :: Got(n.h, k) <==> Got(w.h, k);
    assert forall k: nat :: IsOver(n, k) <==> IsOver(w, k);
    assert forall k: nat :: Deserves(n.h, k) <==> Deserves(w.h, k);
  }

  lemma OthersKeepReads(w: World, arms: seq<string>, blend: real, a: Action)
    requires Keeps(w) && Enabled(w, a) && !a.SettleRead? && !a.SaveCallback? && forall x :: x in arms ==> x in w.gate.mode
    ensures ReadsAreRight(Take(w, arms, blend, a))
  {
  }

  /** Every step of either thread keeps the books. */
  lemma TakeKeeps(w: World, arms: seq<string>, blend: real, a: Action)
    requires Keeps(w) && Enabled(w, a) && forall x :: x in arms ==> x in w.gate.mode
    ensures Keeps(Take(w, arms, blend, a))
  {
    if a.SettleRead? {
      SettleKeeps(w, arms);
    } else if a.SaveCallback? {
      CallbackKeeps(w, arms, blend);
    } else {
      OthersKeepReads(w, arms, blend, a);
      RecorderKeeps(w, Take(w, arms, blend, a));
    }
  }

  lemma {:induction false} RunKeeps(arms: seq<string>, blend: real, steps: seq<Action>)
    requires Possible(arms, blend, steps)
    ensures Keeps(Run(arms, blend, steps))
  {
    if steps != [] {
      RunKeeps(arms, blend, steps[..|steps| - 1]);
      TakeKeeps(Run(arms, blend, steps[..|steps| - 1]), arms, blend, steps[|steps| - 1]);
    }
  }

  /** The boundary law, over every interleaving, whatever the control thread misses: no episode
      gets two boundaries, and one whose reads are settled gets its boundary exactly if its save
      was called back, or if it was read recording or saving by a settlement that left no
      boundary taken and was not passed over for the next episode. */
  lemma BoundaryLaw(arms: seq<string>, blend: real, steps: seq<Action>, k: nat)
    requires Possible(arms, blend, steps)
    ensures NoneTwice(Run(arms, blend, steps).h)
    ensures IsOver(Run(arms, blend, steps), k) ==> (Got(Run(arms, blend, steps).h, k) <==> Deserves(Run(arms, blend, steps).h, k))
  {
    RunKeeps(arms, blend, steps);
  }

  // -- one boundary per watched episode ---------------------------------------------------------

  /** A save or discard is asked for after the control thread has read the episode recording. */
  ghost predicate WatchedAt(w: World, a: Action) {
    (a.RequestSave? || a.RequestDiscard?) && w.rec.state == Recording ==> w.book.prev == Some(AtRecording)
  }

  ghost predicate Watched(arms: seq<string>, blend: real, steps: seq<Action>) {
    steps != [] ==>
      && Watched(arms, blend, steps[..|steps| - 1])
      && WatchedAt(Run(arms, blend, steps[..|steps| - 1]), steps[|steps| - 1])
  }

  /** Boundaries ran for episodes 1, 2, 3 and so on, the newest seen one perhaps missing. */
  ghost predicate Counted(w: World) {
    && |w.h.boundaries| <= w.h.seen <= |w.h.boundaries| + 1
    && forall i :: 0 <= i < |w.h.boundaries| ==> w.h.boundaries[i] == {i + 1}
  }

  ghost predicate BookIsRight(w: World) {
    && (w.h.seen > 0 ==> (w.book.taken <==> |w.h.boundaries| == w.h.seen))
    && (w.book.savedBoundary ==> w.h.seen > 0 && !w.book.taken && w.h.owed == {w.h.seen})
    && (!w.book.savedBoundary ==> w.h.owed == {})
    && (!Open(w.book.prev) ==> |w.h.boundaries| == w.h.seen && !w.book.savedBoundary)
    && (w.book.prev == Some(AtRecording) ==> w.h.seen == w.h.begun && !w.book.taken)
    && (Open(w.book.prev) ==> w.h.seen > 0 && w.h.prevEp == w.h.seen)
  }

  ghost predicate RecorderIsRight(w: World) {
    && w.h.seen <= w.h.begun <= w.h.seen + 1
    && (w.rec.pending.Some? <==> w.rec.state == Saving)
    && (w.rec.calledBack ==> w.rec.pending == Some(Save))
    && match w.rec.state
       case Idle => w.h.begun == w.h.seen
       case Recording =>
         if w.h.begun == w.h.seen then w.book.prev == Some(AtRecording) && !w.book.savedBoundary && !w.book.taken
         else w.book.prev != Some(AtRecording)
       case Saving =>
         w.h.begun == w.h.seen && Open(w.book.prev) && (!w.rec.calledBack ==> !w.book.savedBoundary && !w.book.taken)
  }

  /** A read is stale by one recorder step at most: only a save or discard may have ended. */
  ghost predicate ReadIsRight(w: World) {
    match w.pc
    case HasRead(AtIdle, _) => w.rec.state == Idle
    case HasRead(AtReturning, _) => w.rec.state == Idle
    case HasRead(AtRecording, _) => w.rec.state == Recording
    case HasRead(AtSaving, _) => w.rec.state != Recording && Open(w.book.prev)
    case _ => w.pc.Ready? || (w.book.prev == Some(AtRecording) ==> w.rec.state == Recording)
  }

  ghost predicate KeepsWatch(w: World) {
    Counted(w) && BookIsRight(w) && RecorderIsRight(w) && ReadIsRight(w)
  }

  lemma SettleKeepsWatch(w: World, arms: seq<string>)
    requires KeepsWatch(w) && w.pc.HasRead? && forall a :: a in arms ==> a in w.gate.mode
    ensures KeepsWatch(Settle(w, arms, w.pc.status).(pc := MayResolve))
  {
  }

  lemma TakeKeepsWatch(w: World, arms: seq<string>, blend: real, a: Action)
    requires KeepsWatch(w) && Enabled(w, a) && WatchedAt(w, a) && forall x :: x in arms ==> x in w.gate.mode
    ensures KeepsWatch(Take(w, arms, blend, a))
  {
    if a.SettleRead? {
      SettleKeepsWatch(w, arms);
    }
  }

  lemma {:induction false} RunKeepsWatch(arms: seq<string>, blend: real, steps: seq<Action>)
    requires Possible(arms, blend, steps) && Watched(arms, blend, steps)
    ensures KeepsWatch(Run(arms, blend, steps))
  {
    if steps != [] {
      RunKeepsWatch(arms, blend, steps[..|steps| - 1]);
      TakeKeepsWatch(Run(arms, blend, steps[..|steps| - 1]), arms, blend, steps[|steps| - 1]);
    }
  }

  /** One boundary per episode, as long as every episode is read recording before it is closed:
      the boundaries that ran are those of episodes 1 to `n` in order, each for one episode, `n`
      being the number the control thread saw recording, or one less while the newest of them is
      not settled; an episode that has ended was seen, and once a closed recorder has been
      settled nothing is missing. */
  lemma OneBoundaryPerEpisode(arms: seq<string>, blend: real, steps: seq<Action>)
    requires Possible(arms, blend, steps) && Watched(arms, blend, steps)
    ensures var w := Run(arms, blend, steps);
            && |w.h.boundaries| <= w.h.seen <= |w.h.boundaries| + 1
            && (forall i :: 0 <= i < |w.h.boundaries| ==> w.h.boundaries[i] == {i + 1})
            && w.h.seen <= w.h.begun <= w.h.seen + 1 && (w.h.begun == w.h.seen + 1 ==> w.rec.state == Recording)
            && (w.book.prev == Some(AtIdle) || w.book.prev == Some(AtReturning) ==> |w.h.boundaries| == w.h.seen)
  {
    RunKeepsWatch(arms, blend, steps);
  }

  /** Before a tick that sees a watched episode recording is resolved, the boundaries of all
      episodes before it have run, and its own has not. */
  lemma BoundaryBeforeTheNextEpisode(arms: seq<string>, blend: real, steps: seq<Action>)
    requires Possible(arms, blend, steps) && Watched(arms, blend, steps)
    requires var w := Run(arms, blend, steps); w.pc.MayResolve? && w.book.prev == Some(AtRecording)
    ensures var w := Run(arms, blend, steps); w.h.seen == w.h.begun && |w.h.boundaries| == w.h.begun - 1
  {
    RunKeepsWatch(arms, blend, steps);
  }

  lemma {:induction false} GateIsSound(arms: seq<string>, blend: real, steps: seq<Action>)
    requires Distinct(arms)
    ensures Sound(Run(arms, blend, steps).gate, blend) && Run(arms, blend, steps).gate.mode.Keys == Members(arms)
  {
    if steps != [] {
      var w, a := Run(arms, blend, steps[..|steps| - 1]), steps[|steps| - 1];
      GateIsSound(arms, blend, steps[..|steps| - 1]);
      match a
      case SettleRead => ResetFrees(w.gate, arms, blend);
      case Resolve(t) => TickIsSound(w.gate, arms, |arms|, t, blend);
      case GateToggle(arm, t, source) => ToggleIsSound(w.gate, arms, arm, t, source, blend);
      case _ =>
    }
  }

  /** A boundary frees every arm, and is for episodes that are no longer recording. */
  lemma BoundaryFreesArms(arms: seq<string>, blend: real, steps: seq<Action>)
    requires Distinct(arms) && Possible(arms, blend, steps)
    requires var w := Run(arms, blend, steps); w.pc.HasRead? && RunsBoundary(w.book, w.pc.status)
    ensures var w := Run(arms, blend, steps);
            && Engaged(Take(w, arms, blend, SettleRead).gate, arms).None?
            && Take(w, arms, blend, SettleRead).h.boundaries == w.h.boundaries + [BoundaryFor(w.book, w.h)]
            && (w.rec.state == Recording ==> w.h.begun !in BoundaryFor(w.book, w.h))
  {
    RunKeeps(arms, blend, steps);
    GateIsSound(arms, blend, steps);
    ResetFrees(Run(arms, blend, steps).gate, arms, blend);
  }

  // -- episodes without a boundary ----------------------------------------------------------------

  ghost predicate Trail(arms: seq<string>, blend: real, steps: seq<Action>, w: World) {
    Possible(arms, blend, steps) && Run(arms, blend, steps) == w
  }

  lemma GoOn(arms: seq<string>, blend: real, steps: seq<Action>, mid: World, a: Action) returns (more: seq<Action>, w: World)
    requires Trail(arms, blend, steps, mid) && Enabled(mid, a) && forall x :: x in arms ==> x in mid.gate.mode
    ensures Trail(arms, blend, more, w) && w == Take(mid, arms, blend, a) && forall x :: x in arms ==> x in w.gate.mode
  {
    assert (steps + [a])[..|steps|] == steps;
    more, w := steps + [a], Take(mid, arms, blend, a);
  }

  /** A rollout is opened: the recorder is read, settled and asked. */
  lemma OpenOne(arms: seq<string>, blend: real, steps0: seq<Action>, w0: World) returns (steps: seq<Action>, w: World)
    requires Trail(arms, blend, steps0, w0) && w0.pc.Ready? && CanOpen(w0.rec) && forall x :: x in arms ==> x in w0.gate.mode
    ensures Trail(arms, blend, steps, w) && forall x :: x in arms ==> x in w.gate.mode
    ensures w.pc.Ready? && w.rec == w0.rec.(state := Recording) && w.book == SettledBook(w0.book, AtIdle)
    ensures w.h == SettledHistory(w0.book, w0.h, AtIdle).(begun := w0.h.begun + 1)
  {
    steps, w := GoOn(arms, blend, steps0, w0, ReadForNew);
    steps, w := GoOn(arms, blend, steps, w, SettleRead);
    steps, w := GoOn(arms, blend, steps, w, RequestNew(true));
  }

  /** A tick reads the recorder, settles and resolves. */
  lemma OneTick(arms: seq<string>, blend: real, steps0: seq<Action>, w0: World) returns (steps: seq<Action>, w: World)
    requires Trail(arms, blend, steps0, w0) && w0.pc.Ready? && forall x :: x in arms ==> x in w0.gate.mode
    ensures Trail(arms, blend, steps, w) && forall x :: x in arms ==> x in w.gate.mode
    ensures w.pc.Ready? && w.rec == w0.rec && w.book == SettledBook(w0.book, StatusOf(w0.rec))
    ensures w.h == SettledHistory(w0.book, w0.h, StatusOf(w0.rec))
  {
    steps, w := GoOn(arms, blend, steps0, w0, ReadForTick);
    steps, w := GoOn(arms, blend, steps, w, SettleRead);
    steps, w := GoOn(arms, blend, steps, w, Resolve(0.0));
  }

  /** An episode begun and discarded between two reads of the control thread gets no boundary:
      nothing it left was ever read. */
  lemma UnseenEpisodeHasNoBoundary(arms: seq<string>, blend: real) returns (steps: seq<Action>)
    ensures Possible(arms, blend, steps) && IsOver(Run(arms, blend, steps), 1) && !Got(Run(arms, blend, steps).h, 1)
  {
    var w;
    steps, w := OpenOne(arms, blend, [], Start(arms));
    steps, w := GoOn(arms, blend, steps, w, RequestDiscard);
    steps, w := GoOn(arms, blend, steps, w, Flip(false));
    steps, w := OneTick(arms, blend, steps, w);
  }

  /** An episode whose saving was the last thing read before the saving of the next one is passed
      over: one boundary runs, for the next. */
  lemma PassedOverEpisode(arms: seq<string>, blend: real) returns (steps: seq<Action>)
    ensures Possible(arms, blend, steps) && Run(arms, blend, steps).h.seen == 1
    ensures IsOver(Run(arms, blend, steps), 1) && !Got(Run(arms, blend, steps).h, 1) && Got(Run(arms, blend, steps).h, 2)
  {
    var w;
    steps, w := DiscardingBoth(arms, blend);
    steps, w := OneTick(arms, blend, steps, w);
    steps, w := GoOn(arms, blend, steps, w, Flip(false));
    steps, w := OneTick(arms, blend, steps, w);
    assert w.h.boundaries == [{2}];
    assert 2 in w.h.boundaries[0];
  }

  lemma DiscardingBoth(arms: seq<string>, blend: real) returns (steps: seq<Action>, w: World)
    ensures Trail(arms, blend, steps, w) && forall x :: x in arms ==> x in w.gate.mode
    ensures w.pc.Ready? && w.rec == Recorder(Saving, false, Some(Discard), false, false)
    ensures w.book == Book(Some(AtSaving), false, false) && w.h == History(2, 1, 1, {}, {}, {1}, {}, [])
  {
    steps, w := DiscardingOne(arms, blend);
    steps, w := GoOn(arms, blend, steps, w, ReadForNew);
    steps, w := GoOn(arms, blend, steps, w, SettleRead);
    steps, w := GoOn(arms, blend, steps, w, Flip(false));
    steps, w := GoOn(arms, blend, steps, w, RequestNew(true));
    steps, w := GoOn(arms, blend, steps, w, RequestDiscard);
  }

  lemma DiscardingOne(arms: seq<string>, blend: real) returns (steps: seq<Action>, w: World)
    ensures Trail(arms, blend, steps, w) && forall x :: x in arms ==> x in w.gate.mode
    ensures w.pc.Ready? && w.rec == Recorder(Saving, false, Some(Discard), false, false)
    ensures w.book == Book(Some(AtRecording), false, false) && w.h == History(1, 1, 1, {}, {}, {1}, {}, [])
  {
    steps, w := OpenOne(arms, blend, [], Start(arms));
    steps, w := OneTick(arms, blend, steps, w);
    steps, w := GoOn(arms, blend, steps, w, RequestDiscard);
  }

  // -- the object -----------------------------------------------------------------------------------

  class GatedPolicyExecutor {
    const gate: TakeoverGateImpl
    var prevEpState: Option<Status>
    var savedBoundary: bool
    var boundaryTaken: bool
    var epTicks: nat
    var epHumanTicks: nat
    var rates: seq<real>
    var nanStrikes: nat
    var episodeDirty: bool
    var runnerPaused: bool
    ghost var closedEpisodes: nat

    constructor (g: TakeoverGateImpl)
      ensures gate == g && AsBook() == Book(None, false, false)
    {
      gate := g;
      prevEpState, savedBoundary, boundaryTaken := None, false, false;
      epTicks, epHumanTicks, rates, nanStrikes := 0, 0, [], 0;
      episodeDirty, runnerPaused, closedEpisodes := false, false, 0;
    }

    ghost function AsBook(): Book
      reads this
    {
      Book(prevEpState, savedBoundary, boundaryTaken)
    }

    /** Recorder-thread callback: arms the boundary, whatever the trainer says. */
    method OnEpisodeSaved()
      modifies this`savedBoundary
      ensures savedBoundary
    {
      savedBoundary := true;
    }

    /** The take-over ends, the episode's figures are filed (the newest ten), the policy runs
        again. */
    method RunEpisodeBoundary()
      requires gate.Valid()
      modifies this`epTicks, this`epHumanTicks, this`rates, this`nanStrikes, this`episodeDirty, this`runnerPaused,
               this`closedEpisodes, gate
      ensures gate.Valid() && gate.Value() == Reset(old(gate.Value()), gate.armIds)
      ensures closedEpisodes == old(closedEpisodes) + 1 && !runnerPaused && !episodeDirty
      ensures epTicks == 0 && epHumanTicks == 0 && nanStrikes == 0
      ensures rates == if old(epTicks) == 0 then old(rates)
                       else Prelude.Newest(old(rates) + [old(epHumanTicks) as real / old(epTicks) as real], 10)
    {
      gate.OnReset();
      if epTicks > 0 {
        rates := Prelude.Newest(rates + [epHumanTicks as real / epTicks as real], 10);
      }
      epTicks, epHumanTicks := 0, 0;
      nanStrikes, episodeDirty, runnerPaused := 0, false, false;
      closedEpisodes := closedEpisodes + 1;
    }

    /** Settle the recorder state just read. */
    method SettleBoundary(state: Status)
      requires gate.Valid()
      modifies this, gate
      ensures gate.Valid() && AsBook() == SettledBook(old(AsBook()), state)
      ensures gate.Value() == if RunsBoundary(old(AsBook()), state) then Reset(old(gate.Value()), gate.armIds) else old(gate.Value())
      ensures closedEpisodes == old(closedEpisodes) + if RunsBoundary(old(AsBook()), state) then 1 else 0
    {
      var saved := false;
      if savedBoundary {
        saved, savedBoundary := true, false;
      }
      var prev := prevEpState;
      var reopened := prev == Some(AtSaving) && state == AtRecording;
      var closed := Open(prev) && (!Open(Some(state)) || reopened);
      var discarded := closed && !saved && !boundaryTaken;
      if saved || discarded {
        boundaryTaken := true;
        RunEpisodeBoundary();
      }
      if state == AtRecording && prev != Some(AtRecording) {
        boundaryTaken := false;
      }
      prevEpState := Some(state);
    }
  }
}
