/** One external policy session over time (dora_bridge/policy_source.py:437-724): messages,
    drops, pauses and restarts, and the watermark that keeps old rows out. The bus thread checks
    a message outside the lock and fills it in under the lock; anything may come between. */
module ActionSource {
  import opened Prelude
  import opened ActionLayout
  import opened ActionSlots
  import opened ActionFilling

  /** A message that passed its checks and is not filled in yet. */
  datatype Flight = Flight(message: Message, t: real)

  datatype Source = Source(st: State, flight: Option<Flight>)

  datatype Event =
    | Check(pub: Publisher, message: Message, t: real)
    | Fill
    | DropAndRequery(pub: Publisher)
    | Start
    | Pause
    | Resume
    | Spec(version: int)

  function Initial(version: int): State {
    State(map[], map[], version, false, 0, 0, 0)
  }

  predicate FlightFits(cfg: Config, s: Source) {
    s.flight.Some? ==> Fits(cfg, s.flight.value.message)
  }

  function Checked(cfg: Config, s: Source, pub: Publisher, m: Message, t: real): Source
    requires ValidConfig(cfg)
  {
    match Refusal(cfg, pub, s.st.watermark, m, t)
    case Some(reason) => s.(st := Refused(s.st, reason))
    case None => s.(flight := Some(Flight(m, t)))
  }

  function Step(cfg: Config, s: Source, e: Event): (r: Source)
    requires ValidConfig(cfg) && FlightFits(cfg, s)
    ensures FlightFits(cfg, r)
  {
    match e
    case Check(pub, m, t) => Checked(cfg, s, pub, m, t)
    case Fill => if s.flight.Some? then Source(FillIn(cfg, s.st, s.flight.value.message, s.flight.value.t), None) else s
    case DropAndRequery(pub) => s.(st := Cleared(s.st, pub.observationId))
    case Start => s.(st := Cleared(s.st, 0))
    case Pause => s.(st := Cleared(s.st, s.st.watermark).(paused := true))
    case Resume => s.(st := s.st.(paused := false))
    case Spec(version) => s.(st := s.st.(version := version))
  }

  function Run(cfg: Config, version: int, es: seq<Event>): (s: Source)
    requires ValidConfig(cfg)
    ensures FlightFits(cfg, s)
  {
    if es == [] then Source(Initial(version), None) else Step(cfg, Run(cfg, version, es[..|es| - 1]), es[|es| - 1])
  }

  /** One bus thread: a message is filled in before the next one is looked at. */
  ghost predicate Enabled(s: Source, e: Event) {
    (e.Check? ==> s.flight.None?) && (e.Fill? ==> s.flight.Some?)
  }

  ghost predicate Possible(cfg: Config, version: int, es: seq<Event>)
    requires ValidConfig(cfg)
  {
    es != [] ==>
      Possible(cfg, version, es[..|es| - 1]) && Enabled(Run(cfg, version, es[..|es| - 1]), es[|es| - 1])
  }

  predicate Marks(e: Event) {
    e.DropAndRequery? || e.Start?
  }

  predicate Clears(e: Event) {
    Marks(e) || e.Pause?
  }

  function MarkOf(e: Event): int
    requires Marks(e)
  {
    if e.DropAndRequery? then e.pub.observationId else 0
  }

  /** The observation id the newest drop or start put between old rows and new ones. */
  function Mark(es: seq<Event>): int {
    if es == [] then 0
    else if Marks(es[|es| - 1]) then MarkOf(es[|es| - 1])
    else Mark(es[..|es| - 1])
  }

  /** Every served chunk answers an observation above the watermark. */
  ghost predicate Guarded(st: State) {
    forall a :: a in st.slots ==> a in st.origin && st.origin[a] > st.watermark
  }

  lemma TouchedKeys(cfg: Config, slots: map<string, Chunk>, m: Message, t: real)
    requires ValidConfig(cfg) && ValidSlots(cfg, slots) && Fits(cfg, m)
    ensures Filled(cfg, slots, m, t).Keys == slots.Keys + Members(Touched(cfg, m))
  {
    if m.armInput.None? {
      FilledKeys(cfg, slots, m, t);
    }
  }

  ghost predicate Keeps(cfg: Config, st: State) {
    ValidSlots(cfg, st.slots) && st.origin.Keys == st.slots.Keys
  }

  lemma FillKeeps(cfg: Config, st: State, m: Message, t: real)
    requires ValidConfig(cfg) && Keeps(cfg, st) && Fits(cfg, m)
    ensures Keeps(cfg, FillIn(cfg, st, m, t))
  {
    FillKeepsSlots(cfg, st, m, t);
    TouchedKeys(cfg, st.slots, m, t);
  }

  lemma StepKeeps(cfg: Config, s: Source, e: Event)
    requires ValidConfig(cfg) && FlightFits(cfg, s) && Keeps(cfg, s.st)
    ensures Keeps(cfg, Step(cfg, s, e).st)
  {
    if e.Fill? && s.flight.Some? {
      FillKeeps(cfg, s.st, s.flight.value.message, s.flight.value.t);
    }
  }

  lemma StepMarks(cfg: Config, s: Source, e: Event)
    requires ValidConfig(cfg) && FlightFits(cfg, s)
    ensures Step(cfg, s, e).st.watermark == if Marks(e) then MarkOf(e) else s.st.watermark
  {
  }

  /** Whatever happens, in whatever order: the slots stay well-formed, and the watermark is the
      newest mark. */
  lemma {:induction false} RunKeeps(cfg: Config, version: int, es: seq<Event>)
    requires ValidConfig(cfg)
    ensures Keeps(cfg, Run(cfg, version, es).st) && Run(cfg, version, es).st.watermark == Mark(es)
  {
    if es != [] {
      RunKeeps(cfg, version, es[..|es| - 1]);
      StepKeeps(cfg, Run(cfg, version, es[..|es| - 1]), es[|es| - 1]);
      StepMarks(cfg, Run(cfg, version, es[..|es| - 1]), es[|es| - 1]);
    }
  }

  // -- where a served row comes from ----------------------------------------------------------

  /** The message in flight was checked by event `k`. */
  ghost predicate CheckedBy(cfg: Config, version: int, es: seq<Event>, k: nat)
    requires ValidConfig(cfg)
  {
    && k < |es| && es[k].Check? && Refusal(cfg, es[k].pub, Run(cfg, version, es[..k]).st.watermark, es[k].message, es[k].t).None?
    && forall j :: k < j < |es| ==> !es[j].Check? && !es[j].Fill?
  }

  lemma CheckedFront(cfg: Config, version: int, es: seq<Event>, k: nat)
    requires ValidConfig(cfg) && es != [] && CheckedBy(cfg, version, es[..|es| - 1], k)
    requires !es[|es| - 1].Check? && !es[|es| - 1].Fill?
    ensures CheckedBy(cfg, version, es, k)
  {
    assert es[..|es| - 1][..k] == es[..k];
  }

  lemma {:induction false} InFlight(cfg: Config, version: int, es: seq<Event>) returns (k: nat)
    requires ValidConfig(cfg) && Possible(cfg, version, es) && Run(cfg, version, es).flight.Some?
    ensures CheckedBy(cfg, version, es, k)
    ensures Run(cfg, version, es).flight == Some(Flight(es[k].message, es[k].t))
  {
    var front := es[..|es| - 1];
    if es[|es| - 1].Check? {
      k := |front|;
    } else {
      k := InFlight(cfg, version, front);
      CheckedFront(cfg, version, es, k);
    }
  }

  /** Event `f` filled a message into the slot of arm `a`. */
  ghost predicate FillsFor(cfg: Config, version: int, es: seq<Event>, f: nat, a: string)
    requires ValidConfig(cfg) && f < |es|
  {
    var s := Run(cfg, version, es[..f]);
    && es[f].Fill? && s.flight.Some?
    && (if s.flight.value.message.armInput.Some? then s.flight.value.message.armInput == Some(a) else a in cfg.order)
  }

  /** It was the newest to do so, and nothing was cleared since. */
  ghost predicate NewestFor(cfg: Config, version: int, es: seq<Event>, f: nat, a: string)
    requires ValidConfig(cfg) && f < |es|
  {
    && FillsFor(cfg, version, es, f, a)
    && forall j :: f < j < |es| ==> !Clears(es[j]) && !FillsFor(cfg, version, es, j, a)
  }

  lemma FillsFront(cfg: Config, version: int, es: seq<Event>, f: nat, a: string)
    requires ValidConfig(cfg) && f < |es| - 1
    ensures FillsFor(cfg, version, es[..|es| - 1], f, a) <==> FillsFor(cfg, version, es, f, a)
  {
    assert es[..|es| - 1][..f] == es[..f];
  }

  lemma NewestGrows(cfg: Config, version: int, es: seq<Event>, f: nat, a: string)
    requires ValidConfig(cfg) && f < |es| - 1 && NewestFor(cfg, version, es[..|es| - 1], f, a)
    requires !Clears(es[|es| - 1]) && !FillsFor(cfg, version, es, |es| - 1, a)
    ensures NewestFor(cfg, version, es, f, a)
  {
    FillsFront(cfg, version, es, f, a);
    forall j | f < j < |es|
      ensures !Clears(es[j]) && !FillsFor(cfg, version, es, j, a)
    {
      if j < |es| - 1 {
        FillsFront(cfg, version, es, j, a);
      }
    }
  }

  lemma UntouchedSlot(cfg: Config, slots: map<string, Chunk>, m: Message, t: real, a: string)
    requires ValidConfig(cfg) && a !in Touched(cfg, m) && Fits(cfg, m)
    ensures a in Filled(cfg, slots, m, t) <==> a in slots
    ensures a in slots ==> Filled(cfg, slots, m, t)[a] == slots[a]
  {
    if m.armInput.None? {
      SplitArms(cfg);
      OtherSlot(slots, SplitOf(cfg), m.payload.value.rows, |cfg.names|, t, ChunkDt(cfg, m), a);
    }
  }

  lemma TouchedSlot(cfg: Config, slots: map<string, Chunk>, m: Message, t: real, a: string)
    requires ValidConfig(cfg) && a in Touched(cfg, m) && Fits(cfg, m)
    ensures a in Filled(cfg, slots, m, t) && Filled(cfg, slots, m, t)[a].t0 == t && Filled(cfg, slots, m, t)[a].dt == ChunkDt(cfg, m)
  {
    if m.armInput.None? {
      var i :| 0 <= i < |cfg.order| && cfg.order[i] == a;
      WholeCellFills(cfg, slots, m, t, i);
    }
  }

  /** What the newest event did to the arm's slot: filled it from the message in flight, or left
      it as it was. */
  lemma LastEvent(cfg: Config, version: int, es: seq<Event>, a: string)
    requires ValidConfig(cfg) && es != [] && a in Run(cfg, version, es).st.slots
    ensures var (before, after) := (Run(cfg, version, es[..|es| - 1]), Run(cfg, version, es).st);
            && a in after.origin && !Clears(es[|es| - 1])
            && if FillsFor(cfg, version, es, |es| - 1, a) then
                 after.slots[a].t0 == before.flight.value.t && after.origin[a] == before.flight.value.message.oid
               else
                 && a in before.st.slots && a in before.st.origin
                 && after.slots[a] == before.st.slots[a] && after.origin[a] == before.st.origin[a]
  {
    var e, s := es[|es| - 1], Run(cfg, version, es[..|es| - 1]);
    RunKeeps(cfg, version, es);
    RunKeeps(cfg, version, es[..|es| - 1]);
    if e.Fill? && s.flight.Some? {
      WhoIsTouched(cfg, s.flight.value.message, a);
      FillSlot(cfg, s.st, s.flight.value.message, s.flight.value.t, a);
    } else {
      OtherEvents(cfg, s, e, a);
    }
  }

  lemma WhoIsTouched(cfg: Config, m: Message, a: string)
    ensures a in Touched(cfg, m) <==> if m.armInput.Some? then m.armInput == Some(a) else a in cfg.order
  {
  }

  lemma OtherEvents(cfg: Config, s: Source, e: Event, a: string)
    requires ValidConfig(cfg) && FlightFits(cfg, s) && !(e.Fill? && s.flight.Some?) && a in Step(cfg, s, e).st.slots
    ensures !Clears(e) && Step(cfg, s, e).st.slots == s.st.slots && Step(cfg, s, e).st.origin == s.st.origin
  {
  }

  lemma FillSlot(cfg: Config, st: State, m: Message, t: real, a: string)
    requires ValidConfig(cfg) && Fits(cfg, m) && st.origin.Keys == st.slots.Keys
    ensures var after := FillIn(cfg, st, m, t);
            && (a in Touched(cfg, m) ==> a in after.slots && a in after.origin && after.slots[a].t0 == t && after.origin[a] == m.oid)
            && (a !in Touched(cfg, m) && a in after.slots ==>
                  a in st.slots && a in after.origin && after.slots[a] == st.slots[a] && after.origin[a] == st.origin[a])
  {
    if a in Touched(cfg, m) {
      TouchedSlot(cfg, st.slots, m, t, a);
    } else {
      UntouchedSlot(cfg, st.slots, m, t, a);
    }
  }

  /** Event `k` checked what event `f` filled in for arm `a`, the newest to be. */
  ghost predicate CameBy(cfg: Config, version: int, es: seq<Event>, k: nat, f: nat, a: string)
    requires ValidConfig(cfg)
  {
    && k < f < |es| && CheckedBy(cfg, version, es[..f], k) && NewestFor(cfg, version, es, f, a)
    && a in Touched(cfg, es[k].message)
  }

  lemma CameEarlier(cfg: Config, version: int, es: seq<Event>, k: nat, f: nat, a: string)
    requires ValidConfig(cfg) && Possible(cfg, version, es) && es != [] && CameBy(cfg, version, es[..|es| - 1], k, f, a)
    requires !FillsFor(cfg, version, es, |es| - 1, a) && !Clears(es[|es| - 1])
    ensures CameBy(cfg, version, es, k, f, a)
  {
    NewestGrows(cfg, version, es, f, a);
    assert es[..|es| - 1][..f] == es[..f];
  }

  /** A row served to an arm comes from the newest message filled in for that arm since the
      newest clear. */
  lemma {:induction false} ServedFrom(cfg: Config, version: int, es: seq<Event>, a: string) returns (k: nat, f: nat)
    requires ValidConfig(cfg) && Possible(cfg, version, es) && a in Run(cfg, version, es).st.slots
    ensures CameBy(cfg, version, es, k, f, a) && a in Run(cfg, version, es).st.origin
    ensures Run(cfg, version, es).st.slots[a].t0 == es[k].t && Run(cfg, version, es).st.origin[a] == es[k].message.oid
  {
    LastEvent(cfg, version, es, a);
    var front := es[..|es| - 1];
    if FillsFor(cfg, version, es, |es| - 1, a) {
      f := |front|;
      k := InFlight(cfg, version, front);
    } else {
      k, f := ServedFrom(cfg, version, front, a);
      CameEarlier(cfg, version, es, k, f, a);
    }
  }

  // -- when a served row is above the mark -----------------------------------------------------

  /** A drop or restart at or above the message's observation came between its check and its
      fill, and none that took it back. */
  ghost predicate Overtaken(es: seq<Event>, k: nat, f: nat)
    requires k < f < |es| && es[k].Check?
  {
    exists j :: k < j < f && Marks(es[j]) && MarkOf(es[j]) >= es[k].message.oid && forall i :: j < i < f ==> !Marks(es[i])
  }

  lemma {:induction false} MarkSince(es: seq<Event>, n: nat)
    requires n <= |es| && forall i :: n <= i < |es| ==> !Marks(es[i])
    ensures Mark(es) == Mark(es[..n])
    decreases |es|
  {
    if n < |es| {
      MarkSince(es[..|es| - 1], n);
      assert es[..|es| - 1][..n] == es[..n];
    } else {
      assert es[..n] == es;
    }
  }

  /** The mark between two events: that of the newest drop or start between them, or as before. */
  lemma {:induction false} MarkBetween(es: seq<Event>, k: nat) returns (j: int)
    requires k < |es| && !Marks(es[k])
    ensures j == -1 ==> Mark(es) == Mark(es[..k]) && forall i :: k < i < |es| ==> !Marks(es[i])
    ensures j != -1 ==> k < j < |es| && Marks(es[j]) && Mark(es) == MarkOf(es[j]) && forall i :: j < i < |es| ==> !Marks(es[i])
  {
    var front := es[..|es| - 1];
    if Marks(es[|es| - 1]) {
      j := |es| - 1;
    } else if k == |front| {
      j := -1;
    } else {
      j := MarkBetween(front, k);
      assert front[..k] == es[..k];
    }
  }

  lemma MarkAtFill(es: seq<Event>, k: nat, f: nat)
    requires k < f < |es| && es[k].Check? && es[k].message.oid > Mark(es[..k])
    ensures es[k].message.oid > Mark(es[..f]) <==> !Overtaken(es, k, f)
  {
    var front := es[..f];
    assert front[..k] == es[..k];
    assert forall i :: 0 <= i < f ==> front[i] == es[i];
    var j := MarkBetween(front, k);
    if j == -1 {
      NotOvertaken(es, k, f);
    } else {
      OvertakenBy(es, k, f, j);
    }
  }

  lemma NotOvertaken(es: seq<Event>, k: nat, f: nat)
    requires k < f < |es| && es[k].Check? && forall i :: k < i < f ==> !Marks(es[i])
    ensures !Overtaken(es, k, f)
  {
  }

  lemma OvertakenBy(es: seq<Event>, k: nat, f: nat, j: int)
    requires k < j < f < |es| && es[k].Check? && Marks(es[j]) && forall i :: j < i < f ==> !Marks(es[i])
    ensures Overtaken(es, k, f) <==> MarkOf(es[j]) >= es[k].message.oid
  {
  }

  lemma CheckedAbove(cfg: Config, version: int, es: seq<Event>, k: nat, f: nat)
    requires ValidConfig(cfg) && k < f <= |es| && CheckedBy(cfg, version, es[..f], k)
    ensures es[k].Check? && es[k].message.oid > Mark(es[..k])
  {
    RunKeeps(cfg, version, es[..k]);
    assert es[..f][..k] == es[..k];
  }

  /** Exactly when a served row answers an observation above the watermark: unless a drop or
      restart at or above it came between the check of its message and the fill. */
  lemma AboveTheMark(cfg: Config, version: int, es: seq<Event>, a: string) returns (k: nat, f: nat)
    requires ValidConfig(cfg) && Possible(cfg, version, es) && a in Run(cfg, version, es).st.slots
    ensures CameBy(cfg, version, es, k, f, a) && a in Run(cfg, version, es).st.origin
    ensures Run(cfg, version, es).st.origin[a] == es[k].message.oid
    ensures es[k].message.oid > Run(cfg, version, es).st.watermark <==> !Overtaken(es, k, f)
  {
    k, f := ServedFrom(cfg, version, es, a);
    WatermarkAtFill(cfg, version, es, f, a);
    CheckedAbove(cfg, version, es, k, f);
    MarkAtFill(es, k, f);
  }

  lemma WatermarkAtFill(cfg: Config, version: int, es: seq<Event>, f: nat, a: string)
    requires ValidConfig(cfg) && f < |es| && NewestFor(cfg, version, es, f, a)
    ensures Run(cfg, version, es).st.watermark == Mark(es[..f])
  {
    RunKeeps(cfg, version, es);
    MarkSince(es, f);
  }

  /** No drop or restart comes while a message is in flight. */
  ghost predicate Undivided(cfg: Config, version: int, es: seq<Event>)
    requires ValidConfig(cfg)
  {
    forall n :: 0 <= n < |es| && Marks(es[n]) ==> Run(cfg, version, es[..n]).flight.None?
  }

  lemma {:induction false} FlightSince(cfg: Config, version: int, es: seq<Event>, k: nat, n: nat)
    requires ValidConfig(cfg) && k < n <= |es| && CheckedBy(cfg, version, es, k)
    ensures Run(cfg, version, es[..n]).flight.Some?
  {
    assert es[..n][..n - 1] == es[..n - 1];
    if n - 1 > k {
      FlightSince(cfg, version, es, k, n - 1);
    }
  }

  /** As long as checks and fills are not torn apart by a drop or restart, no served row answers
      an observation at or below the watermark. */
  lemma NoRowBelowTheMark(cfg: Config, version: int, es: seq<Event>)
    requires ValidConfig(cfg) && Possible(cfg, version, es) && Undivided(cfg, version, es)
    ensures Guarded(Run(cfg, version, es).st)
  {
    forall a | a in Run(cfg, version, es).st.slots
      ensures a in Run(cfg, version, es).st.origin && Run(cfg, version, es).st.origin[a] > Run(cfg, version, es).st.watermark
    {
      var k, f := AboveTheMark(cfg, version, es, a);
      if j :| k < j < f && Marks(es[j]) {
        FlightSince(cfg, version, es[..f], k, j);
        assert es[..f][..j] == es[..j];
      }
    }
  }

  /** After a drop, until the next one, every served row was filled in after it and, but for the
      message in flight at the drop, answers an observation the publisher made after it. */
  lemma NothingOldAfterADrop(cfg: Config, version: int, es: seq<Event>, n: nat, a: string) returns (k: nat, f: nat)
    requires ValidConfig(cfg) && Possible(cfg, version, es) && a in Run(cfg, version, es).st.slots
    requires n < |es| && es[n].DropAndRequery? && forall j :: n < j < |es| ==> !Marks(es[j])
    ensures CameBy(cfg, version, es, k, f, a) && n < f && Run(cfg, version, es).st.slots[a].t0 == es[k].t
    ensures n < k ==> es[k].message.oid > es[n].pub.observationId
    ensures k < n ==> Run(cfg, version, es[..n]).flight == Some(Flight(es[k].message, es[k].t))
  {
    k, f := ServedFrom(cfg, version, es, a);
    FilledAfter(cfg, version, es, n, f, a);
    CheckedAbove(cfg, version, es, k, f);
    if n < k {
      MarkAfterDrop(es, n, k);
    } else {
      assert k != n;
      SameFlight(cfg, version, es[..f], k, n);
      assert es[..f][..n] == es[..n];
    }
  }

  lemma FilledAfter(cfg: Config, version: int, es: seq<Event>, n: nat, f: nat, a: string)
    requires ValidConfig(cfg) && n < |es| && es[n].DropAndRequery? && f < |es| && NewestFor(cfg, version, es, f, a)
    ensures n < f
  {
    assert Clears(es[n]) && !es[n].Fill?;
  }

  lemma MarkAfterDrop(es: seq<Event>, n: nat, k: nat)
    requires n < k <= |es| && es[n].DropAndRequery? && forall j :: n < j < |es| ==> !Marks(es[j])
    ensures Mark(es[..k]) == es[n].pub.observationId
  {
    MarkSince(es[..k], n + 1);
    assert es[..k][..n + 1] == es[..n + 1];
    assert es[..n + 1][|es[..n + 1]| - 1] == es[n];
  }

  lemma {:induction false} SameFlight(cfg: Config, version: int, es: seq<Event>, k: nat, n: nat)
    requires ValidConfig(cfg) && k < n <= |es| && CheckedBy(cfg, version, es, k)
    ensures Run(cfg, version, es[..n]).flight == Some(Flight(es[k].message, es[k].t))
  {
    assert es[..n][..n - 1] == es[..n - 1];
    if n - 1 > k {
      SameFlight(cfg, version, es, k, n - 1);
    }
  }

  /** A message filled into emptied slots is above the mark or nothing is. */
  lemma LateFill(cfg: Config, st: State, m: Message, t: real)
    requires ValidConfig(cfg) && Fits(cfg, m) && cfg.order != [] && st.slots == map[] && st.origin == map[]
    ensures var late := FillIn(cfg, st, m, t);
            late.slots != map[] && late.watermark == st.watermark && (Guarded(late) <==> m.oid > st.watermark)
  {
    var late := FillIn(cfg, st, m, t);
    var a := if m.armInput.Some? then m.armInput.value else cfg.order[0];
    FillSlot(cfg, st, m, t, a);
    forall x | x in late.slots
      ensures x in late.origin && late.origin[x] == m.oid
    {
      FillSlot(cfg, st, m, t, x);
    }
  }

  lemma RunOn(cfg: Config, version: int, es: seq<Event>, e: Event)
    requires ValidConfig(cfg)
    ensures Run(cfg, version, es + [e]) == Step(cfg, Run(cfg, version, es), e)
    ensures Possible(cfg, version, es + [e]) <==> Possible(cfg, version, es) && Enabled(Run(cfg, version, es), e)
  {
    assert (es + [e])[..|es|] == es;
  }

  /** The watermark is read before the lock that guards the fill: when a drop comes between the
      two, the row is served after it, and it is below the new mark exactly if the publisher
      already had its observation at the drop. */
  lemma DropBetweenCheckAndFill(cfg: Config, version: int, es: seq<Event>, pub: Publisher, m: Message, t: real, at: Publisher)
    requires ValidConfig(cfg) && Possible(cfg, version, es) && cfg.order != [] && Run(cfg, version, es).flight.None?
    requires Refusal(cfg, pub, Run(cfg, version, es).st.watermark, m, t).None?
    ensures Possible(cfg, version, es + [Check(pub, m, t)] + [DropAndRequery(at)] + [Fill])
    ensures var late := Run(cfg, version, es + [Check(pub, m, t)] + [DropAndRequery(at)] + [Fill]).st;
            late.slots != map[] && late.watermark == at.observationId && (Guarded(late) <==> m.oid > at.observationId)
  {
    var one := es + [Check(pub, m, t)];
    var two := one + [DropAndRequery(at)];
    RunOn(cfg, version, es, Check(pub, m, t));
    RunOn(cfg, version, one, DropAndRequery(at));
    RunOn(cfg, version, two, Fill);
    LateFill(cfg, Run(cfg, version, two).st, m, t);
  }

  /** One arm with one dimension. */
  const LONE_ARM := Config("s", ["left"], map["left" := ["x"]], map["left" := [false]], ["x"], ["left"], 0.1, 0.1, 1.0)

  /** A message answering observation 1, checked while nothing was dropped; the publisher still has
      no newer observation when a drop overtakes the fill, and the row is served at the new mark. */
  lemma ServedBelowTheMark(version: int)
    ensures ValidConfig(LONE_ARM)
    ensures var seen := Publisher(1, map[1 := 0.0]);
            var m := Message(true, "s", None, None, 1, Some(Grid([[NaN]], 1)), None, version);
            var es := [Check(seen, m, 0.0)] + [DropAndRequery(seen)] + [Fill];
            && Possible(LONE_ARM, version, es) && Run(LONE_ARM, version, es).st.slots != map[]
            && !Guarded(Run(LONE_ARM, version, es).st)
  {
    OneBlock();
    var seen := Publisher(1, map[1 := 0.0]);
    var m := Message(true, "s", None, None, 1, Some(Grid([[NaN]], 1)), None, version);
    assert [] + [Check(seen, m, 0.0)] == [Check(seen, m, 0.0)];
    DropBetweenCheckAndFill(LONE_ARM, version, [], seen, m, 0.0, seen);
  }

  lemma OneBlock()
    ensures ValidConfig(LONE_ARM)
  {
    assert LONE_ARM.order[..0] == [];
    assert Concat(LONE_ARM.blocks, []) == [];
    assert [] + LONE_ARM.blocks["left"] == LONE_ARM.names;
  }

  /** The version of the newest message filled in or announcement since the source was made. */
  ghost function VersionAfter(cfg: Config, version: int, es: seq<Event>): int
    requires ValidConfig(cfg)
  {
    if es == [] then version
    else
      var front, e := es[..|es| - 1], es[|es| - 1];
      match e
      case Spec(announced) => announced
      case Fill => if Run(cfg, version, front).flight.Some? then Run(cfg, version, front).flight.value.message.version
                   else VersionAfter(cfg, version, front)
      case _ => VersionAfter(cfg, version, front)
  }

  /** Over every run actions are handed out under that version. */
  lemma VersionIsNewest(cfg: Config, version: int, es: seq<Event>, now: real)
    requires ValidConfig(cfg)
    ensures Run(cfg, version, es).st.version == VersionAfter(cfg, version, es)
    ensures ValidSlots(cfg, Run(cfg, version, es).st.slots)
    ensures Latest(cfg, Run(cfg, version, es).st, now).Some? ==>
              Latest(cfg, Run(cfg, version, es).st, now).value.version == VersionAfter(cfg, version, es)
  {
    RunKeeps(cfg, version, es);
    VersionFollows(cfg, version, es);
  }

  lemma {:induction false} VersionFollows(cfg: Config, version: int, es: seq<Event>)
    requires ValidConfig(cfg)
    ensures Run(cfg, version, es).st.version == VersionAfter(cfg, version, es)
  {
    if es != [] {
      VersionFollows(cfg, version, es[..|es| - 1]);
    }
  }

  /** A paused source hands out nothing, and neither does one without a chunk. */
  lemma SilentWhenPausedOrEmpty(cfg: Config, version: int, es: seq<Event>, now: real)
    requires ValidConfig(cfg)
    ensures ValidSlots(cfg, Run(cfg, version, es).st.slots)
    ensures Latest(cfg, Run(cfg, version, es).st, now).None? <==>
              Run(cfg, version, es).st.paused || forall a :: a in cfg.order ==> a !in Run(cfg, version, es).st.slots
  {
    RunKeeps(cfg, version, es);
    var slots := Run(cfg, version, es).st.slots;
    if slots != map[] {
      var a :| a in slots;
      assert ValidSlot(cfg, a, slots[a]);
    }
  }

  // -- the object -----------------------------------------------------------------------------

  class ExternalPolicySource {
    const cfg: Config
    const split: seq<Slot>
    var slots: map<string, Chunk>
    var version: int
    var paused: bool
    var watermark: int
    var actionsLate: nat
    var actionsApplied: nat
    var versionChanges: nat
    ghost var origin: map<string, int>

    ghost predicate Valid()
      reads this
    {
      ValidConfig(cfg) && split == SplitOf(cfg) && ValidSlots(cfg, slots)
    }

    ghost function Value(): State
      reads this
    {
      State(slots, origin, version, paused, watermark, actionsLate, actionsApplied)
    }

    /** The layout is matched once; the arms were resolved from the same names. */
    constructor (session: Config, layout: seq<Slot>, specVersion: int)
      requires ValidConfig(session) && layout == SplitOf(session)
      ensures Valid() && cfg == session && Value() == Initial(specVersion)
    {
      cfg, split := session, layout;
      slots, origin := map[], map[];
      version, paused, watermark := specVersion, false, 0;
      actionsLate, actionsApplied, versionChanges := 0, 0, 0;
    }

    method Begin()
      requires Valid()
      modifies this
      ensures Valid() && Value() == Step(cfg, Source(old(Value()), None), Start).st
    {
      slots, origin, watermark := map[], map[], 0;
    }

    method Requery(pub: Publisher)
      requires Valid()
      modifies this
      ensures Valid() && Value() == Step(cfg, Source(old(Value()), None), DropAndRequery(pub)).st
    {
      slots, origin, watermark := map[], map[], pub.observationId;
    }

    method PauseSource()
      requires Valid()
      modifies this
      ensures Valid() && Value() == Step(cfg, Source(old(Value()), None), Pause).st
    {
      paused := true;
      slots, origin := map[], map[];
    }

    method ResumeSource()
      requires Valid()
      modifies this
      ensures Valid() && Value() == Step(cfg, Source(old(Value()), None), Resume).st
    {
      paused := false;
    }

    /** A changed announcement moves the acting version. */
    method OnSpec(announced: int)
      requires Valid()
      modifies this`version, this`versionChanges
      ensures Valid() && Value() == Step(cfg, Source(old(Value()), None), Spec(announced)).st
      ensures versionChanges == old(versionChanges) + if announced != old(version) then 1 else 0
    {
      if announced != version {
        versionChanges := versionChanges + 1;
        version := announced;
      }
    }

    /** A message on the bus thread with nothing in between: refused and counted, or filled in. */
    method OnAction(pub: Publisher, m: Message, t: real) returns (dropped: Option<DropReason>)
      requires Valid()
      modifies this
      ensures Valid() && Value() == Deliver(cfg, pub, old(Value()), m, t)
      ensures dropped == Refusal(cfg, pub, old(watermark), m, t)
    {
      dropped := CheckAction(pub, m, t);
      if dropped.None? {
        FillAction(m, t);
      }
    }

    /** The checks, outside the lock. */
    method CheckAction(pub: Publisher, m: Message, t: real) returns (dropped: Option<DropReason>)
      requires Valid()
      modifies this`actionsLate
      ensures Valid() && Value() == Checked(cfg, Source(old(Value()), None), pub, m, t).st
      ensures dropped == Refusal(cfg, pub, watermark, m, t)
    {
      dropped := Refusal(cfg, pub, watermark, m, t);
      if dropped.Some? && (dropped.value.Late? || dropped.value.UnknownObservation? || dropped.value.TooOld?) {
        actionsLate := actionsLate + 1;
      }
    }

    /** The fill, under the lock. */
    method FillAction(m: Message, t: real)
      requires Valid() && Fits(cfg, m)
      modifies this
      ensures Valid() && Value() == FillIn(cfg, old(Value()), m, t)
      ensures versionChanges == old(versionChanges) + if m.version != old(version) then 1 else 0
    {
      FillKeepsSlots(cfg, Value(), m, t);
      OnSpec(m.version);
      FillSlots(m, t);
      origin := Originate(origin, Touched(cfg, m), m.oid);
      actionsApplied := actionsApplied + 1;
    }

    method FillSlots(m: Message, t: real)
      requires ValidConfig(cfg) && split == SplitOf(cfg) && Fits(cfg, m)
      modifies this`slots
      ensures slots == Filled(cfg, old(slots), m, t)
    {
      if m.armInput.Some? {
        slots := slots[m.armInput.value := Chunk(m.payload.value.rows, t, ChunkDt(cfg, m))];
      } else {
        FillWholeCell(m.payload.value.rows, t, ChunkDt(cfg, m));
      }
    }

    /** Each announced block into its arm's slot. */
    method FillWholeCell(rows: seq<Row>, t: real, dt: real)
      requires Wide(rows, |cfg.names|) && Inside(split, |cfg.names|)
      modifies this`slots
      ensures slots == FillAll(old(slots), split, rows, |cfg.names|, t, dt)
    {
      for i := 0 to |split|
        invariant Inside(split[..i], |cfg.names|) && slots == FillAll(old(slots), split[..i], rows, |cfg.names|, t, dt)
      {
        assert split[..i + 1][..i] == split[..i];
        slots := slots[split[i].arm := Chunk(Columns(rows, split[i].start, split[i].len), t, dt)];
      }
      assert split[..|split|] == split;
    }

    /** The session-layout action for the executor. */
    method LatestAction(now: real) returns (out: Option<Output>)
      requires Valid()
      ensures out == Latest(cfg, Value(), now)
    {
      if paused {
        return None;
      }
      ValidSlotsAreTimed(cfg, slots);
      PartsAreDefined(cfg);
      var parts, newest, any := Collect(cfg.arms, PartFor(cfg, slots, now), Times(slots, now));
      AnyArm(cfg, slots);
      if !any {
        return None;
      }
      PartsAreAll(cfg, slots, now, parts);
      return Some(Output(Joined(parts), version, newest));
    }
  }

  /** Each arm's part, as a function of the arm. */
  function PartFor(cfg: Config, slots: map<string, Chunk>, now: real): (part: string --> Row)
    requires ValidConfig(cfg) && ValidSlots(cfg, slots)
    ensures forall a :: a in cfg.blocks ==> part.requires(a)
  {
    (a: string) requires a in cfg.blocks => PartOf(cfg, slots, a, now)
  }

  lemma PartsAreAll(cfg: Config, slots: map<string, Chunk>, now: real, parts: seq<Row>)
    requires ValidConfig(cfg) && ValidSlots(cfg, slots) && |parts| == |cfg.arms|
    requires forall i :: 0 <= i < |parts| ==> cfg.arms[i] in cfg.blocks
    requires forall i :: 0 <= i < |parts| ==> parts[i] == PartFor(cfg, slots, now)(cfg.arms[i])
    ensures parts == PartsOf(cfg, slots, now)
  {
  }

  lemma PartsAreDefined(cfg: Config)
    requires ValidConfig(cfg)
    ensures forall i :: 0 <= i < |cfg.arms| ==> cfg.arms[i] in cfg.blocks
  {
    assert forall i :: 0 <= i < |cfg.arms| ==> cfg.arms[i] in Members(cfg.arms);
  }

  /** Every arm's part in session order, the newest row's time, and whether there is any row. */
  method Collect(arms: seq<string>, part: string --> Row, times: map<string, real>)
    returns (parts: seq<Row>, newest: real, any: bool)
    requires forall i :: 0 <= i < |arms| ==> part.requires(arms[i])
    ensures |parts| == |arms| && forall i :: 0 <= i < |arms| ==> parts[i] == part(arms[i])
    ensures newest == NewestTime(arms, times, |arms|)
    ensures any <==> SomeArm(arms, times.Keys, |arms|)
  {
    parts, newest, any := [], NEVER, false;
    for i := 0 to |arms|
      invariant |parts| == i && forall r :: 0 <= r < i ==> parts[r] == part(arms[r])
      invariant newest == NewestTime(arms, times, i)
      invariant any <==> SomeArm(arms, times.Keys, i)
    {
      parts := parts + [part(arms[i])];
      if arms[i] in times {
        any := true;
      }
      newest := Newer(times, arms[i], newest);
    }
  }

  /** One of the first `n` arms has a chunk. */
  ghost predicate SomeArm(arms: seq<string>, filled: set<string>, n: nat)
    requires n <= |arms|
  {
    exists j :: 0 <= j < n && arms[j] in filled
  }

  lemma AnyArm(cfg: Config, slots: map<string, Chunk>)
    requires ValidConfig(cfg) && ValidSlots(cfg, slots)
    ensures slots != map[] <==> SomeArm(cfg.arms, slots.Keys, |cfg.arms|)
  {
    if slots != map[] {
      var a :| a in slots;
      assert ValidSlot(cfg, a, slots[a]);
      assert a in Members(cfg.arms);
    }
  }
}
