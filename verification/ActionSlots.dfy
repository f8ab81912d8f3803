/** The per-arm chunk slots of an external policy (dora_bridge/policy_source.py:412-434,
    502-724) and the split of the composed action (dagger/policy_runner.py:348-360).
    Messages come in any block order; what an arm is handed is settled by name. */
module ActionSlots {
  import opened Prelude
  import opened ActionLayout

  /** One action cell as the bus carries it. */
  datatype Cell = Num(v: real) | NaN

  type Row = seq<Cell>

  /** A decoded payload: at least one row, all of one positive width
      (dora_bridge/codec.py:143-155). */
  datatype Grid = Grid(rows: seq<Row>, dim: nat)

  predicate Rectangular(g: Grid) {
    |g.rows| >= 1 && g.dim >= 1 && forall k :: 0 <= k < |g.rows| ==> |g.rows[k]| == g.dim
  }

  type Payload = g: Grid | Rectangular(g) witness Grid([[NaN]], 1)

  const NEVER := -1000000000.0

  // -- one slot -----------------------------------------------------------------------------

  /** An arm's current chunk: rows, receive time, seconds per row. */
  datatype Chunk = Chunk(rows: seq<Row>, t0: real, dt: real)

  ghost predicate ValidChunk(c: Chunk, width: nat) {
    |c.rows| >= 1 && c.dt > 0.0 && forall k :: 0 <= k < |c.rows| ==> |c.rows[k]| == width
  }

  /** Row 0 at once, one row per `dt` after it, the last one from then on. */
  function RowIndex(rows: nat, elapsed: real, dt: real): (k: nat)
    requires rows >= 1 && dt > 0.0
    ensures k < rows
  {
    if rows == 1 then 0
    else
      var n := (elapsed / dt).Floor;
      var k := if n < 0 then 0 else n;
      if k < rows - 1 then k else rows - 1
  }

  lemma FloorBelow(q: real, f: real, elapsed: real, dt: real)
    requires dt > 0.0 && q * dt == elapsed && f <= q
    ensures f * dt <= elapsed
  {
    MulMono(f, q, dt);
  }

  lemma FloorAbove(q: real, f: real, elapsed: real, dt: real)
    requires dt > 0.0 && q * dt == elapsed && q < f + 1.0
    ensures elapsed < f * dt + dt
  {
    MulStrict(q, f + 1.0, dt);
    assert (f + 1.0) * dt == f * dt + dt;
  }

  lemma BeforeTheStart(rows: nat, elapsed: real, dt: real)
    requires rows >= 1 && dt > 0.0 && elapsed < 0.0
    ensures RowIndex(rows, elapsed, dt) == 0
  {
    var q := elapsed / dt;
    if q >= 0.0 {
      MulMono(0.0, q, dt);
    }
  }

  lemma SignOfQuotient(q: real, elapsed: real, dt: real)
    requires dt > 0.0 && q * dt == elapsed && elapsed >= 0.0
    ensures q >= 0.0
  {
    if q < 0.0 {
      MulStrict(q, 0.0, dt);
    }
  }

  /** The served row is the one whose time it is. */
  lemma RowIsCurrent(rows: nat, elapsed: real, dt: real)
    requires rows >= 1 && dt > 0.0 && elapsed >= 0.0
    ensures RowIndex(rows, elapsed, dt) as real * dt <= elapsed
    ensures RowIndex(rows, elapsed, dt) < rows - 1 ==> elapsed < RowIndex(rows, elapsed, dt) as real * dt + dt
  {
    var q := elapsed / dt;
    SignOfQuotient(q, elapsed, dt);
    var k := RowIndex(rows, elapsed, dt);
    FloorBelow(q, k as real, elapsed, dt);
    if k < rows - 1 {
      FloorAbove(q, k as real, elapsed, dt);
    }
  }

  // -- the source ---------------------------------------------------------------------------

  /** Which dimensions of a block are deltas and rescale with the row time. */
  function RescaleMask(rail: bool, space: Space): (mask: seq<bool>)
    ensures |mask| == |Dims(space, rail)|
  {
    match space
    case DeltaEe => [true, true, true, true, true, true, false] + (if rail then [true] else [])
    case AbsEe => seq(|Dims(space, rail)|, _ => false)
    case Joint => seq(|Dims(space, rail)|, _ => false)
  }

  /** Every delta rescales and nothing else: in `delta_ee` all but the gripper, elsewhere
      nothing. */
  lemma MaskIsTheDeltas(rail: bool, space: Space, i: nat)
    requires i < |Dims(space, rail)|
    ensures RescaleMask(rail, space)[i] <==> space.DeltaEe? && Dims(space, rail)[i] != "gripper.pos"
  {
  }

  function MasksOf(meta: seq<ArmMeta>, space: Space): map<string, seq<bool>> {
    if meta == [] then map[]
    else
      var m := meta[|meta| - 1];
      MasksOf(meta[..|meta| - 1], space)[m.arm := RescaleMask(m.rail, space)]
  }

  /** The masks of a session, arm by arm: the deltas of each arm's own block. */
  lemma {:induction false} MasksFollowMeta(meta: seq<ArmMeta>, space: Space, k: nat)
    requires k < |meta| && forall l :: k < l < |meta| ==> meta[l].arm != meta[k].arm
    ensures meta[k].arm in MasksOf(meta, space)
    ensures var (mask, dims) := (MasksOf(meta, space)[meta[k].arm], Dims(space, meta[k].rail));
            |mask| == |dims| && forall i :: 0 <= i < |dims| ==> (mask[i] <==> space.DeltaEe? && dims[i] != "gripper.pos")
  {
    if k < |meta| - 1 {
      MasksFollowMeta(meta[..|meta| - 1], space, k);
    } else {
      forall i: nat | i < |Dims(space, meta[k].rail)|
        ensures RescaleMask(meta[k].rail, space)[i] <==> space.DeltaEe? && Dims(space, meta[k].rail)[i] != "gripper.pos"
      {
        MaskIsTheDeltas(meta[k].rail, space, i);
      }
    }
  }

  /** What one session fixes: its arms with their blocks, the announced names and the order of
      the driven blocks in them. */
  datatype Config = Config(
    sessionId: string,
    arms: seq<string>,
    blocks: Blocks,
    masks: map<string, seq<bool>>,
    names: Names,
    order: seq<string>,
    period: real,
    defaultDt: real,
    maxObsAge: real)

  ghost predicate SameWidths(blocks: Blocks, masks: map<string, seq<bool>>) {
    blocks.Keys == masks.Keys && forall a :: a in blocks ==> |masks[a]| == |blocks[a]|
  }

  ghost predicate ValidConfig(cfg: Config) {
    && Distinct(cfg.arms) && Members(cfg.arms) == cfg.blocks.Keys && SameWidths(cfg.blocks, cfg.masks)
    && Distinct(cfg.order) && (forall a :: a in cfg.order ==> a in cfg.blocks)
    && Concat(cfg.blocks, cfg.order) == cfg.names
    && cfg.period > 0.0 && cfg.defaultDt > 0.0
  }

  lemma {:induction false} MaskWidths(meta: seq<ArmMeta>, space: Space)
    ensures SameWidths(ArmBlocks(meta, space), MasksOf(meta, space))
  {
    if meta != [] {
      MaskWidths(meta[..|meta| - 1], space);
    }
  }

  /** What `resolve_driven_arms` accepts makes a session the source can serve. */
  lemma SessionIsValid(cfg: Config, meta: seq<ArmMeta>, space: Space)
    requires Distinct(SessionArms(meta)) && cfg.arms == SessionArms(meta)
    requires cfg.blocks == ArmBlocks(meta, space) && cfg.masks == MasksOf(meta, space)
    requires Drives(cfg.blocks, cfg.names, cfg.order) && cfg.period > 0.0 && cfg.defaultDt > 0.0
    ensures ValidConfig(cfg) && WellNamed(cfg.blocks)
  {
    MaskWidths(meta, space);
    SessionBlocksAreWellNamed(meta, space);
  }

  /** Bus message: required metadata complete or not, and what it decodes to. */
  datatype Message = Message(
    complete: bool,
    sessionId: string,
    armInput: Option<string>,
    claimedArm: Option<string>,
    oid: int,
    payload: Option<Payload>,
    chunkDt: Option<real>,
    version: int)

  /** The publisher's view of observations: the newest id and the stamps still known. */
  datatype Publisher = Publisher(observationId: int, stamps: map<int, real>)

  datatype DropReason =
    | MissingMetadata | OtherSession | NotDriven | WrongArm | Malformed | WrongWidth | BadChunkDt
    | Late | UnknownObservation | TooOld

  /** State of the source; `origin` records which observation a slot's chunk answers. */
  datatype State = State(
    slots: map<string, Chunk>,
    origin: map<string, int>,
    version: int,
    paused: bool,
    watermark: int,
    late: nat,
    applied: nat)

  function ChunkDt(cfg: Config, m: Message): real {
    if m.chunkDt.None? || m.chunkDt.value == 0.0 then cfg.defaultDt else m.chunkDt.value
  }

  function Width(cfg: Config, m: Message): nat
    requires m.armInput.Some? ==> m.armInput.value in cfg.blocks
  {
    if m.armInput.Some? then |cfg.blocks[m.armInput.value]| else |cfg.names|
  }

  /** The checks in front of a fill, in the order they are made. */
  function Refusal(cfg: Config, pub: Publisher, watermark: int, m: Message, t: real): (r: Option<DropReason>)
    requires forall a :: a in cfg.order ==> a in cfg.blocks
  {
    if !m.complete then Some(MissingMetadata)
    else if m.sessionId != cfg.sessionId then Some(OtherSession)
    else if m.armInput.Some? && m.armInput.value !in cfg.order then Some(NotDriven)
    else if m.armInput.Some? && m.claimedArm.Some? && m.claimedArm != m.armInput then Some(WrongArm)
    else if m.payload.None? then Some(Malformed)
    else if m.payload.value.dim != Width(cfg, m) then Some(WrongWidth)
    else if ChunkDt(cfg, m) <= 0.0 then Some(BadChunkDt)
    else if m.oid <= watermark then Some(Late)
    else if m.oid !in pub.stamps then Some(UnknownObservation)
    else if t - pub.stamps[m.oid] > cfg.maxObsAge then Some(TooOld)
    else None
  }

  /** Exactly which messages are accepted: complete, for this session, for a driven arm that no claim
      contradicts, of the right width, with a row time that is positive, answering an observation
      above the watermark that the publisher still knows and that is not too old. */
  lemma AcceptedExactly(cfg: Config, pub: Publisher, watermark: int, m: Message, t: real)
    requires ValidConfig(cfg)
    ensures Refusal(cfg, pub, watermark, m, t).None? <==>
              && m.complete && m.sessionId == cfg.sessionId && m.payload.Some?
              && (m.armInput.Some? ==>
                    && m.armInput.value in cfg.order && (m.claimedArm.None? || m.claimedArm.value == m.armInput.value)
                    && m.payload.value.dim == |cfg.blocks[m.armInput.value]|)
              && (m.armInput.None? ==> m.payload.value.dim == |cfg.names|)
              && (m.chunkDt.Some? ==> m.chunkDt.value >= 0.0)
              && m.oid > watermark && m.oid in pub.stamps && pub.stamps[m.oid] >= t - cfg.maxObsAge
    ensures Refusal(cfg, pub, watermark, m, t) == Some(Late) ==> m.oid <= watermark
    ensures Refusal(cfg, pub, watermark, m, t) == Some(UnknownObservation) ==> m.oid > watermark && m.oid !in pub.stamps
    ensures Refusal(cfg, pub, watermark, m, t) == Some(TooOld) ==> m.oid in pub.stamps && pub.stamps[m.oid] < t - cfg.maxObsAge
  {
  }

  function Columns(rows: seq<Row>, start: nat, n: nat): (r: seq<Row>)
    requires forall k :: 0 <= k < |rows| ==> start + n <= |rows[k]|
    ensures |r| == |rows| && forall k :: 0 <= k < |rows| ==> r[k] == rows[k][start..start + n]
  {
    seq(|rows|, k requires 0 <= k < |rows| => rows[k][start..start + n])
  }

  predicate Inside(split: seq<Slot>, width: nat) {
    forall i :: 0 <= i < |split| ==> split[i].start + split[i].len <= width
  }

  predicate Wide(rows: seq<Row>, width: nat) {
    forall k :: 0 <= k < |rows| ==> |rows[k]| == width
  }

  /** Each block of the rows into its arm's slot. */
  function FillAll(slots: map<string, Chunk>, split: seq<Slot>, rows: seq<Row>, width: nat, t: real, dt: real): map<string, Chunk>
    requires Wide(rows, width) && Inside(split, width)
  {
    if split == [] then slots
    else
      var s := split[|split| - 1];
      FillAll(slots, split[..|split| - 1], rows, width, t, dt)[s.arm := Chunk(Columns(rows, s.start, s.len), t, dt)]
  }

  function Originate(origin: map<string, int>, arms: seq<string>, oid: int): (o: map<string, int>)
    ensures o.Keys == origin.Keys + Members(arms)
    ensures forall a :: a in o ==> o[a] == if a in arms then oid else origin[a]
  {
    map a | a in origin.Keys + Members(arms) :: if a in arms then oid else origin[a]
  }

  lemma {:induction false} LayoutInside(blocks: Blocks, order: seq<string>)
    requires forall a :: a in order ==> a in blocks
    ensures |Layout(blocks, order)| == |order| && Inside(Layout(blocks, order), |Concat(blocks, order)|)
  {
    if order != [] {
      LayoutInside(blocks, order[..|order| - 1]);
    }
  }

  function SplitOf(cfg: Config): (split: seq<Slot>)
    requires ValidConfig(cfg)
    ensures Inside(split, |cfg.names|)
  {
    LayoutInside(cfg.blocks, cfg.order);
    Layout(cfg.blocks, cfg.order)
  }

  /** The slots an accepted message leaves. */
  function Filled(cfg: Config, slots: map<string, Chunk>, m: Message, t: real): map<string, Chunk>
    requires ValidConfig(cfg) && m.payload.Some? && (m.armInput.Some? ==> m.armInput.value in cfg.order)
    requires m.payload.value.dim == Width(cfg, m)
  {
    var rows := m.payload.value.rows;
    if m.armInput.Some? then slots[m.armInput.value := Chunk(rows, t, ChunkDt(cfg, m))]
    else FillAll(slots, SplitOf(cfg), rows, |cfg.names|, t, ChunkDt(cfg, m))
  }

  function Touched(cfg: Config, m: Message): seq<string> {
    if m.armInput.Some? then [m.armInput.value] else cfg.order
  }

  /** What every message that gets as far as the fill satisfies. */
  predicate Fits(cfg: Config, m: Message) {
    && (m.armInput.Some? ==> m.armInput.value in cfg.order && m.armInput.value in cfg.blocks)
    && m.payload.Some? && m.payload.value.dim == Width(cfg, m) && ChunkDt(cfg, m) > 0.0
  }

  /** A refused message; those that come too late are counted. */
  function Refused(st: State, reason: DropReason): State {
    if reason.Late? || reason.UnknownObservation? || reason.TooOld? then st.(late := st.late + 1) else st
  }

  /** An accepted message in the slots. */
  function FillIn(cfg: Config, st: State, m: Message, t: real): State
    requires ValidConfig(cfg) && Fits(cfg, m)
  {
    st.(slots := Filled(cfg, st.slots, m, t),
        origin := Originate(st.origin, Touched(cfg, m), m.oid),
        version := m.version,
        applied := st.applied + 1)
  }

  function Deliver(cfg: Config, pub: Publisher, st: State, m: Message, t: real): State
    requires ValidConfig(cfg)
  {
    match Refusal(cfg, pub, st.watermark, m, t)
    case Some(reason) => Refused(st, reason)
    case None => FillIn(cfg, st, m, t)
  }

  function Cleared(st: State, watermark: int): State {
    st.(slots := map[], origin := map[], watermark := watermark)
  }

  // -- composing the session action -----------------------------------------------------------

  function Rescale(c: Cell, masked: bool, factor: real): Cell {
    if c.NaN? || !masked then c else Num(c.v * factor)
  }

  function RescaleRow(row: Row, mask: seq<bool>, factor: real): (r: Row)
    requires |mask| == |row|
    ensures |r| == |row| && forall i :: 0 <= i < |row| ==> r[i] == Rescale(row[i], mask[i], factor)
  {
    seq(|row|, i requires 0 <= i < |row| => Rescale(row[i], mask[i], factor))
  }

  function Blank(n: nat): (r: Row)
    ensures |r| == n && forall i :: 0 <= i < n ==> r[i] == NaN
  {
    seq(n, _ => NaN)
  }

  ghost predicate ValidSlot(cfg: Config, a: string, c: Chunk) {
    a in cfg.order && a in cfg.blocks && ValidChunk(c, |cfg.blocks[a]|)
  }

  ghost predicate ValidSlots(cfg: Config, slots: map<string, Chunk>) {
    forall a :: a in slots ==> ValidSlot(cfg, a, slots[a])
  }

  function CurrentRow(c: Chunk, now: real): Row
    requires |c.rows| >= 1 && c.dt > 0.0
  {
    c.rows[RowIndex(|c.rows|, now - c.t0, c.dt)]
  }

  function ActiveSince(c: Chunk, now: real): real
    requires |c.rows| >= 1 && c.dt > 0.0
  {
    c.t0 + RowIndex(|c.rows|, now - c.t0, c.dt) as real * c.dt
  }

  /** One arm's part of the session action: its current row, deltas rescaled from row time to
      control period, or nothing at all. */
  function PartOf(cfg: Config, slots: map<string, Chunk>, arm: string, now: real): (part: Row)
    requires ValidConfig(cfg) && ValidSlots(cfg, slots) && arm in cfg.blocks
    ensures |part| == |cfg.blocks[arm]|
  {
    if arm !in slots then Blank(|cfg.blocks[arm]|)
    else RescaleRow(CurrentRow(slots[arm], now), cfg.masks[arm], cfg.period / slots[arm].dt)
  }

  /** Rows one behind the other. */
  function Joined(parts: seq<Row>): Row {
    if parts == [] then [] else Joined(parts[..|parts| - 1]) + parts[|parts| - 1]
  }

  function Offset(widths: seq<nat>, i: nat): nat
    requires i <= |widths|
  {
    if i == 0 then 0 else Offset(widths, i - 1) + widths[i - 1]
  }

  /** `part` is the `i`-th block of `vec`. */
  predicate SliceAt(vec: Row, widths: seq<nat>, i: nat, part: Row)
    requires i < |widths|
  {
    Offset(widths, i) + widths[i] <= |vec| && vec[Offset(widths, i)..Offset(widths, i) + widths[i]] == part
  }

  ghost predicate Measured(parts: seq<Row>, widths: seq<nat>) {
    |parts| == |widths| && forall i :: 0 <= i < |parts| ==> |parts[i]| == widths[i]
  }

  lemma {:induction false} OffsetGrows(widths: seq<nat>, n: nat, m: nat)
    requires n <= m <= |widths|
    ensures Offset(widths, n) <= Offset(widths, m)
    decreases m
  {
    if n < m {
      OffsetGrows(widths, n, m - 1);
    }
  }

  lemma {:induction false} OffsetOfFront(widths: seq<nat>, n: nat, i: nat)
    requires i <= n <= |widths|
    ensures Offset(widths[..n], i) == Offset(widths, i)
  {
    if i > 0 {
      OffsetOfFront(widths, n, i - 1);
    }
  }

  lemma {:induction false} JoinedWidth(parts: seq<Row>, widths: seq<nat>)
    requires Measured(parts, widths)
    ensures |Joined(parts)| == Offset(widths, |widths|)
  {
    if parts != [] {
      JoinedWidth(parts[..|parts| - 1], widths[..|parts| - 1]);
      OffsetOfFront(widths, |parts| - 1, |parts| - 1);
    }
  }

  /** Every part is found again where the split looks for it. */
  lemma {:induction false} PartIsSlice(parts: seq<Row>, widths: seq<nat>, i: nat)
    requires Measured(parts, widths) && i < |parts|
    ensures SliceAt(Joined(parts), widths, i, parts[i])
    decreases |parts|
  {
    var n := |parts| - 1;
    JoinedWidth(parts[..n], widths[..n]);
    OffsetOfFront(widths, n, n);
    if i < n {
      PartIsSlice(parts[..n], widths[..n], i);
      OffsetOfFront(widths, n, i);
    }
  }

  /** `out` hands every arm the slice of `vec` at its place. */
  ghost predicate IsSplit(vec: Row, arms: seq<string>, widths: seq<nat>, out: map<string, Row>)
    requires |arms| == |widths|
  {
    && (forall a :: a in out <==> a in arms)
    && forall i :: 0 <= i < |arms| ==> SliceAt(vec, widths, i, out[arms[i]])
  }

  /** Concatenated per-arm blocks to per-arm slices. */
  method SplitAction(vec: Row, arms: seq<string>, widths: seq<nat>) returns (out: map<string, Row>)
    requires Distinct(arms) && |arms| == |widths| && |vec| == Offset(widths, |widths|)
    ensures IsSplit(vec, arms, widths, out)
  {
    out := map[];
    var at := 0;
    for k := 0 to |arms|
      invariant at == Offset(widths, k)
      invariant forall a :: a in out <==> a in arms[..k]
      invariant forall i :: 0 <= i < k ==> SliceAt(vec, widths, i, out[arms[i]])
    {
      OffsetGrows(widths, k + 1, |widths|);
      out := out[arms[k] := vec[at..at + widths[k]]];
      at := at + widths[k];
    }
  }

  function PartsOf(cfg: Config, slots: map<string, Chunk>, now: real): (parts: seq<Row>)
    requires ValidConfig(cfg) && ValidSlots(cfg, slots)
    ensures |parts| == |cfg.arms|
    ensures forall i :: 0 <= i < |parts| ==> cfg.arms[i] in cfg.blocks && parts[i] == PartOf(cfg, slots, cfg.arms[i], now)
  {
    assert forall i :: 0 <= i < |cfg.arms| ==> cfg.arms[i] in Members(cfg.arms);
    seq(|cfg.arms|, i requires 0 <= i < |cfg.arms| => PartOf(cfg, slots, cfg.arms[i], now))
  }

  function WidthsOf(cfg: Config): (widths: seq<nat>)
    requires ValidConfig(cfg)
    ensures |widths| == |cfg.arms|
    ensures forall i :: 0 <= i < |widths| ==> cfg.arms[i] in cfg.blocks && widths[i] == |cfg.blocks[cfg.arms[i]]|
  {
    assert forall i :: 0 <= i < |cfg.arms| ==> cfg.arms[i] in Members(cfg.arms);
    seq(|cfg.arms|, i requires 0 <= i < |cfg.arms| => |cfg.blocks[cfg.arms[i]]|)
  }

  predicate Timed(slots: map<string, Chunk>) {
    forall a :: a in slots ==> |slots[a].rows| >= 1 && slots[a].dt > 0.0
  }

  lemma ValidSlotsAreTimed(cfg: Config, slots: map<string, Chunk>)
    requires ValidSlots(cfg, slots)
    ensures Timed(slots)
  {
    assert forall a :: a in slots ==> ValidSlot(cfg, a, slots[a]);
  }

  /** When each arm's current row became active. */
  function Times(slots: map<string, Chunk>, now: real): (times: map<string, real>)
    requires Timed(slots)
    ensures times.Keys == slots.Keys && forall a :: a in times ==> times[a] == ActiveSince(slots[a], now)
  {
    map a | a in slots :: ActiveSince(slots[a], now)
  }

  /** The later of `t` and the time of the arm's row, if it has one. */
  function Newer(times: map<string, real>, arm: string, t: real): real {
    if arm in times && times[arm] > t then times[arm] else t
  }

  /** The time of the newest row of the first `n` arms. */
  function NewestTime(arms: seq<string>, times: map<string, real>, n: nat): real
    requires n <= |arms|
  {
    if n == 0 then NEVER else Newer(times, arms[n - 1], NewestTime(arms, times, n - 1))
  }

  datatype Output = Output(actions: Row, version: int, t: real)

  function Latest(cfg: Config, st: State, now: real): Option<Output>
    requires ValidConfig(cfg) && ValidSlots(cfg, st.slots)
  {
    if st.paused || st.slots == map[] then None
    else
      ValidSlotsAreTimed(cfg, st.slots);
      Some(Output(Joined(PartsOf(cfg, st.slots, now)), st.version, NewestTime(cfg.arms, Times(st.slots, now), |cfg.arms|)))
  }

  /** When the current row became active: a whole number of rows after the receipt, not in the future,
      and less than a row ago unless it is the last. */
  lemma ActiveSinceExactly(c: Chunk, now: real) returns (k: nat)
    requires |c.rows| >= 1 && c.dt > 0.0 && now >= c.t0
    ensures k < |c.rows| && ActiveSince(c, now) == c.t0 + k as real * c.dt
    ensures ActiveSince(c, now) <= now && (k < |c.rows| - 1 ==> now < ActiveSince(c, now) + c.dt)
  {
    k := RowIndex(|c.rows|, now - c.t0, c.dt);
    RowIsCurrent(|c.rows|, now - c.t0, c.dt);
  }

  /** The reported time of an action: the latest at which the row of any driven arm became active. */
  lemma ReportedTime(cfg: Config, st: State, now: real)
    requires ValidConfig(cfg) && ValidSlots(cfg, st.slots) && Latest(cfg, st, now).Some?
    ensures Timed(st.slots) && forall a :: a in st.slots ==> Latest(cfg, st, now).value.t >= ActiveSince(st.slots[a], now)
    ensures Latest(cfg, st, now).value.t == NEVER || exists a :: a in st.slots && Latest(cfg, st, now).value.t == ActiveSince(st.slots[a], now)
  {
    ValidSlotsAreTimed(cfg, st.slots);
    var times, n := Times(st.slots, now), |cfg.arms|;
    forall a | a in st.slots
      ensures NewestTime(cfg.arms, times, n) >= times[a]
    {
      assert ValidSlot(cfg, a, st.slots[a]);
      assert a in Members(cfg.arms);
      var i :| 0 <= i < n && cfg.arms[i] == a;
      NewestIsLatest(cfg.arms, times, n, i);
    }
    if n > 0 {
      NewestIsLatest(cfg.arms, times, n, 0);
    }
  }

  /** The reported time is that of the newest row. */
  lemma {:induction false} NewestIsLatest(arms: seq<string>, times: map<string, real>, n: nat, i: nat)
    requires i < n <= |arms|
    ensures arms[i] in times ==> NewestTime(arms, times, n) >= times[arms[i]]
    ensures NewestTime(arms, times, n) == NEVER
         || exists j :: 0 <= j < n && arms[j] in times && NewestTime(arms, times, n) == times[arms[j]]
  {
    if n > 1 {
      NewestIsLatest(arms, times, n - 1, if i < n - 1 then i else 0);
    }
  }
}
