/** From a whole-cell message through the slots to each arm's part of the session action
    (dora_bridge/policy_source.py:523-562, 694-704; dagger/policy_runner.py:348-360). */
module ActionRoundTrip {
  import opened Prelude
  import opened ActionLayout
  import opened ActionSlots
  import opened ActionFilling

  /** What an arm should be handed for a name of its block. */
  ghost predicate ByName(cfg: Config, row: Row, arm: string, part: Row, factor: real)
    requires ValidConfig(cfg) && arm in cfg.blocks && |row| == |cfg.names|
  {
    && |part| == |cfg.blocks[arm]|
    && forall d, p :: 0 <= d < |part| && 0 <= p < |row| && cfg.names[p] == cfg.blocks[arm][d]
         ==> part[d] == if row[p].Num? && cfg.masks[arm][d] then Num(row[p].v * factor) else row[p]
  }

  lemma BlockByName(cfg: Config, row: Row, s: Slot, factor: real)
    requires ValidConfig(cfg) && Distinct(cfg.names) && |row| == |cfg.names| && s.arm in cfg.blocks
    requires s.start + s.len <= |row| && cfg.names[s.start..s.start + s.len] == cfg.blocks[s.arm]
    ensures ByName(cfg, row, s.arm, RescaleRow(row[s.start..s.start + s.len], cfg.masks[s.arm], factor), factor)
  {
    forall d, p | 0 <= d < s.len && 0 <= p < |row| && cfg.names[p] == cfg.blocks[s.arm][d]
      ensures p == s.start + d
    {
      assert cfg.names[s.start + d] == cfg.blocks[s.arm][d];
    }
  }

  /** What an arm is handed from a whole-cell message `age` seconds after its receipt. */
  ghost predicate HandedByName(cfg: Config, rows: seq<Row>, dt: real, age: real, a: string, part: Row)
    requires ValidConfig(cfg) && a in cfg.blocks && |rows| >= 1 && dt > 0.0 && Wide(rows, |cfg.names|)
  {
    if a in cfg.order then ByName(cfg, rows[RowIndex(|rows|, age, dt)], a, part, cfg.period / dt)
    else part == Blank(|cfg.blocks[a]|)
  }

  lemma PartOfBlock(cfg: Config, slots: map<string, Chunk>, s: Slot, rows: seq<Row>, t: real, dt: real, now: real)
    requires ValidConfig(cfg) && ValidSlots(cfg, slots) && Distinct(cfg.names) && s.arm in cfg.blocks
    requires |rows| >= 1 && dt > 0.0 && Wide(rows, |cfg.names|) && s.start + s.len <= |cfg.names|
    requires cfg.names[s.start..s.start + s.len] == cfg.blocks[s.arm]
    requires s.arm in slots && slots[s.arm] == Chunk(Columns(rows, s.start, s.len), t, dt)
    ensures ByName(cfg, rows[RowIndex(|rows|, now - t, dt)], s.arm, PartOf(cfg, slots, s.arm, now), cfg.period / dt)
  {
    BlockByName(cfg, rows[RowIndex(|rows|, now - t, dt)], s, cfg.period / dt);
  }

  lemma PartByName(cfg: Config, before: map<string, Chunk>, m: Message, t: real, now: real, a: string)
    requires ValidConfig(cfg) && ValidSlots(cfg, before) && Distinct(cfg.names) && WholeCell(cfg, m) && a in cfg.blocks
    requires ValidSlots(cfg, Filled(cfg, before, m, t))
    ensures HandedByName(cfg, m.payload.value.rows, ChunkDt(cfg, m), now - t, a, PartOf(cfg, Filled(cfg, before, m, t), a, now))
  {
    WholeCellKeys(cfg, before, m, t, a);
    if a in cfg.order {
      var i :| 0 <= i < |cfg.order| && cfg.order[i] == a;
      WholeCellFills(cfg, before, m, t, i);
      PartOfBlock(cfg, Filled(cfg, before, m, t), SplitOf(cfg)[i], m.payload.value.rows, t, ChunkDt(cfg, m), now);
    }
  }

  lemma SplitAgain(parts: seq<Row>, arms: seq<string>, widths: seq<nat>, out: map<string, Row>, i: nat)
    requires Measured(parts, widths) && |arms| == |widths| && i < |arms|
    ensures IsSplit(Joined(parts), arms, widths, out) ==> arms[i] in out && out[arms[i]] == parts[i]
  {
    PartIsSlice(parts, widths, i);
  }

  lemma PartsAreMeasured(cfg: Config, slots: map<string, Chunk>, now: real)
    requires ValidConfig(cfg) && ValidSlots(cfg, slots)
    ensures Measured(PartsOf(cfg, slots, now), WidthsOf(cfg))
  {
  }

  lemma SplitGivesPart(cfg: Config, slots: map<string, Chunk>, now: real, out: map<string, Row>, a: string)
    requires ValidConfig(cfg) && ValidSlots(cfg, slots) && a in cfg.arms
    ensures a in cfg.blocks
    ensures IsSplit(Joined(PartsOf(cfg, slots, now)), cfg.arms, WidthsOf(cfg), out) ==>
              a in out && out[a] == PartOf(cfg, slots, a, now)
  {
    PartsAreMeasured(cfg, slots, now);
    var i :| 0 <= i < |cfg.arms| && cfg.arms[i] == a;
    SplitAgain(PartsOf(cfg, slots, now), cfg.arms, WidthsOf(cfg), out, i);
  }

  /** Seconds per row: as sent, or the configured ones when none or zero are. */
  ghost function RowTime(cfg: Config, m: Message): (dt: real)
    requires ValidConfig(cfg) && WholeCell(cfg, m)
    ensures dt > 0.0
  {
    if m.chunkDt.Some? && m.chunkDt.value != 0.0 then m.chunkDt.value else cfg.defaultDt
  }

  /** What arm `a` finds in `out`, with this much of the message's time gone by. */
  ghost predicate Handed(cfg: Config, m: Message, age: real, a: string, out: map<string, Row>)
    requires ValidConfig(cfg) && WholeCell(cfg, m)
  {
    a in cfg.blocks && a in out && HandedByName(cfg, m.payload.value.rows, RowTime(cfg, m), age, a, out[a])
  }

  lemma HandedOver(cfg: Config, before: map<string, Chunk>, m: Message, t: real, now: real, out: map<string, Row>, a: string)
    requires ValidConfig(cfg) && ValidSlots(cfg, before) && Distinct(cfg.names) && WholeCell(cfg, m) && a in cfg.arms
    ensures ValidSlots(cfg, Filled(cfg, before, m, t))
    ensures IsSplit(Joined(PartsOf(cfg, Filled(cfg, before, m, t), now)), cfg.arms, WidthsOf(cfg), out) ==>
              Handed(cfg, m, now - t, a, out)
  {
    FilledIsValid(cfg, before, m, t);
    SplitGivesPart(cfg, Filled(cfg, before, m, t), now, out, a);
    PartByName(cfg, before, m, t, now, a);
  }

  lemma ComposedFromFilled(cfg: Config, pub: Publisher, st: State, m: Message, t: real, now: real)
    requires ValidConfig(cfg) && ValidSlots(cfg, st.slots) && cfg.order != []
    requires m.armInput.None? && Refusal(cfg, pub, st.watermark, m, t).None? && !st.paused
    ensures WholeCell(cfg, m) && ValidSlots(cfg, Filled(cfg, st.slots, m, t))
    ensures Latest(cfg, Deliver(cfg, pub, st, m, t), now).Some?
    ensures Latest(cfg, Deliver(cfg, pub, st, m, t), now).value.actions == Joined(PartsOf(cfg, Filled(cfg, st.slots, m, t), now))
  {
    FilledIsValid(cfg, st.slots, m, t);
    WholeCellKeys(cfg, st.slots, m, t, cfg.order[0]);
  }

  /** The round trip: after an accepted whole-cell message, in whatever order its blocks come,
      the source has an action, and however it is taken apart every driven arm is handed the
      current row's values under its own names, deltas rescaled and everything else as sent;
      an arm the policy does not drive gets nothing. */
  lemma RoundTrip(cfg: Config, pub: Publisher, st: State, m: Message, t: real, now: real)
    requires ValidConfig(cfg) && ValidSlots(cfg, st.slots) && cfg.order != [] && Distinct(cfg.names)
    requires m.armInput.None? && Refusal(cfg, pub, st.watermark, m, t).None? && !st.paused
    ensures WholeCell(cfg, m) && ValidSlots(cfg, Deliver(cfg, pub, st, m, t).slots)
    ensures var action := Latest(cfg, Deliver(cfg, pub, st, m, t), now);
            action.Some? && forall out, a :: IsSplit(action.value.actions, cfg.arms, WidthsOf(cfg), out) && a in cfg.arms ==>
              Handed(cfg, m, now - t, a, out)
  {
    ComposedFromFilled(cfg, pub, st, m, t, now);
    var vec := Latest(cfg, Deliver(cfg, pub, st, m, t), now).value.actions;
    forall out, a | IsSplit(vec, cfg.arms, WidthsOf(cfg), out) && a in cfg.arms
      ensures Handed(cfg, m, now - t, a, out)
    {
      HandedOver(cfg, st.slots, m, t, now, out, a);
    }
  }

  // -- the names of a session are distinct ----------------------------------------------------

  lemma {:induction false} ConcatIsDistinct(blocks: Blocks, order: seq<string>)
    requires WellNamed(blocks) && Distinct(order) && forall a :: a in order ==> a in blocks && Distinct(blocks[a])
    ensures Distinct(Concat(blocks, order))
  {
    if order != [] {
      var front, a := order[..|order| - 1], order[|order| - 1];
      ConcatIsDistinct(blocks, front);
      var names := Concat(blocks, front);
      forall i, j | 0 <= i < |names| && 0 <= j < |blocks[a]|
        ensures names[i] != blocks[a][j]
      {
        BlocksInConcat(blocks, front, names[i]);
      }
    }
  }

  lemma PrefixedIsDistinct(arm: string, rail: bool, space: Space)
    requires Distinct(Dims(space, rail))
    ensures Distinct(ArmActionNames(arm, rail, space))
  {
    var dims, names := Dims(space, rail), ArmActionNames(arm, rail, space);
    forall i, j | 0 <= i < j < |names|
      ensures names[i] != names[j]
    {
      assert names[i][|arm| + 1..] == dims[i] && names[j][|arm| + 1..] == dims[j];
    }
  }

  lemma DeltaEeIsDistinct(rail: bool)
    ensures Distinct(Dims(DeltaEe, rail))
  {
  }

  lemma AbsEeIsDistinct(rail: bool)
    ensures Distinct(Dims(AbsEe, rail))
  {
  }

  lemma JointIsDistinct(rail: bool)
    ensures Distinct(Dims(Joint, rail))
  {
  }

  /** No two cells of a session's announced action carry the same name. */
  lemma SessionNamesAreDistinct(meta: seq<ArmMeta>, space: Space, order: seq<string>)
    requires Distinct(order) && forall a :: a in order ==> a in ArmBlocks(meta, space)
    ensures Distinct(Concat(ArmBlocks(meta, space), order))
  {
    var blocks := ArmBlocks(meta, space);
    SessionBlocksAreWellNamed(meta, space);
    forall a | a in order
      ensures Distinct(blocks[a])
    {
      var rail :| blocks[a] == ArmActionNames(a, rail, space);
      match space {
        case DeltaEe => DeltaEeIsDistinct(rail);
        case AbsEe => AbsEeIsDistinct(rail);
        case Joint => JointIsDistinct(rail);
      }
      PrefixedIsDistinct(a, rail, space);
    }
    ConcatIsDistinct(blocks, order);
  }
}
