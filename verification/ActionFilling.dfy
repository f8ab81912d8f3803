/** What a message does to the slots of an external policy (dora_bridge/policy_source.py:632-713):
    whole-cell messages are cut into blocks, and well-formed slots stay well-formed. */
module ActionFilling {
  import opened Prelude
  import opened ActionLayout
  import opened ActionSlots

  lemma {:induction false} LayoutSlot(blocks: Blocks, order: seq<string>, i: nat)
    requires (forall a :: a in order ==> a in blocks) && i < |order|
    ensures |Layout(blocks, order)| == |order|
    ensures var s := Layout(blocks, order)[i];
            && s.arm == order[i] && s.len == |blocks[order[i]]| && s.start + s.len <= |Concat(blocks, order)|
            && Concat(blocks, order)[s.start..s.start + s.len] == blocks[order[i]]
    decreases |order|
  {
    var front := order[..|order| - 1];
    LayoutInside(blocks, front);
    if i < |front| {
      LayoutSlot(blocks, front, i);
    }
  }

  lemma {:induction false} FilledSlot(slots: map<string, Chunk>, split: seq<Slot>, rows: seq<Row>, width: nat, t: real, dt: real, i: nat)
    requires Wide(rows, width) && Inside(split, width) && i < |split|
    requires forall j, k :: 0 <= j < k < |split| ==> split[j].arm != split[k].arm
    ensures split[i].arm in FillAll(slots, split, rows, width, t, dt)
    ensures FillAll(slots, split, rows, width, t, dt)[split[i].arm] == Chunk(Columns(rows, split[i].start, split[i].len), t, dt)
    decreases |split|
  {
    if i < |split| - 1 {
      FilledSlot(slots, split[..|split| - 1], rows, width, t, dt, i);
    }
  }

  lemma {:induction false} OtherSlot(slots: map<string, Chunk>, split: seq<Slot>, rows: seq<Row>, width: nat, t: real, dt: real, a: string)
    requires Wide(rows, width) && Inside(split, width) && forall j :: 0 <= j < |split| ==> split[j].arm != a
    ensures a in FillAll(slots, split, rows, width, t, dt) <==> a in slots
    ensures a in slots ==> FillAll(slots, split, rows, width, t, dt)[a] == slots[a]
  {
    if split != [] {
      OtherSlot(slots, split[..|split| - 1], rows, width, t, dt, a);
    }
  }

  ghost predicate WholeCell(cfg: Config, m: Message) {
    m.armInput.None? && m.payload.Some? && m.payload.value.dim == |cfg.names| && ChunkDt(cfg, m) > 0.0
  }

  lemma SplitArms(cfg: Config)
    requires ValidConfig(cfg)
    ensures |SplitOf(cfg)| == |cfg.order|
    ensures forall i :: 0 <= i < |cfg.order| ==> SplitOf(cfg)[i].arm == cfg.order[i]
    ensures forall j, k :: 0 <= j < k < |cfg.order| ==> SplitOf(cfg)[j].arm != SplitOf(cfg)[k].arm
  {
    forall i: nat | i < |cfg.order|
      ensures |SplitOf(cfg)| == |cfg.order| && SplitOf(cfg)[i].arm == cfg.order[i]
    {
      LayoutSlot(cfg.blocks, cfg.order, i);
    }
    LayoutInside(cfg.blocks, cfg.order);
  }

  /** A whole-cell message gives each driven arm its own announced columns. */
  lemma WholeCellFills(cfg: Config, slots: map<string, Chunk>, m: Message, t: real, i: nat)
    requires ValidConfig(cfg) && WholeCell(cfg, m) && i < |cfg.order|
    ensures |SplitOf(cfg)| == |cfg.order|
    ensures var (s, out) := (SplitOf(cfg)[i], Filled(cfg, slots, m, t));
            && s.arm == cfg.order[i] && s.start + s.len <= |cfg.names| && cfg.names[s.start..s.start + s.len] == cfg.blocks[s.arm]
            && s.arm in out
            && out[s.arm] == Chunk(Columns(m.payload.value.rows, s.start, s.len), t, ChunkDt(cfg, m))
  {
    SplitArms(cfg);
    LayoutSlot(cfg.blocks, cfg.order, i);
    FilledSlot(slots, SplitOf(cfg), m.payload.value.rows, |cfg.names|, t, ChunkDt(cfg, m), i);
  }

  lemma WholeCellKeys(cfg: Config, slots: map<string, Chunk>, m: Message, t: real, a: string)
    requires ValidConfig(cfg) && WholeCell(cfg, m) && ValidSlots(cfg, slots)
    ensures a in Filled(cfg, slots, m, t) <==> a in cfg.order
  {
    SplitArms(cfg);
    if a in cfg.order {
      var i :| 0 <= i < |cfg.order| && cfg.order[i] == a;
      WholeCellFills(cfg, slots, m, t, i);
    } else {
      OtherSlot(slots, SplitOf(cfg), m.payload.value.rows, |cfg.names|, t, ChunkDt(cfg, m), a);
    }
  }

  lemma WholeCellSlotIsValid(cfg: Config, slots: map<string, Chunk>, m: Message, t: real, a: string)
    requires ValidConfig(cfg) && WholeCell(cfg, m) && a in cfg.order
    ensures a in Filled(cfg, slots, m, t) && ValidSlot(cfg, a, Filled(cfg, slots, m, t)[a])
  {
    var i :| 0 <= i < |cfg.order| && cfg.order[i] == a;
    WholeCellFills(cfg, slots, m, t, i);
    LayoutSlot(cfg.blocks, cfg.order, i);
  }

  /** Messages keep the slots well-formed. */
  lemma FilledIsValid(cfg: Config, slots: map<string, Chunk>, m: Message, t: real)
    requires ValidConfig(cfg) && ValidSlots(cfg, slots) && WholeCell(cfg, m)
    ensures ValidSlots(cfg, Filled(cfg, slots, m, t))
  {
    var out := Filled(cfg, slots, m, t);
    forall a | a in out
      ensures ValidSlot(cfg, a, out[a])
    {
      WholeCellKeys(cfg, slots, m, t, a);
      WholeCellSlotIsValid(cfg, slots, m, t, a);
    }
  }

  lemma FillKeepsSlots(cfg: Config, st: State, m: Message, t: real)
    requires ValidConfig(cfg) && ValidSlots(cfg, st.slots) && Fits(cfg, m)
    ensures ValidSlots(cfg, FillIn(cfg, st, m, t).slots)
  {
    if m.armInput.None? {
      FilledIsValid(cfg, st.slots, m, t);
    }
  }

  lemma FilledKeys(cfg: Config, slots: map<string, Chunk>, m: Message, t: real)
    requires ValidConfig(cfg) && WholeCell(cfg, m) && ValidSlots(cfg, slots)
    ensures Filled(cfg, slots, m, t).Keys == Members(cfg.order) && slots.Keys <= Members(cfg.order)
  {
    forall a
      ensures a in Filled(cfg, slots, m, t) <==> a in cfg.order
    {
      WholeCellKeys(cfg, slots, m, t, a);
    }
    assert forall a :: a in slots ==> ValidSlot(cfg, a, slots[a]);
  }
}
