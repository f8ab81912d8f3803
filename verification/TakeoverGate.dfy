/** Who drives an arm (dagger/gate.py:31-106): policy, a take-over in transition, or the human;
    at most one arm is taken over at a time and the event log tells the whole story. */
module TakeoverGate {
  import opened Prelude

  datatype ControlMode = Policy | Transition | Human

  datatype GateEvent = GateEvent(arm: string, mode: ControlMode, t: real, number: nat, source: string)

  const T_BLEND_MIN_S := 0.2
  const T_BLEND_MAX_S := 0.5

  /** Modes, start of each running transition, and the session's event log. */
  datatype Gate = Gate(mode: map<string, ControlMode>, since: map<string, real>, events: seq<GateEvent>)

  function Initial(arms: seq<string>): Gate {
    Gate(map a | a in arms :: Policy, map[], [])
  }

  function Emit(g: Gate, arm: string, mode: ControlMode, t: real, source: string): Gate {
    g.(mode := g.mode[arm := mode], events := g.events + [GateEvent(arm, mode, t, |g.events| + 1, source)])
  }

  /** The first arm that is not the policy's. */
  function Engaged(g: Gate, arms: seq<string>): (e: Option<string>)
    requires forall a :: a in arms ==> a in g.mode
    ensures e.None? <==> forall a :: a in arms ==> g.mode[a] == Policy
    ensures e.Some? ==> e.value in arms && g.mode[e.value] != Policy
  {
    if arms == [] then None
    else if g.mode[arms[0]] != Policy then Some(arms[0])
    else
      var rest := Engaged(g, arms[1..]);
      assert arms == [arms[0]] + arms[1..];
      rest
  }

  /** Space, or an explicit take-over or hand-back. */
  function Toggle(g: Gate, arms: seq<string>, arm: string, t: real, source: string): (r: (Gate, bool))
    requires forall a :: a in arms ==> a in g.mode
  {
    if arm !in arms then (g, false)
    else
      var engaged := Engaged(g, arms);
      if engaged.Some? && engaged.value != arm then (g, false)
      else if g.mode[arm] == Policy then (Emit(g.(since := g.since[arm := t]), arm, Transition, t, source), true)
      else (Emit(g.(since := g.since - {arm}), arm, Policy, t, source), true)
  }

  /** One arm's turn in a tick: a transition old enough becomes the human's. */
  function Advance(g: Gate, arm: string, t: real, blend: real): Gate
    requires arm in g.mode
  {
    if g.mode[arm] == Transition && arm in g.since && t - g.since[arm] >= blend then
      Emit(g.(since := g.since - {arm}), arm, Human, t, "auto_advance")
    else g
  }

  /** The first `n` arms' turns. */
  function Tick(g: Gate, arms: seq<string>, n: nat, t: real, blend: real): (r: Gate)
    requires n <= |arms| && forall a :: a in arms ==> a in g.mode
    ensures r.mode.Keys == g.mode.Keys
  {
    if n == 0 then g else Advance(Tick(g, arms, n - 1, t, blend), arms[n - 1], t, blend)
  }

  function Release(g: Gate, arm: string): Gate
    requires arm in g.mode
  {
    if g.mode[arm] == Policy then g else Emit(g, arm, Policy, 0.0, "episode_reset")
  }

  function ReleaseAll(g: Gate, arms: seq<string>, n: nat): (r: Gate)
    requires n <= |arms| && forall a :: a in arms ==> a in g.mode
    ensures r.mode.Keys == g.mode.Keys && r.since == g.since
  {
    if n == 0 then g else Release(ReleaseAll(g, arms, n - 1), arms[n - 1])
  }

  /** Episode boundary: every arm back to the policy, stamped with time zero. */
  function Reset(g: Gate, arms: seq<string>): (r: Gate)
    requires forall a :: a in arms ==> a in g.mode
    ensures r.mode.Keys == g.mode.Keys
  {
    ReleaseAll(g, arms, |arms|).(since := map[])
  }

  // -- what holds of every run ----------------------------------------------------------------

  /** The newest of the first `n` events about `arm`. */
  ghost function Newest(events: seq<GateEvent>, n: nat, arm: string): (i: Option<nat>)
    requires n <= |events|
    ensures i.Some? ==> i.value < n && events[i.value].arm == arm
  {
    if n == 0 then None else if events[n - 1].arm == arm then Some(n - 1) else Newest(events, n - 1, arm)
  }

  /** The mode the log leaves an arm in. */
  ghost function Replayed(events: seq<GateEvent>, n: nat, arm: string): ControlMode
    requires n <= |events|
  {
    var i := Newest(events, n, arm);
    if i.None? then Policy else events[i.value].mode
  }

  /** Event `i` follows the arm's log: a take-over starts from the policy, the human from a
      transition of that arm at least `blend` old, the policy from the other two. */
  ghost predicate Lawful(events: seq<GateEvent>, i: nat, blend: real)
    requires i < |events|
  {
    var e := events[i];
    var was := Newest(events, i, e.arm);
    && e.number == i + 1
    && match e.mode
       case Transition => Replayed(events, i, e.arm) == Policy
       case Human => was.Some? && events[was.value].mode == Transition && e.t - events[was.value].t >= blend
       case Policy => Replayed(events, i, e.arm) != Policy
  }

  ghost predicate LogIsLawful(events: seq<GateEvent>, blend: real) {
    forall i :: 0 <= i < |events| ==> Lawful(events, i, blend)
  }

  ghost predicate OneEngaged(g: Gate) {
    forall a, b :: a in g.mode && b in g.mode && g.mode[a] != Policy && g.mode[b] != Policy ==> a == b
  }

  ghost predicate ModeIsReplayed(g: Gate, a: string)
    requires a in g.mode
  {
    g.mode[a] == Replayed(g.events, |g.events|, a)
  }

  ghost predicate TransitionIsTimed(g: Gate, a: string)
    requires a in g.mode
  {
    g.mode[a] == Transition ==>
      var i := Newest(g.events, |g.events|, a);
      i.Some? && a in g.since && g.events[i.value].mode == Transition && g.events[i.value].t == g.since[a]
  }

  ghost predicate Sound(g: Gate, blend: real) {
    && OneEngaged(g) && LogIsLawful(g.events, blend)
    && forall a :: a in g.mode ==> ModeIsReplayed(g, a) && TransitionIsTimed(g, a)
  }

  lemma {:induction false} NewestOfFront(events: seq<GateEvent>, e: GateEvent, n: nat, arm: string)
    requires n <= |events|
    ensures Newest(events + [e], n, arm) == Newest(events, n, arm)
  {
    if n > 0 {
      NewestOfFront(events, e, n - 1, arm);
    }
  }

  lemma LogGrows(events: seq<GateEvent>, e: GateEvent, blend: real)
    requires LogIsLawful(events, blend) && Lawful(events + [e], |events|, blend)
    ensures LogIsLawful(events + [e], blend)
  {
    forall i | 0 <= i < |events| + 1
      ensures Lawful(events + [e], i, blend)
    {
      if i < |events| {
        assert Lawful(events, i, blend);
        NewestOfFront(events, e, i, events[i].arm);
      }
    }
  }

  /** A lawful event, for an arm no other arm stands in the way of, keeps everything. */
  lemma EmitIsSound(g: Gate, since: map<string, real>, arm: string, mode: ControlMode, t: real, source: string, blend: real)
    requires Sound(g, blend) && arm in g.mode
    requires forall a :: a in g.mode && a != arm ==> (g.mode[a] == Policy || mode == Policy)
    requires forall a :: a in g.mode && a != arm && g.mode[a] == Transition ==> a in g.since && a in since && since[a] == g.since[a]
    requires mode == Transition ==> g.mode[arm] == Policy && arm in since && since[arm] == t
    requires mode == Human ==> g.mode[arm] == Transition && t - g.since[arm] >= blend
    requires mode == Policy ==> g.mode[arm] != Policy
    ensures Sound(Emit(g.(since := since), arm, mode, t, source), blend)
  {
    var next := Emit(g.(since := since), arm, mode, t, source);
    var e := next.events[|g.events|];
    assert ModeIsReplayed(g, arm) && TransitionIsTimed(g, arm);
    NewestOfFront(g.events, e, |g.events|, arm);
    assert Lawful(next.events, |g.events|, blend);
    LogGrows(g.events, e, blend);
    forall a | a in next.mode
      ensures ModeIsReplayed(next, a) && TransitionIsTimed(next, a)
    {
      if a != arm {
        assert ModeIsReplayed(g, a) && TransitionIsTimed(g, a);
        NewestOfFront(g.events, e, |g.events|, a);
        assert Newest(next.events, |next.events|, a) == Newest(next.events, |g.events|, a);
      }
    }
  }

  lemma ToggleIsSound(g: Gate, arms: seq<string>, arm: string, t: real, source: string, blend: real)
    requires Sound(g, blend) && g.mode.Keys == Members(arms)
    ensures Sound(Toggle(g, arms, arm, t, source).0, blend)
    ensures Toggle(g, arms, arm, t, source).0.mode.Keys == g.mode.Keys
  {
    var engaged := Engaged(g, arms);
    if arm in arms && (engaged.None? || engaged.value == arm) {
      if g.mode[arm] == Policy {
        EmitIsSound(g, g.since[arm := t], arm, Transition, t, source, blend);
      } else {
        EmitIsSound(g, g.since - {arm}, arm, Policy, t, source, blend);
      }
    }
  }

  lemma AdvanceIsSound(g: Gate, arm: string, t: real, blend: real)
    requires Sound(g, blend) && arm in g.mode
    ensures Sound(Advance(g, arm, t, blend), blend)
  {
    if g.mode[arm] == Transition && arm in g.since && t - g.since[arm] >= blend {
      EmitIsSound(g, g.since - {arm}, arm, Human, t, "auto_advance", blend);
    }
  }

  lemma {:induction false} TickIsSound(g: Gate, arms: seq<string>, n: nat, t: real, blend: real)
    requires Sound(g, blend) && g.mode.Keys == Members(arms) && n <= |arms|
    ensures Sound(Tick(g, arms, n, t, blend), blend)
  {
    if n > 0 {
      TickIsSound(g, arms, n - 1, t, blend);
      AdvanceIsSound(Tick(g, arms, n - 1, t, blend), arms[n - 1], t, blend);
    }
  }

  /** Whoever is in transition long enough when a tick begins is the human's after it, and
      nobody else changes. */
  lemma {:induction false} TickAdvances(g: Gate, arms: seq<string>, n: nat, t: real, blend: real, a: string)
    requires Distinct(arms) && g.mode.Keys == Members(arms) && n <= |arms| && a in arms
    ensures var due := a in arms[..n] && g.mode[a] == Transition && a in g.since && t - g.since[a] >= blend;
            && Tick(g, arms, n, t, blend).mode[a] == (if due then Human else g.mode[a])
            && (!due ==> (a in Tick(g, arms, n, t, blend).since <==> a in g.since)
                         && (a in g.since ==> Tick(g, arms, n, t, blend).since[a] == g.since[a]))
  {
    if n > 0 {
      TickAdvances(g, arms, n - 1, t, blend, a);
      assert arms[..n] == arms[..n - 1] + [arms[n - 1]];
    }
  }

  lemma ReleaseIsSound(g: Gate, arm: string, blend: real)
    requires Sound(g, blend) && arm in g.mode
    ensures Sound(Release(g, arm), blend)
  {
    if g.mode[arm] != Policy {
      EmitIsSound(g, g.since, arm, Policy, 0.0, "episode_reset", blend);
    }
  }

  lemma {:induction false} ReleaseAllIsSound(g: Gate, arms: seq<string>, n: nat, blend: real)
    requires Sound(g, blend) && g.mode.Keys == Members(arms) && n <= |arms|
    ensures Sound(ReleaseAll(g, arms, n), blend)
  {
    if n > 0 {
      ReleaseAllIsSound(g, arms, n - 1, blend);
      ReleaseIsSound(ReleaseAll(g, arms, n - 1), arms[n - 1], blend);
    }
  }

  lemma {:induction false} ReleaseAllFrees(g: Gate, arms: seq<string>, n: nat, i: nat)
    requires i < n <= |arms| && forall a :: a in arms ==> a in g.mode
    ensures ReleaseAll(g, arms, n).mode[arms[i]] == Policy
  {
    if i < n - 1 {
      ReleaseAllFrees(g, arms, n - 1, i);
    }
  }

  /** After an episode boundary no arm is taken over. */
  lemma ResetFrees(g: Gate, arms: seq<string>, blend: real)
    requires Sound(g, blend) && g.mode.Keys == Members(arms)
    ensures Sound(Reset(g, arms), blend)
    ensures Engaged(Reset(g, arms), arms).None? && Reset(g, arms).since == map[]
  {
    ReleaseAllIsSound(g, arms, |arms|, blend);
    var all := ReleaseAll(g, arms, |arms|);
    forall a | a in all.mode
      ensures all.mode[a] == Policy
    {
      var i :| 0 <= i < |arms| && arms[i] == a;
      ReleaseAllFrees(g, arms, |arms|, i);
    }
    var next := Reset(g, arms);
    forall a | a in next.mode
      ensures ModeIsReplayed(next, a) && TransitionIsTimed(next, a)
    {
      assert ModeIsReplayed(all, a);
    }
  }

  datatype Op = DoToggle(arm: string, t: real, source: string) | DoTick(t: real) | DoReset

  function Step(g: Gate, arms: seq<string>, op: Op, blend: real): Gate
    requires forall a :: a in arms ==> a in g.mode
  {
    match op
    case DoToggle(arm, t, source) => Toggle(g, arms, arm, t, source).0
    case DoTick(t) => Tick(g, arms, |arms|, t, blend)
    case DoReset => Reset(g, arms)
  }

  function Run(arms: seq<string>, ops: seq<Op>, blend: real): (g: Gate)
    ensures forall a :: a in arms ==> a in g.mode
  {
    if ops == [] then Initial(arms) else Step(Run(arms, ops[..|ops| - 1], blend), arms, ops[|ops| - 1], blend)
  }

  /** Over every run: one arm taken over at most, the log replays to the modes, its events are
      numbered one by one, and the human only follows a transition of that arm at least `blend`
      old. */
  lemma {:induction false} RunIsSound(arms: seq<string>, ops: seq<Op>, blend: real)
    ensures Sound(Run(arms, ops, blend), blend) && Run(arms, ops, blend).mode.Keys == Members(arms)
  {
    if ops != [] {
      var g, op := Run(arms, ops[..|ops| - 1], blend), ops[|ops| - 1];
      RunIsSound(arms, ops[..|ops| - 1], blend);
      match op
      case DoToggle(arm, t, source) => ToggleIsSound(g, arms, arm, t, source, blend);
      case DoTick(t) => TickIsSound(g, arms, |arms|, t, blend);
      case DoReset => ResetFrees(g, arms, blend);
    }
  }

  /** A boundary is stamped with time zero, so the log is not ordered by time. */
  lemma LogIsNotOrderedByTime()
    ensures var events := Run(["a"], [DoToggle("a", 5.0, "keyboard"), DoReset], 0.3).events;
            |events| == 2 && events[1].t < events[0].t
  {
    var ops := [DoToggle("a", 5.0, "keyboard"), DoReset];
    var g0 := Run(["a"], [], 0.3);
    assert ops[..1][..0] == [] && ops[..1] == [ops[0]];
    var g1 := Run(["a"], ops[..1], 0.3);
    assert g1 == Toggle(g0, ["a"], "a", 5.0, "keyboard").0;
    var g2 := Run(["a"], ops, 0.3);
    assert g2 == Reset(g1, ["a"]);
    assert ReleaseAll(g1, ["a"], 1) == Release(ReleaseAll(g1, ["a"], 0), "a");
  }

  // -- the object -------------------------------------------------------------------------------

  class TakeoverGateImpl {
    const armIds: seq<string>
    const tBlend: real
    var mode: map<string, ControlMode>
    var transitionT0: map<string, real>
    var seqNo: nat
    var events: seq<GateEvent>

    ghost predicate Valid()
      reads this
    {
      Distinct(armIds) && mode.Keys == Members(armIds) && seqNo == |events| && Sound(Value(), tBlend)
    }

    ghost function Value(): Gate
      reads this
    {
      Gate(mode, transitionT0, events)
    }

    constructor (arms: seq<string>, blend: real)
      requires Distinct(arms) && T_BLEND_MIN_S <= blend <= T_BLEND_MAX_S
      ensures Valid() && armIds == arms && tBlend == blend && Value() == Initial(arms)
    {
      armIds, tBlend := arms, blend;
      mode := map a | a in arms :: Policy;
      transitionT0, seqNo, events := map[], 0, [];
    }

    method EngagedArm() returns (e: Option<string>)
      requires Valid()
      ensures e == Engaged(Value(), armIds)
    {
      for i := 0 to |armIds|
        invariant Engaged(Value(), armIds) == Engaged(Value(), armIds[i..])
      {
        if mode[armIds[i]] != Policy {
          return Some(armIds[i]);
        }
      }
      e := None;
    }

    /** The arms held while another one is taken over. */
    method FrozenArms() returns (arms: seq<string>)
      requires Valid()
      ensures forall a :: a in arms <==> a in armIds && Engaged(Value(), armIds).Some? && mode[a] == Policy
    {
      var engaged := EngagedArm();
      arms := [];
      if engaged.None? {
        return;
      }
      for i := 0 to |armIds|
        invariant forall a :: a in arms <==> a in armIds[..i] && a != engaged.value
      {
        if armIds[i] != engaged.value {
          arms := arms + [armIds[i]];
        }
      }
      assert armIds[..|armIds|] == armIds;
    }

    method Announce(arm: string, m: ControlMode, t: real, source: string)
      modifies this`mode, this`seqNo, this`events
      requires seqNo == |events|
      ensures seqNo == |events| && Value() == Emit(old(Value()), arm, m, t, source)
    {
      mode := mode[arm := m];
      seqNo := seqNo + 1;
      events := events + [GateEvent(arm, m, t, seqNo, source)];
    }

    method OnToggle(arm: string, t: real, source: string) returns (accepted: bool)
      requires Valid()
      modifies this
      ensures Valid() && (Value(), accepted) == Toggle(old(Value()), armIds, arm, t, source)
    {
      ToggleIsSound(Value(), armIds, arm, t, source, tBlend);
      if arm !in mode {
        return false;
      }
      var engaged := EngagedArm();
      if engaged.Some? && engaged.value != arm {
        return false;
      }
      if mode[arm] == Policy {
        transitionT0 := transitionT0[arm := t];
        Announce(arm, Transition, t, source);
      } else {
        transitionT0 := transitionT0 - {arm};
        Announce(arm, Policy, t, source);
      }
      accepted := true;
    }

    method OnTick(t: real)
      requires Valid()
      modifies this
      ensures Valid() && Value() == Tick(old(Value()), armIds, |armIds|, t, tBlend)
    {
      TickIsSound(Value(), armIds, |armIds|, t, tBlend);
      AdvanceAll(t);
    }

    method AdvanceAll(t: real)
      requires mode.Keys == Members(armIds) && seqNo == |events|
      modifies this
      ensures mode.Keys == Members(armIds) && seqNo == |events| && Value() == Tick(old(Value()), armIds, |armIds|, t, tBlend)
    {
      for i := 0 to |armIds|
        invariant mode.Keys == Members(armIds) && seqNo == |events|
        invariant Value() == Tick(old(Value()), armIds, i, t, tBlend)
      {
        AdvanceArm(armIds[i], t);
      }
    }

    method AdvanceArm(arm: string, t: real)
      requires arm in mode && seqNo == |events|
      modifies this
      ensures seqNo == |events| && Value() == Advance(old(Value()), arm, t, tBlend)
    {
      if mode[arm] == Transition && arm in transitionT0 && t - transitionT0[arm] >= tBlend {
        transitionT0 := transitionT0 - {arm};
        Announce(arm, Human, t, "auto_advance");
      }
    }

    method OnReset()
      requires Valid()
      modifies this
      ensures Valid() && Value() == Reset(old(Value()), armIds)
      ensures Engaged(Value(), armIds).None?
    {
      ResetFrees(Value(), armIds, tBlend);
      ReleaseEvery();
      transitionT0 := map[];
    }

    method ReleaseEvery()
      requires mode.Keys == Members(armIds) && seqNo == |events|
      modifies this`mode, this`seqNo, this`events
      ensures mode.Keys == Members(armIds) && seqNo == |events| && Value() == ReleaseAll(old(Value()), armIds, |armIds|)
    {
      for i := 0 to |armIds|
        invariant mode.Keys == Members(armIds) && seqNo == |events|
        invariant Value() == ReleaseAll(old(Value()), armIds, i)
      {
        if mode[armIds[i]] != Policy {
          Announce(armIds[i], Policy, 0.0, "episode_reset");
        }
      }
    }
  }
}
