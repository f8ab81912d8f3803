/** The clutch anchors of tracker teleoperation (control/tracker_teleop.py:134-271): a hand held
    still asks for the pose the arm was last given, whatever slipped or slid in between. */
module TrackerAnchor {
  import opened Prelude

  datatype V3 = V3(x: real, y: real, z: real)

  datatype Quat = Quat(w: real, x: real, y: real, z: real)

  datatype Pose = Pose(p: V3, q: Quat)

  const IDENTITY := Quat(1.0, 0.0, 0.0, 0.0)
  const ORIGIN := V3(0.0, 0.0, 0.0)

  function Add(a: V3, b: V3): V3 {
    V3(a.x + b.x, a.y + b.y, a.z + b.z)
  }

  function Sub(a: V3, b: V3): V3 {
    V3(a.x - b.x, a.y - b.y, a.z - b.z)
  }

  function Scale(f: real, a: V3): V3 {
    V3(f * a.x, f * a.y, f * a.z)
  }

  function MulW(a: Quat, b: Quat): real {
    a.w * b.w - a.x * b.x - a.y * b.y - a.z * b.z
  }

  function MulX(a: Quat, b: Quat): real {
    a.w * b.x + a.x * b.w + a.y * b.z - a.z * b.y
  }

  function MulY(a: Quat, b: Quat): real {
    a.w * b.y - a.x * b.z + a.y * b.w + a.z * b.x
  }

  function MulZ(a: Quat, b: Quat): real {
    a.w * b.z + a.x * b.y - a.y * b.x + a.z * b.w
  }

  /** Hamilton product. */
  function Mul(a: Quat, b: Quat): Quat {
    Quat(MulW(a, b), MulX(a, b), MulY(a, b), MulZ(a, b))
  }

  function Conj(a: Quat): Quat {
    Quat(a.w, -a.x, -a.y, -a.z)
  }

  function Neg(a: Quat): Quat {
    Quat(-a.w, -a.x, -a.y, -a.z)
  }

  function Norm2(a: Quat): real {
    a.w * a.w + a.x * a.x + a.y * a.y + a.z * a.z
  }

  ghost predicate Unit(a: Quat) {
    Norm2(a) == 1.0
  }

  /** Two unit quaternions turn alike when they are equal or opposite. */
  ghost predicate SameRotation(a: Quat, b: Quat) {
    a == b || a == Neg(b)
  }

  // -- quaternion laws ----------------------------------------------------------------------

  lemma RegroupW(
        a0: real, a1: real, a2: real, a3: real,
        b0: real, b1: real, b2: real, b3: real,
        c0: real, c1: real, c2: real, c3: real,
        p0: real, p1: real, p2: real, p3: real,
        q0: real, q1: real, q2: real, q3: real)
    requires p0 == a0 * b0 - a1 * b1 - a2 * b2 - a3 * b3 && q0 == b0 * c0 - b1 * c1 - b2 * c2 - b3 * c3
    requires p1 == a0 * b1 + a1 * b0 + a2 * b3 - a3 * b2 && q1 == b0 * c1 + b1 * c0 + b2 * c3 - b3 * c2
    requires p2 == a0 * b2 - a1 * b3 + a2 * b0 + a3 * b1 && q2 == b0 * c2 - b1 * c3 + b2 * c0 + b3 * c1
    requires p3 == a0 * b3 + a1 * b2 - a2 * b1 + a3 * b0 && q3 == b0 * c3 + b1 * c2 - b2 * c1 + b3 * c0
    ensures p0 * c0 - p1 * c1 - p2 * c2 - p3 * c3 == a0 * q0 - a1 * q1 - a2 * q2 - a3 * q3
  {
  }

  lemma AssocW(a: Quat, b: Quat, c: Quat)
    ensures MulW(Mul(a, b), c) == MulW(a, Mul(b, c))
  {
    var p, q := Mul(a, b), Mul(b, c);
    RegroupW(a.w, a.x, a.y, a.z, b.w, b.x, b.y, b.z, c.w, c.x, c.y, c.z,
             p.w, p.x, p.y, p.z, q.w, q.x, q.y, q.z);
  }

  lemma RegroupX(
        a0: real, a1: real, a2: real, a3: real,
        b0: real, b1: real, b2: real, b3: real,
        c0: real, c1: real, c2: real, c3: real,
        p0: real, p1: real, p2: real, p3: real,
        q0: real, q1: real, q2: real, q3: real)
    requires p0 == a0 * b0 - a1 * b1 - a2 * b2 - a3 * b3 && q0 == b0 * c0 - b1 * c1 - b2 * c2 - b3 * c3
    requires p1 == a0 * b1 + a1 * b0 + a2 * b3 - a3 * b2 && q1 == b0 * c1 + b1 * c0 + b2 * c3 - b3 * c2
    requires p2 == a0 * b2 - a1 * b3 + a2 * b0 + a3 * b1 && q2 == b0 * c2 - b1 * c3 + b2 * c0 + b3 * c1
    requires p3 == a0 * b3 + a1 * b2 - a2 * b1 + a3 * b0 && q3 == b0 * c3 + b1 * c2 - b2 * c1 + b3 * c0
    ensures p0 * c1 + p1 * c0 + p2 * c3 - p3 * c2 == a0 * q1 + a1 * q0 + a2 * q3 - a3 * q2
  {
  }

  lemma AssocX(a: Quat, b: Quat, c: Quat)
    ensures MulX(Mul(a, b), c) == MulX(a, Mul(b, c))
  {
    var p, q := Mul(a, b), Mul(b, c);
    RegroupX(a.w, a.x, a.y, a.z, b.w, b.x, b.y, b.z, c.w, c.x, c.y, c.z,
             p.w, p.x, p.y, p.z, q.w, q.x, q.y, q.z);
  }

  lemma RegroupY(
        a0: real, a1: real, a2: real, a3: real,
        b0: real, b1: real, b2: real, b3: real,
        c0: real, c1: real, c2: real, c3: real,
        p0: real, p1: real, p2: real, p3: real,
        q0: real, q1: real, q2: real, q3: real)
    requires p0 == a0 * b0 - a1 * b1 - a2 * b2 - a3 * b3 && q0 == b0 * c0 - b1 * c1 - b2 * c2 - b3 * c3
    requires p1 == a0 * b1 + a1 * b0 + a2 * b3 - a3 * b2 && q1 == b0 * c1 + b1 * c0 + b2 * c3 - b3 * c2
    requires p2 == a0 * b2 - a1 * b3 + a2 * b0 + a3 * b1 && q2 == b0 * c2 - b1 * c3 + b2 * c0 + b3 * c1
    requires p3 == a0 * b3 + a1 * b2 - a2 * b1 + a3 * b0 && q3 == b0 * c3 + b1 * c2 - b2 * c1 + b3 * c0
    ensures p0 * c2 - p1 * c3 + p2 * c0 + p3 * c1 == a0 * q2 - a1 * q3 + a2 * q0 + a3 * q1
  {
  }

  lemma AssocY(a: Quat, b: Quat, c: Quat)
    ensures MulY(Mul(a, b), c) == MulY(a, Mul(b, c))
  {
    var p, q := Mul(a, b), Mul(b, c);
    RegroupY(a.w, a.x, a.y, a.z, b.w, b.x, b.y, b.z, c.w, c.x, c.y, c.z,
             p.w, p.x, p.y, p.z, q.w, q.x, q.y, q.z);
  }

  lemma RegroupZ(
        a0: real, a1: real, a2: real, a3: real,
        b0: real, b1: real, b2: real, b3: real,
        c0: real, c1: real, c2: real, c3: real,
        p0: real, p1: real, p2: real, p3: real,
        q0: real, q1: real, q2: real, q3: real)
    requires p0 == a0 * b0 - a1 * b1 - a2 * b2 - a3 * b3 && q0 == b0 * c0 - b1 * c1 - b2 * c2 - b3 * c3
    requires p1 == a0 * b1 + a1 * b0 + a2 * b3 - a3 * b2 && q1 == b0 * c1 + b1 * c0 + b2 * c3 - b3 * c2
    requires p2 == a0 * b2 - a1 * b3 + a2 * b0 + a3 * b1 && q2 == b0 * c2 - b1 * c3 + b2 * c0 + b3 * c1
    requires p3 == a0 * b3 + a1 * b2 - a2 * b1 + a3 * b0 && q3 == b0 * c3 + b1 * c2 - b2 * c1 + b3 * c0
    ensures p0 * c3 + p1 * c2 - p2 * c1 + p3 * c0 == a0 * q3 + a1 * q2 - a2 * q1 + a3 * q0
  {
  }

  lemma AssocZ(a: Quat, b: Quat, c: Quat)
    ensures MulZ(Mul(a, b), c) == MulZ(a, Mul(b, c))
  {
    var p, q := Mul(a, b), Mul(b, c);
    RegroupZ(a.w, a.x, a.y, a.z, b.w, b.x, b.y, b.z, c.w, c.x, c.y, c.z,
             p.w, p.x, p.y, p.z, q.w, q.x, q.y, q.z);
  }

  lemma MulAssoc(a: Quat, b: Quat, c: Quat)
    ensures Mul(Mul(a, b), c) == Mul(a, Mul(b, c))
  {
    AssocW(a, b, c);
    AssocX(a, b, c);
    AssocY(a, b, c);
    AssocZ(a, b, c);
  }

  lemma MulIdentity(a: Quat)
    ensures Mul(a, IDENTITY) == a && Mul(IDENTITY, a) == a
  {
  }

  lemma ConjInverts(a: Quat)
    requires Unit(a)
    ensures Mul(a, Conj(a)) == IDENTITY && Mul(Conj(a), a) == IDENTITY
  {
  }

  lemma NegLeft(a: Quat, b: Quat)
    ensures Mul(Neg(a), b) == Neg(Mul(a, b))
  {
  }

  lemma NegNeg(a: Quat)
    ensures Neg(Neg(a)) == a
  {
  }

  lemma NormExpands(
        a0: real, a1: real, a2: real, a3: real,
        b0: real, b1: real, b2: real, b3: real,
        p0: real, p1: real, p2: real, p3: real)
    requires p0 == a0 * b0 - a1 * b1 - a2 * b2 - a3 * b3
    requires p1 == a0 * b1 + a1 * b0 + a2 * b3 - a3 * b2
    requires p2 == a0 * b2 - a1 * b3 + a2 * b0 + a3 * b1
    requires p3 == a0 * b3 + a1 * b2 - a2 * b1 + a3 * b0
    ensures p0 * p0 + p1 * p1 + p2 * p2 + p3 * p3
         == (a0 * a0 + a1 * a1 + a2 * a2 + a3 * a3) * (b0 * b0 + b1 * b1 + b2 * b2 + b3 * b3)
  {
  }

  lemma NormOfProduct(a: Quat, b: Quat)
    ensures Norm2(Mul(a, b)) == Norm2(a) * Norm2(b)
  {
    var p := Mul(a, b);
    NormExpands(a.w, a.x, a.y, a.z, b.w, b.x, b.y, b.z, p.w, p.x, p.y, p.z);
  }

  lemma UnitProduct(a: Quat, b: Quat)
    requires Unit(a) && Unit(b)
    ensures Unit(Mul(a, b))
  {
    NormOfProduct(a, b);
  }

  // -- the anchors --------------------------------------------------------------------------

  datatype Settings = Settings(yaw: real, posScale: real, followRotation: bool, filter: int)

  /** The engaged arm, hand and arm anchors, the last target, and the pose a still hand asks
      for. */
  datatype Anchors = Anchors(
    arm: Option<string>,
    trk: Option<Pose>,
    ee: Option<Pose>,
    target: Option<Pose>,
    intent: Option<Pose>,
    consulted: bool,
    applied: Settings,
    slips: nat)

  function Released(st: Anchors): Anchors {
    st.(arm := None, trk := None, ee := None, target := None, intent := None)
  }

  /** How far the hand has turned since it was anchored. */
  function Turn(s: Settings, hand: Pose, trk: Pose): Quat {
    if s.followRotation then Mul(hand.q, Conj(trk.q)) else IDENTITY
  }

  /** The pose the anchors ask for, before the leash. */
  function RawTarget(s: Settings, hand: Pose, trk: Pose, ee: Pose): Pose {
    Pose(Add(ee.p, Scale(s.posScale, Sub(hand.p, trk.p))), Mul(Turn(s, hand, trk), ee.q))
  }

  /** What a truncation shifts the anchor by; nothing when the poses agree. */
  function SlipTurn(intended: Pose, achieved: Pose): Quat {
    Mul(Conj(intended.q), achieved.q)
  }

  predicate NoSlip(intended: Pose, achieved: Pose) {
    Sub(achieved.p, intended.p) == ORIGIN && (SlipTurn(intended, achieved) == IDENTITY || SlipTurn(intended, achieved) == Neg(IDENTITY))
  }

  function Shifted(pose: Pose, dp: V3, dq: Quat): Pose {
    Pose(Add(pose.p, dp), Mul(pose.q, dq))
  }

  function ShiftedIf(pose: Option<Pose>, dp: V3, dq: Quat): Option<Pose> {
    if pose.None? then None else Some(Shifted(pose.value, dp, dq))
  }

  function Slip(st: Anchors, intended: Pose, achieved: Pose): Anchors {
    if st.ee.None? || NoSlip(intended, achieved) then st
    else
      var dp, dq := Sub(achieved.p, intended.p), SlipTurn(intended, achieved);
      st.(ee := ShiftedIf(st.ee, dp, dq),
          intent := ShiftedIf(st.intent, dp, dq),
          target := if st.target.Some? then Some(achieved) else None,
          slips := st.slips + 1)
  }

  function Slid(pose: Option<Pose>, d: V3): Option<Pose> {
    if pose.None? then None else Some(Pose(Add(pose.value.p, d), pose.value.q))
  }

  function Slide(st: Anchors, d: V3): Anchors {
    if st.ee.None? || d == ORIGIN then st
    else st.(ee := Slid(st.ee, d), intent := Slid(st.intent, d), target := Slid(st.target, d))
  }

  predicate Engaging(st: Anchors, arm: string) {
    st.arm != Some(arm) || st.trk.None? || st.ee.None?
  }

  /** Hand and arm anchor for this tick: fresh on engagement; on a settings change at the
      current hand and the pose a still hand asked for; otherwise as they were. */
  function AnchorsFor(st: Anchors, arm: string, hand: Pose, live: Settings, anchorEe: Pose): (Pose, Pose) {
    if Engaging(st, arm) then (hand, anchorEe)
    else if live != st.applied then (hand, if st.intent.Some? then st.intent.value else anchorEe)
    else (st.trk.value, st.ee.value)
  }

  function RawFor(st: Anchors, arm: string, hand: Pose, live: Settings, anchorEe: Pose): Pose {
    var (trk, ee) := AnchorsFor(st, arm, hand, live, anchorEe);
    RawTarget(live, hand, trk, ee)
  }

  /** A tick that consults the provider: `hand` is the filtered aligned pose of a fresh sample,
      `clamped` what the leash leaves of the raw target. */
  function Aim(st: Anchors, arm: string, hand: Option<Pose>, live: Settings, anchorEe: Pose, clamped: Pose): Anchors {
    if hand.None? then Released(st.(consulted := true))
    else
      var (trk, ee) := AnchorsFor(st, arm, hand.value, live, anchorEe);
      var anchored := st.(consulted := true, arm := Some(arm), trk := Some(trk), ee := Some(ee), applied := live);
      Slip(anchored, RawTarget(live, hand.value, trk, ee), clamped).(target := Some(clamped), intent := Some(clamped))
  }

  function EndTick(st: Anchors, live: Settings): Anchors {
    (if st.consulted then st else Released(st).(applied := live)).(consulted := false)
  }

  // -- what a still hand asks for -----------------------------------------------------------

  ghost predicate UnitPose(p: Pose) {
    Unit(p.q)
  }

  ghost predicate UnitIf(p: Option<Pose>) {
    p.Some? ==> UnitPose(p.value)
  }

  ghost predicate WellFormed(st: Anchors) {
    && UnitIf(st.trk) && UnitIf(st.ee) && UnitIf(st.intent)
    && (st.ee.Some? <==> st.trk.Some?) && (st.intent.Some? <==> st.ee.Some?)
  }

  ghost predicate SamePose(a: Pose, b: Pose) {
    a.p == b.p && SameRotation(a.q, b.q)
  }

  /** While engaged, the raw target of a hand at `hand` is the intended pose: same position,
      same rotation. */
  ghost predicate StillHand(st: Anchors, hand: Pose) {
    st.ee.Some? && st.trk.Some? && st.intent.Some? ==>
      SamePose(RawTarget(st.applied, hand, st.trk.value, st.ee.value), st.intent.value)
  }

  lemma TurnBack(d: Quat, e: Quat, c: Quat)
    requires Unit(d) && Unit(e)
    ensures Mul(d, Mul(e, Mul(Conj(Mul(d, e)), c))) == c
  {
    var r := Mul(d, e);
    UnitProduct(d, e);
    MulAssoc(d, e, Mul(Conj(r), c));
    MulAssoc(r, Conj(r), c);
    ConjInverts(r);
    MulIdentity(c);
  }

  lemma NoTurn(r: Quat, c: Quat)
    requires Unit(r) && (Mul(Conj(r), c) == IDENTITY || Mul(Conj(r), c) == Neg(IDENTITY))
    ensures SameRotation(r, c)
  {
    var t := Mul(Conj(r), c);
    MulAssoc(r, Conj(r), c);
    ConjInverts(r);
    MulIdentity(c);
    MulIdentity(r);
    NegRight(r, IDENTITY);
    NegNeg(c);
  }

  lemma NegRight(a: Quat, b: Quat)
    ensures Mul(a, Neg(b)) == Neg(Mul(a, b))
  {
  }

  lemma TurnAlong(d: Quat, e: Quat, t: Quat, i: Quat)
    requires SameRotation(Mul(d, e), i)
    ensures SameRotation(Mul(d, Mul(e, t)), Mul(i, t))
  {
    MulAssoc(d, e, t);
    NegLeft(i, t);
  }

  lemma UnitConj(a: Quat)
    requires Unit(a)
    ensures Unit(Conj(a))
  {
  }

  lemma TurnIsUnit(s: Settings, hand: Pose, trk: Pose)
    requires UnitPose(hand) && UnitPose(trk)
    ensures Unit(Turn(s, hand, trk))
  {
    UnitConj(trk.q);
    UnitProduct(hand.q, Conj(trk.q));
  }

  lemma RawIsUnit(s: Settings, hand: Pose, trk: Pose, ee: Pose)
    requires UnitPose(hand) && UnitPose(trk) && UnitPose(ee)
    ensures UnitPose(RawTarget(s, hand, trk, ee))
  {
    TurnIsUnit(s, hand, trk);
    UnitProduct(Turn(s, hand, trk), ee.q);
  }

  lemma SlipTurnIsUnit(intended: Pose, achieved: Pose)
    requires UnitPose(intended) && UnitPose(achieved)
    ensures Unit(SlipTurn(intended, achieved))
  {
    UnitConj(intended.q);
    UnitProduct(Conj(intended.q), achieved.q);
  }

  lemma AddShift(e: V3, x: V3, d: V3)
    ensures Add(Add(e, d), x) == Add(Add(e, x), d)
  {
  }

  lemma AddBack(r: V3, c: V3)
    ensures Add(r, Sub(c, r)) == c && (Sub(c, r) == ORIGIN ==> c == r)
  {
  }

  /** The anchors a fresh target leaves: a hand that stays where it is asks for that target. */
  lemma FreshTargetIsStill(s: Settings, hand: Pose, trk: Pose, ee: Pose, clamped: Pose)
    requires UnitPose(hand) && UnitPose(trk) && UnitPose(ee) && UnitPose(clamped)
    ensures var raw := RawTarget(s, hand, trk, ee);
            && (NoSlip(raw, clamped) ==> SamePose(raw, clamped))
            && SamePose(RawTarget(s, hand, trk, Shifted(ee, Sub(clamped.p, raw.p), SlipTurn(raw, clamped))), clamped)
  {
    var raw := RawTarget(s, hand, trk, ee);
    var x := Scale(s.posScale, Sub(hand.p, trk.p));
    RawIsUnit(s, hand, trk, ee);
    TurnIsUnit(s, hand, trk);
    TurnBack(Turn(s, hand, trk), ee.q, clamped.q);
    AddShift(ee.p, x, Sub(clamped.p, raw.p));
    AddBack(raw.p, clamped.p);
    if NoSlip(raw, clamped) {
      NoTurn(raw.q, clamped.q);
    }
  }

  lemma ShiftedIsUnit(pose: Pose, dp: V3, dq: Quat)
    requires UnitPose(pose) && Unit(dq)
    ensures UnitPose(Shifted(pose, dp, dq))
  {
    UnitProduct(pose.q, dq);
  }

  lemma AimIsStill(st: Anchors, arm: string, hand: Pose, live: Settings, anchorEe: Pose, clamped: Pose)
    requires WellFormed(st) && UnitPose(hand) && UnitPose(anchorEe) && UnitPose(clamped)
    ensures WellFormed(Aim(st, arm, Some(hand), live, anchorEe, clamped))
    ensures StillHand(Aim(st, arm, Some(hand), live, anchorEe, clamped), hand)
  {
    var (trk, ee) := AnchorsFor(st, arm, hand, live, anchorEe);
    var raw := RawTarget(live, hand, trk, ee);
    FreshTargetIsStill(live, hand, trk, ee, clamped);
    RawIsUnit(live, hand, trk, ee);
    SlipTurnIsUnit(raw, clamped);
    ShiftedIsUnit(ee, Sub(clamped.p, raw.p), SlipTurn(raw, clamped));
  }

  lemma ShiftIsStill(s: Settings, hand: Pose, trk: Pose, ee: Pose, intent: Pose, dp: V3, dq: Quat)
    requires SamePose(RawTarget(s, hand, trk, ee), intent)
    ensures SamePose(RawTarget(s, hand, trk, Shifted(ee, dp, dq)), Shifted(intent, dp, dq))
  {
    AddShift(ee.p, Scale(s.posScale, Sub(hand.p, trk.p)), dp);
    TurnAlong(Turn(s, hand, trk), ee.q, dq, intent.q);
  }

  /** A slip, by the leash or because the arm could not follow, moves what the hand asks for
      along with the anchor. */
  lemma SlipIsStill(st: Anchors, hand: Pose, intended: Pose, achieved: Pose)
    requires WellFormed(st) && StillHand(st, hand) && UnitPose(intended) && UnitPose(achieved)
    ensures WellFormed(Slip(st, intended, achieved)) && StillHand(Slip(st, intended, achieved), hand)
  {
    if st.ee.Some? {
      var dp, dq := Sub(achieved.p, intended.p), SlipTurn(intended, achieved);
      SlipTurnIsUnit(intended, achieved);
      ShiftedIsUnit(st.ee.value, dp, dq);
      ShiftedIsUnit(st.intent.value, dp, dq);
      ShiftIsStill(st.applied, hand, st.trk.value, st.ee.value, st.intent.value, dp, dq);
    }
  }

  lemma SlideIsStill(st: Anchors, hand: Pose, d: V3)
    requires WellFormed(st) && StillHand(st, hand)
    ensures WellFormed(Slide(st, d)) && StillHand(Slide(st, d), hand)
  {
    if st.ee.Some? {
      AddShift(st.ee.value.p, Scale(st.applied.posScale, Sub(hand.p, st.trk.value.p)), d);
    }
  }

  /** A settings change alone asks for exactly the pose the still hand asked for before: no
      delta, whatever the new settings are and wherever the re-aligned hand now reads. */
  lemma SettingsChangeAddsNothing(st: Anchors, arm: string, hand: Pose, live: Settings, anchorEe: Pose)
    requires WellFormed(st) && UnitPose(hand) && !Engaging(st, arm) && live != st.applied
    ensures RawFor(st, arm, hand, live, anchorEe) == st.intent.value
  {
    ConjInverts(hand.q);
    MulIdentity(st.intent.value.q);
    NoOffset(live.posScale, hand.p, st.intent.value.p);
  }

  lemma NoOffset(f: real, h: V3, p: V3)
    ensures Add(p, Scale(f, Sub(h, h))) == p
  {
  }

  // -- what a moving hand asks for ------------------------------------------------------------

  const UNIT_I := Quat(0.0, 1.0, 0.0, 0.0)
  const UNIT_J := Quat(0.0, 0.0, 1.0, 0.0)
  const UNIT_K := Quat(0.0, 0.0, 0.0, 1.0)

  /** The product is Hamilton's: what the units i, j and k make of any quaternion. */
  lemma ProductIsHamiltons(b: Quat)
    ensures Mul(UNIT_I, b) == Quat(-b.x, b.w, -b.z, b.y)
    ensures Mul(UNIT_J, b) == Quat(-b.y, b.z, b.w, -b.x)
    ensures Mul(UNIT_K, b) == Quat(-b.z, -b.y, b.x, b.w)
  {
  }

  /** The target handed out: what the leash leaves of the pose the anchors ask for. */
  function TargetFor(st: Anchors, arm: string, hand: Pose, live: Settings, anchorEe: Pose, leash: Pose -> Pose): Pose {
    leash(RawFor(st, arm, hand, live, anchorEe))
  }

  /** `next` is `pose` moved along with the hand: in position by the scaled way from `from` to `to`,
      in rotation by the turn between them, up to sign, or not at all. */
  ghost predicate MovedAlong(pose: Pose, next: Pose, from: Pose, to: Pose, s: Settings) {
    && next.p.x == pose.p.x + s.posScale * (to.p.x - from.p.x)
    && next.p.y == pose.p.y + s.posScale * (to.p.y - from.p.y)
    && next.p.z == pose.p.z + s.posScale * (to.p.z - from.p.z)
    && SameRotation(next.q, if s.followRotation then Mul(Mul(to.q, Conj(from.q)), pose.q) else pose.q)
  }

  lemma OffsetBetween(e: real, i: real, f: real, t: real, h: real, g: real)
    requires e + f * (h - t) == i
    ensures e + f * (g - t) == i + f * (g - h)
  {
  }

  /** The turn to `g` is the turn to `h` and then the one from `h` to `g`. */
  lemma TurnBetween(g: Quat, h: Quat, t: Quat)
    requires Unit(h)
    ensures Mul(Mul(g, Conj(h)), Mul(h, Conj(t))) == Mul(g, Conj(t))
  {
    MulAssoc(g, Conj(h), Mul(h, Conj(t)));
    MulAssoc(Conj(h), h, Conj(t));
    ConjInverts(h);
    MulIdentity(Conj(t));
  }

  lemma TurnFurther(g: Quat, h: Quat, t: Quat, e: Quat, i: Quat)
    requires Unit(h) && SameRotation(Mul(Mul(h, Conj(t)), e), i)
    ensures SameRotation(Mul(Mul(g, Conj(t)), e), Mul(Mul(g, Conj(h)), i))
  {
    var d := Mul(g, Conj(h));
    TurnBetween(g, h, t);
    MulAssoc(d, Mul(h, Conj(t)), e);
    NegRight(d, i);
  }

  /** While engaged under the same settings, a hand read at `to` asks for what the hand asked for
      at `from`, moved along. */
  lemma AsksAlong(st: Anchors, arm: string, from: Pose, to: Pose, anchorEe: Pose)
    requires WellFormed(st) && StillHand(st, from) && UnitPose(from) && !Engaging(st, arm)
    ensures MovedAlong(st.intent.value, RawFor(st, arm, to, st.applied, anchorEe), from, to, st.applied)
  {
    var s, t, e, i := st.applied, st.trk.value, st.ee.value, st.intent.value;
    OffsetBetween(e.p.x, i.p.x, s.posScale, t.p.x, from.p.x, to.p.x);
    OffsetBetween(e.p.y, i.p.y, s.posScale, t.p.y, from.p.y, to.p.y);
    OffsetBetween(e.p.z, i.p.z, s.posScale, t.p.z, from.p.z, to.p.z);
    if s.followRotation {
      TurnFurther(to.q, from.q, t.q, e.q, i.q);
    } else {
      MulIdentity(e.q);
    }
  }

  lemma RawForIsUnit(st: Anchors, arm: string, hand: Pose, live: Settings, anchorEe: Pose)
    requires WellFormed(st) && UnitPose(hand) && UnitPose(anchorEe)
    ensures UnitPose(RawFor(st, arm, hand, live, anchorEe))
  {
    var (trk, ee) := AnchorsFor(st, arm, hand, live, anchorEe);
    RawIsUnit(live, hand, trk, ee);
  }

  /** Two targets in a row: with the same settings and nothing cut from the second, the second is
      the first moved along with the hand, whatever the leash did to the first. */
  lemma TargetFollowsHand(
        st: Anchors, arm: string, from: Pose, to: Pose, s: Settings,
        ee1: Pose, ee2: Pose, leash1: Pose -> Pose, leash2: Pose -> Pose)
    requires WellFormed(st) && UnitPose(from) && UnitPose(ee1) && (forall p :: UnitPose(p) ==> UnitPose(leash1(p)))
    requires forall p :: leash2(p) == p
    ensures var first := TargetFor(st, arm, from, s, ee1, leash1);
            MovedAlong(first, TargetFor(Aim(st, arm, Some(from), s, ee1, first), arm, to, s, ee2, leash2), from, to, s)
  {
    var first := TargetFor(st, arm, from, s, ee1, leash1);
    RawForIsUnit(st, arm, from, s, ee1);
    AimIsStill(st, arm, from, s, ee1, first);
    AsksAlong(Aim(st, arm, Some(from), s, ee1, first), arm, from, to, ee2);
  }

  /** On engagement the hand asks for the arm's own pose, wherever the hand is. */
  lemma EngagingAddsNothing(st: Anchors, arm: string, hand: Pose, live: Settings, anchorEe: Pose)
    requires UnitPose(hand) && Engaging(st, arm)
    ensures RawFor(st, arm, hand, live, anchorEe) == anchorEe
  {
    ConjInverts(hand.q);
    MulIdentity(anchorEe.q);
    NoOffset(live.posScale, hand.p, anchorEe.p);
  }

  // -- over a whole session -----------------------------------------------------------------

  datatype Event =
    | Target(arm: string, hand: Option<Pose>, live: Settings, anchorEe: Pose, clamped: Pose)
    | Slipped(intended: Pose, achieved: Pose)
    | SlidBy(d: V3)
    | Release
    | TickEnd(live: Settings)

  ghost predicate UnitEvent(e: Event) {
    match e
    case Target(_, hand, _, anchorEe, clamped) => UnitIf(hand) && UnitPose(anchorEe) && UnitPose(clamped)
    case Slipped(intended, achieved) => UnitPose(intended) && UnitPose(achieved)
    case _ => true
  }

  function Step(st: Anchors, e: Event): Anchors {
    match e
    case Target(arm, hand, live, anchorEe, clamped) => Aim(st, arm, hand, live, anchorEe, clamped)
    case Slipped(intended, achieved) => Slip(st, intended, achieved)
    case SlidBy(d) => Slide(st, d)
    case Release => Released(st)
    case TickEnd(live) => EndTick(st, live)
  }

  /** The anchors with what the statements refer to: the hand as last read, where the arm was
      last anchored, and everything that has moved the anchor since. */
  datatype Track = Track(st: Anchors, hand: Pose, base: V3, moved: V3)

  ghost function Follow(t: Track, e: Event): Track {
    var next := Step(t.st, e);
    match e
    case Target(arm, hand, live, anchorEe, clamped) =>
      if hand.None? then t.(st := next)
      else
        var (trk, ee) := AnchorsFor(t.st, arm, hand.value, live, anchorEe);
        var slip := Sub(clamped.p, RawFor(t.st, arm, hand.value, live, anchorEe).p);
        if Engaging(t.st, arm) || live != t.st.applied then Track(next, hand.value, ee.p, slip)
        else Track(next, hand.value, t.base, Add(t.moved, slip))
    case Slipped(intended, achieved) =>
      if t.st.ee.None? then t.(st := next) else t.(st := next, moved := Add(t.moved, Sub(achieved.p, intended.p)))
    case SlidBy(d) => if t.st.ee.None? then t.(st := next) else t.(st := next, moved := Add(t.moved, d))
    case _ => t.(st := next)
  }

  ghost function Begin(applied: Settings): Track {
    Track(Anchors(None, None, None, None, None, false, applied, 0), Pose(ORIGIN, IDENTITY), ORIGIN, ORIGIN)
  }

  ghost function Session(applied: Settings, es: seq<Event>): Track {
    if es == [] then Begin(applied) else Follow(Session(applied, es[..|es| - 1]), es[|es| - 1])
  }

  ghost predicate Tied(t: Track) {
    && WellFormed(t.st) && StillHand(t.st, t.hand)
    && (t.st.ee.Some? ==> t.st.ee.value.p == Add(t.base, t.moved))
  }

  lemma AddAssoc(a: V3, b: V3, c: V3)
    ensures Add(Add(a, b), c) == Add(a, Add(b, c))
  {
  }

  lemma AddOrigin(a: V3)
    ensures Add(a, ORIGIN) == a
  {
  }

  lemma AimMoves(st: Anchors, arm: string, hand: Pose, live: Settings, anchorEe: Pose, clamped: Pose)
    ensures var next := Aim(st, arm, Some(hand), live, anchorEe, clamped);
            && next.ee.Some?
            && next.ee.value.p == Add(AnchorsFor(st, arm, hand, live, anchorEe).1.p, Sub(clamped.p, RawFor(st, arm, hand, live, anchorEe).p))
  {
    AddOrigin(AnchorsFor(st, arm, hand, live, anchorEe).1.p);
  }

  lemma SlipMoves(st: Anchors, intended: Pose, achieved: Pose)
    requires st.ee.Some?
    ensures Slip(st, intended, achieved).ee.Some?
    ensures Slip(st, intended, achieved).ee.value.p == Add(st.ee.value.p, Sub(achieved.p, intended.p))
  {
    AddOrigin(st.ee.value.p);
  }

  lemma SlideMoves(st: Anchors, d: V3)
    requires st.ee.Some?
    ensures Slide(st, d).ee.Some? && Slide(st, d).ee.value.p == Add(st.ee.value.p, d)
  {
    AddOrigin(st.ee.value.p);
  }

  lemma FollowIsTied(t: Track, e: Event)
    requires Tied(t) && UnitEvent(e)
    ensures Tied(Follow(t, e))
  {
    match e {
      case Target(arm, hand, live, anchorEe, clamped) =>
        if hand.Some? {
          AimIsStill(t.st, arm, hand.value, live, anchorEe, clamped);
          AimMoves(t.st, arm, hand.value, live, anchorEe, clamped);
          AddAssoc(t.base, t.moved, Sub(clamped.p, RawFor(t.st, arm, hand.value, live, anchorEe).p));
        }
      case Slipped(intended, achieved) =>
        SlipIsStill(t.st, t.hand, intended, achieved);
        if t.st.ee.Some? {
          SlipMoves(t.st, intended, achieved);
          AddAssoc(t.base, t.moved, Sub(achieved.p, intended.p));
        }
      case SlidBy(d) =>
        SlideIsStill(t.st, t.hand, d);
        if t.st.ee.Some? {
          SlideMoves(t.st, d);
          AddAssoc(t.base, t.moved, d);
        }
      case _ =>
    }
  }

  /** Over every session: while engaged, the hand as last read asks for the intended pose, and
      the anchor stands where it was last set plus every slip and every slide since. */
  lemma {:induction false} HandStaysTied(applied: Settings, es: seq<Event>)
    requires forall k :: 0 <= k < |es| ==> UnitEvent(es[k])
    ensures Tied(Session(applied, es))
  {
    if es != [] {
      HandStaysTied(applied, es[..|es| - 1]);
      FollowIsTied(Session(applied, es[..|es| - 1]), es[|es| - 1]);
    }
  }

  /** Over every session, while engaged: the next hand read under the same settings asks for the
      intended pose moved along with the hand since it was last read. */
  lemma SessionFollowsHand(applied: Settings, es: seq<Event>, arm: string, to: Pose, anchorEe: Pose)
    requires forall k :: 0 <= k < |es| ==> UnitEvent(es[k])
    requires !Engaging(Session(applied, es).st, arm)
    ensures var t := Session(applied, es);
            t.st.intent.Some? && MovedAlong(t.st.intent.value, RawFor(t.st, arm, to, t.st.applied, anchorEe), t.hand, to, t.st.applied)
  {
    HandStaysTied(applied, es);
    HandIsUnit(applied, es);
    var t := Session(applied, es);
    AsksAlong(t.st, arm, t.hand, to, anchorEe);
  }

  lemma {:induction false} HandIsUnit(applied: Settings, es: seq<Event>)
    requires forall k :: 0 <= k < |es| ==> UnitEvent(es[k])
    ensures UnitPose(Session(applied, es).hand)
  {
    if es != [] {
      HandIsUnit(applied, es[..|es| - 1]);
    }
  }

  // -- the object ---------------------------------------------------------------------------

  class TrackerTeleop {
    var engagedArm: Option<string>
    var aTrk: Option<Pose>
    var aEe: Option<Pose>
    var targetPose: Option<Pose>
    var intent: Option<Pose>
    var consulted: bool
    var applied: Settings
    var slipCount: nat

    constructor (settings: Settings)
      ensures Value() == Begin(settings).st
    {
      engagedArm, aTrk, aEe, targetPose, intent := None, None, None, None, None;
      consulted, applied, slipCount := false, settings, 0;
    }

    ghost function Value(): Anchors
      reads this
    {
      Anchors(engagedArm, aTrk, aEe, targetPose, intent, consulted, applied, slipCount)
    }

    method Disengage()
      modifies this
      ensures Value() == Released(old(Value()))
    {
      engagedArm, aTrk, aEe, targetPose, intent := None, None, None, None, None;
    }

    /** A tick that never consulted the provider clears the anchors. */
    method OnTickEnd(live: Settings)
      modifies this
      ensures Value() == EndTick(old(Value()), live)
    {
      if !consulted {
        Disengage();
        applied := live;
      }
      consulted := false;
    }

    method FoldSlip(intended: Pose, achieved: Pose)
      modifies this
      ensures Value() == Slip(old(Value()), intended, achieved)
    {
      if aEe.None? {
        return;
      }
      var dp := Sub(achieved.p, intended.p);
      var dq := SlipTurn(intended, achieved);
      if dp == ORIGIN && (dq == IDENTITY || dq == Neg(IDENTITY)) {
        return;
      }
      slipCount := slipCount + 1;
      aEe := Some(Shifted(aEe.value, dp, dq));
      if intent.Some? {
        intent := Some(Shifted(intent.value, dp, dq));
      }
      if targetPose.Some? {
        targetPose := Some(achieved);
      }
    }

    method TranslateAnchor(d: V3)
      modifies this
      ensures Value() == Slide(old(Value()), d)
    {
      if aEe.None? || d == ORIGIN {
        return;
      }
      aEe, intent, targetPose := Slid(aEe, d), Slid(intent, d), Slid(targetPose, d);
    }

    /** The leash-clamped target for this tick, or none without a fresh sample. */
    method AimFor(arm: string, hand: Option<Pose>, live: Settings, anchorEe: Pose, leash: Pose -> Pose) returns (out: Option<Pose>)
      modifies this
      ensures var clamped := if hand.Some? then leash(RawFor(old(Value()), arm, hand.value, live, anchorEe)) else anchorEe;
              Value() == Aim(old(Value()), arm, hand, live, anchorEe, clamped)
              && out == if hand.Some? then Some(clamped) else None
      ensures out == if hand.Some? then Some(TargetFor(old(Value()), arm, hand.value, live, anchorEe, leash)) else None
    {
      consulted := true;
      if hand.None? {
        Disengage();
        return None;
      }
      var changed := live != applied;
      applied := live;
      if engagedArm != Some(arm) || aTrk.None? || aEe.None? {
        engagedArm, aTrk, aEe := Some(arm), hand, Some(anchorEe);
      } else if changed {
        aTrk := hand;
        aEe := if intent.Some? then intent else Some(anchorEe);
      }
      var raw := RawTarget(live, hand.value, aTrk.value, aEe.value);
      var clamped := leash(raw);
      FoldSlip(raw, clamped);
      targetPose, intent := Some(clamped), Some(clamped);
      out := Some(clamped);
    }
  }
}
