/** Which arms an announced policy drives: whole per-arm name blocks, concatenated in any
    order (dora_bridge/policy_source.py:84-175, recorder/features.py:44-74). */
module ActionLayout {
  import opened Prelude

  type Names = seq<string>

  /** Action-name block of each session arm. */
  type Blocks = map<string, Names>

  datatype Space = DeltaEe | AbsEe | Joint

  /** Dimension names of one arm's block, the carriage last. */
  function Dims(space: Space, rail: bool): Names {
    match space
    case DeltaEe =>
      ["ee.dx", "ee.dy", "ee.dz", "ee.drx", "ee.dry", "ee.drz", "gripper.pos"] + (if rail then ["rail.dpos"] else [])
    case AbsEe =>
      ["ee.x", "ee.y", "ee.z", "ee.r00", "ee.r10", "ee.r20", "ee.r01", "ee.r11", "ee.r21", "gripper.pos"]
      + (if rail then ["rail.pos"] else [])
    case Joint =>
      ["joint1.pos", "joint2.pos", "joint3.pos", "joint4.pos", "joint5.pos", "joint6.pos", "joint7.pos", "gripper.pos"]
      + (if rail then ["rail.pos"] else [])
  }

  function ArmActionNames(arm: string, rail: bool, space: Space): (names: Names)
    ensures |names| == |Dims(space, rail)|
  {
    seq(|Dims(space, rail)|, i requires 0 <= i < |Dims(space, rail)| => arm + "_" + Dims(space, rail)[i])
  }

  // -- names of different arms differ ---------------------------------------------------------

  predicate Plain(dim: string) {
    forall k :: 0 <= k < |dim| ==> dim[k] != '_'
  }

  ghost predicate AllPlain(dims: Names) {
    dims != [] && forall i :: 0 <= i < |dims| ==> Plain(dims[i])
  }

  lemma DeltaEeIsPlain(rail: bool)
    ensures AllPlain(Dims(DeltaEe, rail))
  {
  }

  lemma AbsEeIsPlain(rail: bool)
    ensures AllPlain(Dims(AbsEe, rail))
  {
  }

  lemma JointIsPlain(rail: bool)
    ensures AllPlain(Dims(Joint, rail))
  {
  }

  lemma DimsArePlain(space: Space, rail: bool)
    ensures AllPlain(Dims(space, rail))
  {
    match space
    case DeltaEe => DeltaEeIsPlain(rail);
    case AbsEe => AbsEeIsPlain(rail);
    case Joint => JointIsPlain(rail);
  }

  lemma LastUnderscore(a: string, d: string)
    requires Plain(d)
    ensures var name := a + "_" + d; name[|a|] == '_' && forall k :: |a| < k < |name| ==> name[k] != '_'
  {
  }

  /** The last underscore separates the arm from the dimension. */
  lemma NameDeterminesArm(a: string, d: string, b: string, e: string)
    requires Plain(d) && Plain(e) && a + "_" + d == b + "_" + e
    ensures a == b && d == e
  {
    LastUnderscore(a, d);
    LastUnderscore(b, e);
    var name := a + "_" + d;
    assert name[..|a|] == a && name[..|b|] == b;
    assert name[|a| + 1..] == d && name[|b| + 1..] == e;
  }

  /** What the parser relies on: blocks are not empty and share no name. */
  ghost predicate WellNamed(blocks: Blocks) {
    && (forall a :: a in blocks ==> blocks[a] != [])
    && (forall a, b, i, j ::
          (a in blocks && b in blocks && 0 <= i < |blocks[a]| && 0 <= j < |blocks[b]| && blocks[a][i] == blocks[b][j])
          ==> a == b)
  }

  datatype ArmMeta = ArmMeta(arm: string, rail: bool)

  function SessionArms(meta: seq<ArmMeta>): (arms: seq<string>)
    ensures |arms| == |meta| && forall i :: 0 <= i < |meta| ==> arms[i] == meta[i].arm
  {
    seq(|meta|, i requires 0 <= i < |meta| => meta[i].arm)
  }

  ghost predicate IsBlockOf(block: Names, arm: string, space: Space) {
    exists rail :: block == ArmActionNames(arm, rail, space)
  }

  function ArmBlocks(meta: seq<ArmMeta>, space: Space): (blocks: Blocks)
    ensures blocks.Keys == Members(SessionArms(meta))
    ensures forall a :: a in blocks ==> IsBlockOf(blocks[a], a, space)
  {
    BlocksBy(meta, Naming(space))
  }

  function Naming(space: Space): (string, bool) -> Names {
    (arm: string, rail: bool) => ArmActionNames(arm, rail, space)
  }

  /** One block per arm, a later entry of the same arm replacing an earlier one. */
  function BlocksBy(meta: seq<ArmMeta>, block: (string, bool) -> Names): (blocks: Blocks)
    ensures blocks.Keys == Members(SessionArms(meta))
    ensures forall a :: a in blocks ==> exists rail :: blocks[a] == block(a, rail)
  {
    if meta == [] then map[]
    else
      var m := meta[|meta| - 1];
      BlocksBy(meta[..|meta| - 1], block)[m.arm := block(m.arm, m.rail)]
  }

  /** Widths and carriage: seven arm dimensions in `joint`, six in `delta_ee`, nine in `abs_ee`, then
      the gripper, then the carriage of an arm that has one. */
  lemma DimsInOrder(space: Space, rail: bool)
    ensures var (dims, motion) := (Dims(space, rail), match space case DeltaEe => 6 case AbsEe => 9 case Joint => 7);
            && |dims| == motion + (if rail then 2 else 1) && dims[motion] == "gripper.pos"
            && (rail ==> dims[motion + 1] == if space.DeltaEe? then "rail.dpos" else "rail.pos")
  {
  }

  /** The names of an arm's block: the arm, an underscore, and the dimension, one after the other, with
      the carriage the last entry of the arm says it has. */
  lemma BlockNames(meta: seq<ArmMeta>, space: Space, k: nat)
    requires k < |meta| && forall l :: k < l < |meta| ==> meta[l].arm != meta[k].arm
    ensures meta[k].arm in ArmBlocks(meta, space)
    ensures var (names, dims) := (ArmBlocks(meta, space)[meta[k].arm], Dims(space, meta[k].rail));
            |names| == |dims| && forall i :: 0 <= i < |dims| ==> names[i] == meta[k].arm + "_" + dims[i]
  {
    LastEntryNames(meta, Naming(space), k);
  }

  lemma {:induction false} LastEntryNames(meta: seq<ArmMeta>, block: (string, bool) -> Names, k: nat)
    requires k < |meta| && forall l :: k < l < |meta| ==> meta[l].arm != meta[k].arm
    ensures meta[k].arm in BlocksBy(meta, block) && BlocksBy(meta, block)[meta[k].arm] == block(meta[k].arm, meta[k].rail)
  {
    if k < |meta| - 1 {
      LastEntryNames(meta[..|meta| - 1], block, k);
    }
  }

  lemma SessionBlocksAreWellNamed(meta: seq<ArmMeta>, space: Space)
    ensures WellNamed(ArmBlocks(meta, space))
  {
    var blocks := ArmBlocks(meta, space);
    forall a | a in blocks
      ensures blocks[a] != []
    {
      DimsArePlain(space, true);
      DimsArePlain(space, false);
    }
    forall a, b, i, j | a in blocks && b in blocks && 0 <= i < |blocks[a]| && 0 <= j < |blocks[b]|
                        && blocks[a][i] == blocks[b][j]
      ensures a == b
    {
      var ra :| blocks[a] == ArmActionNames(a, ra, space);
      var rb :| blocks[b] == ArmActionNames(b, rb, space);
      DimsArePlain(space, ra);
      DimsArePlain(space, rb);
      NameDeterminesArm(a, Dims(space, ra)[i], b, Dims(space, rb)[j]);
    }
  }

  // -- concatenated blocks --------------------------------------------------------------------

  function Concat(blocks: Blocks, order: seq<string>): Names
    requires forall a :: a in order ==> a in blocks
  {
    if order == [] then []
    else Concat(blocks, order[..|order| - 1]) + blocks[order[|order| - 1]]
  }

  /** `(arm, start, length)` of one block. */
  datatype Slot = Slot(arm: string, start: nat, len: nat)

  /** The blocks of `order` one behind the other, from offset zero. */
  function Layout(blocks: Blocks, order: seq<string>): seq<Slot>
    requires forall a :: a in order ==> a in blocks
  {
    if order == [] then []
    else
      var front, a := order[..|order| - 1], order[|order| - 1];
      Layout(blocks, front) + [Slot(a, |Concat(blocks, front)|, |blocks[a]|)]
  }

  /** `order` lists exactly the arms of `driven`, each once. */
  ghost predicate IsOrder(order: seq<string>, driven: set<string>) {
    Distinct(order) && forall a :: a in order <==> a in driven
  }

  /** `names` are the blocks of `driven` concatenated in this order. */
  ghost predicate Parses(blocks: Blocks, driven: set<string>, names: Names, order: seq<string>)
    requires driven <= blocks.Keys
  {
    IsOrder(order, driven) && Concat(blocks, order) == names
  }

  lemma {:induction false} ConcatFront(blocks: Blocks, order: seq<string>, k: nat)
    requires (forall a :: a in order ==> a in blocks) && k < |order|
    ensures forall a :: a in order[..k] ==> a in blocks
    ensures Concat(blocks, order[..k]) + blocks[order[k]] <= Concat(blocks, order)
    decreases |order|
  {
    if k + 1 == |order| {
      assert order[..k] == order[..|order| - 1];
    } else {
      var front := order[..|order| - 1];
      ConcatFront(blocks, front, k);
      assert front[..k] == order[..k];
    }
  }

  /** The blocks of a list name the list: a concatenation that starts with another's blocks
      starts with its arms. */
  lemma {:induction false} PrefixOrder(blocks: Blocks, done: seq<string>, order: seq<string>)
    requires WellNamed(blocks)
    requires (forall a :: a in done ==> a in blocks) && (forall a :: a in order ==> a in blocks)
    requires Concat(blocks, done) <= Concat(blocks, order)
    ensures done <= order
  {
    if done != [] {
      var front, a := done[..|done| - 1], done[|done| - 1];
      PrefixOrder(blocks, front, order);
      var k := |front|;
      var at := |Concat(blocks, front)|;
      assert blocks[a][0] == Concat(blocks, order)[at];
      assert k == |order| ==> front == order;
      if k < |order| {
        ConcatFront(blocks, order, k);
        assert order[..k] == front;
        assert blocks[order[k]][0] == Concat(blocks, order)[at];
        assert done == order[..k + 1];
      }
    }
  }

  /** A list of names is the concatenation of one list of arms at most. */
  lemma OrderIsUnique(blocks: Blocks, one: seq<string>, two: seq<string>)
    requires WellNamed(blocks)
    requires (forall a :: a in one ==> a in blocks) && (forall a :: a in two ==> a in blocks)
    requires Concat(blocks, one) == Concat(blocks, two)
    ensures one == two
  {
    PrefixOrder(blocks, one, two);
    PrefixOrder(blocks, two, one);
  }

  // -- the greedy match -----------------------------------------------------------------------

  datatype LayoutError =
    | NoBlockAt(at: nat, remaining: set<string>)
    | MissesBlocks(remaining: set<string>)

  predicate BlockAt(names: Names, at: nat, block: Names) {
    at + |block| <= |names| && names[at..at + |block|] == block
  }

  /** The match so far: some of the arms, in the order their blocks appear. */
  ghost predicate Matched(blocks: Blocks, driven: set<string>, names: Names, done: seq<string>, remaining: set<string>, i: nat)
    requires driven <= blocks.Keys
  {
    && i <= |names| && remaining <= driven && IsOrder(done, driven - remaining)
    && Concat(blocks, done) == names[..i]
  }

  lemma MatchGrows(blocks: Blocks, driven: set<string>, names: Names, done: seq<string>, remaining: set<string>, i: nat, arm: string)
    requires driven <= blocks.Keys && Matched(blocks, driven, names, done, remaining, i)
    requires arm in remaining && BlockAt(names, i, blocks[arm])
    ensures Matched(blocks, driven, names, done + [arm], remaining - {arm}, i + |blocks[arm]|)
    ensures Layout(blocks, done + [arm]) == Layout(blocks, done) + [Slot(arm, i, |blocks[arm]|)]
  {
    assert (done + [arm])[..|done|] == done;
    assert names[..i] + names[i..i + |blocks[arm]|] == names[..i + |blocks[arm]|];
  }

  /** In a right order the next arm's block is the next block of the names. */
  lemma NextBlock(blocks: Blocks, driven: set<string>, names: Names, done: seq<string>, remaining: set<string>, i: nat,
                  order: seq<string>) returns (arm: string)
    requires driven <= blocks.Keys && WellNamed(blocks) && Matched(blocks, driven, names, done, remaining, i) && i < |names|
    requires Parses(blocks, driven, names, order)
    ensures arm in remaining && BlockAt(names, i, blocks[arm])
  {
    PrefixOrder(blocks, done, order);
    var k := |done|;
    assert order[..k] == done;
    assert k == |order| ==> done == order;
    ConcatFront(blocks, order, k);
    arm := order[k];
    assert arm !in done;
  }

  /** Where no remaining block fits, no order of the arms gives these names. */
  lemma Stuck(blocks: Blocks, driven: set<string>, names: Names, done: seq<string>, remaining: set<string>, i: nat, order: seq<string>)
    requires driven <= blocks.Keys && WellNamed(blocks) && Matched(blocks, driven, names, done, remaining, i) && i < |names|
    requires forall a :: a in remaining ==> !BlockAt(names, i, blocks[a])
    ensures !Parses(blocks, driven, names, order)
  {
    if Parses(blocks, driven, names, order) {
      var arm := NextBlock(blocks, driven, names, done, remaining, i, order);
    }
  }

  lemma OrderedSet(order: seq<string>, one: set<string>, two: set<string>)
    requires IsOrder(order, one) && IsOrder(order, two)
    ensures one == two
  {
  }

  lemma Incomplete(blocks: Blocks, driven: set<string>, names: Names, done: seq<string>, remaining: set<string>, order: seq<string>)
    requires driven <= blocks.Keys && WellNamed(blocks) && driven - remaining != driven
    requires Parses(blocks, driven - remaining, names, done)
    ensures !Parses(blocks, driven, names, order)
  {
    if Parses(blocks, driven, names, order) {
      OrderIsUnique(blocks, order, done);
      OrderedSet(order, driven, driven - remaining);
    }
  }

  method ActionBlockLayout(names: Names, blocks: Blocks, driven: set<string>) returns (r: Result<seq<Slot>, LayoutError>)
    requires driven <= blocks.Keys && WellNamed(blocks)
    ensures r.Ok? <==> exists order :: Parses(blocks, driven, names, order)
    ensures forall order :: Parses(blocks, driven, names, order) ==> r == Ok(Layout(blocks, order))
    ensures r.Err? ==> r.error.remaining <= driven
    ensures r.Err? && r.error.NoBlockAt? ==>
              r.error.at < |names| && forall a :: a in r.error.remaining ==> !BlockAt(names, r.error.at, blocks[a])
    ensures r.Err? && r.error.MissesBlocks? ==>
              r.error.remaining != {} && exists done :: Parses(blocks, driven - r.error.remaining, names, done)
  {
    var remaining := driven;
    var out: seq<Slot> := [];
    var i := 0;
    ghost var done: seq<string> := [];
    while i < |names|
      invariant Matched(blocks, driven, names, done, remaining, i)
      invariant out == Layout(blocks, done)
      decreases |names| - i
    {
      var candidates := set a | a in remaining && BlockAt(names, i, blocks[a]);
      if candidates == {} {
        forall a | a in remaining
          ensures !BlockAt(names, i, blocks[a])
        {
          assert BlockAt(names, i, blocks[a]) ==> a in candidates;
        }
        forall order
          ensures !Parses(blocks, driven, names, order)
        {
          Stuck(blocks, driven, names, done, remaining, i, order);
        }
        return Err(NoBlockAt(i, remaining));
      }
      var arm :| arm in candidates;
      MatchGrows(blocks, driven, names, done, remaining, i, arm);
      out := out + [Slot(arm, i, |blocks[arm]|)];
      i := i + |blocks[arm]|;
      remaining := remaining - {arm};
      done := done + [arm];
    }
    assert names[..i] == names;
    if remaining != {} {
      assert Parses(blocks, driven - remaining, names, done);
      assert driven - remaining != driven by {
        var a :| a in remaining;
        assert a in driven && a !in driven - remaining;
      }
      forall order
        ensures !Parses(blocks, driven, names, order)
      {
        Incomplete(blocks, driven, names, done, remaining, order);
      }
      return Err(MissesBlocks(remaining));
    }
    assert Parses(blocks, driven, names, done);
    forall order | Parses(blocks, driven, names, order)
      ensures order == done
    {
      OrderIsUnique(blocks, order, done);
    }
    r := Ok(out);
  }

  // -- the arms a policy drives -----------------------------------------------------------------

  datatype DrivenError =
    | UnknownArms(arms: seq<string>)
    | ListedTwice(arms: seq<string>)
    | CoversNoBlock
    | BadLayout(error: LayoutError)

  /** The arms of `driven` in session order. */
  function InSessionOrder(session: seq<string>, driven: set<string>): (arms: seq<string>)
    ensures forall a :: a in arms <==> a in session && a in driven
  {
    if session == [] then []
    else
      var front, a := session[..|session| - 1], session[|session| - 1];
      InSessionOrder(front, driven) + (if a in driven then [a] else [])
  }

  /** The first of the arms comes first: the arms stand as they do in the session. */
  lemma {:induction false} KeepsSessionOrder(session: seq<string>, driven: set<string>, i: nat, j: nat) returns (p: nat, q: nat)
    requires Distinct(session) && i < j < |InSessionOrder(session, driven)|
    ensures p < q < |session|
    ensures session[p] == InSessionOrder(session, driven)[i] && session[q] == InSessionOrder(session, driven)[j]
  {
    var front, a := session[..|session| - 1], session[|session| - 1];
    var arms := InSessionOrder(front, driven);
    if j < |arms| {
      p, q := KeepsSessionOrder(front, driven, i, j);
    } else {
      q := |front|;
      assert arms[i] in arms;
      p :| 0 <= p < |front| && front[p] == arms[i];
    }
  }

  function Unknown(arms: seq<string>, known: set<string>): (u: seq<string>)
    ensures forall a :: a in u <==> a in arms && a !in known
  {
    if arms == [] then []
    else
      var front, a := arms[..|arms| - 1], arms[|arms| - 1];
      Unknown(front, known) + (if a in known then [] else [a])
  }

  lemma {:induction false} CountDistinct(arms: seq<string>)
    ensures |Members(arms)| <= |arms|
    ensures |Members(arms)| == |arms| <==> Distinct(arms)
  {
    if arms != [] {
      var front, a := arms[..|arms| - 1], arms[|arms| - 1];
      CountDistinct(front);
      assert Members(arms) == Members(front) + {a};
      if a in front {
        assert Members(arms) == Members(front);
      } else {
        assert forall i :: 0 <= i < |front| ==> front[i] == arms[i];
      }
    }
  }

  /** The arms whose whole block appears among the names. */
  function Covered(names: Names, blocks: Blocks): (driven: set<string>)
    ensures driven <= blocks.Keys
  {
    set a | a in blocks && forall i :: 0 <= i < |blocks[a]| ==> blocks[a][i] in names
  }

  lemma {:induction false} BlocksInConcat(blocks: Blocks, order: seq<string>, name: string)
    requires forall a :: a in order ==> a in blocks
    ensures name in Concat(blocks, order) <==> exists a :: a in order && name in blocks[a]
  {
    if order != [] {
      BlocksInConcat(blocks, order[..|order| - 1], name);
      assert order == order[..|order| - 1] + [order[|order| - 1]];
    }
  }

  /** The names alone tell the arms: the covered arms are those concatenated. */
  lemma CoveredIsDriven(blocks: Blocks, order: seq<string>)
    requires WellNamed(blocks) && forall a :: a in order ==> a in blocks
    ensures Covered(Concat(blocks, order), blocks) == Members(order)
  {
    var names := Concat(blocks, order);
    forall a | a in blocks
      ensures a in Covered(names, blocks) <==> a in order
    {
      if a in order {
        forall i | 0 <= i < |blocks[a]|
          ensures blocks[a][i] in names
        {
          BlocksInConcat(blocks, order, blocks[a][i]);
        }
      }
      if a in Covered(names, blocks) {
        BlocksInConcat(blocks, order, blocks[a][0]);
        var b :| b in order && blocks[a][0] in blocks[b];
        var j :| 0 <= j < |blocks[b]| && blocks[b][j] == blocks[a][0];
        assert a == b;
      }
    }
  }

  /** The policy's names are these whole blocks, each once. */
  ghost predicate Drives(blocks: Blocks, names: Names, order: seq<string>) {
    Distinct(order) && (forall a :: a in order ==> a in blocks) && Concat(blocks, order) == names
  }

  /** `order` explains the names, and agrees with the announced arms when there are any. */
  ghost predicate Accepts(blocks: Blocks, names: Names, specArms: seq<string>, order: seq<string>) {
    && order != [] && Drives(blocks, names, order)
    && (specArms != [] ==> Distinct(specArms) && Members(order) == Members(specArms))
  }

  /** The arms to look for: those announced, or without any the covered ones. */
  function Announced(specArms: seq<string>, names: Names, blocks: Blocks): (r: Result<set<string>, DrivenError>)
    ensures r.Ok? ==> r.value <= blocks.Keys
  {
    if specArms != [] then
      var unknown := Unknown(specArms, blocks.Keys);
      if unknown != [] then Err(UnknownArms(unknown))
      else if |Members(specArms)| != |specArms| then Err(ListedTwice(specArms))
      else Ok(Members(specArms))
    else
      var driven := Covered(names, blocks);
      if driven == {} then Err(CoversNoBlock) else Ok(driven)
  }

  lemma NotEmpty(arms: seq<string>)
    ensures arms == [] <==> Members(arms) == {}
  {
    if arms != [] {
      assert arms[0] in Members(arms);
    }
  }

  /** Looking for those arms loses nothing: they are the arms of every acceptable order. */
  lemma AnnouncedIsDriven(specArms: seq<string>, names: Names, blocks: Blocks, order: seq<string>)
    requires WellNamed(blocks)
    ensures var r := Announced(specArms, names, blocks);
            if r.Err? then !Accepts(blocks, names, specArms, order)
            else Parses(blocks, r.value, names, order) <==> Accepts(blocks, names, specArms, order)
  {
    CountDistinct(specArms);
    NotEmpty(specArms);
    NotEmpty(order);
    if Drives(blocks, names, order) {
      CoveredIsDriven(blocks, order);
    }
    if specArms != [] {
      var unknown := Unknown(specArms, blocks.Keys);
      if unknown != [] {
        assert unknown[0] in Members(specArms);
        assert unknown[0] in unknown;
      }
    }
  }

  lemma AnnouncedSettles(specArms: seq<string>, names: Names, blocks: Blocks)
    requires WellNamed(blocks)
    ensures var r := Announced(specArms, names, blocks);
            if r.Err? then forall order :: !Accepts(blocks, names, specArms, order)
            else forall order :: Parses(blocks, r.value, names, order) <==> Accepts(blocks, names, specArms, order)
  {
    forall order
      ensures var r := Announced(specArms, names, blocks);
              if r.Err? then !Accepts(blocks, names, specArms, order)
              else Parses(blocks, r.value, names, order) <==> Accepts(blocks, names, specArms, order)
    {
      AnnouncedIsDriven(specArms, names, blocks, order);
    }
  }

  /** The answer about `names` for these blocks: the arms of the one acceptable order, in
      session order. */
  ghost predicate Resolved(blocks: Blocks, session: seq<string>, names: Names, specArms: seq<string>,
                           r: Result<seq<string>, DrivenError>) {
    && (r.Ok? <==> exists order :: Accepts(blocks, names, specArms, order))
    && forall order :: Accepts(blocks, names, specArms, order) ==> r == Ok(InSessionOrder(session, Members(order)))
  }

  method ResolveAgainst(specArms: seq<string>, names: Names, session: seq<string>, blocks: Blocks)
    returns (r: Result<seq<string>, DrivenError>)
    requires WellNamed(blocks)
    ensures Resolved(blocks, session, names, specArms, r)
    ensures var a := Announced(specArms, names, blocks); a.Err? ==> r == Err(a.error)
  {
    AnnouncedSettles(specArms, names, blocks);
    var announced := Announced(specArms, names, blocks);
    if announced.Err? {
      return Err(announced.error);
    }
    var driven := announced.value;
    var layout := ActionBlockLayout(names, blocks, driven);
    if layout.Err? {
      return Err(BadLayout(layout.error));
    }
    forall order | Accepts(blocks, names, specArms, order)
      ensures Members(order) == driven
    {
      assert Parses(blocks, driven, names, order);
    }
    r := Ok(InSessionOrder(session, driven));
  }

  /** An announced `arms` list decides; without one the names do. Either way the result lists
      in session order exactly the arms whose blocks were concatenated, in whatever order. */
  method ResolveDrivenArms(specArms: seq<string>, names: Names, meta: seq<ArmMeta>, space: Space)
    returns (r: Result<seq<string>, DrivenError>)
    ensures Resolved(ArmBlocks(meta, space), SessionArms(meta), names, specArms, r)
    ensures var a := Announced(specArms, names, ArmBlocks(meta, space)); a.Err? ==> r == Err(a.error)
  {
    SessionBlocksAreWellNamed(meta, space);
    r := ResolveAgainst(specArms, names, SessionArms(meta), ArmBlocks(meta, space));
  }

  /** A policy that announces no arms and names whole blocks, each once and in any order, is
      understood: it drives exactly those arms. */
  lemma LegacySpecIsUnderstood(blocks: Blocks, order: seq<string>)
    requires WellNamed(blocks) && order != [] && Distinct(order) && forall a :: a in order ==> a in blocks
    ensures Accepts(blocks, Concat(blocks, order), [], order)
    ensures forall other :: Accepts(blocks, Concat(blocks, order), [], other) ==> other == order
  {
    forall other | Accepts(blocks, Concat(blocks, order), [], other)
      ensures other == order
    {
      OrderIsUnique(blocks, other, order);
    }
  }
}
