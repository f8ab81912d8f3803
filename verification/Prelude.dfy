/** Small value types and real arithmetic shared by the models. */
module Prelude {

  datatype Option<+T> = None | Some(value: T)

  datatype Result<+T, +E> = Ok(value: T) | Err(error: E)

  /** A joint vector: seven arm joints, then the carriage when the arm has one. */
  type Vec = seq<real>

  /** Arm joints in front of the carriage slot (control/joint_panel.py:20). */
  const N_JOINTS: nat := 7

  function Abs(x: real): (r: real)
    ensures r >= 0.0 && (r == x || r == -x)
  {
    if x < 0.0 then -x else x
  }

  function MaxR(x: real, y: real): (r: real)
    ensures r >= x && r >= y && (r == x || r == y)
  {
    if x < y then y else x
  }

  function MinR(x: real, y: real): (r: real)
    ensures r <= x && r <= y && (r == x || r == y)
  {
    if y < x then y else x
  }

  /** The least integer not below `x`. */
  function Ceil(x: real): (c: int)
    ensures c as real - 1.0 < x <= c as real
  {
    -((-x).Floor)
  }

  /** `Ceil` is the only integer in its unit interval. */
  lemma CeilUnique(x: real, c: int)
    requires c as real - 1.0 < x <= c as real
    ensures Ceil(x) == c
  {
  }

  /** The newest `n` entries, as a negative Python slice keeps them. */
  function Newest<T>(s: seq<T>, n: nat): (r: seq<T>)
    ensures |r| == if |s| <= n then |s| else n
    ensures forall k :: 0 <= k < |r| ==> r[k] == s[|s| - |r| + k]
  {
    if |s| <= n then s else s[|s| - n..]
  }

  /** No arm is listed twice. */
  ghost predicate Distinct(arms: seq<string>) {
    forall i, j :: 0 <= i < j < |arms| ==> arms[i] != arms[j]
  }

  function Members(arms: seq<string>): (s: set<string>)
    ensures forall a :: a in s <==> a in arms
  {
    set a | a in arms
  }

  /** Multiplying by a non-negative number keeps an inequality. */
  lemma MulMono(x: real, y: real, z: real)
    requires x <= y && z >= 0.0
    ensures x * z <= y * z
  {
  }

  lemma MulStrict(x: real, y: real, z: real)
    requires x < y && z > 0.0
    ensures x * z < y * z
  {
  }
}
