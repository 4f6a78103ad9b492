/** Area/flow pairs of the solvers, and the array copy (`ndarray.copy()`) every step starts from. */
module FieldArrays {

  /** The two fields over the nodes of the tube at one instant: area (or area perturbation) and flow. */
  datatype Fields = Fields(a: seq<real>, q: seq<real>)
  {
    /** Both fields have `n` nodes. */
    predicate HasNodes(n: nat) { |a| == n && |q| == n }
  }

  /** Every entry of `s` equals `v`. */
  predicate Constant(s: seq<real>, v: real)
  {
    forall i :: 0 <= i < |s| ==> s[i] == v
  }

  /** A uniform area `v` with no flow. */
  predicate AtRest(f: Fields, v: real)
  {
    Constant(f.a, v) && Constant(f.q, 0.0)
  }

  /** Rest that each state of a sequence hands on to the next holds at every state. */
  lemma {:induction false} RestAlong(states: seq<Fields>, v: real, k: nat)
    requires k < |states| && AtRest(states[0], v)
    requires forall n :: 0 < n < |states| && AtRest(states[n - 1], v) ==> AtRest(states[n], v)
    ensures AtRest(states[k], v)
  {
    if k > 0 {
      RestAlong(states, v, k - 1);
    }
  }

  /** `np.zeros(n)`. */
  function Zeros(n: nat): (s: seq<real>)
    ensures |s| == n && Constant(s, 0.0)
  {
    seq(n, i => 0.0)
  }

  /** `ndarray.copy()`: a new array with the same contents. */
  method CopyOf(a: array<real>) returns (b: array<real>)
    ensures fresh(b) && b[..] == a[..]
  {
    b := new real[a.Length](i reads a requires 0 <= i < a.Length => a[i]);
  }

  /** A new array holding the sequence `s`. */
  method ArrayOf(s: seq<real>) returns (b: array<real>)
    ensures fresh(b) && b[..] == s
  {
    b := new real[|s|](i requires 0 <= i < |s| => s[i]);
  }
}
