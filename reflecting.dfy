/** The reflecting (copy-neighbour, zero-gradient) boundary condition of the MacCormack scripts. */
module Reflecting {
  import opened FieldArrays

  /** Both end values equal their neighbours. */
  predicate Reflected(s: seq<real>)
    requires |s| >= 2
  {
    s[0] == s[1] && s[|s| - 1] == s[|s| - 2]
  }

  /** The statements `a[0] = a[1]` and then `a[-1] = a[-2]`, executed one after the other. */
  function CopyNeighbours(s: seq<real>): (r: seq<real>)
    requires |s| >= 2
    ensures |r| == |s| && Reflected(r)
    ensures forall i :: 1 <= i < |s| - 1 ==> r[i] == s[i]
    ensures |s| >= 3 ==> r[0] == s[1] && r[|s| - 1] == s[|s| - 2]
  {
    var first := s[0 := s[1]];
    first[|s| - 1 := first[|s| - 2]]
  }

  /** The boundary copy applied to both fields. */
  function ReflectBoth(f: Fields): (r: Fields)
    requires |f.a| >= 2 && |f.q| >= 2
    ensures |r.a| == |f.a| && |r.q| == |f.q| && Reflected(r.a) && Reflected(r.q)
  {
    Fields(CopyNeighbours(f.a), CopyNeighbours(f.q))
  }

  /** The boundary copy leaves the interior nodes alone. */
  lemma CopyNeighboursKeepsInterior(s: seq<real>)
    requires |s| >= 2
    ensures CopyNeighbours(s)[1..|s| - 1] == s[1..|s| - 1]
  {
    var r, mid := CopyNeighbours(s), s[1..|s| - 1];
    assert forall i :: 0 <= i < |mid| ==> r[1..|s| - 1][i] == mid[i];
  }

  /** Applying the boundary condition twice is the same as applying it once. */
  lemma CopyNeighboursIdempotent(s: seq<real>)
    requires |s| >= 2
    ensures CopyNeighbours(CopyNeighbours(s)) == CopyNeighbours(s)
  {
    var r := CopyNeighbours(s);
    var rr := CopyNeighbours(r);
    forall i | 0 <= i < |s| ensures rr[i] == r[i] {
      if 1 <= i < |s| - 1 {
      } else if i == 0 {
        assert rr[0] == rr[1];
      } else {
        assert rr[|s| - 1] == rr[|s| - 2];
      }
    }
  }

  /** A boundary copy keeps the all-zero field at zero. */
  lemma CopyNeighboursKeepsConstant(s: seq<real>, v: real)
    requires |s| >= 2 && Constant(s, v)
    ensures Constant(CopyNeighbours(s), v)
  {
  }

  /** Whatever the first node held before the copy does not survive it. */
  lemma CopyNeighboursIgnoresFirst(s: seq<real>, x: real)
    requires |s| >= 2
    ensures CopyNeighbours(s[0 := x]) == CopyNeighbours(s)
  {
    var r, r' := CopyNeighbours(s), CopyNeighbours(s[0 := x]);
    forall i | 0 <= i < |s| ensures r'[i] == r[i] {
      if i == |s| - 1 && |s| == 2 {
        assert r'[1] == r'[0] == s[1];
      }
    }
  }

  /** The tuple assignment `Q[0], Q[-1] = Q[1], Q[-2]` of test1_z.py: both right-hand sides are read
      before either end is written. */
  function CopyNeighboursAtOnce(s: seq<real>): (r: seq<real>)
    requires |s| >= 2
    ensures |r| == |s| && r[0] == s[1] && r[|s| - 1] == s[|s| - 2]
    ensures forall i :: 1 <= i < |s| - 1 ==> r[i] == s[i]
  {
    s[0 := s[1]][|s| - 1 := s[|s| - 2]]
  }

  /** From three nodes on, the simultaneous copy does not read the end values it overwrites. */
  lemma AtOnceIgnoresEnds(s: seq<real>, x: real, y: real)
    requires |s| >= 3
    ensures CopyNeighboursAtOnce(s[0 := x][|s| - 1 := y]) == CopyNeighboursAtOnce(s)
  {
    var r, r' := CopyNeighboursAtOnce(s), CopyNeighboursAtOnce(s[0 := x][|s| - 1 := y]);
    forall i | 0 <= i < |s| ensures r'[i] == r[i] {
    }
  }

  /** From three nodes on, the simultaneous and the sequential copies agree. */
  lemma {:induction false} AtOnceAgreesFromThreeNodes(s: seq<real>)
    requires |s| >= 3
    ensures CopyNeighboursAtOnce(s) == CopyNeighbours(s)
  {
    var x, y := CopyNeighboursAtOnce(s), CopyNeighbours(s);
    forall i | 0 <= i < |s| ensures x[i] == y[i] {
    }
  }

  /** On two nodes they differ: the simultaneous copy swaps the two values. */
  lemma AtOnceSwapsTwoNodes(s: seq<real>)
    requires |s| == 2
    ensures CopyNeighboursAtOnce(s) == [s[1], s[0]]
    ensures CopyNeighbours(s) == [s[1], s[1]]
  {
  }

  /** `apply_bc(a, q)` of sim1.py (and `apply_BC(Q, A)` of TestC1.py): copy the neighbour into both end
      nodes of both arrays, in place. */
  method ApplyReflecting(a: array<real>, q: array<real>)
    requires a.Length >= 2 && q.Length >= 2 && a != q
    modifies a, q
    ensures a[..] == CopyNeighbours(old(a[..])) && q[..] == CopyNeighbours(old(q[..]))
  {
    a[0] := a[1];
    q[0] := q[1];
    a[a.Length - 1] := a[a.Length - 2];
    q[q.Length - 1] := q[q.Length - 2];
  }

  /** The in-place tuple assignments `Q[0], Q[-1] = Q[1], Q[-2]` and `A[0], A[-1] = A[1], A[-2]`. */
  method ApplyReflectingAtOnce(q: array<real>, a: array<real>)
    requires a.Length >= 2 && q.Length >= 2 && a != q
    modifies a, q
    ensures a[..] == CopyNeighboursAtOnce(old(a[..])) && q[..] == CopyNeighboursAtOnce(old(q[..]))
  {
    q[0], q[q.Length - 1] := q[1], q[q.Length - 2];
    a[0], a[a.Length - 1] := a[1], a[a.Length - 2];
  }
}
