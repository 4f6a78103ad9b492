/** The raised-cosine bump that sim1.py, TestC1.py and test1_z.py use as initial data. */
module CosineBump {
  import opened Numerics

  /** The raised cosine `amp * 0.5 * (1 + cos(pi * s))`. */
  function RaisedCosine(tr: Transcendentals, s: real, amp: real): real
  {
    amp * 0.5 * (1.0 + tr.cos(tr.pi * s))
  }

  /** The bump at one point: `amp * 0.5 * (1 + cos(pi * s))` where `|s| < 1`, `s = (x - center) / width`,
      and 0 elsewhere. */
  function BumpAt(tr: Transcendentals, x: real, center: real, width: real, amp: real): (r: real)
    requires width != 0.0
    ensures r != 0.0 ==> -1.0 < (x - center) / width < 1.0
    ensures -1.0 < (x - center) / width < 1.0 ==> r == RaisedCosine(tr, (x - center) / width, amp)
  {
    var s := (x - center) / width;
    if -1.0 < s < 1.0 then RaisedCosine(tr, s, amp) else 0.0
  }

  /** `bump(x, center, width, amp)`: start from `np.zeros_like(x)` and fill the masked points. */
  method Bump(tr: Transcendentals, xs: seq<real>, center: real, width: real, amp: real) returns (out: seq<real>)
    requires width != 0.0
    ensures |out| == |xs|
    ensures forall i :: 0 <= i < |xs| ==> out[i] == BumpAt(tr, xs[i], center, width, amp)
    ensures forall i :: 0 <= i < |xs| && !(-1.0 < (xs[i] - center) / width < 1.0) ==> out[i] == 0.0
  {
    var buf := new real[|xs|](i => 0.0);
    for i := 0 to |xs|
      invariant forall j :: 0 <= j < i ==> buf[j] == BumpAt(tr, xs[j], center, width, amp)
      invariant forall j :: i <= j < |xs| ==> buf[j] == 0.0
    {
      var s := (xs[i] - center) / width;
      if -1.0 < s < 1.0 {
        buf[i] := RaisedCosine(tr, s, amp);
      }
    }
    out := buf[..];
  }
}
