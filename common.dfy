/** Values shared by every part of the model: optional values and the
    floating-point outcomes of a pandas division. */
module Common {

  datatype Option<T> = None | Some(value: T)

  /** The result of a float division as pandas produces it: a finite value,
      an infinity (a non-zero value divided by zero) or NaN (0/0, or the
      mean of nothing). Money itself is modelled as exact `real`. */
  datatype Ext = Fin(v: real) | PosInf | NegInf | NaN

  /** `a / b` on floats. */
  function Div(a: real, b: real): (r: Ext)
    ensures b != 0.0 ==> r == Fin(a / b)
    ensures b == 0.0 ==> (r == PosInf <==> a > 0.0)
    ensures b == 0.0 ==> (r == NegInf <==> a < 0.0)
    ensures b == 0.0 ==> (r == NaN <==> a == 0.0)
  {
    if b != 0.0 then Fin(a / b)
    else if a > 0.0 then PosInf
    else if a < 0.0 then NegInf
    else NaN
  }

  /** Multiplication of a float outcome by a positive constant (`* 100`). */
  function Scale(e: Ext, k: real): (r: Ext)
    requires k > 0.0
    ensures e.Fin? ==> r == Fin(e.v * k)
    ensures !e.Fin? ==> r == e
  {
    if e.Fin? then Fin(e.v * k) else e
  }

  /** `fillna(x)`: replaces NaN, and only NaN; infinities stay. */
  function FillNaN(e: Ext, x: real): (r: Ext)
    ensures e == NaN ==> r == Fin(x)
    ensures e != NaN ==> r == e
  {
    if e == NaN then Fin(x) else e
  }

  /** A percentage `a / b * 100` as pandas computes it. */
  function Percent(a: real, b: real): (r: Ext)
    ensures b != 0.0 ==> r == Fin(a / b * 100.0)
    ensures b == 0.0 ==> !r.Fin?
  {
    Scale(Div(a, b), 100.0)
  }

  /** The number of entries that are not NaN. */
  function CountPresent(xs: seq<Ext>): (n: nat)
    ensures n <= |xs|
  {
    if xs == [] then 0 else (if xs[0] == NaN then 0 else 1) + CountPresent(xs[1..])
  }

  /** The sum of the finite entries. */
  function SumFinite(xs: seq<Ext>): real {
    if xs == [] then 0.0 else (if xs[0].Fin? then xs[0].v else 0.0) + SumFinite(xs[1..])
  }

  /** `Series.mean()` (NaN skipped): NaN when nothing is left or when both
      infinities occur, an infinity when only that one occurs, otherwise
      the arithmetic mean of the entries. */
  function MeanSkipNaN(xs: seq<Ext>): (r: Ext)
    ensures CountPresent(xs) == 0 ==> r == NaN
    ensures r.Fin? ==> forall i :: 0 <= i < |xs| ==> xs[i].Fin? || xs[i] == NaN
    ensures (forall i :: 0 <= i < |xs| ==> xs[i].Fin? || xs[i] == NaN) && CountPresent(xs) > 0
      ==> r == Fin(SumFinite(xs) / CountPresent(xs) as real)
  {
    if CountPresent(xs) == 0 then NaN
    else if PosInf in xs && NegInf in xs then NaN
    else if PosInf in xs then PosInf
    else if NegInf in xs then NegInf
    else Fin(SumFinite(xs) / CountPresent(xs) as real)
  }
}
