// Property vectors and easing curves: the two leaves a tween interpolates
// with. The vector operations (copy, swap, interpolate) and the easing table
// live outside tween.c; here a vector is a sequence of reals and the easing
// table is a parameter.
module Props {

  /** An ordered run of numeric properties (Tween_Props). */
  type Props = seq<real>

  /** Identifier of an easing curve (the Tween_Easing enumeration). */
  type EasingId = nat

  /** The easing table: the curve each identifier selects, from progress to eased progress.
      Curves may overshoot [0, 1]; nothing clamps their result. */
  type EasingTable = EasingId -> real -> real

  /** Tween_UpdateProps: each component moved from `start` towards `to` by the eased factor `e`. */
  function Lerp(start: Props, to: Props, e: real): (r: Props)
    requires |start| == |to|
    ensures |r| == |start|
  {
    seq(|start|, i requires 0 <= i < |start| => start[i] + (to[i] - start[i]) * e)
  }

  /** At eased progress 0 the vector is the start, at eased progress 1 it is the target. */
  lemma LerpEndpoints(start: Props, to: Props)
    requires |start| == |to|
    ensures Lerp(start, to, 0.0) == start
    ensures Lerp(start, to, 1.0) == to
  {
    assert forall i | 0 <= i < |start| :: Lerp(start, to, 1.0)[i] == to[i];
  }

  /** Interpolation is linear in the eased parameter: halfway gives the componentwise mean. */
  lemma LerpMidpoint(start: Props, to: Props)
    requires |start| == |to|
    ensures forall i | 0 <= i < |start| :: 2.0 * Lerp(start, to, 0.5)[i] == start[i] + to[i]
  {
  }
}
