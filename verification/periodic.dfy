/** The simulation box and the periodic-boundary correction the reader applies to
    wrapped coordinates while it fills an atom record. */
module Periodic {
  import opened Properties
  import opened Atoms

  /** The boundary letters of one axis, lower side then upper side: `p` periodic,
      `f` fixed, `s` shrink-wrapped, `m` shrink-wrapped with a minimum; the reader
      starts with `u` for "unset". */
  datatype Sides = Sides(lower: char, upper: char)

  type Sides3 = s: seq<Sides> | |s| == 3 witness [Sides('u', 'u'), Sides('u', 'u'), Sides('u', 'u')]

  type Real3 = s: seq<real> | |s| == 3 witness [0.0, 0.0, 0.0]

  /** The box of the current frame: boundary letters and lower and upper bounds per
      axis, index 0 for x, 1 for y and 2 for z. */
  datatype Box = Box(boundaries: Sides3, lo: Real3, hi: Real3)

  /** One conditional shift by the box length: up when below `lo` and the lower side
      is periodic, otherwise down when at or above `hi` and the upper side is periodic. */
  function Wrap(v: real, lo: real, hi: real, lowerPeriodic: bool, upperPeriodic: bool): (w: real)
    ensures w == v || w == v + (hi - lo) || w == v - (hi - lo)
    ensures lo <= v < hi ==> w == v
    ensures !lowerPeriodic && !upperPeriodic ==> w == v
    ensures upperPeriodic && v == hi && lo <= hi ==> w == lo
    ensures lo < hi && lowerPeriodic && lo - (hi - lo) <= v < lo ==> lo <= w < hi
    ensures lo < hi && upperPeriodic && hi <= v < hi + (hi - lo) ==> lo <= w < hi
  {
    if lowerPeriodic && v < lo then v + (hi - lo)
    else if upperPeriodic && v >= hi then v - (hi - lo)
    else v
  }

  /** The coordinates the reader wraps: unscaled `x`, `y`, `z` and scaled `xs`,
      `ys`, `zs`. Unwrapped coordinates are never corrected. */
  predicate IsWrapped(p: Property) {
    p == X || p == Y || p == Z || p == Xs || p == Ys || p == Zs
  }

  /** The axis a wrapped coordinate lies along. */
  function AxisOf(p: Property): (a: nat)
    requires IsWrapped(p)
    ensures a < 3
  {
    if p == X || p == Xs then 0 else if p == Y || p == Ys then 1 else 2
  }

  /** The range a wrapped coordinate is brought into: the box's bounds for an unscaled
      coordinate and the unit interval for a scaled one. */
  function RangeOf(p: Property, box: Box): (bounds: (real, real))
    requires IsWrapped(p)
  {
    if p == X || p == Y || p == Z then (box.lo[AxisOf(p)], box.hi[AxisOf(p)]) else (0.0, 1.0)
  }

  /** The correction of a value read for property `p`: a wrapped coordinate is
      shifted into its range along its axis's periodic sides; any other value is
      returned as read. */
  function CorrectCoordinate(p: Property, v: real, box: Box): (w: real)
    ensures !IsWrapped(p) ==> w == v
    ensures IsWrapped(p) ==> var (lo, hi) := RangeOf(p, box);
      var sides := box.boundaries[AxisOf(p)];
      && (w == v || w == v + (hi - lo) || w == v - (hi - lo))
      && (lo <= v < hi ==> w == v)
      && (sides.lower != 'p' && sides.upper != 'p' ==> w == v)
  {
    if IsWrapped(p) then
      var (lo, hi) := RangeOf(p, box);
      var sides := box.boundaries[AxisOf(p)];
      Wrap(v, lo, hi, sides.lower == 'p', sides.upper == 'p')
    else v
  }

  /** A corrected coordinate lies in its half-open range whenever both sides of its
      axis are periodic and it was read at most one box length outside. */
  lemma CorrectedCoordinateInRange(p: Property, v: real, box: Box)
    requires IsWrapped(p)
    requires var (lo, hi) := RangeOf(p, box); lo < hi && lo - (hi - lo) <= v < hi + (hi - lo)
    requires box.boundaries[AxisOf(p)] == Sides('p', 'p')
    ensures var (lo, hi) := RangeOf(p, box); lo <= CorrectCoordinate(p, v, box) < hi
  {
  }

  /** The correction text mode applies after storing the value of property `prop`:
      one branch per side of each wrapped coordinate, tried in turn. The branch for the
      upper side of `zs` subtracts one from the `z` slot and leaves `zs` as it was. */
  function TextCorrection(ad: AtomData, prop: string, box: Box): AtomData {
    var b, lo, hi := box.boundaries, box.lo, box.hi;
    var P := (c: char) => c == 'p';
    if prop == "x" && P(b[0].lower) && GetReal(ad, X) < lo[0] then SetReal(ad, X, GetReal(ad, X) + (hi[0] - lo[0]))
    else if prop == "x" && P(b[0].upper) && GetReal(ad, X) >= hi[0] then SetReal(ad, X, GetReal(ad, X) - (hi[0] - lo[0]))
    else if prop == "y" && P(b[1].lower) && GetReal(ad, Y) < lo[1] then SetReal(ad, Y, GetReal(ad, Y) + (hi[1] - lo[1]))
    else if prop == "y" && P(b[1].upper) && GetReal(ad, Y) >= hi[1] then SetReal(ad, Y, GetReal(ad, Y) - (hi[1] - lo[1]))
    else if prop == "z" && P(b[2].lower) && GetReal(ad, Z) < lo[2] then SetReal(ad, Z, GetReal(ad, Z) + (hi[2] - lo[2]))
    else if prop == "z" && P(b[2].upper) && GetReal(ad, Z) >= hi[2] then SetReal(ad, Z, GetReal(ad, Z) - (hi[2] - lo[2]))
    else if prop == "xs" && P(b[0].lower) && GetReal(ad, Xs) < 0.0 then SetReal(ad, Xs, GetReal(ad, Xs) + 1.0)
    else if prop == "xs" && P(b[0].upper) && GetReal(ad, Xs) >= 1.0 then SetReal(ad, Xs, GetReal(ad, Xs) - 1.0)
    else if prop == "ys" && P(b[1].lower) && GetReal(ad, Ys) < 0.0 then SetReal(ad, Ys, GetReal(ad, Ys) + 1.0)
    else if prop == "ys" && P(b[1].upper) && GetReal(ad, Ys) >= 1.0 then SetReal(ad, Ys, GetReal(ad, Ys) - 1.0)
    else if prop == "zs" && P(b[2].lower) && GetReal(ad, Zs) < 0.0 then SetReal(ad, Zs, GetReal(ad, Zs) + 1.0)
    else if prop == "zs" && P(b[2].upper) && GetReal(ad, Zs) >= 1.0 then SetReal(ad, Z, GetReal(ad, Z) - 1.0)
    else ad
  }

  /** The intended correction of slot `p` in place: the slot's value replaced by its
      corrected value, every other slot untouched. */
  function CorrectSlot(ad: AtomData, p: Property, box: Box): (r: AtomData)
    requires p != NullProperty
    ensures IsWrapped(p) ==> GetReal(r, p) == CorrectCoordinate(p, GetReal(ad, p), box)
    ensures forall q :: q != NullProperty && q != p ==> Get(r, q) == Get(ad, q)
    ensures !IsWrapped(p) ==> r == ad
  {
    if IsWrapped(p) then SetReal(ad, p, CorrectCoordinate(p, GetReal(ad, p), box)) else ad
  }

  /** For every property name other than `zs`, text mode's correction is the intended
      correction of the slot the name resolves to; names that resolve to no slot leave
      the record alone. */
  lemma TextCorrectionAgreesExceptZs(ad: AtomData, prop: string, box: Box)
    requires prop != "zs"
    ensures var p := StringToProperty(prop);
      TextCorrection(ad, prop, box) == (if p == NullProperty then ad else CorrectSlot(ad, p, box))
  {
    if prop == "x" { TextCorrectionOfX(ad, box); }
    else if prop == "y" { TextCorrectionOfY(ad, box); }
    else if prop == "z" { TextCorrectionOfZ(ad, box); }
    else if prop == "xs" { TextCorrectionOfXs(ad, box); }
    else if prop == "ys" { TextCorrectionOfYs(ad, box); }
    else { TextCorrectionOfOthers(ad, prop, box); }
  }

  /** A name other than the six coordinate names leaves the record alone, and
      resolves to no wrapped coordinate. */
  lemma TextCorrectionOfOthers(ad: AtomData, prop: string, box: Box)
    requires prop !in {"x", "y", "z", "xs", "ys", "zs"}
    ensures TextCorrection(ad, prop, box) == ad
    ensures !IsWrapped(StringToProperty(prop))
  {
    WrappedNames(prop);
  }

  /** Only the six coordinate names resolve to wrapped coordinates. */
  lemma WrappedNames(prop: string)
    ensures IsWrapped(StringToProperty(prop)) ==> prop in {"x", "y", "z", "xs", "ys", "zs"}
  {
    ResolvedNameMatches(prop);
  }

  lemma TextCorrectionOfX(ad: AtomData, box: Box)
    ensures TextCorrection(ad, "x", box) == CorrectSlot(ad, X, box)
  {
  }

  lemma TextCorrectionOfY(ad: AtomData, box: Box)
    ensures TextCorrection(ad, "y", box) == CorrectSlot(ad, Y, box)
  {
    assert "y" != "x";
  }

  lemma TextCorrectionOfZ(ad: AtomData, box: Box)
    ensures TextCorrection(ad, "z", box) == CorrectSlot(ad, Z, box)
  {
    assert "z" != "x" && "z" != "y";
  }

  lemma TextCorrectionOfXs(ad: AtomData, box: Box)
    ensures TextCorrection(ad, "xs", box) == CorrectSlot(ad, Xs, box)
  {
    assert "xs" != "x" && "xs" != "y" && "xs" != "z";
  }

  lemma TextCorrectionOfYs(ad: AtomData, box: Box)
    ensures TextCorrection(ad, "ys", box) == CorrectSlot(ad, Ys, box)
  {
    assert "ys" != "x" && "ys" != "y" && "ys" != "z" && "ys" != "xs";
  }

  /** For `zs` the lower side is corrected as intended, but on the upper side the
      correction lands on `z`: `zs` keeps the value read and `z` drops by one. */
  lemma TextCorrectionOfZs(ad: AtomData, box: Box)
    ensures var b := box.boundaries[2];
      var r := TextCorrection(ad, "zs", box);
      if b.lower == 'p' && GetReal(ad, Zs) < 0.0 then r == CorrectSlot(ad, Zs, box)
      else if b.upper == 'p' && GetReal(ad, Zs) >= 1.0 then
        && GetReal(r, Zs) == GetReal(ad, Zs)
        && GetReal(r, Z) == GetReal(ad, Z) - 1.0
        && forall q :: q != NullProperty && q != Z ==> Get(r, q) == Get(ad, q)
      else r == ad
  {
  }

  /** A concrete record on which the two corrections part: with periodic z sides and
      `zs` read as 1.5, text mode leaves `zs` at 1.5, outside the unit interval, and
      moves `z` instead, where the intended correction gives 0.5. */
  lemma ZsUpperWrapMissesZs()
    ensures var box := Box([Sides('p', 'p'), Sides('p', 'p'), Sides('p', 'p')], [0.0, 0.0, 0.0], [10.0, 10.0, 10.0]);
      var ad := SetReal(Zero(), Zs, 1.5);
      && GetReal(TextCorrection(ad, "zs", box), Zs) == 1.5
      && GetReal(TextCorrection(ad, "zs", box), Z) == -1.0
      && GetReal(CorrectSlot(ad, Zs, box), Zs) == 0.5
  {
    var box := Box([Sides('p', 'p'), Sides('p', 'p'), Sides('p', 'p')], [0.0, 0.0, 0.0], [10.0, 10.0, 10.0]);
    var ad := SetReal(Zero(), Zs, 1.5);
    assert GetReal(ad, Z) == 0.0;
    TextCorrectionOfZs(ad, box);
  }
}
