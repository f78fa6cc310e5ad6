/**
 * The size matcher (generate_icon.py, `directory_matches_size` and
 * `directory_size_distance`): whether a theme subdirectory serves a
 * requested size and scale exactly, and how far it is from serving it.
 *
 * The functions here state the intended rule. The source as written differs
 * in three places, each flagged where it is modelled (the Threshold
 * pseudo-code is wrong in two ways, below and above the window, so these
 * make four findings):
 *  - the scale test compares against the literal "iconscale" (line 164);
 *  - the Threshold test reads the builtin `type` and uses `subdir.scale` as
 *    the half-width (lines 170-171);
 *  - the Threshold distance is left as pseudo-code that mixes in MinSize,
 *    MaxSize and `icon_size * icon_size` (lines 186-201).
 * `MatchesAsWritten` and `ThresholdDistanceAsWritten` keep the literal
 * versions, with lemmas exhibiting inputs on which they go wrong.
 */
module SizeMatcher {
  import opened Text

  /** The `Type` of a subdirectory. */
  datatype DirType = Fixed | Scalable | Threshold

  /** A subdirectory's size rule once its keys are read as numbers. */
  datatype SizeRule = SizeRule(
    kind: DirType,
    size: nat,
    minSize: nat,
    maxSize: nat,
    threshold: nat,
    scale: nat)

  /**
   * Whether the subdirectory serves icons of exactly `size` at `scale`.
   * (Line 164 compares the scale against the literal "iconscale"; the
   * intended comparison, with the subdirectory's own scale, is made here.
   * Line 170 tests the builtin `type` and line 171 uses the scale as the
   * half-width; the intended Threshold window uses the threshold.)
   */
  function Matches(rule: SizeRule, size: nat, scale: nat): (r: bool)
    ensures scale != rule.scale ==> !r
  {
    if scale != rule.scale then false
    else
      match rule.kind
      case Fixed => size == rule.size
      case Scalable => rule.minSize <= size <= rule.maxSize
      case Threshold => rule.size - rule.threshold <= size <= rule.size + rule.threshold
  }

  /** The smallest icon dimension (size times scale) the subdirectory serves without rescaling. */
  function Low(rule: SizeRule): int {
    match rule.kind
    case Fixed => rule.size * rule.scale
    case Scalable => rule.minSize * rule.scale
    case Threshold => (rule.size - rule.threshold) * rule.scale
  }

  /** The largest icon dimension the subdirectory serves without rescaling. */
  function High(rule: SizeRule): int {
    match rule.kind
    case Fixed => rule.size * rule.scale
    case Scalable => rule.maxSize * rule.scale
    case Threshold => (rule.size + rule.threshold) * rule.scale
  }

  /**
   * The Threshold distance (lines 196-201 with the evident intent): 0 inside
   * the scaled window `[(Size - Threshold) * Scale, (Size + Threshold) * Scale]`,
   * otherwise the distance to the nearer edge of that window.
   */
  function ThresholdDistance(rule: SizeRule, size: nat, scale: nat): (d: int)
    ensures d >= 0
    ensures d == 0 <==>
      (rule.size - rule.threshold) * rule.scale <= size * scale <= (rule.size + rule.threshold) * rule.scale
  {
    var dim := size * scale;
    if dim < (rule.size - rule.threshold) * rule.scale then (rule.size - rule.threshold) * rule.scale - dim
    else if dim > (rule.size + rule.threshold) * rule.scale then dim - (rule.size + rule.threshold) * rule.scale
    else 0
  }

  /**
   * How far the subdirectory is from serving `size` at `scale`, in scaled
   * pixels (`directory_size_distance`): Fixed at lines 177-178, Scalable at
   * lines 180-184 and 190-195 (0 inside the range, which the code leaves
   * unreturned), Threshold by `ThresholdDistance`.
   */
  function Distance(rule: SizeRule, size: nat, scale: nat): (d: int)
    ensures d >= 0
  {
    var dim := size * scale;
    match rule.kind
    case Fixed =>
      if rule.size * rule.scale >= dim then rule.size * rule.scale - dim else dim - rule.size * rule.scale
    case Scalable =>
      if dim < rule.minSize * rule.scale then rule.minSize * rule.scale - dim
      else if dim > rule.maxSize * rule.scale then dim - rule.maxSize * rule.scale
      else 0
    case Threshold => ThresholdDistance(rule, size, scale)
  }

  /** The distance from `x` to the interval `[lo, hi]`. */
  function DistanceToRange(lo: int, hi: int, x: int): int {
    if x < lo then lo - x else if x > hi then x - hi else 0
  }

  /**
   * For every type, the distance is the distance of `size * scale` to the
   * subdirectory's window `[Low, High]` of scaled sizes; it is 0 exactly
   * inside the window.
   */
  lemma DistanceIsDistanceToWindow(rule: SizeRule, size: nat, scale: nat)
    ensures Distance(rule, size, scale) == DistanceToRange(Low(rule), High(rule), size * scale)
    ensures Distance(rule, size, scale) == 0 <==> Low(rule) <= size * scale <= High(rule)
  {
  }

  /** Multiplying by a positive scale preserves the order of sizes. */
  lemma {:induction false} ScaleMonotone(a: int, b: int, s: int)
    requires s > 0
    ensures a <= b <==> a * s <= b * s
    ensures a < b <==> a * s < b * s
  {
    if a <= b {
      assert (b - a) * s >= 0;
    } else {
      assert (a - b) * s > 0;
    }
    assert b * s - a * s == (b - a) * s;
  }

  /**
   * At the subdirectory's own scale an exact match and a zero distance are
   * the same thing, for every type; in particular a Fixed subdirectory
   * matches its own size at distance 0.
   */
  lemma {:induction false} MatchesIffZeroDistance(rule: SizeRule, size: nat, scale: nat)
    requires scale == rule.scale && scale > 0
    ensures Matches(rule, size, scale) <==> Distance(rule, size, scale) == 0
    ensures rule.kind == Fixed ==> Matches(rule, rule.size, scale) && Distance(rule, rule.size, scale) == 0
  {
    DistanceIsDistanceToWindow(rule, size, scale);
    match rule.kind
    case Fixed =>
      ScaleMonotone(size, rule.size, scale);
      ScaleMonotone(rule.size, size, scale);
    case Scalable =>
      ScaleMonotone(rule.minSize, size, scale);
      ScaleMonotone(size, rule.maxSize, scale);
    case Threshold =>
      ScaleMonotone(rule.size - rule.threshold, size, scale);
      ScaleMonotone(size, rule.size + rule.threshold, scale);
  }

  /**
   * Below the window the distance strictly decreases as the requested size
   * grows towards it; above the window it strictly increases as the size
   * moves away (both sizes strictly outside a non-empty window; a Scalable
   * directory with MinSize above MaxSize has an empty one).
   */
  lemma {:induction false} DistanceMonotoneOutsideWindow(rule: SizeRule, s1: nat, s2: nat, scale: nat)
    requires scale > 0 && s1 < s2
    ensures s2 * scale < Low(rule) ==> Distance(rule, s1, scale) > Distance(rule, s2, scale)
    ensures Low(rule) <= High(rule) < s1 * scale ==> Distance(rule, s1, scale) < Distance(rule, s2, scale)
  {
    ScaleMonotone(s1, s2, scale);
    DistanceIsDistanceToWindow(rule, s1, scale);
    DistanceIsDistanceToWindow(rule, s2, scale);
  }

  // ---------------------------------------------------------------------
  // The code as written
  // ---------------------------------------------------------------------

  /**
   * `directory_matches_size` as written (lines 163-171), with the scale as
   * the text the source receives: the scale is compared with the literal
   * "iconscale", and the Threshold branch is never taken because it tests
   * the builtin `type`. Only those two lines (164 and 170) are kept literal:
   * sizes are compared as numbers, where the code compares the `str` it read
   * with an `int`, and types by equality, where the code uses `is`.
   */
  function MatchesAsWritten(rule: SizeRule, size: nat, scaleText: string): bool {
    if scaleText != "iconscale" then false
    else
      match rule.kind
      case Fixed => size == rule.size
      case Scalable => rule.minSize <= size <= rule.maxSize
      case Threshold => false
  }

  /** As written, no directory ever matches a scale given as a number. */
  lemma AsWrittenNeverMatchesNumericScale(rule: SizeRule, size: nat, scale: nat)
    ensures !MatchesAsWritten(rule, size, NatToString(scale))
  {
    var t := NatToString(scale);
    assert IsDigit(t[0]) && !IsDigit("iconscale"[0]);
  }

  /**
   * A Fixed 16-pixel directory at scale 1 is the exact match for a request
   * of 16 at scale 1, yet the code as written rejects it.
   */
  lemma AsWrittenRejectsExactScale()
    ensures var rule := SizeRule(Fixed, 16, 16, 16, 2, 1);
      Matches(rule, 16, 1) && !MatchesAsWritten(rule, 16, "1")
  {
  }

  /** As written, a Threshold directory never matches, whatever the size and the scale text. */
  lemma AsWrittenNeverMatchesThreshold(rule: SizeRule, size: nat, scaleText: string)
    requires rule.kind == Threshold
    ensures !MatchesAsWritten(rule, size, scaleText)
  {
  }

  /**
   * A Threshold directory of size 16 is an exact match for 16, yet even with
   * the scale text the code expects, the code as written rejects it.
   */
  lemma AsWrittenRejectsThresholdAtOwnSize()
    ensures var rule := SizeRule(Threshold, 16, 16, 16, 2, 1);
      Matches(rule, 16, 1) && !MatchesAsWritten(rule, 16, "iconscale")
  {
  }

  /** The Threshold distance of lines 196-201 as written. */
  function ThresholdDistanceAsWritten(rule: SizeRule, size: nat, scale: nat): int {
    if size * scale < (rule.size - rule.threshold) * rule.scale then rule.minSize * rule.scale - size * scale
    else if size * size > (rule.size + rule.threshold) * rule.scale then size * size - rule.maxSize * rule.scale
    else 0
  }

  /**
   * Below the window the written rule measures from MinSize, not from the
   * window's edge: with an explicit `MinSize=5` on a Threshold directory of
   * size 10, a request of 6 gets a NEGATIVE distance, which would beat every
   * genuine match in the closest-match scan.
   */
  lemma ThresholdDistanceAsWrittenGoesNegative()
    ensures var rule := SizeRule(Threshold, 10, 5, 10, 2, 1);
      ThresholdDistanceAsWritten(rule, 6, 1) == -1 && Distance(rule, 6, 1) == 2
  {
  }

  /**
   * Above the window the written rule squares the size instead of scaling
   * it: a request of 5 at scale 2 against a size-4 directory measures 21
   * where the scaled distance is 4.
   */
  lemma ThresholdDistanceAsWrittenSquaresSize()
    ensures var rule := SizeRule(Threshold, 4, 4, 4, 2, 1);
      ThresholdDistanceAsWritten(rule, 5, 2) == 21 && Distance(rule, 5, 2) == 4
  {
  }
}
