/**
 * Reputation and karma display helpers: rescaling a 0-100 trustability to a
 * 0-5 reputation, the five colour bands of a comment's badge and card, the coarse
 * "time ago" label of a comment and the clamping step of the EXP sampler.
 *
 * Scores are exact reals: IEEE-754 rounding is not modelled, and neither are
 * NaN and the infinities (a NaN reputation fails every `>=` test in the
 * source and so would land in the red band).
 */
module ReputationUtils {
  import Decimal

  /** `Math.min` on exact reals. */
  function Min(a: real, b: real): (m: real)
    ensures m <= a && m <= b
    ensures m == a || m == b
  {
    if a <= b then a else b
  }

  /** `Math.max` on exact reals. */
  function Max(a: real, b: real): (m: real)
    ensures m >= a && m >= b
    ensures m == a || m == b
  {
    if a >= b then a else b
  }

  // ---------------------------------------------------------------------------
  // normalizeReputation
  // ---------------------------------------------------------------------------

  const MaxTrustability: real := 100.0
  const MaxReputation: real := 5.0

  /**
   * Rescales trustability (nominally 0-100) linearly to reputation (0-5),
   * saturating outside that range.
   */
  function NormalizeReputation(trustability: real): (r: real)
    ensures 0.0 <= r <= MaxReputation
    ensures 0.0 <= trustability <= MaxTrustability ==> r * 20.0 == trustability
    ensures trustability <= 0.0 ==> r == 0.0
    ensures trustability >= MaxTrustability ==> r == MaxReputation
  {
    Min(5.0, Max(0.0, (trustability / 100.0) * 5.0))
  }

  /** A higher trustability never yields a lower reputation. */
  lemma NormalizeMonotone(t1: real, t2: real)
    requires t1 <= t2
    ensures NormalizeReputation(t1) <= NormalizeReputation(t2)
  {
  }

  /** Every reputation in [0, 5] is reached, from exactly 20 times itself. */
  lemma NormalizeOnto(r: real)
    requires 0.0 <= r <= MaxReputation
    ensures NormalizeReputation(r * 20.0) == r
  {
  }

  // ---------------------------------------------------------------------------
  // getReputationColor / getReputationBgColor
  // ---------------------------------------------------------------------------

  /** Badge colours by band index: red, orange, yellow, lime, green (Tailwind 500). */
  const ForegroundPalette: seq<string> := ["#EF4444", "#F97316", "#EAB308", "#84CC16", "#22C55E"]
  /** Badge backgrounds by band index: the matching Tailwind 100 shades. */
  const BackgroundPalette: seq<string> := ["#FEE2E2", "#FFEDD5", "#FEF9C3", "#ECFCCB", "#D1FAE5"]

  /**
   * The reference banding: the integer part of the reputation, clamped to
   * 0..4.  Band b covers [b, b + 1), except that band 0 extends down to
   * minus infinity and band 4 up to plus infinity.
   */
  function Band(reputation: real): (b: nat)
    ensures b <= 4
    ensures b == 0 || b as real <= reputation
    ensures b == 4 || reputation < (b + 1) as real
  {
    var whole := reputation.Floor;
    if whole < 0 then 0 else if whole > 4 then 4 else whole
  }

  /** The two bound conditions of Band pick out exactly one index. */
  lemma BandUnique(reputation: real, b: nat)
    requires b <= 4
    requires b == 0 || b as real <= reputation
    requires b == 4 || reputation < (b + 1) as real
    ensures b == Band(reputation)
  {
  }

  /** Bands are monotone: a higher reputation never falls in a lower band. */
  lemma BandMonotone(r1: real, r2: real)
    requires r1 <= r2
    ensures Band(r1) <= Band(r2)
  {
  }

  /** Colour of the commenter's username badge. */
  function ReputationColor(reputation: real): (c: string)
    ensures c == ForegroundPalette[Band(reputation)]
  {
    if reputation >= 4.0 then "#22C55E"
    else if reputation >= 3.0 then "#84CC16"
    else if reputation >= 2.0 then "#EAB308"
    else if reputation >= 1.0 then "#F97316"
    else "#EF4444"
  }

  /** Fill colour of the whole comment card (a lighter shade of the badge colour). */
  function ReputationBgColor(reputation: real): (c: string)
    ensures c == BackgroundPalette[Band(reputation)]
  {
    if reputation >= 4.0 then "#D1FAE5"
    else if reputation >= 3.0 then "#ECFCCB"
    else if reputation >= 2.0 then "#FEF9C3"
    else if reputation >= 1.0 then "#FFEDD5"
    else "#FEE2E2"
  }

  /** The five colours of a palette are pairwise distinct. */
  lemma PalettesDistinct(i: nat, j: nat)
    requires i <= 4 && j <= 4
    ensures ForegroundPalette[i] == ForegroundPalette[j] <==> i == j
    ensures BackgroundPalette[i] == BackgroundPalette[j] <==> i == j
  {
    if i != j {
      // the third character of the foreground colours and the fifth of the
      // background colours already differ
      assert ForegroundPalette[i][2] != ForegroundPalette[j][2];
      assert BackgroundPalette[i][4] != BackgroundPalette[j][4];
    }
  }

  /**
   * Foreground and background use the same thresholds: two reputations get
   * the same badge colour exactly when they get the same card fill, and
   * both exactly when they fall in the same band.
   */
  lemma ColorsShareBands(r1: real, r2: real)
    ensures ReputationColor(r1) == ReputationColor(r2) <==> Band(r1) == Band(r2)
    ensures ReputationBgColor(r1) == ReputationBgColor(r2) <==> Band(r1) == Band(r2)
  {
    PalettesDistinct(Band(r1), Band(r2));
  }

  /** The lower bound of every band is inclusive, as the source's `>=` tests say. */
  lemma ColorExamples()
    ensures ReputationColor(4.0) == "#22C55E"
    ensures ReputationColor(3.0) == "#84CC16"
    ensures ReputationColor(2.99) == "#EAB308"
    ensures ReputationColor(1.0) == "#F97316"
    ensures ReputationColor(0.5) == "#EF4444"
    ensures ReputationColor(-3.0) == "#EF4444" && ReputationBgColor(-3.0) == "#FEE2E2"
    ensures ReputationColor(7.5) == "#22C55E" && ReputationBgColor(7.5) == "#D1FAE5"
  {
  }

  /** Band of a normalised trustability: one band per 20 points, saturating. */
  lemma TrustabilityBand(trustability: real)
    ensures Band(NormalizeReputation(trustability)) == Band(trustability / 20.0)
  {
  }

  // ---------------------------------------------------------------------------
  // formatTimeAgo
  // ---------------------------------------------------------------------------

  datatype TimeUnit = Seconds | Minutes | Hours | Days | Months | Years

  /** Length of a unit in seconds: fixed 30-day months and 365-day years. */
  function UnitSeconds(u: TimeUnit): (n: nat)
    ensures n >= 1
  {
    match u
    case Seconds => 1
    case Minutes => 60
    case Hours => 3600
    case Days => 86400
    case Months => 2592000
    case Years => 31536000
  }

  /** Position of a unit from the finest (0) to the coarsest (5). */
  function Rank(u: TimeUnit): nat {
    match u
    case Seconds => 0
    case Minutes => 1
    case Hours => 2
    case Days => 3
    case Months => 4
    case Years => 5
  }

  /** Ranks order units by length. */
  lemma RankOrdersLength(u: TimeUnit, v: TimeUnit)
    ensures Rank(u) < Rank(v) <==> UnitSeconds(u) < UnitSeconds(v)
  {
  }

  /** The unit's abbreviation; the label adds " ago" after it. */
  function UnitLabel(u: TimeUnit): (abbrev: string)
    ensures |abbrev| >= 1 && abbrev[|abbrev| - 1] == UnitMark(u)
  {
    match u
    case Seconds => "s"
    case Minutes => "m"
    case Hours => "h"
    case Days => "d"
    case Months => "mo"
    case Years => "y"
  }

  /** No two units share an abbreviation. */
  lemma UnitLabelsDistinct(u: TimeUnit, v: TimeUnit)
    ensures UnitLabel(u) == UnitLabel(v) <==> u == v
  {
    if UnitLabel(u) == UnitLabel(v) {
      assert UnitMark(u) == UnitMark(v);
    }
  }

  /** An amount of a unit, as displayed. */
  datatype TimeAgo = TimeAgo(amount: int, unit: TimeUnit)

  /**
   * Whole seconds elapsed: `Math.floor(ms / 1000)`; Dafny's `/` on `int`
   * with a positive divisor already rounds toward minus infinity.
   */
  function ElapsedSeconds(elapsedMs: int): (s: int)
    ensures s * 1000 <= elapsedMs < s * 1000 + 1000
  {
    elapsedMs / 1000
  }

  /**
   * A unit is eligible when the elapsed seconds are strictly more than one
   * such unit; the seconds fallback is always eligible.
   */
  predicate Exceeds(seconds: int, u: TimeUnit) {
    u == Seconds || seconds > UnitSeconds(u)
  }

  /**
   * The amount and unit formatTimeAgo displays for `elapsedMs` milliseconds
   * between the timestamp and now (the clock read becomes this parameter).
   * Follows the source: real quotients tested with `> 1` from years down to
   * minutes, then floored.  The result is the coarsest eligible unit, and the
   * amount is the whole number of such units.
   */
  function TimeAgoOf(elapsedMs: int): (t: TimeAgo)
    ensures Exceeds(ElapsedSeconds(elapsedMs), t.unit)
    ensures forall u :: Rank(u) > Rank(t.unit) ==> !Exceeds(ElapsedSeconds(elapsedMs), u)
    ensures t.amount == ElapsedSeconds(elapsedMs) / UnitSeconds(t.unit)
  {
    var seconds := ElapsedSeconds(elapsedMs);
    var years := seconds as real / 31536000.0;
    if years > 1.0 then TimeAgo(years.Floor, Years)
    else
      var months := seconds as real / 2592000.0;
      if months > 1.0 then TimeAgo(months.Floor, Months)
      else
        var days := seconds as real / 86400.0;
        if days > 1.0 then TimeAgo(days.Floor, Days)
        else
          var hours := seconds as real / 3600.0;
          if hours > 1.0 then TimeAgo(hours.Floor, Hours)
          else
            var minutes := seconds as real / 60.0;
            if minutes > 1.0 then TimeAgo(minutes.Floor, Minutes)
            else TimeAgo(seconds, Seconds)  // Math.floor of an integer is itself
  }

  /** The chosen unit is the longest one the elapsed seconds strictly exceed. */
  lemma TimeAgoLongestUnit(elapsedMs: int)
    ensures forall u :: Exceeds(ElapsedSeconds(elapsedMs), u) ==>
      UnitSeconds(u) <= UnitSeconds(TimeAgoOf(elapsedMs).unit)
  {
    var t := TimeAgoOf(elapsedMs);
    forall u | Exceeds(ElapsedSeconds(elapsedMs), u)
      ensures UnitSeconds(u) <= UnitSeconds(t.unit)
    {
      RankOrdersLength(t.unit, u);
    }
  }

  /** The two conditions on TimeAgoOf's unit determine it: no other unit meets them. */
  lemma TimeAgoUnitUnique(elapsedMs: int, u: TimeUnit)
    requires Exceeds(ElapsedSeconds(elapsedMs), u)
    requires forall v :: Rank(v) > Rank(u) ==> !Exceeds(ElapsedSeconds(elapsedMs), v)
    ensures u == TimeAgoOf(elapsedMs).unit
  {
  }

  /**
   * Every unit other than seconds shows a count of at least one and at most
   * the number of such units in the next coarser unit.
   */
  lemma TimeAgoAmountBounds(elapsedMs: int)
    ensures var t := TimeAgoOf(elapsedMs);
      t.unit != Seconds ==> 1 <= t.amount
    ensures var t := TimeAgoOf(elapsedMs);
      && (t.unit == Minutes ==> t.amount <= 60)
      && (t.unit == Hours ==> t.amount <= 24)
      && (t.unit == Days ==> t.amount <= 30)
      && (t.unit == Months ==> t.amount <= 12)
    ensures TimeAgoOf(elapsedMs).unit == Seconds ==> TimeAgoOf(elapsedMs).amount <= 60
  {
    var t := TimeAgoOf(elapsedMs);
    var s := ElapsedSeconds(elapsedMs);
    match t.unit
    case Years =>
    case Months => assert !Exceeds(s, Years);
    case Days => assert !Exceeds(s, Months);
    case Hours => assert !Exceeds(s, Days);
    case Minutes => assert !Exceeds(s, Hours);
    case Seconds => assert !Exceeds(s, Minutes);
  }

  /**
   * A timestamp in the future (negative elapsed time) always falls through
   * to the seconds branch, with the seconds floored toward minus infinity.
   */
  lemma FutureTimestampInSeconds(elapsedMs: int)
    requires elapsedMs < 0
    ensures TimeAgoOf(elapsedMs).unit == Seconds
    ensures TimeAgoOf(elapsedMs).amount < 0
    ensures TimeAgoOf(elapsedMs).amount * 1000 <= elapsedMs
  {
    assert !Exceeds(ElapsedSeconds(elapsedMs), Minutes);
  }

  /** The display string: the amount in decimal, the unit, then " ago". */
  function Render(t: TimeAgo): (s: string)
    ensures |s| >= 6 && s[|s| - 4..] == " ago"
  {
    var head := Decimal.IntToString(t.amount) + UnitLabel(t.unit);
    assert (head + " ago")[|head|..] == " ago";
    head + " ago"
  }

  /** The character just before " ago" tells the units apart ("mo" ends in 'o'). */
  function UnitMark(u: TimeUnit): char {
    match u
    case Seconds => 's'
    case Minutes => 'm'
    case Hours => 'h'
    case Days => 'd'
    case Months => 'o'
    case Years => 'y'
  }

  lemma RenderUnitMark(t: TimeAgo)
    ensures Render(t)[|Render(t)| - 5] == UnitMark(t.unit)
  {
    var abbrev := UnitLabel(t.unit);
    var head := Decimal.IntToString(t.amount) + abbrev;
    assert Render(t)[|Render(t)| - 5] == head[|head| - 1];
  }

  /** The display string determines the amount and the unit. */
  lemma RenderInjective(t1: TimeAgo, t2: TimeAgo)
    ensures Render(t1) == Render(t2) <==> t1 == t2
  {
    if Render(t1) == Render(t2) {
      RenderUnitMark(t1);
      RenderUnitMark(t2);
      assert t1.unit == t2.unit;
      var s := Render(t1);
      var n := |s| - |UnitLabel(t1.unit)| - 4;
      assert s[..n] == Decimal.IntToString(t1.amount);
      assert s[..n] == Decimal.IntToString(t2.amount);
      Decimal.IntToStringInjective(t1.amount, t2.amount);
    }
  }

  /** formatTimeAgo, with the elapsed milliseconds `now - date` as a parameter. */
  function FormatTimeAgo(elapsedMs: int): (s: string)
    ensures |s| >= 6 && s[|s| - 4..] == " ago"
    ensures s[0] == '-' <==> elapsedMs < 0
  {
    Render(TimeAgoOf(elapsedMs))
  }

  /** Two elapsed times are displayed alike exactly when amount and unit agree. */
  lemma FormatTimeAgoUnambiguous(ms1: int, ms2: int)
    ensures FormatTimeAgo(ms1) == FormatTimeAgo(ms2) <==> TimeAgoOf(ms1) == TimeAgoOf(ms2)
  {
    RenderInjective(TimeAgoOf(ms1), TimeAgoOf(ms2));
  }

  /*
   * Sample labels.  The test is strict, so a value exactly one unit long
   * stays in the next smaller unit ("60s ago", "24h ago"); a timestamp 1.5 s
   * in the future floors to -2 seconds.
   */

  lemma FormatTimeAgoSecondsExamples()
    ensures FormatTimeAgo(45000) == "45s ago"
    ensures FormatTimeAgo(60000) == "60s ago"
    ensures FormatTimeAgo(-1500) == "-2s ago"
  {
  }

  lemma FormatTimeAgoCoarserExamples()
    ensures FormatTimeAgo(90000) == "1m ago"
    ensures FormatTimeAgo(3700000) == "1h ago"
    ensures FormatTimeAgo(86400000) == "24h ago"
    ensures FormatTimeAgo(90000000) == "1d ago"
  {
    assert TimeAgoOf(90000) == TimeAgo(1, Minutes);
    assert TimeAgoOf(3700000) == TimeAgo(1, Hours);
    assert TimeAgoOf(86400000) == TimeAgo(24, Hours);
    assert TimeAgoOf(90000000) == TimeAgo(1, Days);
  }

  // ---------------------------------------------------------------------------
  // generateExp: the max(500, round(x)) step
  // ---------------------------------------------------------------------------

  const MinExp: int := 500

  /** JavaScript's Math.round: the nearest integer, halves rounded up. */
  function Round(x: real): (n: int)
    ensures n as real - 0.5 <= x < n as real + 0.5
  {
    (x + 0.5).Floor
  }

  /**
   * The EXP value generateExp derives from its normal sample x: the rounded
   * sample, but never below the floor of 500.
   */
  function ExpFromSample(x: real): (e: int)
    ensures e >= MinExp && e >= Round(x)
    ensures e == MinExp || e == Round(x)
    ensures e == Round(x) <==> x >= 499.5
  {
    var rounded := Round(x);
    if rounded >= 500 then rounded else 500
  }

  /** A larger sample never yields a smaller EXP value. */
  lemma ExpMonotone(x1: real, x2: real)
    requires x1 <= x2
    ensures ExpFromSample(x1) <= ExpFromSample(x2)
  {
  }
}
