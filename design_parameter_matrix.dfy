/**
  The Phase 1 design-parameter model: for a population of N faces shown E
  times each, four faces per trial panel, the trial count, the session
  duration, the expected number of clicks on one face, the probability of
  clicking a given face at least once, and how far the minority colour group
  of an 80/20 split is from the 70 % good-face target once its good-face
  count is rounded. The drawing code's colour and highlight choices are
  modelled as the classification functions they amount to.

  All reals here are exact rationals: 0.2 is 1/5 and 0.7 is 7/10.
*/
module DesignParameterMatrix {
  import opened Common

  // ---------------------------------------------------------------------------
  // Experiment constants and the parameter space
  // ---------------------------------------------------------------------------

  const FACES_PER_TRIAL: nat := 4
  const SEC_PER_TRIAL: nat := 5
  const MINORITY_RATIO: real := 0.2
  const GOOD_RATIO: real := 0.7

  const FaceOptions: seq<nat> := [20, 40, 60, 80, 100]
  const ExposureOptions: seq<nat> := [4, 6, 8, 10, 12, 16, 20]

  /** A named (N, E) point highlighted on the chart, with its marker and edge colour. */
  datatype Config = Config(name: string, n: int, e: int, marker: string, edgeColour: string)

  /** The named configurations, in the dictionary's insertion order. */
  const Configs: seq<Config> := [
    Config("Current (N=100, E=12)", 100, 12, "★", "#1a1a1a"),
    Config("Proposed (N=40, E=12)", 40, 12, "●", "#2c7bb6")
  ]

  // ---------------------------------------------------------------------------
  // Closed-form helpers
  // ---------------------------------------------------------------------------

  /** `(n * e) // FACES_PER_TRIAL`: the largest whole number of full trials. */
  function TotalTrials(n: int, e: int): (t: int)
    ensures t * FACES_PER_TRIAL <= n * e < (t + 1) * FACES_PER_TRIAL
  {
    (n * e) / FACES_PER_TRIAL
  }

  /** Minutes needed to run all trials at SEC_PER_TRIAL seconds each. */
  function DurationMin(n: int, e: int): (minutes: real)
  {
    TotalTrials(n, e) as real * SEC_PER_TRIAL as real / 60.0
  }

  /** Expected number of clicks on one given face over its E appearances. */
  function EInteractions(e: int): (x: real)
    ensures x * FACES_PER_TRIAL as real == e as real
  {
    e as real / FACES_PER_TRIAL as real
  }

  /** `(1 - 1/FACES_PER_TRIAL) ** e`: the chance that a given face is never clicked. */
  function MissProbability(e: nat): (q: real)
  {
    if e == 0 then 1.0 else (1.0 - 1.0 / FACES_PER_TRIAL as real) * MissProbability(e - 1)
  }

  /** P(a given face is clicked at least once in its E appearances). */
  function PAtLeastOne(e: nat): (p: real)
  {
    1.0 - MissProbability(e)
  }

  /**
    The deviation, in percentage points, of the minority group's rounded
    good-face share from GOOD_RATIO; None when N * MINORITY_RATIO is not whole.
    N = 0 makes the source divide by zero, hence the precondition.
  */
  function MinorityDeviation(n: int): (dev: Option<real>)
    requires n != 0
  {
    var minority := n as real * MINORITY_RATIO;
    if minority != Trunc(minority) as real then None
    else Some(SplitDeviation(Trunc(minority)))
  }

  /** The deviation for a whole minority count m: round m * 0.7, divide by m, compare to 0.7. */
  function SplitDeviation(m: int): (dev: real)
    requires m != 0
  {
    var goodExact := m as real * GOOD_RATIO;
    var goodRounded := RoundHalfEven(goodExact);
    var actualRatio := goodRounded as real / m as real;
    (actualRatio - GOOD_RATIO) * 100.0
  }

  // ---------------------------------------------------------------------------
  // Grids (the list comprehensions)
  // ---------------------------------------------------------------------------

  /** Row i, column j holds the trial count for (ns[i], es[j]). */
  function TrialsGrid(ns: seq<nat>, es: seq<nat>): (g: seq<seq<int>>)
    ensures |g| == |ns|
    ensures forall i :: 0 <= i < |ns| ==> |g[i]| == |es|
    ensures forall i, j :: 0 <= i < |ns| && 0 <= j < |es| ==> g[i][j] == TotalTrials(ns[i], es[j])
  {
    seq(|ns|, i requires 0 <= i < |ns| => seq(|es|, j requires 0 <= j < |es| => TotalTrials(ns[i], es[j])))
  }

  /** Row i, column j holds the duration in minutes for (ns[i], es[j]). */
  function DurationGrid(ns: seq<nat>, es: seq<nat>): (g: seq<seq<real>>)
    ensures |g| == |ns|
    ensures forall i :: 0 <= i < |ns| ==> |g[i]| == |es|
    ensures forall i, j :: 0 <= i < |ns| && 0 <= j < |es| ==> g[i][j] == DurationMin(ns[i], es[j])
  {
    seq(|ns|, i requires 0 <= i < |ns| => seq(|es|, j requires 0 <= j < |es| => DurationMin(ns[i], es[j])))
  }

  /** P(>=1) in percent, one value per exposure option. */
  function P1Values(es: seq<nat>): (p: seq<real>)
    ensures |p| == |es|
    ensures forall j :: 0 <= j < |es| ==> p[j] == PAtLeastOne(es[j]) * 100.0
  {
    seq(|es|, j requires 0 <= j < |es| => PAtLeastOne(es[j]) * 100.0)
  }

  /** The largest entry of a non-empty row (`numpy` raises on an empty one). */
  function RowMax(row: seq<real>): (m: real)
    requires |row| > 0
    ensures exists j :: 0 <= j < |row| && row[j] == m
    ensures forall j :: 0 <= j < |row| ==> row[j] <= m
  {
    if |row| == 1 then row[0]
    else
      var rest := RowMax(row[1..]);
      if row[0] >= rest then row[0] else rest
  }

  /** `grid.max()`: the largest entry of a non-empty grid with non-empty rows. */
  function GridMax(g: seq<seq<real>>): (m: real)
    requires |g| > 0 && forall i :: 0 <= i < |g| ==> |g[i]| > 0
    ensures exists i, j :: 0 <= i < |g| && 0 <= j < |g[i]| && g[i][j] == m
    ensures forall i, j :: 0 <= i < |g| && 0 <= j < |g[i]| ==> g[i][j] <= m
  {
    var first := RowMax(g[0]);
    if |g| == 1 then first
    else
      var rest := GridMax(g[1..]);
      assert forall i, j :: 1 <= i < |g| && 0 <= j < |g[i]| ==> g[i][j] == g[1..][i - 1][j];
      if first >= rest then first else rest
  }

  // ---------------------------------------------------------------------------
  // Classification rules of the drawing loops
  // ---------------------------------------------------------------------------

  datatype DeviationTier = SplitNotPossible | ExactSplit | MinorDeviation | MajorDeviation

  /** The row sub-label: its tier and, when a split exists, the good-face rate shown. */
  datatype RowLabel = RowLabel(tier: DeviationTier, goodRatePct: Option<real>)

  /** The branch of the row-label loop that picks text and colour from `dev`. */
  function ClassifyDeviation(dev: Option<real>): (row: RowLabel)
    ensures row.tier == SplitNotPossible <==> dev.None?
    ensures row.goodRatePct.Some? <==> dev.Some?
    ensures dev.Some? ==>
      && (row.tier == ExactSplit <==> Abs(dev.value) < 0.01)
      && (row.tier == MinorDeviation <==> 0.01 <= Abs(dev.value) <= 2.0)
      && (row.tier == MajorDeviation <==> Abs(dev.value) > 2.0)
      && row.goodRatePct == Some(GOOD_RATIO * 100.0 + dev.value)
  {
    match dev
    case None => RowLabel(SplitNotPossible, None)
    case Some(d) =>
      var tier := if Abs(d) < 0.01 then ExactSplit
                  else if Abs(d) <= 2.0 then MinorDeviation
                  else MajorDeviation;
      RowLabel(tier, Some(GOOD_RATIO * 100.0 + d))
  }

  /** Severity order of the numeric deviation tiers; a split that is not possible has none. */
  function DeviationSeverity(t: DeviationTier): nat
    requires t != SplitNotPossible
  {
    match t
    case ExactSplit => 0
    case MinorDeviation => 1
    case MajorDeviation => 2
  }

  datatype ProbTier = HighProb | MediumProb | LowProb

  /** The bar colour rule on P(>=1) in percent; both thresholds are inclusive. */
  function ClassifyProbability(pct: real): (t: ProbTier)
    ensures t == HighProb <==> pct >= 95.0
    ensures t == MediumProb <==> 85.0 <= pct < 95.0
    ensures t == LowProb <==> pct < 85.0
  {
    if pct >= 95.0 then HighProb else if pct >= 85.0 then MediumProb else LowProb
  }

  function ProbRank(t: ProbTier): nat
  {
    match t
    case LowProb => 0
    case MediumProb => 1
    case HighProb => 2
  }

  /** The bar colours, one per exposure option. */
  function BarTiers(es: seq<nat>): (ts: seq<ProbTier>)
    ensures |ts| == |es|
    ensures forall j :: 0 <= j < |es| ==> ts[j] == ClassifyProbability(P1Values(es)[j])
  {
    var p := P1Values(es);
    seq(|es|, j requires 0 <= j < |es| => ClassifyProbability(p[j]))
  }

  /**
    matplotlib `Normalize(vmin=0, vmax)` applied to d: d / vmax, and 0 when
    vmin == vmax (vmax < 0 would raise, hence the precondition).
  */
  function Normalized(d: real, vmax: real): real
    requires vmax >= 0.0
  {
    if vmax == 0.0 then 0.0 else d / vmax
  }

  /** Cell text is white when the normalised duration exceeds 0.55. */
  predicate TextIsWhite(d: real, maxD: real)
    requires maxD >= 0.0
  {
    Normalized(d, maxD * 1.05) > 0.55
  }

  /** What the cell loop decides for one cell: text colour, weight and highlight. */
  datatype CellStyle = CellStyle(white: bool, bold: bool, hit: Option<Config>)

  predicate ConfigMatches(c: Config, n: int, e: int)
  {
    n == c.n && e == c.e
  }

  /**
    The body of the cell loop: colour the text by normalised duration, then
    search the named configurations in order and stop at the first whose
    (N, E) is this cell's, making the text bold.
  */
  method StyleCell(configs: seq<Config>, n: int, e: int, d: real, maxD: real) returns (style: CellStyle)
    requires maxD >= 0.0
    ensures style.white == TextIsWhite(d, maxD)
    ensures style.bold <==> style.hit.Some?
    ensures style.hit.None? <==> forall k :: 0 <= k < |configs| ==> !ConfigMatches(configs[k], n, e)
    ensures style.hit.Some? ==>
      exists k :: 0 <= k < |configs| && configs[k] == style.hit.value && ConfigMatches(configs[k], n, e) &&
        forall k' :: 0 <= k' < k ==> !ConfigMatches(configs[k'], n, e)
  {
    var white := Normalized(d, maxD * 1.05) > 0.55;
    var bold := false;
    var hit: Option<Config> := None;
    var k := 0;
    while k < |configs|
      invariant 0 <= k <= |configs|
      invariant hit.None? && !bold
      invariant forall k' :: 0 <= k' < k ==> !ConfigMatches(configs[k'], n, e)
    {
      if n == configs[k].n && e == configs[k].e {
        hit := Some(configs[k]);
        bold := true;
        break;
      }
      k := k + 1;
    }
    style := CellStyle(white, bold, hit);
  }

  // ---------------------------------------------------------------------------
  // Properties of the trial count and the duration
  // ---------------------------------------------------------------------------

  /** More faces or more exposures never mean fewer trials. */
  lemma TotalTrialsMonotone(n1: nat, n2: nat, e1: nat, e2: nat)
    requires n1 <= n2 && e1 <= e2
    ensures TotalTrials(n1, e1) <= TotalTrials(n2, e2)
  {
    assert n1 * e1 <= n2 * e1 by {
      assert (n2 - n1) * e1 >= 0;
    }
    assert n2 * e1 <= n2 * e2 by {
      assert n2 * (e2 - e1) >= 0;
    }
  }

  /** The division truncates: trials are never rounded up past N*E/4. */
  lemma TotalTrialsNeverRoundsUp(n: int, e: int)
    ensures TotalTrials(n, e) as real <= (n * e) as real / FACES_PER_TRIAL as real
    ensures (n * e) % FACES_PER_TRIAL == 0 <==> TotalTrials(n, e) * FACES_PER_TRIAL == n * e
  {
  }

  /** The duration is exactly proportional to the trial count: 5 s per trial is 1/12 min. */
  lemma DurationProportional(n: int, e: int)
    ensures DurationMin(n, e) * 12.0 == TotalTrials(n, e) as real
    ensures DurationMin(n, e) * 60.0 == (TotalTrials(n, e) * SEC_PER_TRIAL) as real
  {
  }

  /** The longer design never takes less time. */
  lemma DurationMonotone(n1: nat, n2: nat, e1: nat, e2: nat)
    requires n1 <= n2 && e1 <= e2
    ensures DurationMin(n1, e1) <= DurationMin(n2, e2)
  {
    TotalTrialsMonotone(n1, n2, e1, e2);
  }

  /** The current configuration: N = 100, E = 12. */
  lemma CurrentConfigWorkedValues()
    ensures TotalTrials(100, 12) == 300
    ensures DurationMin(100, 12) == 25.0
    ensures EInteractions(12) == 3.0
    ensures 0.968 < PAtLeastOne(12) < 0.969
    ensures ClassifyProbability(PAtLeastOne(12) * 100.0) == HighProb
  {
    MissProbabilityValue(12);
    assert PowQuarterMiss(12) == 531441.0 / 16777216.0;
  }

  // ---------------------------------------------------------------------------
  // Properties of P(>=1)
  // ---------------------------------------------------------------------------

  lemma {:induction false} MissProbabilityInUnit(e: nat)
    ensures 0.0 < MissProbability(e) <= 1.0
    ensures e > 0 ==> MissProbability(e) < 1.0
  {
    if e > 0 {
      MissProbabilityInUnit(e - 1);
    }
  }

  lemma {:induction false} MissProbabilityDecreasing(e1: nat, e2: nat)
    requires e1 < e2
    ensures MissProbability(e2) < MissProbability(e1)
    decreases e2
  {
    MissProbabilityInUnit(e2 - 1);
    if e1 < e2 - 1 {
      MissProbabilityDecreasing(e1, e2 - 1);
    }
  }

  /** MissProbability(e) is (3/4)^e, computed as a fraction. */
  lemma {:induction false} MissProbabilityValue(e: nat)
    ensures MissProbability(e) == PowQuarterMiss(e)
    decreases e
  {
    if e > 0 {
      MissProbabilityValue(e - 1);
      var a, b := IntPow(3, e - 1) as real, IntPow(4, e - 1) as real;
      assert IntPow(3, e) as real == 3.0 * a && IntPow(4, e) as real == 4.0 * b;
      QuarterMissStep(a, b);
    }
  }

  lemma QuarterMissStep(a: real, b: real)
    requires b > 0.0
    ensures (3.0 * a) / (4.0 * b) == (1.0 - 1.0 / FACES_PER_TRIAL as real) * (a / b)
  {
  }

  /** 3^e / 4^e as the quotient of two integers. */
  function PowQuarterMiss(e: nat): real
  {
    IntPow(3, e) as real / IntPow(4, e) as real
  }

  function IntPow(b: nat, e: nat): (p: nat)
    ensures b > 0 ==> p > 0
  {
    if e == 0 then 1 else b * IntPow(b, e - 1)
  }

  /** P(>=1) is a probability strictly below one: [0, 1). */
  lemma PAtLeastOneInRange(e: nat)
    ensures 0.0 <= PAtLeastOne(e) < 1.0
    ensures PAtLeastOne(e) == 0.0 <==> e == 0
  {
    MissProbabilityInUnit(e);
  }

  /** Each further exposure strictly raises P(>=1). */
  lemma PAtLeastOneIncreasing(e1: nat, e2: nat)
    requires e1 < e2
    ensures PAtLeastOne(e1) < PAtLeastOne(e2)
  {
    MissProbabilityDecreasing(e1, e2);
  }

  /**
    P(>=1) never exceeds the expected number of clicks E/4 (Markov's
    inequality holds of the two derived columns).
  */
  lemma {:induction false} PAtLeastOneAtMostExpected(e: nat)
    ensures PAtLeastOne(e) <= EInteractions(e)
    decreases e
  {
    if e > 0 {
      PAtLeastOneAtMostExpected(e - 1);
      MissProbabilityInUnit(e - 1);
    }
  }

  /** With increasing exposure options the P(>=1) bars rise strictly. */
  lemma P1ValuesIncreasing(es: seq<nat>, j1: int, j2: int)
    requires forall a, b :: 0 <= a < b < |es| ==> es[a] < es[b]
    requires 0 <= j1 < j2 < |es|
    ensures P1Values(es)[j1] < P1Values(es)[j2]
  {
    PAtLeastOneIncreasing(es[j1], es[j2]);
  }

  /** A bar's tier never drops as the exposure count grows. */
  lemma ProbTierMonotone(e1: nat, e2: nat)
    requires e1 <= e2
    ensures ProbRank(ClassifyProbability(PAtLeastOne(e1) * 100.0)) <= ProbRank(ClassifyProbability(PAtLeastOne(e2) * 100.0))
  {
    if e1 < e2 {
      PAtLeastOneIncreasing(e1, e2);
    }
  }

  /** The bar colours of the chart: red, red, orange, orange, green, green, green. */
  lemma ExposureOptionBarTiers()
    ensures BarTiers(ExposureOptions) == [LowProb, LowProb, MediumProb, MediumProb, HighProb, HighProb, HighProb]
  {
    MissProbabilityValue(6);
    MissProbabilityValue(8);
    MissProbabilityValue(10);
    MissProbabilityValue(12);
    assert PowQuarterMiss(6) == 729.0 / 4096.0;
    assert PowQuarterMiss(8) == 6561.0 / 65536.0;
    assert PowQuarterMiss(10) == 59049.0 / 1048576.0;
    assert PowQuarterMiss(12) == 531441.0 / 16777216.0;
    PAtLeastOneIncreasing(4, 6);
    PAtLeastOneIncreasing(12, 16);
    PAtLeastOneIncreasing(12, 20);
    var ts := BarTiers(ExposureOptions);
    assert ts[0] == LowProb && ts[1] == LowProb;
    assert ts[2] == MediumProb && ts[3] == MediumProb;
    assert ts[4] == HighProb && ts[5] == HighProb && ts[6] == HighProb;
  }

  // ---------------------------------------------------------------------------
  // Properties of the minority split
  // ---------------------------------------------------------------------------

  /** The split is impossible exactly when N is not a multiple of 5. */
  lemma MinorityDeviationDefined(n: int)
    requires n != 0
    ensures MinorityDeviation(n).None? <==> n % 5 != 0
    ensures MinorityDeviation(n).Some? ==> MinorityDeviation(n).value == SplitDeviation(n / 5)
  {
    var minority := n as real * MINORITY_RATIO;
    if n % 5 == 0 {
      assert minority == (n / 5) as real;
    }
  }

  /**
    The deviation times the minority size is 100 times the rounding error of
    the good count, so it lies between -50 and 50.
  */
  lemma SplitDeviationBound(m: int)
    requires m != 0
    ensures SplitDeviation(m) * m as real == (RoundHalfEven(m as real * GOOD_RATIO) as real - m as real * GOOD_RATIO) * 100.0
    ensures -50.0 <= SplitDeviation(m) * m as real <= 50.0
  {
    var x := m as real * GOOD_RATIO;
    var r := RoundHalfEven(x) as real;
    assert -0.5 <= r - x <= 0.5;
    DeviationAlgebra(SplitDeviation(m), r, m as real);
  }

  /** The algebra behind the bound, apart from the rounding that produced r. */
  lemma DeviationAlgebra(dev: real, r: real, mr: real)
    requires mr != 0.0 && dev == (r / mr - GOOD_RATIO) * 100.0
    requires -0.5 <= r - mr * GOOD_RATIO <= 0.5
    ensures dev * mr == (r - mr * GOOD_RATIO) * 100.0
    ensures -50.0 <= dev * mr <= 50.0
  {
    RatioDeviationScaled(r, mr);
  }

  lemma RatioDeviationScaled(r: real, mr: real)
    requires mr != 0.0
    ensures (r / mr - GOOD_RATIO) * 100.0 * mr == (r - mr * GOOD_RATIO) * 100.0
  {
    var q := r / mr;
    assert q * mr == r;
    assert (q - GOOD_RATIO) * 100.0 * mr == 100.0 * (q * mr) - 100.0 * GOOD_RATIO * mr;
  }

  /** A whole minority count meets the 70 % target exactly precisely when it is a multiple of 10. */
  lemma SplitDeviationZeroIff(m: int)
    requires m != 0
    ensures SplitDeviation(m) == 0.0 <==> m % 10 == 0
  {
    var mr := m as real;
    var r := RoundHalfEven(mr * GOOD_RATIO);
    SplitDeviationBound(m);
    if SplitDeviation(m) == 0.0 {
      assert (r as real - mr * GOOD_RATIO) * 100.0 == 0.0;
      assert 10 * r == 7 * m;
      assert m == 10 * (3 * r - 2 * m);
    }
    if m % 10 == 0 {
      var q := m / 10;
      assert mr * GOOD_RATIO == (7 * q) as real;
      assert r == 7 * q;
      assert SplitDeviation(m) * mr == 0.0;
    }
  }

  /** The target 70 % is met exactly precisely when N is a multiple of 50. */
  lemma MinorityDeviationZeroIff(n: int)
    requires n != 0
    ensures MinorityDeviation(n) == Some(0.0) <==> n % 50 == 0
  {
    MinorityDeviationDefined(n);
    if n % 5 == 0 {
      SplitDeviationZeroIff(n / 5);
    }
    MultipleOfFifty(n);
  }

  lemma MultipleOfFifty(n: int)
    ensures n % 50 == 0 <==> n % 5 == 0 && (n / 5) % 10 == 0
  {
    if n % 50 == 0 {
      var k := n / 50;
      assert n == 5 * (10 * k);
    }
    if n % 5 == 0 && (n / 5) % 10 == 0 {
      var j := n / 5 / 10;
      assert n == 50 * j;
    }
  }

  /** The deviations for the chart's face options: +5, +5, -10/3, -1.25 and 0 pp. */
  lemma FaceOptionDeviations()
    ensures MinorityDeviation(20) == Some(5.0)
    ensures MinorityDeviation(40) == Some(5.0)
    ensures MinorityDeviation(60) == Some(-10.0 / 3.0)
    ensures MinorityDeviation(80) == Some(-1.25)
    ensures MinorityDeviation(100) == Some(0.0)
  {
    assert RoundHalfEven(2.8) == 3;
    assert RoundHalfEven(5.6) == 6;
    assert RoundHalfEven(8.4) == 8;
    assert RoundHalfEven(11.2) == 11;
    assert RoundHalfEven(14.0) == 14;
  }

  /** A larger deviation never gets a milder tier. */
  lemma DeviationTierMonotone(d1: real, d2: real)
    requires Abs(d1) <= Abs(d2)
    ensures DeviationSeverity(ClassifyDeviation(Some(d1)).tier) <= DeviationSeverity(ClassifyDeviation(Some(d2)).tier)
  {
  }

  /** The rate shown beside N is the minority group's achieved good-face percentage. */
  lemma ShownRateIsAchievedRate(n: int)
    requires n != 0 && n % 5 == 0
    ensures var m := (n / 5) as real;
      ClassifyDeviation(MinorityDeviation(n)).goodRatePct == Some(RoundHalfEven(m * GOOD_RATIO) as real / m * 100.0)
  {
    MinorityDeviationDefined(n);
  }

  /** The row labels of the chart: three red, one orange, one ticked. */
  lemma FaceOptionRowTiers()
    ensures ClassifyDeviation(MinorityDeviation(20)).tier == MajorDeviation
    ensures ClassifyDeviation(MinorityDeviation(40)).tier == MajorDeviation
    ensures ClassifyDeviation(MinorityDeviation(60)).tier == MajorDeviation
    ensures ClassifyDeviation(MinorityDeviation(80)).tier == MinorDeviation
    ensures ClassifyDeviation(MinorityDeviation(100)) == RowLabel(ExactSplit, Some(70.0))
  {
    FaceOptionDeviations();
  }

  // ---------------------------------------------------------------------------
  // Properties of the grids and the cell styling
  // ---------------------------------------------------------------------------

  predicate Ascending(s: seq<nat>)
  {
    forall a, b :: 0 <= a < b < |s| ==> s[a] <= s[b]
  }

  /** A sequence whose neighbours are in order is in order. */
  lemma {:induction false} AscendingFromAdjacent(s: seq<nat>)
    requires forall k :: 0 <= k < |s| - 1 ==> s[k] <= s[k + 1]
    ensures Ascending(s)
    decreases |s|
  {
    if |s| > 1 {
      AscendingFromAdjacent(s[1..]);
      forall a, b | 0 <= a < b < |s|
        ensures s[a] <= s[b]
      {
        if a > 0 {
          assert s[a] == s[1..][a - 1] && s[b] == s[1..][b - 1];
        } else if b > 1 {
          assert s[1] == s[1..][0] && s[b] == s[1..][b - 1];
        }
      }
    }
  }

  /** With ascending options, trial counts grow along every row and down every column. */
  lemma TrialsGridMonotone(ns: seq<nat>, es: seq<nat>, i1: int, i2: int, j1: int, j2: int)
    requires Ascending(ns) && Ascending(es)
    requires 0 <= i1 <= i2 < |ns| && 0 <= j1 <= j2 < |es|
    ensures TrialsGrid(ns, es)[i1][j1] <= TrialsGrid(ns, es)[i2][j2]
  {
    TotalTrialsMonotone(ns[i1], ns[i2], es[j1], es[j2]);
  }

  /** White text means more than 57.75 % of the grid's longest duration. */
  lemma TextIsWhiteThreshold(d: real, maxD: real)
    requires maxD >= 0.0
    ensures TextIsWhite(d, maxD) <==> maxD > 0.0 && d > 0.5775 * maxD
  {
    if maxD > 0.0 {
      DivThreshold(d, maxD * 1.05, 0.55);
    }
  }

  lemma DivThreshold(d: real, v: real, c: real)
    requires v > 0.0
    ensures d / v > c <==> d > c * v
  {
    var q := d / v;
    assert q * v == d;
    if q > c {
      assert (q - c) * v > 0.0;
    }
    if d > c * v {
      assert (q - c) * v > 0.0;
    }
  }

  /** In a non-zero grid the longest cell carries white text and a zero-length one never does. */
  lemma LongestCellIsWhite(maxD: real)
    requires maxD > 0.0
    ensures TextIsWhite(maxD, maxD)
    ensures !TextIsWhite(0.0, maxD)
  {
    TextIsWhiteThreshold(maxD, maxD);
    TextIsWhiteThreshold(0.0, maxD);
  }

  /** With ascending options the longest session is the bottom-right cell. */
  lemma DurationGridMaxAtCorner(ns: seq<nat>, es: seq<nat>)
    requires |ns| > 0 && |es| > 0 && Ascending(ns) && Ascending(es)
    ensures GridMax(DurationGrid(ns, es)) == DurationMin(ns[|ns| - 1], es[|es| - 1])
  {
    var g := DurationGrid(ns, es);
    var corner := DurationMin(ns[|ns| - 1], es[|es| - 1]);
    forall i, j | 0 <= i < |ns| && 0 <= j < |es|
      ensures g[i][j] <= corner
    {
      DurationMonotone(ns[i], ns[|ns| - 1], es[j], es[|es| - 1]);
    }
    assert g[|ns| - 1][|es| - 1] == corner;
  }

  /** On the chart's grid the longest session is N = 100, E = 20: 500 trials, 125/3 min. */
  lemma ChartGridMax()
    ensures GridMax(DurationGrid(FaceOptions, ExposureOptions)) == 125.0 / 3.0
  {
    OptionsAscending();
    DurationGridMaxAtCorner(FaceOptions, ExposureOptions);
    assert FaceOptions[|FaceOptions| - 1] == 100 && ExposureOptions[|ExposureOptions| - 1] == 20;
    LongestChartSession();
  }

  lemma OptionsAscending()
    ensures Ascending(FaceOptions) && Ascending(ExposureOptions)
  {
    AscendingFromAdjacent(FaceOptions);
    AscendingFromAdjacent(ExposureOptions);
  }

  lemma LongestChartSession()
    ensures DurationMin(100, 20) == 125.0 / 3.0
  {
    assert TotalTrials(100, 20) == 500;
  }

  /** The current configuration's cell (25 min of at most 125/3) gets white text. */
  lemma CurrentConfigCellIsWhite()
    ensures TextIsWhite(DurationMin(100, 12), GridMax(DurationGrid(FaceOptions, ExposureOptions)))
  {
    ChartGridMax();
    TextIsWhiteThreshold(DurationMin(100, 12), 125.0 / 3.0);
  }
}
