/**
  The face-stimulus batch: the counterbalanced design matrix of 100 faces
  (four race blocks of 25, 13 male and 12 female in each, ages 18 to 35),
  the six-step generation pipeline for one face with its intermediate files
  and their cleanup, and the success/failure tally over the whole design.

  The random shuffle of each block's genders is a parameter (any permutation
  of the base list), and so are the beta draws behind the ages (any rational
  in [0, 1]). Each external command's outcome is a boolean parameter.
*/
module GenerateFaces {
  import opened Common
  import Text

  // ---------------------------------------------------------------------------
  // Demographics
  // ---------------------------------------------------------------------------

  datatype Race = African | European | EastAsian | SouthAsian

  datatype Gender = Male | Female

  /** The race blocks, in the order the design lists them. */
  const Races: seq<Race> := [African, European, EastAsian, SouthAsian]

  const FACES_PER_RACE: nat := 25
  const MALES_PER_RACE: nat := 13
  const FEMALES_PER_RACE: nat := 12
  const MIN_AGE: int := 18
  const MAX_AGE: int := 35

  /** The race as the design file and the FaceGen command line spell it. */
  function RaceName(r: Race): string
  {
    match r
    case African => "african"
    case European => "european"
    case EastAsian => "eastAsian"
    case SouthAsian => "southAsian"
  }

  function GenderName(g: Gender): string
  {
    match g
    case Male => "male"
    case Female => "female"
  }

  /** n copies of g, as Python's `[g] * n`. */
  function Repeat(g: Gender, n: nat): (s: seq<Gender>)
    ensures |s| == n && forall i :: 0 <= i < n ==> s[i] == g
  {
    seq(n, _ => g)
  }

  /** A block's genders before the shuffle: 13 male, then 12 female. */
  function BaseGenders(): seq<Gender>
  {
    Repeat(Male, MALES_PER_RACE) + Repeat(Female, FEMALES_PER_RACE)
  }

  /** The age from one beta draw: the draw scaled by 35 - 18 onto 18..35, rounded half to even. */
  function AgeFromDraw(b: real): (age: int)
    requires 0.0 <= b <= 1.0
    ensures MIN_AGE <= age <= MAX_AGE
  {
    RoundHalfEven(b * 17.0 + 18.0)
  }

  /** `generate_age_natural_distribution`: one age per draw. */
  function Ages(draws: seq<real>): (ages: seq<int>)
    requires forall j :: 0 <= j < |draws| ==> 0.0 <= draws[j] <= 1.0
    ensures |ages| == |draws|
    ensures forall j :: 0 <= j < |ages| ==> MIN_AGE <= ages[j] <= MAX_AGE
  {
    seq(|draws|, j requires 0 <= j < |draws| => AgeFromDraw(draws[j]))
  }

  // ---------------------------------------------------------------------------
  // The design matrix
  // ---------------------------------------------------------------------------

  datatype FaceRow = FaceRow(faceId: string, race: Race, gender: Gender, age: int)

  /** `f'face_{n:03d}'`. */
  function FaceId(n: nat): string
  {
    "face_" + Text.ZeroPad(n, 3)
  }

  /** What the script may receive from numpy: four shuffles of the base genders, 25 draws in [0, 1] per race. */
  predicate ValidRandomness(shuffles: seq<seq<Gender>>, draws: seq<seq<real>>)
  {
    && |shuffles| == |Races| && |draws| == |Races|
    && (forall r :: 0 <= r < |Races| ==> multiset(shuffles[r]) == multiset(BaseGenders()))
    && (forall r :: 0 <= r < |Races| ==> |draws[r]| == FACES_PER_RACE)
    && (forall r, j :: 0 <= r < |Races| && 0 <= j < |draws[r]| ==> 0.0 <= draws[r][j] <= 1.0)
  }

  /** The design the script builds from the given randomness: row k belongs to block k / 25, position k % 25. */
  function DesignMatrix(shuffles: seq<seq<Gender>>, draws: seq<seq<real>>): (design: seq<FaceRow>)
    requires ValidRandomness(shuffles, draws)
    ensures |design| == |Races| * FACES_PER_RACE
  {
    seq(|Races| * FACES_PER_RACE, k requires 0 <= k < |Races| * FACES_PER_RACE =>
      var r := k / FACES_PER_RACE;
      var j := k % FACES_PER_RACE;
      assert |shuffles[r]| == |multiset(shuffles[r])| == FACES_PER_RACE;
      FaceRow(FaceId(k + 1), Races[r], shuffles[r][j], AgeFromDraw(draws[r][j])))
  }

  /**
    `create_design_matrix`: for each race in turn, its shuffled genders zipped
    with its ages, numbered by a running face counter.
  */
  method CreateDesignMatrix(shuffles: seq<seq<Gender>>, draws: seq<seq<real>>) returns (design: seq<FaceRow>)
    requires ValidRandomness(shuffles, draws)
    ensures design == DesignMatrix(shuffles, draws)
  {
    design := [];
    var faceId := 1;
    var r := 0;
    while r < |Races|
      invariant 0 <= r <= |Races|
      invariant |design| == r * FACES_PER_RACE && faceId == |design| + 1
      invariant forall k :: 0 <= k < |design| ==> design[k] == DesignMatrix(shuffles, draws)[k]
    {
      var race := Races[r];
      var genders := shuffles[r];
      var ages := Ages(draws[r]);
      assert |genders| == |multiset(genders)| == FACES_PER_RACE;
      var j := 0;
      while j < |genders| && j < |ages|
        invariant 0 <= j <= FACES_PER_RACE
        invariant |design| == r * FACES_PER_RACE + j && faceId == |design| + 1
        invariant forall k :: 0 <= k < |design| ==> design[k] == DesignMatrix(shuffles, draws)[k]
      {
        var k := |design|;
        assert k / FACES_PER_RACE == r && k % FACES_PER_RACE == j;
        design := design + [FaceRow(FaceId(faceId), race, genders[j], ages[j])];
        faceId := faceId + 1;
        j := j + 1;
      }
      r := r + 1;
    }
  }

  // ---------------------------------------------------------------------------
  // Properties of the design
  // ---------------------------------------------------------------------------

  lemma {:induction false} RepeatCounts(g: Gender, n: nat)
    ensures multiset(Repeat(g, n))[g] == n
    ensures forall h :: h != g ==> multiset(Repeat(g, n))[h] == 0
    decreases n
  {
    if n > 0 {
      assert Repeat(g, n) == Repeat(g, n - 1) + [g];
      RepeatCounts(g, n - 1);
    }
  }

  /** The base list holds 13 male and 12 female entries, so every shuffle of it does. */
  lemma BaseGendersCounts()
    ensures |BaseGenders()| == FACES_PER_RACE
    ensures multiset(BaseGenders())[Male] == MALES_PER_RACE
    ensures multiset(BaseGenders())[Female] == FEMALES_PER_RACE
  {
    RepeatCounts(Male, MALES_PER_RACE);
    RepeatCounts(Female, FEMALES_PER_RACE);
  }

  /** The genders of race block r, in row order. */
  function BlockGenders(design: seq<FaceRow>, r: nat): (g: seq<Gender>)
    requires (r + 1) * FACES_PER_RACE <= |design|
    ensures |g| == FACES_PER_RACE
  {
    seq(FACES_PER_RACE, j requires 0 <= j < FACES_PER_RACE => design[r * FACES_PER_RACE + j].gender)
  }

  /**
    The design has 100 rows in four blocks of 25 following the race order;
    row k is `face_` and k + 1 in three digits, and reads back as k + 1.
  */
  lemma DesignLayout(shuffles: seq<seq<Gender>>, draws: seq<seq<real>>)
    requires ValidRandomness(shuffles, draws)
    ensures var design := DesignMatrix(shuffles, draws);
      && |design| == 100
      && (forall k :: 0 <= k < 100 ==> design[k].race == Races[k / 25])
      && (forall k :: 0 <= k < 100 ==> design[k].faceId[..5] == "face_" && |design[k].faceId| == 8)
      && (forall k :: 0 <= k < 100 ==>
            Text.AllDigits(design[k].faceId[5..]) && Text.Parse(design[k].faceId[5..]) == k + 1)
      && (forall k :: 0 <= k < 100 ==> MIN_AGE <= design[k].age <= MAX_AGE)
  {
    var design := DesignMatrix(shuffles, draws);
    forall k | 0 <= k < 100
      ensures design[k].faceId[..5] == "face_" && |design[k].faceId| == 8
      ensures Text.AllDigits(design[k].faceId[5..]) && Text.Parse(design[k].faceId[5..]) == k + 1
    {
      Text.ZeroPad3Length(k + 1);
      Text.ZeroPadValue(k + 1, 3);
      assert design[k].faceId[5..] == Text.ZeroPad(k + 1, 3);
    }
  }

  /** Distinct numbers give distinct face ids. */
  lemma FaceIdInjective(a: nat, b: nat)
    requires FaceId(a) == FaceId(b)
    ensures a == b
  {
    Text.PrefixCancel("face_", Text.ZeroPad(a, 3), Text.ZeroPad(b, 3));
    Text.ZeroPadInjective(a, b, 3);
  }

  lemma FaceIdsDiffer(a: nat, b: nat)
    requires a != b
    ensures FaceId(a) != FaceId(b)
  {
    if FaceId(a) == FaceId(b) {
      FaceIdInjective(a, b);
    }
  }

  /** Row k of the design, read off the matrix. */
  lemma DesignRowAt(shuffles: seq<seq<Gender>>, draws: seq<seq<real>>, k: int)
    requires ValidRandomness(shuffles, draws)
    requires 0 <= k < |Races| * FACES_PER_RACE
    ensures DesignMatrix(shuffles, draws)[k].faceId == FaceId(k + 1)
    ensures DesignMatrix(shuffles, draws)[k].race == Races[k / FACES_PER_RACE]
  {
  }

  /** No two rows share a face id. */
  lemma FaceIdsDistinct(shuffles: seq<seq<Gender>>, draws: seq<seq<real>>, k: int, l: int)
    requires ValidRandomness(shuffles, draws)
    requires 0 <= k < l < 100
    ensures DesignMatrix(shuffles, draws)[k].faceId != DesignMatrix(shuffles, draws)[l].faceId
  {
    DesignRowAt(shuffles, draws, k);
    DesignRowAt(shuffles, draws, l);
    FaceIdsDiffer(k + 1, l + 1);
  }

  /** Whatever the shuffle, each race block holds its shuffle: 13 male and 12 female rows. */
  lemma BlocksBalanced(shuffles: seq<seq<Gender>>, draws: seq<seq<real>>, r: nat)
    requires ValidRandomness(shuffles, draws)
    requires r < |Races|
    ensures var block := BlockGenders(DesignMatrix(shuffles, draws), r);
      && block == shuffles[r]
      && multiset(block)[Male] == MALES_PER_RACE
      && multiset(block)[Female] == FEMALES_PER_RACE
  {
    var design := DesignMatrix(shuffles, draws);
    BaseGendersCounts();
    assert |shuffles[r]| == |multiset(shuffles[r])| == FACES_PER_RACE;
    forall j | 0 <= j < FACES_PER_RACE
      ensures BlockGenders(design, r)[j] == shuffles[r][j]
    {
      var k := r * FACES_PER_RACE + j;
      assert k / FACES_PER_RACE == r && k % FACES_PER_RACE == j;
    }
  }

  /** The genders of the whole design, in row order. */
  function DesignGenders(design: seq<FaceRow>): (g: seq<Gender>)
    ensures |g| == |design|
  {
    seq(|design|, k requires 0 <= k < |design| => design[k].gender)
  }

  /** The design's genders are the four shuffles one after another. */
  lemma DesignGendersAreShuffles(shuffles: seq<seq<Gender>>, draws: seq<seq<real>>)
    requires ValidRandomness(shuffles, draws)
    ensures DesignGenders(DesignMatrix(shuffles, draws)) == shuffles[0] + shuffles[1] + shuffles[2] + shuffles[3]
  {
    var all := DesignGenders(DesignMatrix(shuffles, draws));
    var cat := shuffles[0] + shuffles[1] + shuffles[2] + shuffles[3];
    forall r | 0 <= r < 4
      ensures |shuffles[r]| == 25
    {
      assert |shuffles[r]| == |multiset(shuffles[r])|;
    }
    forall k | 0 <= k < 100
      ensures all[k] == cat[k]
    {
      var r, j := k / 25, k % 25;
      assert all[k] == shuffles[r][j];
      assert k == 25 * r + j;
      assert cat[k] == shuffles[r][j];
    }
  }

  /** Over the whole design, 52 male and 48 female faces: the blocks all lean the same way. */
  lemma DesignGenderTotals(shuffles: seq<seq<Gender>>, draws: seq<seq<real>>)
    requires ValidRandomness(shuffles, draws)
    ensures multiset(DesignGenders(DesignMatrix(shuffles, draws)))[Male] == 52
    ensures multiset(DesignGenders(DesignMatrix(shuffles, draws)))[Female] == 48
  {
    DesignGendersAreShuffles(shuffles, draws);
    BaseGendersCounts();
    var m := multiset(BaseGenders());
    assert multiset(shuffles[0] + shuffles[1] + shuffles[2] + shuffles[3]) == m + m + m + m;
  }

  /** A larger draw never gives a younger face. */
  lemma AgeFromDrawMonotone(b1: real, b2: real)
    requires 0.0 <= b1 <= b2 <= 1.0
    ensures AgeFromDraw(b1) <= AgeFromDraw(b2)
  {
    RoundHalfEvenMonotone(b1 * 17.0 + 18.0, b2 * 17.0 + 18.0);
  }

  /** Rounding half to even never reverses the order of two reals. */
  lemma RoundHalfEvenMonotone(x: real, y: real)
    requires x <= y
    ensures RoundHalfEven(x) <= RoundHalfEven(y)
  {
    if x < y {
      var rx, ry := RoundHalfEven(x), RoundHalfEven(y);
      assert rx as real <= x + 0.5;
      assert y - 0.5 <= ry as real;
      assert (rx as real) < (ry as real) + 1.0;
    }
  }

  // ---------------------------------------------------------------------------
  // Generating one face
  // ---------------------------------------------------------------------------

  /** The two FaceGen executables. */
  datatype Tool = Fg3 | Fgbl

  /** One command line: the executable and its arguments. */
  datatype Command = Command(tool: Tool, args: seq<string>)

  function BaseFg(faceId: string): string { faceId + "_base.fg" }
  function AgedFg(faceId: string): string { faceId + "_aged.fg" }
  function MeshTri(faceId: string): string { faceId + ".tri" }
  function TextureJpg(faceId: string): string { faceId + "_texture.jpg" }
  function ConfigTxt(faceId: string): string { faceId + "_config.txt" }
  function FinalPng(faceId: string): string { faceId + ".png" }

  /** The five files that only feed later steps. */
  function Intermediates(faceId: string): seq<string>
  {
    [BaseFg(faceId), AgedFg(faceId), MeshTri(faceId), TextureJpg(faceId), ConfigTxt(faceId)]
  }

  const HEAD_MODEL: string := "../Head/HeadHires"

  /**
    The six steps in order: create the base face, set the age, apply to the
    mesh, apply to the colour map, set up the render, render.
  */
  function Commands(face: FaceRow): (cmds: seq<Command>)
    ensures |cmds| == 6
    ensures forall j :: 0 <= j < 6 ==> cmds[j] == StepCommand(face, j)
  {
    seq(6, j requires 0 <= j < 6 => StepCommand(face, j))
  }

  /** The command of step `step` (counted from 0) of the pipeline above. */
  function StepCommand(face: FaceRow, step: nat): Command
    requires step < 6
  {
    var id := face.faceId;
    if step == 0 then Command(Fg3, ["create", "random", RaceName(face.race), GenderName(face.gender), BaseFg(id)])
    else if step == 1 then Command(Fg3, ["controls", "demographic", "edit", BaseFg(id), "age", Text.IntToString(face.age), AgedFg(id)])
    else if step == 2 then Command(Fg3, ["apply", "ssm", HEAD_MODEL, AgedFg(id), MeshTri(id)])
    else if step == 3 then Command(Fg3, ["apply", "scm", HEAD_MODEL, AgedFg(id), TextureJpg(id)])
    else if step == 4 then Command(Fgbl, ["render", "setup", ConfigTxt(id), MeshTri(id), TextureJpg(id)])
    else Command(Fgbl, ["render", "run", ConfigTxt(id), FinalPng(id)])
  }

  /** Every step succeeded. */
  predicate AllSucceed(outcome: seq<bool>)
  {
    forall j :: 0 <= j < |outcome| ==> outcome[j]
  }

  /** The index of the first failing step, or the number of steps when none fails. */
  function FirstFailure(outcome: seq<bool>): (f: nat)
    ensures f <= |outcome|
    ensures forall j :: 0 <= j < f ==> outcome[j]
    ensures f < |outcome| ==> !outcome[f]
    decreases |outcome|
  {
    if outcome == [] then 0
    else if !outcome[0] then 0
    else 1 + FirstFailure(outcome[1..])
  }

  /**
    `generate_single_face`: run the six commands in order, each succeeding
    as `outcome` says; stop at the first that fails, running no later step
    and no cleanup; after a full success remove the five intermediates.
  */
  method GenerateSingleFace(face: FaceRow, outcome: seq<bool>) returns (ok: bool, ran: seq<Command>, removed: seq<string>)
    requires |outcome| == 6
    ensures ok == AllSucceed(outcome)
    ensures ran == Commands(face)[..if ok then 6 else FirstFailure(outcome) + 1]
    ensures removed == if ok then Intermediates(face.faceId) else []
  {
    var cmds := Commands(face);
    removed := [];
    ran := [];
    ran := ran + [cmds[0]];
    if !outcome[0] {
      return false, ran, removed;
    }
    ran := ran + [cmds[1]];
    if !outcome[1] {
      return false, ran, removed;
    }
    ran := ran + [cmds[2]];
    if !outcome[2] {
      return false, ran, removed;
    }
    ran := ran + [cmds[3]];
    if !outcome[3] {
      return false, ran, removed;
    }
    ran := ran + [cmds[4]];
    if !outcome[4] {
      return false, ran, removed;
    }
    ran := ran + [cmds[5]];
    if !outcome[5] {
      return false, ran, removed;
    }
    removed := Intermediates(face.faceId);
    ok := true;
    assert ran == cmds[..6];
  }

  /** The five intermediates and the image are six different files; cleanup never removes the image. */
  lemma FileNamesDistinct(faceId: string)
    ensures FinalPng(faceId) !in Intermediates(faceId)
    ensures forall a, b :: 0 <= a < b < 5 ==> Intermediates(faceId)[a] != Intermediates(faceId)[b]
  {
    var suffixes := ["_base.fg", "_aged.fg", ".tri", "_texture.jpg", "_config.txt"];
    forall a | 0 <= a < 5
      ensures Intermediates(faceId)[a] == faceId + suffixes[a]
      ensures Intermediates(faceId)[a] != FinalPng(faceId)
    {
      if Intermediates(faceId)[a] == FinalPng(faceId) {
        Text.PrefixCancel(faceId, suffixes[a], ".png");
      }
    }
    forall a, b | 0 <= a < b < 5
      ensures Intermediates(faceId)[a] != Intermediates(faceId)[b]
    {
      if Intermediates(faceId)[a] == Intermediates(faceId)[b] {
        Text.PrefixCancel(faceId, suffixes[a], suffixes[b]);
      }
    }
  }

  /**
    Each step only reads files an earlier step wrote: the age edit reads the
    base face, both applications read the aged face, the render setup reads
    mesh and texture, and the render reads the configuration.
  */
  lemma StepsReadEarlierOutputs(face: FaceRow)
    ensures var c := Commands(face);
      && c[1].args[3] == c[0].args[4]
      && c[2].args[3] == c[1].args[6] && c[3].args[3] == c[1].args[6]
      && c[4].args[3] == c[2].args[4] && c[4].args[4] == c[3].args[4]
      && c[5].args[2] == c[4].args[2]
      && c[5].args[3] == FinalPng(face.faceId)
  {
  }

  // ---------------------------------------------------------------------------
  // The batch tally
  // ---------------------------------------------------------------------------

  /** Indices, in increasing order, of the first n faces whose generation fails. */
  function FailingIndices(outcomes: seq<seq<bool>>, n: nat): (ix: seq<nat>)
    requires n <= |outcomes|
    ensures forall t :: 0 <= t < |ix| ==> ix[t] < n
    ensures forall s, t :: 0 <= s < t < |ix| ==> ix[s] < ix[t]
    decreases n
  {
    if n == 0 then []
    else if AllSucceed(outcomes[n - 1]) then FailingIndices(outcomes, n - 1)
    else FailingIndices(outcomes, n - 1) + [n - 1]
  }

  /** The face ids of the failing faces, in design order. */
  function FailedIds(design: seq<FaceRow>, outcomes: seq<seq<bool>>, n: nat): (ids: seq<string>)
    requires n <= |outcomes| && n <= |design|
    decreases n
  {
    if n == 0 then []
    else if AllSucceed(outcomes[n - 1]) then FailedIds(design, outcomes, n - 1)
    else FailedIds(design, outcomes, n - 1) + [design[n - 1].faceId]
  }

  /** The failed ids are the ids of the failing faces, one per failing index, in the same order. */
  lemma {:induction false} FailedIdsOfFailingIndices(design: seq<FaceRow>, outcomes: seq<seq<bool>>, n: nat)
    requires n <= |outcomes| && n <= |design|
    ensures var ix := FailingIndices(outcomes, n);
      |FailedIds(design, outcomes, n)| == |ix| &&
      forall t :: 0 <= t < |ix| ==> FailedIds(design, outcomes, n)[t] == design[ix[t]].faceId
    decreases n
  {
    if n > 0 {
      FailedIdsOfFailingIndices(design, outcomes, n - 1);
    }
  }

  /** The number of the first n faces generated successfully. */
  function SuccessCount(outcomes: seq<seq<bool>>, n: nat): nat
    requires n <= |outcomes|
    decreases n
  {
    if n == 0 then 0 else SuccessCount(outcomes, n - 1) + (if AllSucceed(outcomes[n - 1]) then 1 else 0)
  }

  /**
    The main loop: generate each face of the design in order, counting
    successes and recording the ids of the failures.
  */
  method GenerateAll(design: seq<FaceRow>, outcomes: seq<seq<bool>>) returns (successCount: nat, failedFaces: seq<string>)
    requires |outcomes| == |design|
    requires forall i :: 0 <= i < |outcomes| ==> |outcomes[i]| == 6
    ensures successCount == SuccessCount(outcomes, |design|)
    ensures failedFaces == FailedIds(design, outcomes, |design|)
  {
    successCount := 0;
    failedFaces := [];
    var idx := 0;
    while idx < |design|
      invariant 0 <= idx <= |design|
      invariant successCount == SuccessCount(outcomes, idx)
      invariant failedFaces == FailedIds(design, outcomes, idx)
    {
      var success, _, _ := GenerateSingleFace(design[idx], outcomes[idx]);
      if success {
        successCount := successCount + 1;
      } else {
        failedFaces := failedFaces + [design[idx].faceId];
      }
      idx := idx + 1;
    }
  }

  /** Every face is counted once: successes and failures add up to the design size. */
  lemma {:induction false} TallyAddsUp(outcomes: seq<seq<bool>>, n: nat)
    requires n <= |outcomes|
    ensures SuccessCount(outcomes, n) + |FailingIndices(outcomes, n)| == n
    decreases n
  {
    if n > 0 {
      TallyAddsUp(outcomes, n - 1);
    }
  }

  /** A face is listed as failed exactly when one of its steps fails. */
  lemma {:induction false} FailingIndicesExact(outcomes: seq<seq<bool>>, n: nat, i: nat)
    requires n <= |outcomes|
    ensures i in FailingIndices(outcomes, n) <==> i < n && !AllSucceed(outcomes[i])
    decreases n
  {
    if n > 0 {
      FailingIndicesExact(outcomes, n - 1, i);
      var prev := FailingIndices(outcomes, n - 1);
      if !AllSucceed(outcomes[n - 1]) {
        assert i in prev + [n - 1] <==> i in prev || i == n - 1;
      }
    }
  }

  /** All faces generated exactly when no face is listed as failed, that is when no step of any face fails. */
  lemma AllGeneratedIff(design: seq<FaceRow>, outcomes: seq<seq<bool>>)
    requires |outcomes| == |design|
    ensures SuccessCount(outcomes, |design|) == |design| <==> FailedIds(design, outcomes, |design|) == []
    ensures FailedIds(design, outcomes, |design|) == [] <==>
      forall i :: 0 <= i < |design| ==> AllSucceed(outcomes[i])
  {
    var ix := FailingIndices(outcomes, |design|);
    FailedIdsOfFailingIndices(design, outcomes, |design|);
    TallyAddsUp(outcomes, |design|);
    if ix != [] {
      FailingIndicesExact(outcomes, |design|, ix[0]);
    } else {
      forall i | 0 <= i < |design|
        ensures AllSucceed(outcomes[i])
      {
        FailingIndicesExact(outcomes, |design|, i);
      }
    }
  }
}
