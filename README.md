# Social exposure theory experiment: design and data scripts in Dafny

This project models the four scripts that design and process a behavioural
experiment on social exposure. It proves properties of each model.

- **Design parameter matrix** (`design_parameter_matrix.dfy`, module
  `DesignParameterMatrix`). The formulas behind the Phase 1 design chart, for
  a population of N faces each shown E times:
  - the trial count, the duration and the expected interactions;
  - P(at least one click);
  - whether the 80/20 minority split works, and the deviation of the
    minority's rounded good-face share from 70 %.

  It also models the classifications that colour the chart: row sub-labels,
  bar tiers, white or dark cell text, and highlighted configurations.
- **Firebase to CSV** (`firebase_to_csv.dfy`, module `FirebaseToCsv`). The
  loader unwraps a `participants` node and refuses an empty export. The
  converter then flattens the per-participant JSON tree into tables:
  - participants;
  - demographics;
  - one table of trials per phase;
  - surveys.

  JSON objects are ordered key/value lists, as Python dicts iterate. Rows are
  ordered column lists. Every Python exception on malformed data becomes an
  `Err`. Each `flatten_*` loop is a method proved equal to a spec function.
  That function collects rows in order and stops at the first exception.
- **Face generation** (`generate_faces.dfy`, module `GenerateFaces`):
  - The counterbalanced design matrix: 4 race blocks × 25 faces, 13 male and
    12 female per block, ids `face_001` … `face_100`, ages 18–35.
  - The six-step FaceGen pipeline for one face, which stops at the first
    failing step, plus the cleanup of its intermediate files.
  - The success/failure tally over the whole design.
- **Coloured faces** (`generate_colored_faces.dfy`, module
  `GenerateColoredFaces`):
  - the input and output file names for each of the 100 indices;
  - the transparency test that chooses compositing over plain RGB conversion;
  - which outputs are written and which inputs are reported missing.
- Shared pieces:
  - `common.dfy` (module `Common`) holds `Option`, `Abs`, Python's `int()`
    truncation and Python's round-half-to-even.
  - `text.dfy` (module `Text`) holds `str(n)` and `zfill`/`:03d` zero
    padding, with a decimal parser that reads them back.

Reals are exact rationals: 0.2, 0.7 and 0.75 are 1/5, 7/10 and 3/4.

For the current configuration, N = 100 and E = 12, P(≥1) is
1 − 0.75¹² ≈ 96.8 %. The bar rule at `scripts/design_parameter_matrix.py:200`
puts everything from 95 % up in the top tier, so `CurrentConfigWorkedValues`
proves `HighProb`.

Where the scripts' own comments and their code disagree, the model follows the code:
- **Gender totals.** The header of `scripts/generate_faces.py` promises
  50 male and 50 female faces. Every block is built from 13 male and 12
  female, so `DesignGenderTotals` proves 52 male and 48 female for every
  shuffle.
- **The "200 images" summary.** The final message of
  `scripts/generate_colored_faces.py` always claims 200 images.
  `WritesAndWarningsCount` proves that 200 outputs are written only when no
  input is missing, and two fewer for each missing input.

## Model

| member | source | states |
|---|---|---|
| Common.Trunc | scripts/design_parameter_matrix.py:64 | `int(x)` truncates toward zero: the result is no larger in size than x, less than one below it in size, and has x's sign |
| Common.RoundHalfEven | scripts/design_parameter_matrix.py:67 | `round` gives an integer within 0.5 of x, and an even one on a tie |
| Common.RoundHalfEvenIsNearest | scripts/design_parameter_matrix.py:67 | no integer is strictly closer to x than `round(x)` |
| Text.NatToString | scripts/firebase_to_csv.py:136 | `str(n)` is a non-empty digit string with no leading zero |
| Text.ParseNatToString | scripts/firebase_to_csv.py:136 | `str(n)` reads back as n |
| Text.ZeroPad | scripts/generate_colored_faces.py:32-34 | `str(n).zfill(w)`: at least w characters, all digits; the lemmas below state it reads back as n, is zeros then `str(n)`, and is injective |
| Text.ZeroPadValue | scripts/generate_colored_faces.py:32-34 | `str(n).zfill(w)` reads back as n: padding preserves the value |
| Text.ZeroPadShape | scripts/generate_colored_faces.py:32-34 | zero padding only puts zeros in front of `str(n)` |
| Text.ZeroPadInjective | scripts/generate_colored_faces.py:32-34 | distinct numbers have distinct padded forms |
| Text.ZeroPad3Length | scripts/generate_faces.py:59 | below 1000, a three-wide pad is exactly three characters |
| DesignParameterMatrix.TotalTrials | scripts/design_parameter_matrix.py:44-45 | the trial count is the largest t with 4t ≤ N·E |
| DesignParameterMatrix.TotalTrialsMonotone | scripts/design_parameter_matrix.py:44-45 | more faces or exposures never give fewer trials |
| DesignParameterMatrix.TotalTrialsNeverRoundsUp | scripts/design_parameter_matrix.py:44-45 | trials ≤ N·E/4, with equality iff 4 divides N·E |
| DesignParameterMatrix.DurationMin | scripts/design_parameter_matrix.py:47-48 | `duration_min`; its lemmas state it is trials/12 minutes and monotone |
| DesignParameterMatrix.DurationProportional | scripts/design_parameter_matrix.py:47-48 | the duration is trials × 5 s, in minutes, i.e. trials/12 |
| DesignParameterMatrix.DurationMonotone | scripts/design_parameter_matrix.py:47-48 | more faces or exposures never take less time |
| DesignParameterMatrix.EInteractions | scripts/design_parameter_matrix.py:50-52 | the expected number of clicks on a face, times 4, is E |
| DesignParameterMatrix.MissProbability | scripts/design_parameter_matrix.py:54-56 | `(1 - 1/4) ** e` as a product; its lemmas state it lies in (0, 1], falls strictly with E and equals 3^E / 4^E |
| DesignParameterMatrix.PAtLeastOne | scripts/design_parameter_matrix.py:54-56 | `p_at_least_one`; its lemmas state it lies in [0, 1), rises strictly with E and never exceeds E/4 |
| DesignParameterMatrix.MissProbabilityInUnit | scripts/design_parameter_matrix.py:54-56 | (3/4)^E lies in (0, 1], and below 1 once E > 0 |
| DesignParameterMatrix.MissProbabilityDecreasing | scripts/design_parameter_matrix.py:54-56 | the miss probability strictly falls with E |
| DesignParameterMatrix.MissProbabilityValue | scripts/design_parameter_matrix.py:54-56 | the miss probability equals 3^E / 4^E |
| DesignParameterMatrix.PAtLeastOneInRange | scripts/design_parameter_matrix.py:54-56 | P(≥1) lies in [0, 1) and is 0 exactly when E = 0 |
| DesignParameterMatrix.PAtLeastOneIncreasing | scripts/design_parameter_matrix.py:54-56 | each further exposure strictly raises P(≥1) |
| DesignParameterMatrix.PAtLeastOneAtMostExpected | scripts/design_parameter_matrix.py:50-56 | P(≥1) never exceeds E/4, the expected number of clicks |
| DesignParameterMatrix.CurrentConfigWorkedValues | scripts/design_parameter_matrix.py:44-56 | N = 100, E = 12 gives 300 trials, 25 min, E[int] = 3.0, 0.968 < P(≥1) < 0.969, top bar tier |
| DesignParameterMatrix.TrialsGrid | scripts/design_parameter_matrix.py:72-73 | one row per face option, one column per exposure option, cell (i, j) the trial count for that pair |
| DesignParameterMatrix.DurationGrid | scripts/design_parameter_matrix.py:74-75 | one row per face option, one column per exposure option, cell (i, j) the duration for that pair |
| DesignParameterMatrix.P1Values | scripts/design_parameter_matrix.py:76 | one percentage per exposure option, 100 × P(≥1) |
| DesignParameterMatrix.P1ValuesIncreasing | scripts/design_parameter_matrix.py:76 | with increasing exposure options the P(≥1) bars rise strictly |
| DesignParameterMatrix.ClassifyProbability | scripts/design_parameter_matrix.py:199-202 | green iff ≥ 95 %, orange iff 85 % ≤ p < 95 %, red iff below 85 % |
| DesignParameterMatrix.BarTiers | scripts/design_parameter_matrix.py:199-202 | one colour tier per bar, that of the bar's P(≥1) |
| DesignParameterMatrix.ProbTierMonotone | scripts/design_parameter_matrix.py:199-202 | a bar's tier never drops as E grows |
| DesignParameterMatrix.ExposureOptionBarTiers | scripts/design_parameter_matrix.py:199-202 | the chart's bars for E = 4…20 are red, red, orange, orange, green, green, green |
| DesignParameterMatrix.MinorityDeviation | scripts/design_parameter_matrix.py:58-69 | `minority_deviation`; its lemmas state when it is None and what it is otherwise |
| DesignParameterMatrix.SplitDeviation | scripts/design_parameter_matrix.py:66-69 | the deviation for a whole minority count; its lemmas bound it and say when it is zero |
| DesignParameterMatrix.MinorityDeviationDefined | scripts/design_parameter_matrix.py:58-65 | the split is impossible exactly when 5 does not divide N; otherwise the deviation is that of the minority count N/5 |
| DesignParameterMatrix.SplitDeviationBound | scripts/design_parameter_matrix.py:66-69 | the deviation times the minority size is 100 × the rounding error, so it lies between −50 and 50 |
| DesignParameterMatrix.SplitDeviationZeroIff | scripts/design_parameter_matrix.py:66-69 | a minority of m meets 70 % exactly iff 10 divides m |
| DesignParameterMatrix.MinorityDeviationZeroIff | scripts/design_parameter_matrix.py:58-69 | N meets the target exactly iff 50 divides N |
| DesignParameterMatrix.FaceOptionDeviations | scripts/design_parameter_matrix.py:58-69 | N = 20, 40, 60, 80, 100 deviate by +5, +5, −10/3, −1.25 and 0 pp |
| DesignParameterMatrix.ClassifyDeviation | scripts/design_parameter_matrix.py:141-152 | "split not possible" exactly when there is no deviation; otherwise exact iff abs(dev) < 0.01, minor iff 0.01 ≤ abs(dev) ≤ 2, major iff abs(dev) > 2, and the rate shown is 70 + dev |
| DesignParameterMatrix.DeviationTierMonotone | scripts/design_parameter_matrix.py:146-152 | a larger deviation never gets a milder tier (exact < minor ≤ 2 pp < major) |
| DesignParameterMatrix.ShownRateIsAchievedRate | scripts/design_parameter_matrix.py:145 | the rate shown is 100 × (rounded good count / minority size) |
| DesignParameterMatrix.FaceOptionRowTiers | scripts/design_parameter_matrix.py:127-152 | the chart's row labels: three major, one minor, and 70 % exact for N = 100 |
| DesignParameterMatrix.TrialsGridMonotone | scripts/design_parameter_matrix.py:72-73 | with ascending options the trial grid grows along rows and down columns |
| DesignParameterMatrix.RowMax | scripts/design_parameter_matrix.py:106 | the maximum is an entry of the row and bounds every entry |
| DesignParameterMatrix.GridMax | scripts/design_parameter_matrix.py:106 | `grid.max()` is an entry of the grid and bounds every entry |
| DesignParameterMatrix.DurationGridMaxAtCorner | scripts/design_parameter_matrix.py:74-75 | with ascending options the longest session is the bottom-right cell |
| DesignParameterMatrix.ChartGridMax | scripts/design_parameter_matrix.py:106 | on the chart's grid the colour scale tops out at 125/3 min × 1.05 |
| DesignParameterMatrix.Normalized | scripts/design_parameter_matrix.py:106 | `Normalize(vmin=0, vmax)`: d / vmax, and 0 when vmax is 0 |
| DesignParameterMatrix.TextIsWhite | scripts/design_parameter_matrix.py:168 | the text-colour test; `TextIsWhiteThreshold` states it as a share of the longest duration |
| DesignParameterMatrix.TextIsWhiteThreshold | scripts/design_parameter_matrix.py:168 | cell text is white iff the grid is non-zero and d exceeds 0.55 × 1.05 = 57.75 % of the longest duration |
| DesignParameterMatrix.LongestCellIsWhite | scripts/design_parameter_matrix.py:168 | the longest cell has white text; a zero-length cell never does |
| DesignParameterMatrix.CurrentConfigCellIsWhite | scripts/design_parameter_matrix.py:168 | the current configuration's cell (25 of 125/3 min) has white text |
| DesignParameterMatrix.StyleCell | scripts/design_parameter_matrix.py:163-176 | the text colour rule; bold iff some configuration matches; the hit is the first matching one; no hit iff none matches |
| FirebaseToCsv.GetOr | scripts/firebase_to_csv.py:85-86 | `d.get(key, default)`: the stored value, or the default when the key is absent |
| FirebaseToCsv.Truthy | scripts/firebase_to_csv.py:121 | Python truthiness of a JSON value: false for None, false, 0, and an empty string, list or dict |
| FirebaseToCsv.Lookup | scripts/firebase_to_csv.py:85 | a key is found iff the dict has it, and the value found is stored under it |
| FirebaseToCsv.Put | scripts/firebase_to_csv.py:122-125 | assignment adds the key, keeps the first key first and keys distinct, and changes only that key's value; `PutNewKeyAppends` and `PutExistingKeyInPlace` state the order |
| FirebaseToCsv.PutNewKeyAppends | scripts/firebase_to_csv.py:122-125 | assigning a key the dict lacks appends it after every existing entry |
| FirebaseToCsv.PutExistingKeyInPlace | scripts/firebase_to_csv.py:122-125 | assigning a key the dict (keys distinct) already has keeps the length, replaces that entry at its own position, and leaves every other entry as it was |
| FirebaseToCsv.Merge | scripts/firebase_to_csv.py:122-125 | unpacking gives the union of the keys, keeps the first key first and keys distinct; with distinct, disjoint keys the result is d followed by src in order |
| FirebaseToCsv.MergeLookup | scripts/firebase_to_csv.py:122-125 | after `{**d, **src}` a key of src has src's value; any other key keeps d's |
| FirebaseToCsv.Unpack | scripts/firebase_to_csv.py:122-125 | `{'participant_id': pid, **x}` succeeds iff x is a mapping, and its first column is `participant_id` |
| FirebaseToCsv.UnpackFields | scripts/firebase_to_csv.py:139-142 | the row has the record's keys plus `participant_id`, first; each field keeps its value; a record's own `participant_id` overrides the key; without one the row is exactly the id followed by the record's fields in order |
| FirebaseToCsv.Iterate | scripts/firebase_to_csv.py:138 | iterating fails iff the value is None, a boolean or a number; a list gives its items; a dict, its keys in order; a string, its one-character strings in order |
| FirebaseToCsv.Unwrapped | scripts/firebase_to_csv.py:66-68 | a dict with a `participants` key is replaced by that key's value; anything else is kept |
| FirebaseToCsv.LoadFirebaseData | scripts/firebase_to_csv.py:46-74 | a missing file raises FileNotFoundError; otherwise loading succeeds iff the unwrapped value is not None and has a non-zero length, and then returns it; None or length zero raises ValueError; a value without a length raises TypeError |
| FirebaseToCsv.LoadUnwrapsParticipants | scripts/firebase_to_csv.py:64-71 | a `participants` wrapper is removed; an empty node inside is refused with ValueError |
| FirebaseToCsv.LoadRejectsEmpty | scripts/firebase_to_csv.py:70-71 | a null export, or an empty one, raises ValueError |
| FirebaseToCsv.ParticipantRow | scripts/firebase_to_csv.py:84-110 | one participant's row; `ParticipantRowColumns` states when it fails and what its columns hold |
| FirebaseToCsv.ParticipantRowColumns | scripts/firebase_to_csv.py:84-110 | the row fails only with AttributeError, iff the participant, its metadata or its summary is not a dict; it holds the id, then the 11 metadata and 6 summary fields, None where absent |
| FirebaseToCsv.ParticipantRowMissingSections | scripts/firebase_to_csv.py:84-110 | a participant without `metadata` has all its metadata columns None; one without `summary` has all its summary columns None |
| FirebaseToCsv.ParticipantsOneRowPerKey | scripts/firebase_to_csv.py:80-113 | participants.csv has one row per participant, in export order, led by its id |
| FirebaseToCsv.FlattenParticipants | scripts/firebase_to_csv.py:80-113 | the loop yields exactly the collected participant rows, or the first exception |
| FirebaseToCsv.DemographicRows | scripts/firebase_to_csv.py:119-126 | one participant's demographics rows: Ok iff the participant is a mapping whose demographics are falsy, missing or a mapping; AttributeError when the participant is not a mapping, TypeError otherwise; `DemographicRowsOnlyWhenPresent` states there is one row exactly when the demographics are truthy |
| FirebaseToCsv.DemographicRowsOnlyWhenPresent | scripts/firebase_to_csv.py:119-126 | a participant adds one row iff its demographics are non-empty, and that row is the unpacked answers |
| FirebaseToCsv.MissingDemographicsGivesNoRows | scripts/firebase_to_csv.py:119-126 | a participant without a `demographics` key yields no demographics row and no error |
| FirebaseToCsv.DemographicsRowCount | scripts/firebase_to_csv.py:115-129 | demographics.csv has one row per participant with non-empty demographics |
| FirebaseToCsv.FlattenDemographics | scripts/firebase_to_csv.py:115-129 | the loop yields exactly the collected demographics rows, or the first exception |
| FirebaseToCsv.PhaseTrials | scripts/firebase_to_csv.py:136 | the phase's trials to iterate; `MissingPhaseGivesNoRows` states the missing cases |
| FirebaseToCsv.TrialRows | scripts/firebase_to_csv.py:136-143 | one participant's trial rows; `TrialRowsPerTrial` states one unpacked row per trial, in order |
| FirebaseToCsv.TrialRowsPerTrial | scripts/firebase_to_csv.py:135-143 | a participant adds one row per trial of the phase, in trial order, each its id followed by the trial's fields |
| FirebaseToCsv.MissingPhaseGivesNoRows | scripts/firebase_to_csv.py:136 | a participant without `trials`, or without this phase, adds no rows |
| FirebaseToCsv.TrialsRowCount | scripts/firebase_to_csv.py:131-146 | the phase table has as many rows as all participants have trials in that phase |
| FirebaseToCsv.TrialsInParticipantOrder | scripts/firebase_to_csv.py:131-146 | participant i's trials form one contiguous block, placed after the trials of all earlier participants |
| FirebaseToCsv.ParticipantTrials | scripts/firebase_to_csv.py:136-143 | the inner loop over one participant's phase trials yields that participant's trial rows in trial order, or the first exception |
| FirebaseToCsv.FlattenTrials | scripts/firebase_to_csv.py:131-146 | the nested loop yields exactly the collected trial rows, or the first exception |
| FirebaseToCsv.SurveyRow | scripts/firebase_to_csv.py:152-166 | one participant's survey row; the three lemmas below state its failures and columns |
| FirebaseToCsv.SurveyRowErrors | scripts/firebase_to_csv.py:152-166 | the row fails, only ever with AttributeError, iff the participant, its surveys, its technical check or its feedback is present but not a dict |
| FirebaseToCsv.SurveyRowColumns | scripts/firebase_to_csv.py:152-166 | a row holds the id, then the 3 technical-check and 3 feedback answers, None where absent |
| FirebaseToCsv.SurveyRowWithoutSurveys | scripts/firebase_to_csv.py:153-166 | a participant without `surveys` still gets a row, every answer None |
| FirebaseToCsv.SurveysOneRowPerKey | scripts/firebase_to_csv.py:148-169 | surveys.csv has one row per participant, in export order, led by its id |
| FirebaseToCsv.FlattenSurveys | scripts/firebase_to_csv.py:148-169 | the loop yields exactly the collected survey rows, or the first exception |
| FirebaseToCsv.Collect | scripts/firebase_to_csv.py:84-110 | the rows of every element in order, or the first exception; the lemmas below characterise it |
| FirebaseToCsv.Flatten | scripts/firebase_to_csv.py:84 | `.items()` on the export: an AttributeError unless it is a dict, else the collected rows of its entries |
| FirebaseToCsv.CollectOkIff | scripts/firebase_to_csv.py:84-110 | flattening succeeds iff no participant raises, and then yields every participant's rows |
| FirebaseToCsv.CollectFirstError | scripts/firebase_to_csv.py:84-110 | a failed flattening reports the exception of the first participant that raised |
| FirebaseToCsv.CollectSegment | scripts/firebase_to_csv.py:135-143 | rows are collected in order: element i's rows come right after those of the elements before it |
| FirebaseToCsv.CollectSingletons | scripts/firebase_to_csv.py:84-110 | when each participant gives one row, row i is participant i's |
| GenerateFaces.AgeFromDraw | scripts/generate_faces.py:34-35 | a draw in [0, 1] gives an age in 18..35 |
| GenerateFaces.AgeFromDrawMonotone | scripts/generate_faces.py:34-35 | a larger draw never gives a younger face |
| GenerateFaces.RoundHalfEvenMonotone | scripts/generate_faces.py:35 | rounding half to even preserves order |
| GenerateFaces.Ages | scripts/generate_faces.py:27-36 | one age per draw, each in 18..35 |
| GenerateFaces.FaceId | scripts/generate_faces.py:59 | `f'face_{n:03d}'`; `FaceIdInjective` states distinct numbers give distinct ids |
| GenerateFaces.DesignMatrix | scripts/generate_faces.py:38-66 | the design as a function of the shuffles and draws; the lemmas below state its layout and balance |
| GenerateFaces.CreateDesignMatrix | scripts/generate_faces.py:38-66 | the nested loop with its face counter builds exactly the design matrix for the given shuffles and draws |
| GenerateFaces.DesignLayout | scripts/generate_faces.py:45-64 | 100 rows; row k has race `races[k/25]`, an id of `face_` plus three digits reading k + 1, and an age in 18..35 |
| GenerateFaces.FaceIdsDistinct | scripts/generate_faces.py:59 | no two rows share a face id |
| GenerateFaces.BaseGendersCounts | scripts/generate_faces.py:52 | the base list holds 13 male and 12 female entries |
| GenerateFaces.BlocksBalanced | scripts/generate_faces.py:52-53 | each race block's genders are its shuffle, so it has 13 male and 12 female rows whatever the shuffle |
| GenerateFaces.DesignGendersAreShuffles | scripts/generate_faces.py:49-64 | the design's genders are the four shuffles in race order |
| GenerateFaces.DesignGenderTotals | scripts/generate_faces.py:49-64 | the design has 52 male and 48 female faces |
| GenerateFaces.Commands | scripts/generate_faces.py:116-144 | the six commands of one face, in order; `StepsReadEarlierOutputs` states how they chain |
| GenerateFaces.StepCommand | scripts/generate_faces.py:116-144 | the command of one step: tool, sub-command and file arguments as the script builds them |
| GenerateFaces.FirstFailure | scripts/generate_faces.py:117-144 | the first failing step: all earlier steps succeeded and this one failed |
| GenerateFaces.GenerateSingleFace | scripts/generate_faces.py:86-155 | succeeds iff every step does; runs the commands up to and including the first failure, in order; cleans up only after full success |
| GenerateFaces.FileNamesDistinct | scripts/generate_faces.py:109-114 | the five intermediates and the image are six distinct files, so cleanup never removes the image |
| GenerateFaces.StepsReadEarlierOutputs | scripts/generate_faces.py:116-144 | each step reads only files an earlier step wrote, and the last writes the image |
| GenerateFaces.SuccessCount | scripts/generate_faces.py:191-194 | the successes among the first n faces; `TallyAddsUp` states it with the failures adds up to n |
| GenerateFaces.FailedIds | scripts/generate_faces.py:191-196 | the failed ids among the first n faces; `FailedIdsOfFailingIndices` states they are the failing rows' ids in order |
| GenerateFaces.FailingIndices | scripts/generate_faces.py:191-196 | failed faces stay in design order: increasing indices below n |
| GenerateFaces.FailedIdsOfFailingIndices | scripts/generate_faces.py:191-196 | the recorded ids are exactly the ids of the failing faces, one per failing index, in order |
| GenerateFaces.GenerateAll | scripts/generate_faces.py:188-196 | the tally is the success count, and the failed ids in design order |
| GenerateFaces.TallyAddsUp | scripts/generate_faces.py:188-196 | successes plus failures equal the number of faces |
| GenerateFaces.FailingIndicesExact | scripts/generate_faces.py:191-196 | a face is listed as failed iff one of its steps failed |
| GenerateFaces.AllGeneratedIff | scripts/generate_faces.py:188-208 | all faces succeed iff the failed list is empty iff no step of any face fails |
| GenerateColoredFaces.InputPath | scripts/generate_colored_faces.py:32 | the input for index i, numbered i + 1; `NameNumbers` and `InputNamesDistinct` state its number and injectivity |
| GenerateColoredFaces.OutputStem | scripts/generate_colored_faces.py:33-34 | the common start of index i's outputs, numbered i; `StemInjective` states it is injective |
| GenerateColoredFaces.RedPath | scripts/generate_colored_faces.py:33 | the red output path; `OutputNamesDistinct` states it never repeats nor equals a blue path |
| GenerateColoredFaces.BluePath | scripts/generate_colored_faces.py:34 | the blue output path; `OutputNamesDistinct` states it never repeats |
| GenerateColoredFaces.NameNumbers | scripts/generate_colored_faces.py:28-34 | index i reads input number i + 1 and writes output number i, each three digits |
| GenerateColoredFaces.StemInjective | scripts/generate_colored_faces.py:33-34 | distinct indices have distinct output stems |
| GenerateColoredFaces.OutputNamesDistinct | scripts/generate_colored_faces.py:33-34 | red names of distinct indices differ, blue names too, and a red name is never a blue one |
| GenerateColoredFaces.InputNamesDistinct | scripts/generate_colored_faces.py:32 | distinct indices read distinct inputs |
| GenerateColoredFaces.HasTransparency | scripts/generate_colored_faces.py:45 | the alpha test: mode RGBA or LA, or P with a `transparency` entry |
| GenerateColoredFaces.Render | scripts/generate_colored_faces.py:44-52 | the face is composited over the background iff it has transparency (RGBA, LA, or P with `transparency`); otherwise it is only converted |
| GenerateColoredFaces.ColourMattersIffTransparent | scripts/generate_colored_faces.py:44-69 | the red and blue versions are equal iff the face has no transparency |
| GenerateColoredFaces.WritesFor | scripts/generate_colored_faces.py:36-74 | one index's writes: red then blue if the input exists, none otherwise; `WritesForPaths` states their paths |
| GenerateColoredFaces.PlannedWrites | scripts/generate_colored_faces.py:28-74 | the writes of the first n indices in order; the lemmas below state where they come from and that no path repeats |
| GenerateColoredFaces.MissingInputs | scripts/generate_colored_faces.py:28-74 | the warnings of the first n indices in order; `OutputsIffInputExists` states exactly which inputs they name |
| GenerateColoredFaces.PlanColoredFaces | scripts/generate_colored_faces.py:28-74 | the loop over the 100 indices writes and warns exactly as the plan says, in index order |
| GenerateColoredFaces.WritesComeFromInputs | scripts/generate_colored_faces.py:36-71 | every write belongs to an index whose input exists |
| GenerateColoredFaces.OutputsIffInputExists | scripts/generate_colored_faces.py:36-74 | an existing input yields its red and blue versions; a missing one yields no output, only a warning |
| GenerateColoredFaces.MissingInputsBelow | scripts/generate_colored_faces.py:73-74 | warnings for the first n indices name only their own inputs |
| GenerateColoredFaces.WritesAndWarningsCount | scripts/generate_colored_faces.py:28-77 | writes + 2 × warnings = 2 × indices; all 200 outputs are written iff no input is missing |
| GenerateColoredFaces.WritePathsDistinct | scripts/generate_colored_faces.py:33-71 | no output path is written twice |

## Left out

- Matplotlib is not modelled: the figure, grid lines, text placement, colour bar, legend, saving and showing (`scripts/design_parameter_matrix.py:79-251`). Only the decisions that pick texts, colours, weights and highlights are modelled.
- Floating point: every quantity is an exact rational. The script's binary floats could in principle round differently at an exact tie. 3.5 = 5 × 0.7 (N = 25) is one such tie: it rounds to even, to 4, in the model.
- Text formatting with `:.0f` / `:.1f` (cell labels, row labels, bar labels) is not modelled. The models carry the unformatted values.
- DesignParameterMatrix.MinorityDeviation: requires N ≠ 0. For N = 0 the script divides by zero, and no face option is 0.
- DesignParameterMatrix.MissProbability: E is a natural number, because the source only ever passes exposure counts.
- `export_all` (file writing, CSV serialisation, printed statistics) and pandas DataFrame construction are not modelled. Without the column union pandas forms, each table is its list of rows.
- FirebaseToCsv.LoadFirebaseData: reading and parsing the file is not modelled. File existence and the parsed JSON tree are parameters.
- Subprocess calls, the FaceGen executables, `os.chdir`, directory creation and `os.remove` are not modelled. Each step's outcome is a boolean parameter. The command text is kept as executable plus arguments, without shell quoting or the SDK path.
- Failed removals are not modelled: cleanup errors are swallowed, so the model lists the files cleanup tries to remove.
- `np.random.beta` and `np.random.shuffle` are parameters: the draws are any rationals in [0, 1], and each shuffle is any permutation of the base gender list.
- Writing `face_design.csv` and the printed design summary in `main` are not modelled. `DesignLayout` and `DesignGenderTotals` state the counts that summary prints.
- PIL is not modelled: opening, converting, pasting and saving images. An output records how it is produced (composited over a colour, or converted), not its pixels.
- `os.path.join` is modelled with a `/` separator.
- All printing and progress output is not modelled.
