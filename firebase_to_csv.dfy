/**
  The export of the experiment's Firebase data to flat tables: the loaded JSON
  tree (participant id -> nested record) is reshaped into lists of rows, one
  list per output table, before they are handed to pandas.

  JSON objects are ordered lists of (key, value) pairs, the way Python dicts
  keep insertion order; Python `None` is `Null`. A row is such a dict. Where
  Python would raise (calling `.get` on something that is not a dict,
  unpacking `**x` of a non-mapping, iterating over a number), the model
  returns the exception as an `Err`.
*/
module FirebaseToCsv {
  import opened Common
  import Text

  datatype Json =
    | Null
    | Bool(b: bool)
    | Num(x: real)
    | Str(s: string)
    | Arr(items: seq<Json>)
    | Obj(fields: seq<(string, Json)>)

  /** One output row: column name to value, in insertion order. */
  type Row = seq<(string, Json)>

  datatype PyError = FileNotFoundError | ValueError | TypeError | AttributeError

  datatype Result<T> = Ok(value: T) | Err(error: PyError) {
    predicate IsFailure() {
      Err?
    }

    function PropagateFailure<U>(): Result<U>
      requires Err?
    {
      Err(error)
    }

    function Extract(): T
      requires Ok?
    {
      value
    }
  }

  // ---------------------------------------------------------------------------
  // Python dict operations on ordered (key, value) lists
  // ---------------------------------------------------------------------------

  function Keys(d: seq<(string, Json)>): set<string>
  {
    set i | 0 <= i < |d| :: d[i].0
  }

  /** Keys are distinct, as in every dict `json.load` builds. */
  predicate DistinctKeys(d: seq<(string, Json)>)
  {
    forall i, j :: 0 <= i < j < |d| ==> d[i].0 != d[j].0
  }

  /** `d[key]` when present. */
  function Lookup(d: seq<(string, Json)>, key: string): (r: Option<Json>)
    ensures r.Some? <==> key in Keys(d)
    ensures r.Some? ==> (key, r.value) in d
  {
    if d == [] then None
    else if d[0].0 == key then Some(d[0].1)
    else
      KeysTail(d);
      Lookup(d[1..], key)
  }

  /** `d.get(key, default)`. */
  function GetOr(d: seq<(string, Json)>, key: string, default: Json): Json
  {
    match Lookup(d, key)
    case Some(v) => v
    case None => default
  }

  lemma KeysCons(x: (string, Json), d: seq<(string, Json)>)
    ensures Keys([x] + d) == {x.0} + Keys(d)
    ensures DistinctKeys([x] + d) <==> x.0 !in Keys(d) && DistinctKeys(d)
  {
    var xd := [x] + d;
    assert forall i :: 1 <= i < |xd| ==> xd[i] == d[i - 1];
    assert xd[0] == x;
    forall k | k in Keys(xd)
      ensures k in {x.0} + Keys(d)
    {
      var i :| 0 <= i < |xd| && xd[i].0 == k;
      if i > 0 {
        assert d[i - 1].0 == k;
      }
    }
    forall k | k in {x.0} + Keys(d)
      ensures k in Keys(xd)
    {
      if k != x.0 {
        var i :| 0 <= i < |d| && d[i].0 == k;
        assert xd[i + 1].0 == k;
      }
    }
    if DistinctKeys(xd) {
      forall i, j | 0 <= i < j < |d|
        ensures d[i].0 != d[j].0
      {
        assert d[i] == xd[i + 1] && d[j] == xd[j + 1];
      }
      forall i | 0 <= i < |d|
        ensures d[i].0 != x.0
      {
        assert xd[i + 1] == d[i];
      }
    }
    if x.0 !in Keys(d) && DistinctKeys(d) {
      forall i, j | 0 <= i < j < |xd|
        ensures xd[i].0 != xd[j].0
      {
        assert d[j - 1].0 in Keys(d);
        if i > 0 {
          assert xd[i] == d[i - 1];
        }
      }
    }
  }

  lemma KeysTail(d: seq<(string, Json)>)
    requires |d| > 0
    ensures Keys(d) == {d[0].0} + Keys(d[1..])
    ensures DistinctKeys(d) <==> d[0].0 !in Keys(d[1..]) && DistinctKeys(d[1..])
  {
    assert d == [d[0]] + d[1..];
    KeysCons(d[0], d[1..]);
  }

  /** `d[key] = v`: an existing key keeps its place, a new one goes last. */
  function Put(d: Row, key: string, v: Json): (r: Row)
    ensures |r| >= |d| && |r| > 0
    ensures Keys(r) == Keys(d) + {key}
    ensures |d| > 0 ==> r[0].0 == d[0].0
    ensures DistinctKeys(d) ==> DistinctKeys(r)
    ensures forall k :: Lookup(r, k) == if k == key then Some(v) else Lookup(d, k)
    decreases |d|
  {
    if d == [] then
      KeysCons((key, v), []);
      [(key, v)]
    else if d[0].0 == key then
      KeysTail(d);
      KeysCons((key, v), d[1..]);
      [(key, v)] + d[1..]
    else
      var rest := Put(d[1..], key, v);
      KeysTail(d);
      KeysCons(d[0], rest);
      [d[0]] + rest
  }

  /** Assigning a new key appends it after every existing entry. */
  lemma {:induction false} PutNewKeyAppends(d: Row, key: string, v: Json)
    ensures key !in Keys(d) ==> Put(d, key, v) == d + [(key, v)]
    decreases |d|
  {
    if d != [] && key !in Keys(d) {
      KeysTail(d);
      PutNewKeyAppends(d[1..], key, v);
      calc {
        Put(d, key, v);
        [d[0]] + Put(d[1..], key, v);
        [d[0]] + (d[1..] + [(key, v)]);
        { assert d == [d[0]] + d[1..]; }
        d + [(key, v)];
      }
    }
  }

  /** Assigning an existing key replaces its entry in place and leaves every other entry alone. */
  lemma {:induction false} PutExistingKeyInPlace(d: Row, key: string, v: Json)
    requires DistinctKeys(d) && key in Keys(d)
    ensures |Put(d, key, v)| == |d|
    ensures forall i :: 0 <= i < |d| ==> Put(d, key, v)[i] == if d[i].0 == key then (key, v) else d[i]
    decreases |d|
  {
    KeysTail(d);
    var r := Put(d, key, v);
    if d[0].0 == key {
      forall i | 0 < i < |d|
        ensures d[i].0 != key
      {
        assert d[i].0 in Keys(d[1..]) by { assert d[1..][i - 1] == d[i]; }
      }
    } else {
      PutExistingKeyInPlace(d[1..], key, v);
      forall i | 0 < i < |d|
        ensures r[i] == if d[i].0 == key then (key, v) else d[i]
      {
        assert r[i] == Put(d[1..], key, v)[i - 1] && d[i] == d[1..][i - 1];
      }
    }
  }

  /** `{**d, **src}`: entries of src assigned into d from left to right. */
  function Merge(d: Row, src: seq<(string, Json)>): (r: Row)
    ensures |r| >= |d|
    ensures Keys(r) == Keys(d) + Keys(src)
    ensures |d| > 0 ==> r[0].0 == d[0].0
    ensures DistinctKeys(d) ==> DistinctKeys(r)
    ensures DistinctKeys(d) && DistinctKeys(src) && Keys(d) !! Keys(src) ==> r == d + src
    decreases |src|
  {
    if src == [] then d
    else
      KeysTail(src);
      PutNewKeyAppends(d, src[0].0, src[0].1);
      assert d + [src[0]] + src[1..] == d + src;
      Merge(Put(d, src[0].0, src[0].1), src[1..])
  }

  /** `{'participant_id': pid, **record}`: TypeError unless the record is a mapping. */
  function Unpack(pid: string, record: Json): (r: Result<Row>)
    ensures r.Ok? <==> record.Obj?
    ensures r.Ok? ==> |r.value| > 0 && r.value[0].0 == "participant_id"
  {
    if record.Obj? then Ok(Merge([("participant_id", Str(pid))], record.fields)) else Err(TypeError)
  }

  /** Python truthiness of a JSON value. */
  predicate Truthy(v: Json)
  {
    match v
    case Null => false
    case Bool(b) => b
    case Num(x) => x != 0.0
    case Str(s) => s != []
    case Arr(items) => items != []
    case Obj(fields) => fields != []
  }

  /** The values `for x in v` visits: list items, dict keys, or the characters of a string. */
  function Iterate(v: Json): (r: Result<seq<Json>>)
    ensures r.Err? <==> v.Null? || v.Bool? || v.Num?
    ensures v.Arr? ==> r == Ok(v.items)
    ensures v.Obj? ==> r.Ok? && |r.value| == |v.fields|
    ensures v.Obj? ==> forall i :: 0 <= i < |v.fields| ==> r.value[i] == Str(v.fields[i].0)
    ensures v.Str? ==> r.Ok? && |r.value| == |v.s|
    ensures v.Str? ==> forall i :: 0 <= i < |v.s| ==> r.value[i] == Str([v.s[i]])
  {
    match v
    case Arr(items) => Ok(items)
    case Obj(fields) => Ok(seq(|fields|, i requires 0 <= i < |fields| => Str(fields[i].0)))
    case Str(s) => Ok(seq(|s|, i requires 0 <= i < |s| => Str([s[i]])))
    case _ => Err(TypeError)
  }

  /** The named columns of a row, each `record.get(name)`, so None when absent. */
  function Columns(names: seq<string>, record: seq<(string, Json)>): (cols: Row)
    ensures |cols| == |names|
    ensures forall i :: 0 <= i < |names| ==> cols[i].0 == names[i]
  {
    seq(|names|, i requires 0 <= i < |names| => (names[i], GetOr(record, names[i], Null)))
  }

  // ---------------------------------------------------------------------------
  // Loading
  // ---------------------------------------------------------------------------

  /** `len(v)`; a TypeError for numbers and booleans. */
  function Len(v: Json): Result<nat>
    requires !v.Null?
  {
    match v
    case Str(s) => Ok(|s|)
    case Arr(items) => Ok(|items|)
    case Obj(fields) => Ok(|fields|)
    case _ => Err(TypeError)
  }

  /** The export with a top-level `participants` node replaced by that node's value. */
  function Unwrapped(data: Json): (d: Json)
    ensures data.Obj? && "participants" in Keys(data.fields) ==> Lookup(data.fields, "participants") == Some(d)
    ensures !(data.Obj? && "participants" in Keys(data.fields)) ==> d == data
  {
    if data.Obj? && "participants" in Keys(data.fields) then Lookup(data.fields, "participants").value else data
  }

  /**
    The checks of `load_firebase_data` after the file has been parsed into
    `data`: unwrap a top-level `participants` node, then refuse None or an
    empty result. `fileExists` stands for the existence test of the input file.
  */
  function LoadFirebaseData(fileExists: bool, data: Json): (r: Result<Json>)
    ensures !fileExists ==> r == Err(FileNotFoundError)
    ensures fileExists ==>
      (r.Ok? <==> !Unwrapped(data).Null? && Len(Unwrapped(data)).Ok? && Len(Unwrapped(data)).value > 0)
    ensures r.Ok? ==> r.value == Unwrapped(data)
    ensures fileExists && (Unwrapped(data).Null? || Len(Unwrapped(data)) == Ok(0)) ==> r == Err(ValueError)
    ensures fileExists && !Unwrapped(data).Null? && Len(Unwrapped(data)).Err? ==> r == Err(TypeError)
  {
    if !fileExists then Err(FileNotFoundError)
    else
      var d := Unwrapped(data);
      if d.Null? then Err(ValueError)
      else match Len(d)
        case Err(e) => Err(e)
        case Ok(n) => if n == 0 then Err(ValueError) else Ok(d)
  }

  // ---------------------------------------------------------------------------
  // The rows each participant contributes
  // ---------------------------------------------------------------------------

  const MetadataFields: seq<string> := [
    "internal_id", "prolific_pid", "study_id", "session_id", "condition_code", "condition",
    "majority_group", "p1_type", "p2_exposure", "timestamp", "debug_mode"
  ]

  const SummaryFields: seq<string> := [
    "phase1_score", "phase2_score", "total_score",
    "phase1_trials_count", "phase2_trials_count", "phase3_trials_count"
  ]

  const TechnicalCheckFields: seq<string> := [
    "images_loaded", "technical_difficulties", "technical_difficulties_details"
  ]

  const UserFeedbackFields: seq<string> := ["clarity_rating", "length_rating", "suggestions"]

  /** The participants.csv row of one participant: id, metadata fields, summary scores. */
  function ParticipantRow(pid: string, pdata: Json): Result<Row>
  {
    if !pdata.Obj? then Err(AttributeError)
    else
      var metadata := GetOr(pdata.fields, "metadata", Obj([]));
      var summary := GetOr(pdata.fields, "summary", Obj([]));
      if !metadata.Obj? || !summary.Obj? then Err(AttributeError)
      else Ok([("participant_id", Str(pid))] + Columns(MetadataFields, metadata.fields) + Columns(SummaryFields, summary.fields))
  }

  /** The `demographics` entry is empty (falsy or missing) or a mapping that can be unpacked. */
  predicate DemographicsUnpackable(fields: seq<(string, Json)>)
  {
    var demo := GetOr(fields, "demographics", Obj([]));
    Truthy(demo) ==> demo.Obj?
  }

  /**
    The demographics.csv rows of one participant: none when the answers are
    empty; AttributeError when the participant is not a mapping, TypeError
    when non-empty answers are not one.
  */
  function DemographicRows(pid: string, pdata: Json): (r: Result<seq<Row>>)
    ensures r.Ok? <==> (pdata.Obj? && DemographicsUnpackable(pdata.fields))
    ensures !pdata.Obj? ==> r == Err(AttributeError)
    ensures pdata.Obj? && r.Err? ==> r == Err(TypeError)
  {
    if !pdata.Obj? then Err(AttributeError)
    else
      var demo := GetOr(pdata.fields, "demographics", Obj([]));
      if !Truthy(demo) then Ok([])
      else
        var row :- Unpack(pid, demo);
        Ok([row])
  }

  /** `pdata.get('trials', {}).get(f'phase{phase}', [])`, then what iterating it yields. */
  function PhaseTrials(pdata: Json, phase: nat): Result<seq<Json>>
  {
    if !pdata.Obj? then Err(AttributeError)
    else
      var trials := GetOr(pdata.fields, "trials", Obj([]));
      if !trials.Obj? then Err(AttributeError)
      else Iterate(GetOr(trials.fields, "phase" + Text.NatToString(phase), Arr([])))
  }

  /** The phase trial rows of one participant, one per trial, in trial order. */
  function TrialRows(pid: string, pdata: Json, phase: nat): Result<seq<Row>>
  {
    var items :- PhaseTrials(pdata, phase);
    Collect(items, UnpackAll(pid))
  }

  function UnpackAll(pid: string): Json -> Result<seq<Row>>
  {
    (record: Json) => Singleton(Unpack(pid, record))
  }

  /** The surveys.csv row of one participant: technical check and feedback fields. */
  function SurveyRow(pid: string, pdata: Json): Result<Row>
  {
    if !pdata.Obj? then Err(AttributeError)
    else
      var surveyData := GetOr(pdata.fields, "surveys", Obj([]));
      if !surveyData.Obj? then Err(AttributeError)
      else
        var check := GetOr(surveyData.fields, "technical_check", Obj([]));
        var feedback := GetOr(surveyData.fields, "user_feedback", Obj([]));
        if !check.Obj? || !feedback.Obj? then Err(AttributeError)
        else Ok([("participant_id", Str(pid))] + Columns(TechnicalCheckFields, check.fields) + Columns(UserFeedbackFields, feedback.fields))
  }

  function Singleton(r: Result<Row>): (s: Result<seq<Row>>)
    ensures s.Ok? <==> r.Ok?
    ensures s.Ok? ==> s.value == [r.value]
    ensures s.Err? ==> s.error == r.error
  {
    match r
    case Ok(row) => Ok([row])
    case Err(e) => Err(e)
  }

  function ParticipantRows(entry: (string, Json)): Result<seq<Row>>
  {
    Singleton(ParticipantRow(entry.0, entry.1))
  }

  function DemographicRowsOf(entry: (string, Json)): Result<seq<Row>>
  {
    DemographicRows(entry.0, entry.1)
  }

  function TrialRowsOf(phase: nat): ((string, Json)) -> Result<seq<Row>>
  {
    (entry: (string, Json)) => TrialRows(entry.0, entry.1, phase)
  }

  function SurveyRows(entry: (string, Json)): Result<seq<Row>>
  {
    Singleton(SurveyRow(entry.0, entry.1))
  }

  // ---------------------------------------------------------------------------
  // Collecting rows in order, stopping at the first exception
  // ---------------------------------------------------------------------------

  /** The rows of every element of s, in order; the first exception raised, if any. */
  function Collect<T>(s: seq<T>, f: T -> Result<seq<Row>>): Result<seq<Row>>
    decreases |s|
  {
    if s == [] then Ok([])
    else
      match Collect(s[..|s| - 1], f)
      case Err(e) => Err(e)
      case Ok(rows) =>
        match f(s[|s| - 1])
        case Err(e) => Err(e)
        case Ok(more) => Ok(rows + more)
  }

  /** Flattening over the participants of data; `.items()` of a non-dict raises. */
  function Flatten(data: Json, f: ((string, Json)) -> Result<seq<Row>>): Result<seq<Row>>
  {
    if data.Obj? then Collect(data.fields, f) else Err(AttributeError)
  }

  /** Number of rows f yields over s, counting an exception as none. */
  function RowCount<T>(s: seq<T>, f: T -> Result<seq<Row>>): nat
    decreases |s|
  {
    if s == [] then 0
    else RowCount(s[..|s| - 1], f) + (if f(s[|s| - 1]).Ok? then |f(s[|s| - 1]).value| else 0)
  }

  lemma CollectStep<T>(s: seq<T>, i: int, f: T -> Result<seq<Row>>, rows: seq<Row>)
    requires 0 <= i < |s| && Collect(s[..i], f) == Ok(rows)
    ensures Collect(s[..i + 1], f) == match f(s[i]) case Err(e) => Err(e) case Ok(more) => Ok(rows + more)
  {
    assert s[..i + 1][..i] == s[..i];
  }

  lemma {:induction false} CollectErrorSticks<T>(s: seq<T>, i: int, f: T -> Result<seq<Row>>)
    requires 0 <= i <= |s| && Collect(s[..i], f).Err?
    ensures Collect(s, f) == Collect(s[..i], f)
    decreases |s|
  {
    if i < |s| {
      var s' := s[..|s| - 1];
      assert s'[..i] == s[..i];
      CollectErrorSticks(s', i, f);
    } else {
      assert s[..i] == s;
    }
  }

  /** A prefix's rows lead the whole list's rows. */
  lemma {:induction false} CollectPrefix<T>(s: seq<T>, i: int, f: T -> Result<seq<Row>>)
    requires 0 <= i <= |s| && Collect(s, f).Ok?
    ensures Collect(s[..i], f).Ok?
    ensures Collect(s[..i], f).value <= Collect(s, f).value
    ensures |Collect(s[..i], f).value| == RowCount(s[..i], f)
    decreases |s|
  {
    if i == |s| {
      assert s[..i] == s;
      if s != [] {
        CollectPrefix(s[..|s| - 1], |s| - 1, f);
        assert s[..|s| - 1][..|s| - 1] == s[..|s| - 1];
      }
    } else {
      var s' := s[..|s| - 1];
      assert s'[..i] == s[..i];
      CollectPrefix(s', i, f);
      CollectPrefix(s', |s'|, f);
      assert s'[..|s'|] == s';
    }
  }

  /** Rows are collected in order: element i's rows sit right after those of the elements before it. */
  lemma CollectSegment<T>(s: seq<T>, i: int, f: T -> Result<seq<Row>>)
    requires 0 <= i < |s| && Collect(s, f).Ok?
    ensures f(s[i]).Ok?
    ensures RowCount(s[..i + 1], f) == RowCount(s[..i], f) + |f(s[i]).value|
    ensures RowCount(s[..i + 1], f) <= |Collect(s, f).value|
    ensures Collect(s, f).value[RowCount(s[..i], f)..RowCount(s[..i + 1], f)] == f(s[i]).value
  {
    CollectPrefix(s, i, f);
    CollectPrefix(s, i + 1, f);
    CollectStep(s, i, f, Collect(s[..i], f).value);
    assert s[..i + 1][..i] == s[..i];
    var whole := Collect(s, f).value;
    var before := Collect(s[..i], f).value;
    var upto := Collect(s[..i + 1], f).value;
    assert upto == before + f(s[i]).value;
    assert whole[|before|..|upto|] == upto[|before|..];
  }

  /** The collection succeeds exactly when no element raises. */
  lemma {:induction false} CollectOkIff<T>(s: seq<T>, f: T -> Result<seq<Row>>)
    ensures Collect(s, f).Ok? <==> forall i :: 0 <= i < |s| ==> f(s[i]).Ok?
    ensures Collect(s, f).Ok? ==> |Collect(s, f).value| == RowCount(s, f)
    decreases |s|
  {
    if s != [] {
      var s' := s[..|s| - 1];
      CollectOkIff(s', f);
      assert forall i :: 0 <= i < |s'| ==> s'[i] == s[i];
    }
  }

  /** A failed collection reports the exception of the first element that raised. */
  lemma {:induction false} CollectFirstError<T>(s: seq<T>, f: T -> Result<seq<Row>>)
    requires Collect(s, f).Err?
    ensures exists i :: 0 <= i < |s| && f(s[i]) == Err(Collect(s, f).error) &&
                        forall j :: 0 <= j < i ==> f(s[j]).Ok?
    decreases |s|
  {
    var s' := s[..|s| - 1];
    assert forall j :: 0 <= j < |s'| ==> s'[j] == s[j];
    if Collect(s', f).Err? {
      CollectFirstError(s', f);
      var i :| 0 <= i < |s'| && f(s'[i]) == Err(Collect(s', f).error) && forall j :: 0 <= j < i ==> f(s'[j]).Ok?;
      assert f(s[i]) == Err(Collect(s, f).error);
    } else {
      CollectOkIff(s', f);
      assert f(s[|s| - 1]) == Err(Collect(s, f).error);
    }
  }

  /** When every element yields exactly one row, row i belongs to element i. */
  lemma CollectSingletons<T>(s: seq<T>, f: T -> Result<seq<Row>>)
    requires forall i :: 0 <= i < |s| ==> f(s[i]).Ok? ==> |f(s[i]).value| == 1
    requires Collect(s, f).Ok?
    ensures |Collect(s, f).value| == |s|
    ensures forall i :: 0 <= i < |s| ==> f(s[i]).Ok? && Collect(s, f).value[i] == f(s[i]).value[0]
  {
    CollectOkIff(s, f);
    forall i | 0 <= i < |s|
      ensures RowCount(s[..i + 1], f) == i + 1
      ensures Collect(s, f).value[i] == f(s[i]).value[0]
    {
      SingletonCount(s, i + 1, f);
      SingletonCount(s, i, f);
      CollectSegment(s, i, f);
      var whole := Collect(s, f).value;
      assert whole[i..i + 1] == f(s[i]).value;
      assert whole[i] == whole[i..i + 1][0];
    }
    SingletonCount(s, |s|, f);
    assert s[..|s|] == s;
  }

  lemma {:induction false} SingletonCount<T>(s: seq<T>, k: int, f: T -> Result<seq<Row>>)
    requires 0 <= k <= |s|
    requires forall i :: 0 <= i < |s| ==> f(s[i]).Ok? && |f(s[i]).value| == 1
    ensures RowCount(s[..k], f) == k
    decreases k
  {
    if k > 0 {
      SingletonCount(s, k - 1, f);
      assert s[..k][..k - 1] == s[..k - 1];
    }
  }

  // ---------------------------------------------------------------------------
  // The four flatten_* loops
  // ---------------------------------------------------------------------------

  /** participants.csv: one row per participant, in the order of the export. */
  method FlattenParticipants(data: Json) returns (res: Result<seq<Row>>)
    ensures res == Flatten(data, ParticipantRows)
  {
    if !data.Obj? {
      return Err(AttributeError);
    }
    var entries := data.fields;
    var participants: seq<Row> := [];
    var i := 0;
    while i < |entries|
      invariant 0 <= i <= |entries|
      invariant Collect(entries[..i], ParticipantRows) == Ok(participants)
    {
      var (pid, pdata) := entries[i];
      CollectStep(entries, i, ParticipantRows, participants);
      var row := ParticipantRow(pid, pdata);
      if row.Err? {
        CollectErrorSticks(entries, i + 1, ParticipantRows);
        return Err(row.error);
      }
      participants := participants + [row.value];
      i := i + 1;
    }
    assert entries[..i] == entries;
    res := Ok(participants);
  }

  /** demographics.csv: a row for each participant whose demographics are non-empty. */
  method FlattenDemographics(data: Json) returns (res: Result<seq<Row>>)
    ensures res == Flatten(data, DemographicRowsOf)
  {
    if !data.Obj? {
      return Err(AttributeError);
    }
    var entries := data.fields;
    var demographics: seq<Row> := [];
    var i := 0;
    while i < |entries|
      invariant 0 <= i <= |entries|
      invariant Collect(entries[..i], DemographicRowsOf) == Ok(demographics)
    {
      var (pid, pdata) := entries[i];
      CollectStep(entries, i, DemographicRowsOf, demographics);
      if !pdata.Obj? {
        CollectErrorSticks(entries, i + 1, DemographicRowsOf);
        return Err(AttributeError);
      }
      var demo := GetOr(pdata.fields, "demographics", Obj([]));
      if Truthy(demo) {
        var row := Unpack(pid, demo);
        if row.Err? {
          CollectErrorSticks(entries, i + 1, DemographicRowsOf);
          return Err(row.error);
        }
        demographics := demographics + [row.value];
      } else {
        assert demographics + [] == demographics;
      }
      i := i + 1;
    }
    assert entries[..i] == entries;
    res := Ok(demographics);
  }

  /** One participant's phase trials, unpacked one trial at a time in trial order. */
  method ParticipantTrials(pid: string, pdata: Json, phase: nat) returns (res: Result<seq<Row>>)
    ensures res == TrialRows(pid, pdata, phase)
  {
    var phaseTrials := PhaseTrials(pdata, phase);
    if phaseTrials.Err? {
      return Err(phaseTrials.error);
    }
    var items := phaseTrials.value;
    var mine: seq<Row> := [];
    var j := 0;
    while j < |items|
      invariant 0 <= j <= |items|
      invariant Collect(items[..j], UnpackAll(pid)) == Ok(mine)
    {
      CollectStep(items, j, UnpackAll(pid), mine);
      var row := Unpack(pid, items[j]);
      if row.Err? {
        CollectErrorSticks(items, j + 1, UnpackAll(pid));
        assert items[..|items|] == items;
        return Err(row.error);
      }
      mine := mine + [row.value];
      j := j + 1;
    }
    assert items[..j] == items;
    res := Ok(mine);
  }

  /** phase<k>_trials.csv: every trial of every participant, participant by participant. */
  method FlattenTrials(data: Json, phase: nat) returns (res: Result<seq<Row>>)
    ensures res == Flatten(data, TrialRowsOf(phase))
  {
    if !data.Obj? {
      return Err(AttributeError);
    }
    var entries := data.fields;
    var trials: seq<Row> := [];
    var i := 0;
    while i < |entries|
      invariant 0 <= i <= |entries|
      invariant Collect(entries[..i], TrialRowsOf(phase)) == Ok(trials)
    {
      var (pid, pdata) := entries[i];
      CollectStep(entries, i, TrialRowsOf(phase), trials);
      var mine := ParticipantTrials(pid, pdata, phase);
      assert TrialRowsOf(phase)(entries[i]) == mine;
      if mine.Err? {
        CollectErrorSticks(entries, i + 1, TrialRowsOf(phase));
        return Err(mine.error);
      }
      trials := trials + mine.value;
      i := i + 1;
    }
    assert entries[..i] == entries;
    res := Ok(trials);
  }

  /** surveys.csv: one row per participant with the six survey answers. */
  method FlattenSurveys(data: Json) returns (res: Result<seq<Row>>)
    ensures res == Flatten(data, SurveyRows)
  {
    if !data.Obj? {
      return Err(AttributeError);
    }
    var entries := data.fields;
    var surveys: seq<Row> := [];
    var i := 0;
    while i < |entries|
      invariant 0 <= i <= |entries|
      invariant Collect(entries[..i], SurveyRows) == Ok(surveys)
    {
      var (pid, pdata) := entries[i];
      CollectStep(entries, i, SurveyRows, surveys);
      var row := SurveyRow(pid, pdata);
      if row.Err? {
        CollectErrorSticks(entries, i + 1, SurveyRows);
        return Err(row.error);
      }
      surveys := surveys + [row.value];
      i := i + 1;
    }
    assert entries[..i] == entries;
    res := Ok(surveys);
  }

  // ---------------------------------------------------------------------------
  // Properties of the dict operations
  // ---------------------------------------------------------------------------

  /** In `{**d, **src}` every key of src takes src's value; the other keys keep d's. */
  lemma {:induction false} MergeLookup(d: Row, src: seq<(string, Json)>, k: string)
    requires DistinctKeys(src)
    ensures Lookup(Merge(d, src), k) == if k in Keys(src) then Lookup(src, k) else Lookup(d, k)
    decreases |src|
  {
    if src != [] {
      KeysTail(src);
      MergeLookup(Put(d, src[0].0, src[0].1), src[1..], k);
    }
  }

  /**
    `{'participant_id': pid, **record}`: the row has the record's keys plus
    `participant_id`, first; every record field keeps its value, and a
    `participant_id` field of the record overrides the key. Without one,
    the row is the id followed by the record's fields in their order.
  */
  lemma UnpackFields(pid: string, fields: seq<(string, Json)>)
    requires DistinctKeys(fields)
    ensures var row := Unpack(pid, Obj(fields)).value;
      && row[0].0 == "participant_id"
      && Keys(row) == {"participant_id"} + Keys(fields)
      && DistinctKeys(row)
      && Lookup(row, "participant_id") ==
           (if "participant_id" in Keys(fields) then Lookup(fields, "participant_id") else Some(Str(pid)))
      && forall k :: k != "participant_id" ==> Lookup(row, k) == Lookup(fields, k)
    ensures "participant_id" !in Keys(fields) ==>
      Unpack(pid, Obj(fields)).value == [("participant_id", Str(pid))] + fields
  {
    var start: Row := [("participant_id", Str(pid))];
    KeysCons(start[0], []);
    assert start == [start[0]] + [];
    forall k {
      MergeLookup(start, fields, k);
    }
  }

  // ---------------------------------------------------------------------------
  // Properties of the loader
  // ---------------------------------------------------------------------------

  /** An export wrapped in a `participants` node is unwrapped; an empty one is refused. */
  lemma LoadUnwrapsParticipants(fields: seq<(string, Json)>, inner: seq<(string, Json)>)
    requires Lookup(fields, "participants") == Some(Obj(inner))
    ensures LoadFirebaseData(true, Obj(fields)) == if inner == [] then Err(ValueError) else Ok(Obj(inner))
  {
  }

  /** A None export, or one with no participants, raises ValueError. */
  lemma LoadRejectsEmpty()
    ensures LoadFirebaseData(true, Null) == Err(ValueError)
    ensures LoadFirebaseData(true, Obj([])) == Err(ValueError)
    ensures LoadFirebaseData(true, Arr([])) == Err(ValueError)
  {
    assert Keys([]) == {};
  }

  // ---------------------------------------------------------------------------
  // Properties of participants.csv
  // ---------------------------------------------------------------------------

  /** A field of a sub-record as the row shows it: its value, or None when absent. */
  function FieldOrNone(record: Json, name: string): Json
    requires record.Obj?
  {
    match Lookup(record.fields, name)
    case Some(v) => v
    case None => Null
  }

  /** A row of the id followed by two groups of named columns, read column by column. */
  lemma IdAndColumns(pid: string, names1: seq<string>, rec1: seq<(string, Json)>, names2: seq<string>, rec2: seq<(string, Json)>)
    ensures var row := [("participant_id", Str(pid))] + Columns(names1, rec1) + Columns(names2, rec2);
      && |row| == 1 + |names1| + |names2|
      && row[0] == ("participant_id", Str(pid))
      && (forall k :: 0 <= k < |names1| ==> row[1 + k] == (names1[k], FieldOrNone(Obj(rec1), names1[k])))
      && (forall k :: 0 <= k < |names2| ==> row[1 + |names1| + k] == (names2[k], FieldOrNone(Obj(rec2), names2[k])))
  {
    var x, a, b := ("participant_id", Str(pid)), Columns(names1, rec1), Columns(names2, rec2);
    var row := [x] + a + b;
    forall k | 0 <= k < |names1|
      ensures row[1 + k] == (names1[k], FieldOrNone(Obj(rec1), names1[k]))
    {
      assert row[1 + k] == ([x] + a)[1 + k] == a[k];
      ColumnIsField(names1, rec1, k);
    }
    forall k | 0 <= k < |names2|
      ensures row[1 + |names1| + k] == (names2[k], FieldOrNone(Obj(rec2), names2[k]))
    {
      assert row[1 + |names1| + k] == b[k];
      ColumnIsField(names2, rec2, k);
    }
  }

  /** Column k holds the named field's value, or None when the record lacks it. */
  lemma ColumnIsField(names: seq<string>, record: seq<(string, Json)>, k: int)
    requires 0 <= k < |names|
    ensures Columns(names, record)[k] == (names[k], FieldOrNone(Obj(record), names[k]))
  {
  }

  /** Every column of an absent record is None. */
  lemma EmptyRecordFields(names: seq<string>)
    ensures forall k :: 0 <= k < |names| ==> FieldOrNone(Obj([]), names[k]) == Null
  {
    assert Keys([]) == {};
  }

  /**
    A participant's row: raised only when the participant, its metadata or its
    summary is not a dict; otherwise the key, then each metadata field and
    each summary score, None when missing.
  */
  lemma ParticipantRowColumns(pid: string, pdata: Json)
    ensures var r := ParticipantRow(pid, pdata);
      r.Ok? <==> pdata.Obj? && GetOr(pdata.fields, "metadata", Obj([])).Obj? && GetOr(pdata.fields, "summary", Obj([])).Obj?
    ensures var r := ParticipantRow(pid, pdata);
      r.Err? ==> r.error == AttributeError
    ensures var r := ParticipantRow(pid, pdata);
      r.Ok? ==>
        var metadata := GetOr(pdata.fields, "metadata", Obj([]));
        var summary := GetOr(pdata.fields, "summary", Obj([]));
        && |r.value| == 1 + |MetadataFields| + |SummaryFields|
        && r.value[0] == ("participant_id", Str(pid))
        && (forall k :: 0 <= k < |MetadataFields| ==>
              r.value[1 + k] == (MetadataFields[k], FieldOrNone(metadata, MetadataFields[k])))
        && (forall k :: 0 <= k < |SummaryFields| ==>
              r.value[1 + |MetadataFields| + k] == (SummaryFields[k], FieldOrNone(summary, SummaryFields[k])))
  {
    if pdata.Obj? {
      var metadata := GetOr(pdata.fields, "metadata", Obj([]));
      var summary := GetOr(pdata.fields, "summary", Obj([]));
      if metadata.Obj? && summary.Obj? {
        IdAndColumns(pid, MetadataFields, metadata.fields, SummaryFields, summary.fields);
      }
    }
  }

  /** An absent `metadata` or `summary` leaves all of its columns None. */
  lemma ParticipantRowMissingSections(pid: string, pdata: Json)
    requires ParticipantRow(pid, pdata).Ok?
    ensures var r := ParticipantRow(pid, pdata).value;
      "metadata" !in Keys(pdata.fields) ==> forall k :: 1 <= k <= |MetadataFields| ==> r[k].1 == Null
    ensures var r := ParticipantRow(pid, pdata).value;
      "summary" !in Keys(pdata.fields) ==> forall k :: 1 + |MetadataFields| <= k < |r| ==> r[k].1 == Null
  {
    ParticipantRowColumns(pid, pdata);
    var r := ParticipantRow(pid, pdata).value;
    if "metadata" !in Keys(pdata.fields) {
      assert GetOr(pdata.fields, "metadata", Obj([])) == Obj([]);
      EmptyRecordFields(MetadataFields);
      forall k | 1 <= k <= |MetadataFields|
        ensures r[k].1 == Null
      {
        assert r[1 + (k - 1)].1 == FieldOrNone(Obj([]), MetadataFields[k - 1]);
      }
    }
    if "summary" !in Keys(pdata.fields) {
      assert GetOr(pdata.fields, "summary", Obj([])) == Obj([]);
      EmptyRecordFields(SummaryFields);
      forall k | 1 + |MetadataFields| <= k < |r|
        ensures r[k].1 == Null
      {
        var j := k - 1 - |MetadataFields|;
        assert r[1 + |MetadataFields| + j].1 == FieldOrNone(Obj([]), SummaryFields[j]);
      }
    }
  }


  /** participants.csv has one row per participant, in order, keyed by the participant id. */
  lemma ParticipantsOneRowPerKey(data: Json)
    requires Flatten(data, ParticipantRows).Ok?
    ensures data.Obj?
    ensures var rows := Flatten(data, ParticipantRows).value;
      && |rows| == |data.fields|
      && forall i :: 0 <= i < |rows| ==> |rows[i]| > 0 && rows[i][0] == ("participant_id", Str(data.fields[i].0))
  {
    CollectSingletons(data.fields, ParticipantRows);
    forall i | 0 <= i < |data.fields| {
      ParticipantRowColumns(data.fields[i].0, data.fields[i].1);
    }
  }

  // ---------------------------------------------------------------------------
  // Properties of demographics.csv
  // ---------------------------------------------------------------------------

  /** The participants whose demographics are present and non-empty. */
  function WithDemographics(s: seq<(string, Json)>): nat
  {
    if s == [] then 0
    else
      var pdata := s[|s| - 1].1;
      var more := if pdata.Obj? && Truthy(GetOr(pdata.fields, "demographics", Obj([]))) then 1 else 0;
      WithDemographics(s[..|s| - 1]) + more
  }

  /** A participant adds its demographics, unpacked after its id, exactly when they are non-empty. */
  lemma DemographicRowsOnlyWhenPresent(pid: string, pdata: Json)
    requires DemographicRows(pid, pdata).Ok?
    ensures pdata.Obj?
    ensures var demo := GetOr(pdata.fields, "demographics", Obj([]));
      var rows := DemographicRows(pid, pdata).value;
      && (|rows| == 1 <==> Truthy(demo))
      && (|rows| == 0 <==> !Truthy(demo))
      && (|rows| == 1 ==> demo.Obj? && rows[0] == Unpack(pid, demo).value)
  {
  }

  /** A participant without a `demographics` key contributes no demographics row. */
  lemma MissingDemographicsGivesNoRows(pid: string, fields: seq<(string, Json)>)
    requires "demographics" !in Keys(fields)
    ensures DemographicRows(pid, Obj(fields)) == Ok([])
  {
    assert Lookup(fields, "demographics") == None;
  }

  /** demographics.csv has one row per participant with non-empty demographics. */
  lemma {:induction false} DemographicsRowCount(s: seq<(string, Json)>)
    requires Collect(s, DemographicRowsOf).Ok?
    ensures |Collect(s, DemographicRowsOf).value| == WithDemographics(s)
    decreases |s|
  {
    CollectOkIff(s, DemographicRowsOf);
    if s != [] {
      var s' := s[..|s| - 1];
      CollectPrefix(s, |s'|, DemographicRowsOf);
      DemographicsRowCount(s');
      CollectOkIff(s', DemographicRowsOf);
      var last := s[|s| - 1];
      DemographicRowsOnlyWhenPresent(last.0, last.1);
    }
  }

  // ---------------------------------------------------------------------------
  // Properties of the phase trial tables
  // ---------------------------------------------------------------------------

  /** The number of phase trials the participants hold, in total. */
  function TrialTotal(s: seq<(string, Json)>, phase: nat): nat
  {
    if s == [] then 0
    else
      var pt := PhaseTrials(s[|s| - 1].1, phase);
      TrialTotal(s[..|s| - 1], phase) + (if pt.Ok? then |pt.value| else 0)
  }

  /** A participant contributes one row per trial: its id followed by the trial's fields. */
  lemma TrialRowsPerTrial(pid: string, pdata: Json, phase: nat)
    requires TrialRows(pid, pdata, phase).Ok?
    ensures PhaseTrials(pdata, phase).Ok?
    ensures var items := PhaseTrials(pdata, phase).value;
      var rows := TrialRows(pid, pdata, phase).value;
      && |rows| == |items|
      && forall j :: 0 <= j < |items| ==> items[j].Obj? && rows[j] == Unpack(pid, items[j]).value
  {
    var items := PhaseTrials(pdata, phase).value;
    CollectSingletons(items, UnpackAll(pid));
  }

  /** A participant without `trials`, or without this phase, contributes no rows. */
  lemma MissingPhaseGivesNoRows(pid: string, fields: seq<(string, Json)>, phase: nat)
    requires "trials" !in Keys(fields) ||
             exists t :: Lookup(fields, "trials") == Some(Obj(t)) && "phase" + Text.NatToString(phase) !in Keys(t)
    ensures TrialRows(pid, Obj(fields), phase) == Ok([])
  {
    assert Keys([]) == {};
  }

  /** The phase trial table has as many rows as the participants have trials. */
  lemma {:induction false} TrialsRowCount(s: seq<(string, Json)>, phase: nat)
    requires Collect(s, TrialRowsOf(phase)).Ok?
    ensures |Collect(s, TrialRowsOf(phase)).value| == TrialTotal(s, phase)
    decreases |s|
  {
    CollectOkIff(s, TrialRowsOf(phase));
    if s != [] {
      var s' := s[..|s| - 1];
      CollectPrefix(s, |s'|, TrialRowsOf(phase));
      TrialsRowCount(s', phase);
      CollectOkIff(s', TrialRowsOf(phase));
      var last := s[|s| - 1];
      TrialRowsPerTrial(last.0, last.1, phase);
    }
  }

  /** Rows come participant by participant: participant i's trials form one block, in trial order. */
  lemma TrialsInParticipantOrder(data: Json, phase: nat, i: int)
    requires Flatten(data, TrialRowsOf(phase)).Ok?
    requires data.Obj? && 0 <= i < |data.fields|
    ensures var rows := Flatten(data, TrialRowsOf(phase)).value;
      var entry := data.fields[i];
      var lo := TrialTotal(data.fields[..i], phase);
      var hi := TrialTotal(data.fields[..i + 1], phase);
      && TrialRows(entry.0, entry.1, phase).Ok?
      && lo <= hi <= |rows|
      && rows[lo..hi] == TrialRows(entry.0, entry.1, phase).value
  {
    var s := data.fields;
    var f := TrialRowsOf(phase);
    CollectSegment(s, i, f);
    CollectPrefix(s, i, f);
    CollectPrefix(s, i + 1, f);
    TrialsRowCount(s[..i], phase);
    TrialsRowCount(s[..i + 1], phase);
    assert f(s[i]) == TrialRows(s[i].0, s[i].1, phase);
  }

  // ---------------------------------------------------------------------------
  // Properties of surveys.csv
  // ---------------------------------------------------------------------------

  /**
    A participant's survey row is raised, always as an AttributeError,
    exactly when the participant, its surveys or one of the two survey
    objects present is not a dict.
  */
  lemma SurveyRowErrors(pid: string, pdata: Json)
    ensures var r := SurveyRow(pid, pdata);
      r.Ok? <==>
        && pdata.Obj?
        && GetOr(pdata.fields, "surveys", Obj([])).Obj?
        && GetOr(GetOr(pdata.fields, "surveys", Obj([])).fields, "technical_check", Obj([])).Obj?
        && GetOr(GetOr(pdata.fields, "surveys", Obj([])).fields, "user_feedback", Obj([])).Obj?
    ensures var r := SurveyRow(pid, pdata);
      r.Err? ==> r.error == AttributeError
  {
  }

  /**
    A participant's survey row: the id, the three technical-check answers and
    the three feedback answers, None when missing.
  */
  lemma SurveyRowColumns(pid: string, pdata: Json)
    requires SurveyRow(pid, pdata).Ok?
    ensures pdata.Obj? && GetOr(pdata.fields, "surveys", Obj([])).Obj?
    ensures var r := SurveyRow(pid, pdata).value;
      var surveyData := GetOr(pdata.fields, "surveys", Obj([]));
      var check := GetOr(surveyData.fields, "technical_check", Obj([]));
      var feedback := GetOr(surveyData.fields, "user_feedback", Obj([]));
      && check.Obj? && feedback.Obj?
      && |r| == 7
      && r[0] == ("participant_id", Str(pid))
      && (forall k :: 0 <= k < 3 ==> r[1 + k] == (TechnicalCheckFields[k], FieldOrNone(check, TechnicalCheckFields[k])))
      && (forall k :: 0 <= k < 3 ==> r[4 + k] == (UserFeedbackFields[k], FieldOrNone(feedback, UserFeedbackFields[k])))
  {
    var surveyData := GetOr(pdata.fields, "surveys", Obj([]));
    var check := GetOr(surveyData.fields, "technical_check", Obj([]));
    var feedback := GetOr(surveyData.fields, "user_feedback", Obj([]));
    IdAndColumns(pid, TechnicalCheckFields, check.fields, UserFeedbackFields, feedback.fields);
  }

  /** A participant without surveys still gets a row, every answer None. */
  lemma SurveyRowWithoutSurveys(pid: string, pdata: Json)
    requires pdata.Obj? && "surveys" !in Keys(pdata.fields)
    ensures SurveyRow(pid, pdata).Ok?
    ensures forall k :: 1 <= k < |SurveyRow(pid, pdata).value| ==> SurveyRow(pid, pdata).value[k].1 == Null
  {
    assert Keys([]) == {};
    SurveyRowColumns(pid, pdata);
    EmptyRecordFields(TechnicalCheckFields);
    EmptyRecordFields(UserFeedbackFields);
  }

  /** surveys.csv has one row per participant, in order, keyed by the participant id. */
  lemma SurveysOneRowPerKey(data: Json)
    requires Flatten(data, SurveyRows).Ok?
    ensures data.Obj?
    ensures var rows := Flatten(data, SurveyRows).value;
      && |rows| == |data.fields|
      && forall i :: 0 <= i < |rows| ==> |rows[i]| > 0 && rows[i][0] == ("participant_id", Str(data.fields[i].0))
  {
    CollectSingletons(data.fields, SurveyRows);
    forall i | 0 <= i < |data.fields|
      ensures SurveyRow(data.fields[i].0, data.fields[i].1).value[0] == ("participant_id", Str(data.fields[i].0))
    {
      assert SurveyRows(data.fields[i]).Ok?;
      SurveyRowColumns(data.fields[i].0, data.fields[i].1);
    }
  }
}
