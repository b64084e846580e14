/**
  The coloured-background plan: for each of the 100 face indices, the input
  image it reads, the red and blue output images it writes, and whether the
  face is composited over the background or only converted to RGB.

  Files are a map from path to the image found there; pixel work is left to
  the imaging library, so an output records how it was made rather than its
  pixels.
*/
module GenerateColoredFaces {
  import Text

  const INPUT_DIR: string := "stimuli/fg_faces"
  const OUTPUT_DIR: string := "stimuli/faces"
  const FACE_COUNT: nat := 100

  /** An RGB colour. */
  datatype Colour = Rgb(r: int, g: int, b: int)

  const RED: Colour := Rgb(255, 0, 0)
  const BLUE: Colour := Rgb(0, 0, 255)

  /** An opened image: its mode and the keys of its `info` dictionary. */
  datatype Image = Image(mode: string, infoKeys: set<string>)

  /** How an output image is produced from an input. */
  datatype Rendered =
    | CompositedOver(face: Image, background: Colour)
    | ConvertedToRgb(face: Image)

  /** One saved output: where, and what. */
  datatype Write = Write(path: string, image: Rendered)

  /** `os.path.join(dir, name)` with a POSIX separator. */
  function Join(dir: string, name: string): string
  {
    dir + "/" + name
  }

  /** The input for index i is numbered i + 1 (001 to 100). */
  function InputPath(i: nat): string
  {
    Join(INPUT_DIR, "face_" + Text.ZeroPad(i + 1, 3) + ".png")
  }

  /** The common start of index i's outputs, numbered i (000 to 099). */
  function OutputStem(i: nat): string
  {
    Join(OUTPUT_DIR, "face_" + Text.ZeroPad(i, 3))
  }

  function RedPath(i: nat): string
  {
    OutputStem(i) + "_red.png"
  }

  function BluePath(i: nat): string
  {
    OutputStem(i) + "_blue.png"
  }

  /** The alpha test: RGBA or LA, or a palette image declaring a transparent colour. */
  predicate HasTransparency(img: Image)
  {
    img.mode == "RGBA" || img.mode == "LA" || (img.mode == "P" && "transparency" in img.infoKeys)
  }

  /** One coloured version: the face pasted over the background through its alpha, or just converted. */
  function Render(img: Image, background: Colour): (out: Rendered)
    ensures out.face == img
    ensures out.CompositedOver? <==> HasTransparency(img)
    ensures out.CompositedOver? ==> out.background == background
  {
    if HasTransparency(img) then CompositedOver(img, background) else ConvertedToRgb(img)
  }

  /** The writes for index i: red then blue if its input exists, nothing otherwise. */
  function WritesFor(files: map<string, Image>, i: nat): seq<Write>
  {
    if InputPath(i) in files then
      var img := files[InputPath(i)];
      [Write(RedPath(i), Render(img, RED)), Write(BluePath(i), Render(img, BLUE))]
    else []
  }

  /** The writes of the first n indices, in index order. */
  function PlannedWrites(files: map<string, Image>, n: nat): seq<Write>
    decreases n
  {
    if n == 0 then []
    else if InputPath(n - 1) in files then PlannedWrites(files, n - 1) + WritesFor(files, n - 1)
    else PlannedWrites(files, n - 1)
  }

  /** The inputs among the first n that are reported missing, in index order. */
  function MissingInputs(files: map<string, Image>, n: nat): seq<string>
    decreases n
  {
    if n == 0 then []
    else if InputPath(n - 1) in files then MissingInputs(files, n - 1)
    else MissingInputs(files, n - 1) + [InputPath(n - 1)]
  }

  /**
    The script's loop over the 100 indices: an existing input yields a red
    and a blue output, a missing one only a warning.
  */
  method PlanColoredFaces(files: map<string, Image>) returns (writes: seq<Write>, warnings: seq<string>)
    ensures writes == PlannedWrites(files, FACE_COUNT)
    ensures warnings == MissingInputs(files, FACE_COUNT)
  {
    writes := [];
    warnings := [];
    for i := 0 to FACE_COUNT
      invariant writes == PlannedWrites(files, i)
      invariant warnings == MissingInputs(files, i)
    {
      var inputPath := InputPath(i);
      var redPath := RedPath(i);
      var bluePath := BluePath(i);
      if inputPath in files {
        var faceImg := files[inputPath];
        var red: Rendered;
        if HasTransparency(faceImg) {
          red := CompositedOver(faceImg, RED);
        } else {
          red := ConvertedToRgb(faceImg);
        }
        writes := writes + [Write(redPath, red)];
        var blue: Rendered;
        if HasTransparency(faceImg) {
          blue := CompositedOver(faceImg, BLUE);
        } else {
          blue := ConvertedToRgb(faceImg);
        }
        writes := writes + [Write(bluePath, blue)];
      } else {
        warnings := warnings + [inputPath];
      }
    }
  }

  // ---------------------------------------------------------------------------
  // Properties of the names
  // ---------------------------------------------------------------------------

  /** The digits of index i's output names read back as i, and those of its input as i + 1. */
  lemma NameNumbers(i: nat)
    requires i < FACE_COUNT
    ensures var digits := Text.ZeroPad(i, 3);
      && |digits| == 3 && Text.Parse(digits) == i
      && OutputStem(i) == OUTPUT_DIR + "/face_" + digits
    ensures var digits := Text.ZeroPad(i + 1, 3);
      && |digits| == 3 && Text.Parse(digits) == i + 1
      && InputPath(i) == INPUT_DIR + "/face_" + digits + ".png"
  {
    var out, inp := Text.ZeroPad(i, 3), Text.ZeroPad(i + 1, 3);
    Text.ZeroPad3Length(i);
    Text.ZeroPad3Length(i + 1);
    Text.ZeroPadValue(i, 3);
    Text.ZeroPadValue(i + 1, 3);
    assert OUTPUT_DIR + "/" + ("face_" + out) == OUTPUT_DIR + "/face_" + out;
    assert INPUT_DIR + "/" + ("face_" + inp + ".png") == INPUT_DIR + "/face_" + inp + ".png";
  }

  /** Different indices have different output stems. */
  lemma StemInjective(i: nat, j: nat)
    requires OutputStem(i) == OutputStem(j)
    ensures i == j
  {
    Text.PrefixCancel(OUTPUT_DIR + "/", "face_" + Text.ZeroPad(i, 3), "face_" + Text.ZeroPad(j, 3));
    Text.PrefixCancel("face_", Text.ZeroPad(i, 3), Text.ZeroPad(j, 3));
    Text.ZeroPadInjective(i, j, 3);
  }

  /**
    No two outputs share a path: red names of distinct indices differ, blue
    ones too, and a red name is never a blue name, whatever the indices.
  */
  lemma OutputNamesDistinct(i: nat, j: nat)
    ensures RedPath(i) == RedPath(j) ==> i == j
    ensures BluePath(i) == BluePath(j) ==> i == j
    ensures RedPath(i) != BluePath(j)
  {
    if RedPath(i) == RedPath(j) {
      Text.SuffixCancel(OutputStem(i), OutputStem(j), "_red.png");
      StemInjective(i, j);
    }
    if BluePath(i) == BluePath(j) {
      Text.SuffixCancel(OutputStem(i), OutputStem(j), "_blue.png");
      StemInjective(i, j);
    }
    var red, blue := RedPath(i), BluePath(j);
    // "_red.png" and "_blue.png" differ five characters from the end: 'd' against 'e'.
    assert red[|red| - 5] == 'd';
    assert blue[|blue| - 5] == 'e';
  }

  lemma InputPathShape(i: nat)
    ensures InputPath(i) == (INPUT_DIR + "/face_") + Text.ZeroPad(i + 1, 3) + ".png"
  {
  }

  /** Different indices read different inputs. */
  lemma InputNamesDistinct(i: nat, j: nat)
    requires InputPath(i) == InputPath(j)
    ensures i == j
  {
    InputPathShape(i);
    InputPathShape(j);
    Text.MiddleCancel(INPUT_DIR + "/face_", Text.ZeroPad(i + 1, 3), Text.ZeroPad(j + 1, 3), ".png");
    Text.ZeroPadInjective(i + 1, j + 1, 3);
  }

  // ---------------------------------------------------------------------------
  // Properties of the rendering choice
  // ---------------------------------------------------------------------------

  /**
    The red and blue versions of a face are the same image exactly when it
    has no transparency: only then is the background colour ignored.
  */
  lemma ColourMattersIffTransparent(img: Image)
    ensures Render(img, RED) == Render(img, BLUE) <==> !HasTransparency(img)
    ensures !HasTransparency(img) ==> Render(img, RED) == ConvertedToRgb(img)
  {
  }

  // ---------------------------------------------------------------------------
  // Properties of the plan
  // ---------------------------------------------------------------------------

  /** Every planned write belongs to an earlier index whose input exists. */
  lemma {:induction false} WritesComeFromInputs(files: map<string, Image>, n: nat)
    ensures forall w :: w in PlannedWrites(files, n) ==>
      exists i :: 0 <= i < n && InputPath(i) in files && (w.path == RedPath(i) || w.path == BluePath(i))
    decreases n
  {
    if n > 0 {
      WritesComeFromInputs(files, n - 1);
    }
  }

  /** Each index's outputs are written only by that index. */
  lemma WritesForPaths(files: map<string, Image>, i: nat, w: Write)
    requires w in WritesFor(files, i)
    ensures w.path == RedPath(i) || w.path == BluePath(i)
  {
  }

  /** An existing input yields its red and its blue version; a missing one neither. */
  lemma {:induction false} OutputsIffInputExists(files: map<string, Image>, n: nat, i: nat)
    requires i < n
    ensures InputPath(i) in files ==>
      && Write(RedPath(i), Render(files[InputPath(i)], RED)) in PlannedWrites(files, n)
      && Write(BluePath(i), Render(files[InputPath(i)], BLUE)) in PlannedWrites(files, n)
    ensures InputPath(i) !in files ==>
      forall w :: w in PlannedWrites(files, n) ==> w.path != RedPath(i) && w.path != BluePath(i)
    ensures InputPath(i) !in files <==> InputPath(i) in MissingInputs(files, n)
    decreases n
  {
    if i < n - 1 {
      OutputsIffInputExists(files, n - 1, i);
      if InputPath(i) !in files {
        forall w | w in WritesFor(files, n - 1)
          ensures w.path != RedPath(i) && w.path != BluePath(i)
        {
          WritesForPaths(files, n - 1, w);
          OutputNamesDistinct(i, n - 1);
          OutputNamesDistinct(n - 1, i);
        }
      }
      if InputPath(n - 1) !in files {
        if InputPath(i) == InputPath(n - 1) {
          InputNamesDistinct(i, n - 1);
        }
      }
    } else {
      if InputPath(i) !in files {
        forall w | w in PlannedWrites(files, n - 1)
          ensures w.path != RedPath(i) && w.path != BluePath(i)
        {
          WritesComeFromInputs(files, n - 1);
          var j :| 0 <= j < n - 1 && InputPath(j) in files && (w.path == RedPath(j) || w.path == BluePath(j));
          OutputNamesDistinct(i, j);
          OutputNamesDistinct(j, i);
        }
      }
      MissingInputsBelow(files, n - 1, i);
    }
  }

  /** The warnings for the first n indices name only inputs below n. */
  lemma {:induction false} MissingInputsBelow(files: map<string, Image>, n: nat, i: nat)
    requires n <= i
    ensures InputPath(i) !in MissingInputs(files, n)
    decreases n
  {
    if n > 0 {
      MissingInputsBelow(files, n - 1, i);
      if InputPath(n - 1) == InputPath(i) {
        InputNamesDistinct(n - 1, i);
      }
    }
  }

  /** Each index accounts for two writes or one warning, so all 200 outputs appear exactly when no input is missing. */
  lemma {:induction false} WritesAndWarningsCount(files: map<string, Image>, n: nat)
    ensures |PlannedWrites(files, n)| + 2 * |MissingInputs(files, n)| == 2 * n
    ensures |PlannedWrites(files, n)| == 2 * n <==> MissingInputs(files, n) == []
    decreases n
  {
    if n > 0 {
      WritesAndWarningsCount(files, n - 1);
    }
  }

  /** No two writes in ws go to the same path. */
  predicate PathsUnique(ws: seq<Write>)
  {
    forall a, b :: 0 <= a < b < |ws| ==> ws[a].path != ws[b].path
  }

  /** No output path is written twice. */
  lemma {:induction false} WritePathsDistinct(files: map<string, Image>, n: nat)
    ensures PathsUnique(PlannedWrites(files, n))
    decreases n
  {
    if n > 0 {
      WritePathsDistinct(files, n - 1);
      WritesComeFromInputs(files, n - 1);
      var prev := PlannedWrites(files, n - 1);
      var ws := PlannedWrites(files, n);
      var more := WritesFor(files, n - 1);
      assert ws == prev + more;
      forall a, b | 0 <= a < b < |ws|
        ensures ws[a].path != ws[b].path
      {
        if b >= |prev| {
          assert ws[b] == more[b - |prev|];
          WritesForPaths(files, n - 1, ws[b]);
          if a >= |prev| {
            assert a == |prev| && b == |prev| + 1;
            assert ws[a] == more[0] && ws[b] == more[1];
            OutputNamesDistinct(n - 1, n - 1);
          } else {
            assert ws[a] == prev[a];
            assert ws[a] in prev;
            var j :| 0 <= j < n - 1 && InputPath(j) in files && (ws[a].path == RedPath(j) || ws[a].path == BluePath(j));
            OutputNamesDistinct(j, n - 1);
            OutputNamesDistinct(n - 1, j);
          }
        } else {
          assert ws[a] == prev[a] && ws[b] == prev[b];
          assert prev[a].path != prev[b].path;
        }
      }
    }
  }
}
