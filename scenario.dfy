/** The scenario-file settings read by `SMAC_analyzer.__init__`: each line is
    split on whitespace, its first token is looked up among fixed synonym
    sets, and a recognized key overwrites one setting with the line's second
    token. Anything the Python code would raise becomes a ParseError. */
module ScenarioFile {
  import opened Wrappers
  import opened Text

  /** The settings a scenario line can assign. */
  datatype Field = OutputDir | PcsFile | Validation | Objective | Cutoff

  /** The synonym sets of the scenario keys (case-sensitive). */
  const OutputDirKeys: set<string> := {"output-dir", "outputDirectory", "outdir"}
  const PcsFileKeys: set<string> := {"pcs-file"}
  const ValidationKey: string := "validation"
  const ObjectiveKeys: set<string> :=
    {"intra-obj", "intra-instance-obj", "overall-obj", "intraInstanceObj",
     "overallObj", "overall_obj", "intra_instance_obj"}
  const CutoffKeys: set<string> :=
    {"algo-cutoff-time", "target-run-cputime-limit", "target_run_cputime_limit",
     "cutoff-time", "cutoffTime", "cutoff_time"}

  /** The field a key assigns, or None for a key the analyzer ignores. */
  function FieldOf(key: string): Option<Field> {
    if key in OutputDirKeys then Some(OutputDir)
    else if key in PcsFileKeys then Some(PcsFile)
    else if key == ValidationKey then Some(Validation)
    else if key in ObjectiveKeys then Some(Objective)
    else if key in CutoffKeys then Some(Cutoff)
    else None
  }

  /** The analyzer's attributes after parsing; None stands for an attribute
      no line assigned (the Python object then has no such attribute). */
  datatype Settings = Settings(
    outputDir: Option<string>,
    pcsFile: Option<string>,
    validation: bool,
    overallObjective: string,
    cutoffTime: Option<real>)

  /** Before any line is read: validation on, objective "MEAN10". */
  const Defaults := Settings(None, None, true, "MEAN10", None)

  /** Why reading a scenario file aborts; `line` is the 0-based line index. */
  datatype ParseError =
    | BlankLine(line: nat)                   // strlist[0] of an empty token list
    | MissingValue(line: nat, field: Field)  // strlist[1] after a lone recognized key
    | BadCutoff(line: nat, token: string)    // float() rejects the cutoff value

  /** `bool(t)` for a Python string: false only for the empty string. */
  function Truthy(t: string): bool {
    |t| > 0
  }

  /** Whether the tokens of one line make the parser raise, whatever was
      read before. */
  predicate LineFails(tokens: seq<string>, parseFloat: string -> Option<real>) {
    || |tokens| == 0
    || (FieldOf(tokens[0]).Some? &&
        (|tokens| < 2 || (FieldOf(tokens[0]) == Some(Cutoff) && parseFloat(tokens[1]).None?)))
  }

  /** One pass of the loop body: line n, already split into tokens, applied
      to the settings read so far. */
  function ApplyLine(s: Settings, n: nat, tokens: seq<string>, parseFloat: string -> Option<real>)
    : (r: Result<Settings, ParseError>)
    ensures r.Failure? <==> LineFails(tokens, parseFloat)
    ensures r.Failure? ==> r.error.line == n
    ensures r.Success? && (|tokens| < 2 || FieldOf(tokens[0]).None?) ==> r.value == s
  {
    if |tokens| == 0 then Failure(BlankLine(n))
    else match FieldOf(tokens[0])
      case None => Success(s)
      case Some(f) =>
        if |tokens| < 2 then Failure(MissingValue(n, f))
        else
          var v := tokens[1];
          match f
          case OutputDir => Success(s.(outputDir := Some(v)))
          case PcsFile => Success(s.(pcsFile := Some(v)))
          case Validation => Success(s.(validation := Truthy(v)))
          case Objective => Success(s.(overallObjective := v))
          case Cutoff =>
            match parseFloat(v)
            case None => Failure(BadCutoff(n, v))
            case Some(x) => Success(s.(cutoffTime := Some(x)))
  }

  /** The whole file, line by line from the defaults; the first failing line
      aborts. `parseFloat` stands for Python's `float()` on a token. */
  function ParseScenario(lines: seq<string>, parseFloat: string -> Option<real>)
    : Result<Settings, ParseError>
    decreases |lines|
  {
    if |lines| == 0 then Success(Defaults)
    else
      match ParseScenario(lines[..|lines| - 1], parseFloat)
      case Failure(e) => Failure(e)
      case Success(s) => ApplyLine(s, |lines| - 1, Split(lines[|lines| - 1]), parseFloat)
  }

  // ---------------------------------------------------------------------------
  // Failure

  /** Parsing fails exactly when some line fails, and it reports the first. */
  lemma {:induction false} ParseFailsAtFirstBadLine(lines: seq<string>, parseFloat: string -> Option<real>)
    ensures ParseScenario(lines, parseFloat).Failure? <==>
            exists i :: 0 <= i < |lines| && LineFails(Split(lines[i]), parseFloat)
    ensures ParseScenario(lines, parseFloat).Failure? ==>
            var n := ParseScenario(lines, parseFloat).error.line;
            && n < |lines|
            && LineFails(Split(lines[n]), parseFloat)
            && forall i :: 0 <= i < n ==> !LineFails(Split(lines[i]), parseFloat)
    decreases |lines|
  {
    if |lines| > 0 {
      var front := lines[..|lines| - 1];
      ParseFailsAtFirstBadLine(front, parseFloat);
      assert forall i :: 0 <= i < |front| ==> front[i] == lines[i];
    }
  }

  /** Reading one more line of the file. */
  lemma ParseStep(lines: seq<string>, i: nat, parseFloat: string -> Option<real>)
    requires i < |lines|
    ensures ParseScenario(lines[..i + 1], parseFloat) ==
            match ParseScenario(lines[..i], parseFloat)
            case Failure(e) => Failure(e)
            case Success(s) => ApplyLine(s, i, Split(lines[i]), parseFloat)
  {
    assert lines[..i + 1][..i] == lines[..i];
  }

  /** Once a prefix of the file fails, the whole file fails with the same
      error: the lines after it are never read. */
  lemma {:induction false} FailurePersists(lines: seq<string>, k: nat, parseFloat: string -> Option<real>)
    requires k <= |lines|
    requires ParseScenario(lines[..k], parseFloat).Failure?
    ensures ParseScenario(lines, parseFloat) == ParseScenario(lines[..k], parseFloat)
    decreases |lines| - k
  {
    if k < |lines| {
      var n := |lines| - 1;
      assert lines[..n][..k] == lines[..k];
      FailurePersists(lines[..n], k, parseFloat);
    } else {
      assert lines[..k] == lines;
    }
  }

  // ---------------------------------------------------------------------------
  // Last write wins

  /** Whether a line assigns field f: a recognized key with a value. */
  predicate Sets(line: string, f: Field) {
    var t := Split(line);
    |t| >= 2 && FieldOf(t[0]) == Some(f)
  }

  /** Index of the last line that assigns f, or -1 when none does. */
  function LastSetter(lines: seq<string>, f: Field): (r: int)
    ensures -1 <= r < |lines|
    ensures r >= 0 ==> Sets(lines[r], f)
    ensures forall j :: r < j < |lines| ==> !Sets(lines[j], f)
    decreases |lines|
  {
    if |lines| == 0 then -1
    else if Sets(lines[|lines| - 1], f) then |lines| - 1
    else LastSetter(lines[..|lines| - 1], f)
  }

  /** The value token of the last line assigning f, if any. */
  function SettingOf(lines: seq<string>, f: Field): Option<string> {
    var r := LastSetter(lines, f);
    if r < 0 then None else Some(Split(lines[r])[1])
  }

  /** Each attribute holds the value of the last line that assigns it (parsed
      as that attribute requires), or its default when no line does. */
  lemma {:induction false} LastWriteWins(lines: seq<string>, parseFloat: string -> Option<real>)
    requires ParseScenario(lines, parseFloat).Success?
    ensures var s := ParseScenario(lines, parseFloat).value;
            && s.outputDir == SettingOf(lines, OutputDir)
            && s.pcsFile == SettingOf(lines, PcsFile)
            && s.validation == (match SettingOf(lines, Validation)
                                case None => true
                                case Some(v) => Truthy(v))
            && s.overallObjective == SettingOf(lines, Objective).GetOr("MEAN10")
            && s.cutoffTime == (match SettingOf(lines, Cutoff)
                                case None => None
                                case Some(v) => parseFloat(v))
    decreases |lines|
  {
    if |lines| > 0 {
      var n := |lines| - 1;
      var front := lines[..n];
      LastWriteWins(front, parseFloat);
      SettingOfSnoc(lines, OutputDir);
      SettingOfSnoc(lines, PcsFile);
      SettingOfSnoc(lines, Validation);
      SettingOfSnoc(lines, Objective);
      SettingOfSnoc(lines, Cutoff);
      ApplyLineFields(ParseScenario(front, parseFloat).value, n, lines[n], parseFloat);
    }
  }

  /** A line that parses changes exactly the one field it assigns. */
  lemma ApplyLineFields(s: Settings, n: nat, line: string, parseFloat: string -> Option<real>)
    requires ApplyLine(s, n, Split(line), parseFloat).Success?
    ensures var r, t := ApplyLine(s, n, Split(line), parseFloat).value, Split(line);
            && r.outputDir == (if Sets(line, OutputDir) then Some(t[1]) else s.outputDir)
            && r.pcsFile == (if Sets(line, PcsFile) then Some(t[1]) else s.pcsFile)
            && r.validation == (if Sets(line, Validation) then Truthy(t[1]) else s.validation)
            && r.overallObjective == (if Sets(line, Objective) then t[1] else s.overallObjective)
            && r.cutoffTime == (if Sets(line, Cutoff) then parseFloat(t[1]) else s.cutoffTime)
  {
    var t := Split(line);
    if |t| >= 2 && FieldOf(t[0]).Some? {
      var f := FieldOf(t[0]).value;
      assert forall g: Field :: Sets(line, g) <==> g == f;
    } else {
      assert forall g: Field :: !Sets(line, g);
    }
  }

  lemma SettingOfSnoc(lines: seq<string>, f: Field)
    requires |lines| > 0
    ensures var n := |lines| - 1;
            SettingOf(lines, f) ==
              if Sets(lines[n], f) then Some(Split(lines[n])[1]) else SettingOf(lines[..n], f)
  {
    var n := |lines| - 1;
    if !Sets(lines[n], f) {
      var r := LastSetter(lines[..n], f);
      assert r >= 0 ==> lines[r] == lines[..n][r];
    }
  }

  /** Validation stays on and the objective stays "MEAN10" unless a line
      assigns them. */
  lemma DefaultsUnlessSet(lines: seq<string>, parseFloat: string -> Option<real>)
    requires ParseScenario(lines, parseFloat).Success?
    ensures (forall i :: 0 <= i < |lines| ==> !Sets(lines[i], Validation)) ==>
            ParseScenario(lines, parseFloat).value.validation
    ensures (forall i :: 0 <= i < |lines| ==> !Sets(lines[i], Objective)) ==>
            ParseScenario(lines, parseFloat).value.overallObjective == "MEAN10"
  {
    LastWriteWins(lines, parseFloat);
  }

  /** `bool(strlist[1])` sees a non-empty token, so no scenario file can turn
      validation off. */
  lemma ValidationNeverFalse(lines: seq<string>, parseFloat: string -> Option<real>)
    requires ParseScenario(lines, parseFloat).Success?
    ensures ParseScenario(lines, parseFloat).value.validation
  {
    LastWriteWins(lines, parseFloat);
  }

  // ---------------------------------------------------------------------------
  // Synonyms

  /** Two lines that differ at most in which synonym of the same key they use
      (or in which unrecognized key they start with). */
  predicate SameSetting(a: string, b: string) {
    var ta, tb := Split(a), Split(b);
    |ta| == |tb| && (|ta| > 0 ==> FieldOf(ta[0]) == FieldOf(tb[0]) && ta[1..] == tb[1..])
  }

  lemma SameSettingSameStep(s: Settings, n: nat, a: string, b: string, parseFloat: string -> Option<real>)
    requires SameSetting(a, b)
    ensures ApplyLine(s, n, Split(a), parseFloat) == ApplyLine(s, n, Split(b), parseFloat)
  {
    var ta, tb := Split(a), Split(b);
    if |ta| >= 2 {
      assert ta[1] == ta[1..][0] == tb[1..][0] == tb[1];
    }
  }

  /** Replacing keys by synonyms anywhere in the file changes nothing, the
      errors included. */
  lemma {:induction false} SynonymsAgree(lines: seq<string>, lines': seq<string>, parseFloat: string -> Option<real>)
    requires |lines| == |lines'|
    requires forall i :: 0 <= i < |lines| ==> SameSetting(lines[i], lines'[i])
    ensures ParseScenario(lines, parseFloat) == ParseScenario(lines', parseFloat)
    decreases |lines|
  {
    if |lines| > 0 {
      var n := |lines| - 1;
      SynonymsAgree(lines[..n], lines'[..n], parseFloat);
      assert SameSetting(lines[n], lines'[n]);
      match ParseScenario(lines[..n], parseFloat)
      case Failure(_) =>
      case Success(s) => SameSettingSameStep(s, n, lines[n], lines'[n], parseFloat);
    }
  }
}
