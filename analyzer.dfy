/** `SMAC_analyzer` (pysmac/analyzer.py): its constructor resolves the
    scenario file, reads the settings from it, derives the scenario's output
    directory, discovers the run ids and loads every run or drops it. The
    object's attributes are the fields of a class; each phase of the
    constructor is a method that updates them, proved against the pure
    definitions of the other modules, and `Init` states the constructor as a
    whole. */
module Analyzer {
  import opened Wrappers
  import opened Text
  import opened ScenarioFile
  import opened RunFiles

  /** Why constructing an analyzer raises. */
  datatype InitError =
    | ScenarioError(parse: ParseError)   // a scenario line the parser cannot read
    | NoOutputDir                        // `self.output_dir` was never assigned
    | BadTrajectoryName(path: string)    // a globbed path yields no run id

  /** Lines 35-40: a path that is a file is the scenario file itself;
      otherwise the scenario file is 'scenario.dat' inside that directory.
      `isFile` is the answer of `os.path.isfile`. */
  function ScenarioPath(obj: string, isFile: bool): (fn: string)
    ensures isFile ==> fn == obj
    ensures !isFile ==> Basename(fn) == "scenario.dat" && |obj| <= |fn| && fn[..|obj|] == obj
  {
    if isFile then obj
    else
      assert '/' !in "scenario.dat";
      BasenameOfJoin(obj, "scenario.dat");
      Join(obj, "scenario.dat")
  }

  /** Lines 66-67: the output directory joined with the base name of the
      scenario file name whose last '.'-piece is dropped and whose other
      pieces are glued together without dots. */
  function ScenarioOutputDir(outputDir: string, scenarioFn: string): string {
    Join(outputDir, Basename(DropExtension(scenarioFn)))
  }

  /** The scenario output directory is the output directory joined with the
      scenario file name with everything from its last '.' on removed and its
      other dots deleted (then cut after its last '/'); with no '.' at all the
      joined name is empty. */
  lemma ScenarioOutputDirName(outputDir: string, scenarioFn: string)
    ensures '.' in scenarioFn ==>
            ScenarioOutputDir(outputDir, scenarioFn) ==
            Join(outputDir, Basename(Remove(scenarioFn[..LastIndexOf(scenarioFn, '.')], '.')))
    ensures '.' !in scenarioFn ==>
            ScenarioOutputDir(outputDir, scenarioFn) == Join(outputDir, "")
  {
    DropExtensionIsPrefixWithoutDots(scenarioFn);
  }

  /** The usual layout: a scenario file `<dir>/<name>.<ext>` whose name and
      directory hold no other '.' is analysed in `<outputDir>/<name>`. */
  lemma ScenarioOutputDirOfPlainName(outputDir: string, dir: string, name: string, ext: string)
    requires '.' !in dir && '.' !in name && '/' !in name && '.' !in ext
    ensures ScenarioOutputDir(outputDir, Join(dir, name) + "." + ext) == Join(outputDir, name)
  {
    var p := Join(dir, name);
    var fn := p + "." + ext;
    assert '.' !in p;
    assert fn == p + ['.'] + ext;
    LastIndexBeforeTail(p, '.', ext);
    DropExtensionIsPrefixWithoutDots(fn);
    assert fn[..|p|] == p;
    RemoveAbsent(p, '.');
    BasenameOfJoin(dir, name);
  }

  /** What a constructed analyzer holds. */
  datatype Snapshot<C, P> = Snapshot(
    scenarioFn: string,
    settings: Settings,
    scenarioOutputDir: string,
    data: map<nat, RunEntry<C, P>>)

  /** The constructor as a function of what it reads from outside: the
      `isfile` answer, the scenario file's lines, `float()`, the paths glob
      returns, and the two readers' outcome for each run id. */
  function Init<C, P>(obj: string, isFile: bool, lines: seq<string>,
                      parseFloat: string -> Option<real>, globbed: seq<string>,
                      readCalls: nat -> Option<C>, readObjectives: nat -> Option<P>)
    : Result<Snapshot<C, P>, InitError>
  {
    var fn := ScenarioPath(obj, isFile);
    match ParseScenario(lines, parseFloat)
    case Failure(e) => Failure(ScenarioError(e))
    case Success(s) =>
      match s.outputDir
      case None => Failure(NoOutputDir)
      case Some(out) =>
        match DiscoverIds(globbed)
        case Failure(p) => Failure(BadTrajectoryName(p))
        case Success(ids) =>
          Success(Snapshot(fn, s, ScenarioOutputDir(out, fn),
                           LoadAll(ids, s.validation, readCalls, readObjectives)))
  }

  /** Only the scenario file, a missing output directory and the trajectory
      names can make the constructor raise: loading the runs never does, even
      when it drops every run. */
  lemma InitFailsOnlyBeforeLoading<C, P>(obj: string, isFile: bool, lines: seq<string>,
                                         parseFloat: string -> Option<real>, globbed: seq<string>,
                                         readCalls: nat -> Option<C>, readObjectives: nat -> Option<P>)
    ensures Init(obj, isFile, lines, parseFloat, globbed, readCalls, readObjectives).Success? <==>
            && ParseScenario(lines, parseFloat).Success?
            && ParseScenario(lines, parseFloat).value.outputDir.Some?
            && forall i :: 0 <= i < |globbed| ==> RunIdOf(globbed[i]).Some?
  {
    CollectIdsMeaning(globbed, RunIdOf);
  }

  /** After construction, a run is present exactly when its id was
      discovered and both of its validation files were read; it holds those
      two results. Validation is always on, since no scenario file can turn
      it off. */
  lemma InitKeepsExactlyReadableRuns<C, P>(obj: string, isFile: bool, lines: seq<string>,
                                           parseFloat: string -> Option<real>, globbed: seq<string>,
                                           readCalls: nat -> Option<C>, readObjectives: nat -> Option<P>)
    requires Init(obj, isFile, lines, parseFloat, globbed, readCalls, readObjectives).Success?
    ensures var d := Init(obj, isFile, lines, parseFloat, globbed, readCalls, readObjectives).value.data;
            && (forall i :: i in d <==>
                  && (exists k :: 0 <= k < |globbed| && RunIdOf(globbed[k]) == Some(i))
                  && readCalls(i).Some? && readObjectives(i).Some?)
            && (forall i :: i in d ==> d[i] == Loaded(readCalls(i).value, readObjectives(i).value))
  {
    ValidationNeverFalse(lines, parseFloat);
    CollectIdsMeaning(globbed, RunIdOf);
  }

  class SmacAnalyzer<C, P> {
    var scenarioFn: string
    var outputDir: Option<string>
    var pcsFile: Option<string>
    var validation: bool
    var overallObjective: string
    var cutoffTime: Option<real>
    var scenarioOutputDir: string
    var data: map<nat, RunEntry<C, P>>

    /** The attributes the scenario file sets. */
    function CurrentSettings(): Settings
      reads this
    {
      Settings(outputDir, pcsFile, validation, overallObjective, cutoffTime)
    }

    function CurrentSnapshot(): Snapshot<C, P>
      reads this
    {
      Snapshot(scenarioFn, CurrentSettings(), scenarioOutputDir, data)
    }

    /** Lines 33-43: resolve the scenario file and set the defaults. */
    constructor(obj: string, isFile: bool)
      ensures scenarioFn == ScenarioPath(obj, isFile)
      ensures CurrentSettings() == Defaults
      ensures scenarioOutputDir == "" && data == map[]
    {
      scenarioFn := obj;
      if isFile {
        scenarioFn := obj;
      } else {
        scenarioFn := Join(obj, "scenario.dat");
      }
      outputDir, pcsFile, cutoffTime := None, None, None;
      validation := true;
      overallObjective := "MEAN10";
      scenarioOutputDir := "";
      data := map[];
    }

    /** Lines 46-63: read the scenario file line by line; each recognized key
        overwrites its attribute. The first line that raises aborts. */
    method ReadScenario(lines: seq<string>, parseFloat: string -> Option<real>)
      returns (err: Option<ParseError>)
      requires CurrentSettings() == Defaults
      modifies this`outputDir, this`pcsFile, this`validation, this`overallObjective, this`cutoffTime
      ensures err.None? <==> ParseScenario(lines, parseFloat).Success?
      ensures err.None? ==> CurrentSettings() == ParseScenario(lines, parseFloat).value
      ensures err.Some? ==> err.value == ParseScenario(lines, parseFloat).error
    {
      var i := 0;
      while i < |lines|
        invariant 0 <= i <= |lines|
        invariant ParseScenario(lines[..i], parseFloat) == Success(CurrentSettings())
      {
        ParseStep(lines, i, parseFloat);
        err := ReadLine(i, lines[i], parseFloat);
        if err.Some? {
          FailurePersists(lines, i + 1, parseFloat);
          return;
        }
        i := i + 1;
      }
      assert lines[..|lines|] == lines;
      err := None;
    }

    /** One pass of the loop body of lines 47-63: a recognized key without a
        value, a blank line or a bad cutoff raises before any attribute is
        assigned. */
    method ReadLine(n: nat, line: string, parseFloat: string -> Option<real>)
      returns (err: Option<ParseError>)
      modifies this`outputDir, this`pcsFile, this`validation, this`overallObjective, this`cutoffTime
      ensures var r := ApplyLine(old(CurrentSettings()), n, Split(line), parseFloat);
              && (err.None? <==> r.Success?)
              && (err.Some? ==> err.value == r.error)
              && (err.None? ==> CurrentSettings() == r.value)
    {
      var strlist := Split(line);
      if |strlist| == 0 {
        return Some(BlankLine(n));
      }
      var key := strlist[0];
      if FieldOf(key).Some? && |strlist| < 2 {
        return Some(MissingValue(n, FieldOf(key).value));
      }
      if key in OutputDirKeys {
        outputDir := Some(strlist[1]);
      } else if key in PcsFileKeys {
        pcsFile := Some(strlist[1]);
      } else if key == ValidationKey {
        validation := Truthy(strlist[1]);
      } else if key in ObjectiveKeys {
        overallObjective := strlist[1];
      } else if key in CutoffKeys {
        var cutoff := parseFloat(strlist[1]);
        if cutoff.None? {
          return Some(BadCutoff(n, strlist[1]));
        }
        cutoffTime := cutoff;
      }
      err := None;
    }

    /** Lines 66-67: fails when no line set the output directory. */
    method DeriveScenarioOutputDir() returns (ok: bool)
      modifies this`scenarioOutputDir
      ensures ok <==> outputDir.Some?
      ensures ok ==> scenarioOutputDir == ScenarioOutputDir(outputDir.value, scenarioFn)
      ensures !ok ==> scenarioOutputDir == old(scenarioOutputDir)
      ensures CurrentSettings() == old(CurrentSettings())
    {
      if outputDir.None? {
        return false;
      }
      scenarioOutputDir := ScenarioOutputDir(outputDir.value, scenarioFn);
      ok := true;
    }

    /** Lines 72-76: one empty entry per run id read from the globbed
        trajectory paths; the first path without an id aborts. */
    method DiscoverRuns(globbed: seq<string>) returns (bad: Option<string>)
      modifies this`data
      ensures bad.None? <==> DiscoverIds(globbed).Success?
      ensures bad.Some? ==> bad.value == DiscoverIds(globbed).error
      ensures bad.None? ==> data == map id | id in DiscoverIds(globbed).value :: Pending
    {
      data := map[];
      assert globbed[..0] == [] && data.Keys == {};
      for i := 0 to |globbed|
        invariant CollectIds(globbed[..i], RunIdOf) == Success(data.Keys)
        invariant forall id :: id in data ==> data[id] == Pending
      {
        CollectStep(globbed, i, RunIdOf);
        var runId := RunIdOf(globbed[i]);
        if runId.None? {
          bad := Some(globbed[i]);
          CollectFailurePersists(globbed, i + 1, RunIdOf);
          return;
        }
        ghost var keysBefore := data.Keys;
        data := data[runId.value := Pending];
        assert data.Keys == keysBefore + {runId.value};
      }
      assert globbed[..|globbed|] == globbed;
      bad := None;
    }

    /** Lines 80-99: over a snapshot of the keys, in any order, each run
        either receives the two reader results or is removed. */
    method LoadRuns(readCalls: nat -> Option<C>, readObjectives: nat -> Option<P>)
      modifies this`data
      ensures data == LoadAll(old(data).Keys, validation, readCalls, readObjectives)
    {
      var todo := data.Keys;
      while todo != {}
        invariant todo <= old(data).Keys
        invariant forall i :: i in data <==>
                    i in todo || (i in old(data).Keys - todo && TryLoad(i, validation, readCalls, readObjectives).Some?)
        invariant forall i :: i in data && i !in todo ==>
                    data[i] == Loaded(readCalls(i).value, readObjectives(i).value)
        decreases todo
      {
        var i :| i in todo;
        if validation {
          var configs := readCalls(i);
          var performances := readObjectives(i);
          if configs.Some? && performances.Some? {
            data := data[i := Loaded(configs.value, performances.value)];
          } else {
            data := data - {i};
          }
        } else {
          data := data - {i};
        }
        todo := todo - {i};
      }
    }

    /** Lines 69-99: discover the runs, then load them; only discovery can
        abort. */
    method CollectRuns(globbed: seq<string>, readCalls: nat -> Option<C>, readObjectives: nat -> Option<P>)
      returns (bad: Option<string>)
      modifies this`data
      ensures bad.None? <==> DiscoverIds(globbed).Success?
      ensures bad.Some? ==> bad.value == DiscoverIds(globbed).error
      ensures bad.None? ==> data == LoadAll(DiscoverIds(globbed).value, validation, readCalls, readObjectives)
      ensures CurrentSettings() == old(CurrentSettings())
    {
      bad := DiscoverRuns(globbed);
      if bad.None? {
        LoadRuns(readCalls, readObjectives);
      }
    }
  }

  /** Init phase by phase: the first failing phase decides the error. */
  lemma InitPhases<C, P>(obj: string, isFile: bool, lines: seq<string>,
                         parseFloat: string -> Option<real>, globbed: seq<string>,
                         readCalls: nat -> Option<C>, readObjectives: nat -> Option<P>)
    ensures var spec := Init(obj, isFile, lines, parseFloat, globbed, readCalls, readObjectives);
            var parsed := ParseScenario(lines, parseFloat);
            && (parsed.Failure? ==> spec == Failure(ScenarioError(parsed.error)))
            && (parsed.Success? && parsed.value.outputDir.None? ==> spec == Failure(NoOutputDir))
            && (parsed.Success? && parsed.value.outputDir.Some? && DiscoverIds(globbed).Failure? ==>
                  spec == Failure(BadTrajectoryName(DiscoverIds(globbed).error)))
            && (parsed.Success? && parsed.value.outputDir.Some? && DiscoverIds(globbed).Success? ==>
                  var fn := ScenarioPath(obj, isFile);
                  spec == Success(Snapshot(fn, parsed.value, ScenarioOutputDir(parsed.value.outputDir.value, fn),
                                           LoadAll(DiscoverIds(globbed).value, parsed.value.validation,
                                                   readCalls, readObjectives))))
  {
  }

  /** The constructor's phases in order on a fresh object, stopping at the
      first one that raises; each outcome is stated by the phase's own
      function. */
  method RunPhases<C, P>(obj: string, isFile: bool, lines: seq<string>,
                         parseFloat: string -> Option<real>, globbed: seq<string>,
                         readCalls: nat -> Option<C>, readObjectives: nat -> Option<P>)
    returns (r: Result<SmacAnalyzer<C, P>, InitError>)
    ensures var parsed := ParseScenario(lines, parseFloat);
            && (parsed.Failure? ==> r == Failure(ScenarioError(parsed.error)))
            && (parsed.Success? && parsed.value.outputDir.None? ==> r == Failure(NoOutputDir))
            && (parsed.Success? && parsed.value.outputDir.Some? && DiscoverIds(globbed).Failure? ==>
                  r == Failure(BadTrajectoryName(DiscoverIds(globbed).error)))
            && (parsed.Success? && parsed.value.outputDir.Some? && DiscoverIds(globbed).Success? ==>
                  var fn := ScenarioPath(obj, isFile);
                  && r.Success? && fresh(r.value)
                  && r.value.CurrentSnapshot() ==
                     Snapshot(fn, parsed.value, ScenarioOutputDir(parsed.value.outputDir.value, fn),
                              LoadAll(DiscoverIds(globbed).value, parsed.value.validation,
                                      readCalls, readObjectives)))
  {
    var a := new SmacAnalyzer<C, P>(obj, isFile);
    ghost var fn := a.scenarioFn;
    var err := a.ReadScenario(lines, parseFloat);
    if err.Some? {
      return Failure(ScenarioError(err.value));
    }
    ghost var settings := a.CurrentSettings();
    var ok := a.DeriveScenarioOutputDir();
    if !ok {
      return Failure(NoOutputDir);
    }
    var bad := a.CollectRuns(globbed, readCalls, readObjectives);
    if bad.Some? {
      return Failure(BadTrajectoryName(bad.value));
    }
    assert a.scenarioFn == fn;
    assert a.CurrentSettings() == settings;
    assert a.scenarioOutputDir == ScenarioOutputDir(settings.outputDir.value, fn);
    assert a.data == LoadAll(DiscoverIds(globbed).value, settings.validation, readCalls, readObjectives);
    r := Success(a);
  }

  /** `SMAC_analyzer(obj)`: running the phases gives exactly what Init
      describes. */
  method NewAnalyzer<C, P>(obj: string, isFile: bool, lines: seq<string>,
                           parseFloat: string -> Option<real>, globbed: seq<string>,
                           readCalls: nat -> Option<C>, readObjectives: nat -> Option<P>)
    returns (r: Result<SmacAnalyzer<C, P>, InitError>)
    ensures var spec := Init(obj, isFile, lines, parseFloat, globbed, readCalls, readObjectives);
            && (r.Success? <==> spec.Success?)
            && (r.Failure? ==> r.error == spec.error)
            && (r.Success? ==> fresh(r.value) && r.value.CurrentSnapshot() == spec.value)
  {
    InitPhases(obj, isFile, lines, parseFloat, globbed, readCalls, readObjectives);
    r := RunPhases(obj, isFile, lines, parseFloat, globbed, readCalls, readObjectives);
  }
}
