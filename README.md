# pysmac `SMAC_analyzer`, modelled in Dafny

This project models the core of pysmac's `SMAC_analyzer` (`pysmac/analyzer.py`),
the object that collects the results of finished SMAC runs:

- the constructor resolves the scenario file, reads the settings from it line by line
  (`output_dir`, `pcs_fn`, `validation`, `overall_objective`, `cutoff_time`), derives the
  scenario's output directory, discovers the run ids from the `traj-run-*.txt` names
  and then loads every run's validation results or drops the run;
- `get_item_single_run` projects a run's records, and the step curve of
  `plot_run_incumbent` is computed from the running minimum with `np.unique`.

The modules follow the program:

| file | module | what it holds |
|---|---|---|
| `wrappers.dfy` | `Wrappers` | `Option` and `Result`: an exception becomes a `Failure` or a `None` |
| `text.dfy` | `Text` | Python 2 `str.split()`, `str.split(sep)`, `''.join`, POSIX `os.path.join` and `os.path.basename` |
| `scenario.dfy` | `ScenarioFile` | the settings parser as pure functions, with its failure cases |
| `runs.dfy` | `RunFiles` | `re.match("traj-run-(\d*).txt", ...)` with its backtracking, run-id discovery, the load-or-drop result |
| `analyzer.dfy` | `Analyzer` | class `SmacAnalyzer`, whose methods update its fields phase by phase, each proved against the pure functions; `Init` states the whole constructor |
| `incumbent.dfy` | `Incumbent` | running minimum, `np.unique(..., return_index=True)` on a non-increasing sequence, the step curve, `get_item_single_run` |

Outside inputs are parameters:

- the lines of the scenario file;
- the answer of `os.path.isfile`;
- `float()` on a token, as `string -> Option<real>`;
- the paths `glob` returns;
- the two validation-file readers, as `nat -> Option<C>` and `nat -> Option<P>` of the run id.

Behaviours of the code as written that the model keeps and proves:

- The step curve keeps the first index of each plateau of the running minimum. For
  `[5, 3, 3, 1, 4, 1]` it gives x = `[0, 1, 3, 5]` and y = `[5, 3, 1, 1]`
  (`Incumbent.ExampleCurve`).
- The load loop never compares the lengths of the two reader results. A run is kept
  whenever both readers return (`RunFiles.LoadAll`).
- `bool(strlist[1])` of a non-empty token is always true, so no scenario file can turn
  validation off (`ScenarioFile.ValidationNeverFalse`).
- The unescaped `.` in the run-id pattern matches any character, and nothing anchors the
  end. `traj-run-123txt.txt` yields run 12 (`RunFiles.DotMatchesAnyCharacter`).
- A trajectory name whose middle part is empty, or starts with a non-digit, makes the
  constructor raise; it is not skipped (`RunFiles.NonDigitNameAborts`). A middle part
  that starts with digits yields an id, as `123txt` does.
- Without validation, line 93 calls `NotImplemented`, which is not callable. The bare
  `except` catches the resulting TypeError, so every run is dropped
  (`RunFiles.NoValidationLoadsNothing`).

## Model

| member | source | states |
|---|---|---|
| Analyzer.ScenarioPath | pysmac/analyzer.py:35-40 | a path that is a file is the scenario file; otherwise the scenario file is `scenario.dat` inside it, its basename is `scenario.dat` and it extends the given path |
| Analyzer.SmacAnalyzer.constructor | pysmac/analyzer.py:33-43 | the scenario path is resolved as above, validation is on, the objective is `MEAN10`, no other setting is assigned yet |
| ScenarioFile.ApplyLine | pysmac/analyzer.py:47-63 | one line fails exactly when it is blank, a recognized key lacks a value, or a cutoff value does not parse; the error names that line; an unrecognized key or a short line changes nothing |
| Analyzer.SmacAnalyzer.ReadLine | pysmac/analyzer.py:47-63 | the loop body on the object's attributes does what ApplyLine says: the same failure, and otherwise the same new settings |
| Analyzer.SmacAnalyzer.ReadScenario | pysmac/analyzer.py:46-63 | reading the file line by line fails exactly when ParseScenario fails, with the same error; otherwise the attributes equal the parsed settings |
| ScenarioFile.ParseFailsAtFirstBadLine | pysmac/analyzer.py:46-63 | parsing fails iff some line fails, and the reported line is the first failing one |
| ScenarioFile.FailurePersists | pysmac/analyzer.py:46-63 | once a prefix of the file fails, the lines after it are never read: the whole file fails with the same error |
| ScenarioFile.LastWriteWins | pysmac/analyzer.py:47-63 | each attribute holds the value token of the last line that assigns it (as a bool, or parsed as a float for the cutoff) or its default when no line does |
| ScenarioFile.ApplyLineFields | pysmac/analyzer.py:50-63 | a line that parses changes exactly the one attribute its key assigns |
| ScenarioFile.DefaultsUnlessSet | pysmac/analyzer.py:42-43 | validation stays on and the objective stays `MEAN10` unless some line assigns them |
| ScenarioFile.ValidationNeverFalse | pysmac/analyzer.py:56-57 | after any successful parse, validation is on |
| ScenarioFile.SynonymsAgree | pysmac/analyzer.py:50-63 | replacing keys by synonyms from the same set gives the same result, errors included |
| ScenarioFile.SameSettingSameStep | pysmac/analyzer.py:50-63 | two lines with synonymous keys and the same values have the same effect |
| ScenarioFile.ParseScenario | pysmac/analyzer.py:46-63 | the line-by-line fold from the defaults; its meaning is given by ParseFailsAtFirstBadLine, FailurePersists, LastWriteWins and DefaultsUnlessSet |
| ScenarioFile.LastSetter | pysmac/analyzer.py:47-63 | the index returned is the last line that assigns the field, or -1 when no line does |
| Text.Split | pysmac/analyzer.py:48 | `line.split()` yields only non-empty tokens without whitespace |
| Text.SplitWord | pysmac/analyzer.py:48 | a non-empty word without whitespace splits into itself alone |
| Text.SplitAtSpace | pysmac/analyzer.py:48 | every whitespace character cuts: the parts before and after it split on their own and their tokens are concatenated; with SplitWord and the empty line this fixes every token boundary |
| Text.SplitKeepsText | pysmac/analyzer.py:48 | the tokens, concatenated, are the line with its whitespace removed |
| Text.SplitEmptyIffBlank | pysmac/analyzer.py:48-50 | a line has no token exactly when it is blank, which is when `strlist[0]` raises |
| Text.Basename | pysmac/analyzer.py:67 | the basename holds no `/` and is a suffix of the path |
| Text.BasenameIsLongest | pysmac/analyzer.py:67 | the basename is the longest `/`-free suffix |
| Text.BasenameOfJoin | pysmac/analyzer.py:67 | the basename of a `/`-free name joined onto a directory is that name |
| Text.SplitOn | pysmac/analyzer.py:67 | `s.split('.')` yields at least one piece, and no piece holds a `.` |
| Text.SplitOnRoundTrip | pysmac/analyzer.py:67 | joining the pieces of `s.split(sep)` with `sep` restores `s` |
| Text.ConcatSplitOn | pysmac/analyzer.py:67 | joining the pieces without a separator drops every separator |
| Text.DropExtensionIsPrefixWithoutDots | pysmac/analyzer.py:67 | `''.join(fn.split('.')[:-1])` is what precedes the last `.` with its dots deleted, or empty when there is no `.` |
| Text.Join | pysmac/analyzer.py:66-67 | POSIX `os.path.join`; BasenameOfJoin states that basename undoes it for a `/`-free name |
| Text.DropExtension | pysmac/analyzer.py:67 | `''.join(fn.split('.')[:-1])`; DropExtensionIsPrefixWithoutDots states what it keeps |
| Analyzer.ScenarioOutputDir | pysmac/analyzer.py:66-67 | the derived directory; ScenarioOutputDirName and ScenarioOutputDirOfPlainName state its value |
| Analyzer.ScenarioOutputDirName | pysmac/analyzer.py:66-67 | the scenario output directory is the output directory joined with the basename of the part before the last `.` with its dots removed; with no `.` at all the joined name is empty |
| Analyzer.ScenarioOutputDirOfPlainName | pysmac/analyzer.py:66-67 | for a scenario file `<dir>/<name>.<ext>` with no other dots, the directory is `<output_dir>/<name>` |
| Analyzer.SmacAnalyzer.DeriveScenarioOutputDir | pysmac/analyzer.py:66-67 | fails exactly when no line set the output directory; otherwise it stores the derived directory, and the settings stay as they were |
| RunFiles.MatchGroup | pysmac/analyzer.py:75 | the regex matches iff the name starts with `traj-run-` and some digit prefix of the rest is followed by a non-newline character and `txt`; the group is the longest such digit prefix |
| RunFiles.Backtrack | pysmac/analyzer.py:75 | giving back digits one at a time finds a match iff there is one within the digit run, and it finds the longest |
| RunFiles.DigitNameGivesId | pysmac/analyzer.py:74-76 | `traj-run-<mid>.txt` with a non-empty digit string `<mid>` yields the run id `int(<mid>)`, whatever directory holds it |
| RunFiles.NonDigitNameAborts | pysmac/analyzer.py:75-76 | an empty middle part, or one that starts with a non-digit, makes the constructor raise |
| RunFiles.DotMatchesAnyCharacter | pysmac/analyzer.py:75 | `traj-run-123txt.txt` yields run id 12 |
| RunFiles.RunIdOf | pysmac/analyzer.py:74-76 | the id of one globbed path, or none when the constructor raises; DigitNameGivesId, NonDigitNameAborts and DotMatchesAnyCharacter state its value |
| RunFiles.CollectIds | pysmac/analyzer.py:72-76 | the ids of the paths in order up to the first without one; CollectIdsMeaning states its meaning |
| RunFiles.DiscoverIds | pysmac/analyzer.py:72-76 | CollectIds with RunIdOf; CollectIdsMeaning applies to it |
| RunFiles.CollectIdsMeaning | pysmac/analyzer.py:72-76 | discovery succeeds iff every path yields an id; then the ids, with duplicates collapsed, are exactly the ids of the paths; otherwise the first path without an id is reported |
| RunFiles.CollectFailurePersists | pysmac/analyzer.py:72-76 | the paths after the first failing one are never looked at |
| RunFiles.CollectStep | pysmac/analyzer.py:73-76 | one more path adds its id to the set, or it is the path that fails |
| Analyzer.SmacAnalyzer.DiscoverRuns | pysmac/analyzer.py:71-76 | fails exactly when discovery fails, with the same path; otherwise `data` has one empty entry per discovered id |
| RunFiles.TryLoad | pysmac/analyzer.py:81-97 | one run's try block succeeds iff validation is on and both readers succeed, and then holds their two results |
| RunFiles.LoadAll | pysmac/analyzer.py:80-99 | the runs kept are a subset of the discovered ids; a run is kept iff validation is on and both readers succeed, and it holds exactly the two results |
| RunFiles.LoadIsolatesRuns | pysmac/analyzer.py:80-99 | a change in one run's reader results changes no other run's presence or content |
| RunFiles.NoValidationLoadsNothing | pysmac/analyzer.py:92-99 | without validation every run is dropped, and the load still returns an empty dictionary without raising |
| Analyzer.SmacAnalyzer.LoadRuns | pysmac/analyzer.py:80-99 | visiting the discovered runs in any order, storing or popping each one, leaves `data` equal to LoadAll of those ids |
| Analyzer.SmacAnalyzer.CollectRuns | pysmac/analyzer.py:69-99 | discovery then loading: fails only when discovery fails; otherwise `data` is LoadAll of the discovered ids, and the settings are untouched |
| Analyzer.RunPhases | pysmac/analyzer.py:29-99 | the phases run in order on a fresh object and the first one that raises decides the error: a scenario-file error, a missing output directory, or a trajectory name without an id; otherwise the object holds the resolved path, the parsed settings, the derived directory and the loaded runs |
| Analyzer.Init | pysmac/analyzer.py:29-99 | the whole constructor as a function of its inputs; InitFailsOnlyBeforeLoading and InitKeepsExactlyReadableRuns state its outcome |
| Analyzer.InitFailsOnlyBeforeLoading | pysmac/analyzer.py:46-99 | construction succeeds iff the scenario file parses, sets an output directory and every globbed name yields a run id; loading never makes it fail |
| Analyzer.InitKeepsExactlyReadableRuns | pysmac/analyzer.py:72-99 | after construction, a run is present iff some globbed name yields its id and both of its readers succeed, and it holds their results |
| Analyzer.NewAnalyzer | pysmac/analyzer.py:29-99 | `SMAC_analyzer(obj)` fails exactly when Init fails, with the same error; otherwise the new object's attributes are Init's result |
| Incumbent.SeqMin | pysmac/analyzer.py:161 | the minimum is at most every value and is one of them |
| Incumbent.RunningMin | pysmac/analyzer.py:161 | `np.minimum.accumulate` keeps the length of its input |
| Incumbent.RunningMinIsPrefixMinimum | pysmac/analyzer.py:161 | entry i of the running minimum is the minimum of the first i + 1 values |
| Incumbent.RunningMinNonIncreasing | pysmac/analyzer.py:161 | the running minimum never rises |
| Incumbent.RunningMinBelowInput | pysmac/analyzer.py:161 | each entry is at most the input at the same index |
| Incumbent.RunningMinLast | pysmac/analyzer.py:161 | the last entry is the minimum of the whole run |
| Incumbent.UniqueIndex | pysmac/analyzer.py:163 | the indices for a non-increasing sequence are as many as its change points, and each is a position in it |
| Incumbent.UniqueIndexMeetsNumpy | pysmac/analyzer.py:163 | on a non-increasing sequence the model meets numpy's promise: one index per distinct value, the first occurrence of each value, ordered by ascending value |
| Incumbent.UniqueIndexIsDetermined | pysmac/analyzer.py:163 | at most one index sequence meets numpy's promise, so the model is the result of `np.unique` |
| Incumbent.ChangePointsOrdered | pysmac/analyzer.py:163-166 | the first-occurrence indices, reversed, are positions in strictly increasing order starting at 0 |
| Incumbent.ChangePointsMembers | pysmac/analyzer.py:163-166 | a position is listed iff it is 0 or its value differs from the one before |
| Incumbent.ChangePointsAreImprovements | pysmac/analyzer.py:161-166 | in a running minimum, a position is listed iff it is 0 or the minimum strictly drops there |
| Incumbent.PlateauStart | pysmac/analyzer.py:163 | every value first appears at a listed position at or before it |
| Incumbent.IncumbentCurve | pysmac/analyzer.py:161-169 | the curve is missing (the code raises) iff the run is empty; otherwise x and y have the same length, at least two, and every x is an iteration of the run |
| Incumbent.CurveIndices | pysmac/analyzer.py:163-169 | x is the first index of each plateau in increasing order followed by the last iteration, and y is the running minimum at those x |
| Incumbent.CurveEnds | pysmac/analyzer.py:161-169 | x starts at 0 and ends at the last iteration, and the last y is the best value of the run |
| Incumbent.BreakpointsAreImprovements | pysmac/analyzer.py:161-168 | before the appended entry, x lists each iteration where the incumbent improves (and iteration 0) once, in strictly increasing order |
| Incumbent.StepValues | pysmac/analyzer.py:161-169 | the y values strictly decrease up to the appended entry, which repeats the value before it |
| Incumbent.ChangePointValuesDecrease | pysmac/analyzer.py:163-169 | the values at the first-occurrence positions of a non-increasing sequence strictly decrease |
| Incumbent.LastPlateau | pysmac/analyzer.py:166-169 | the last first-occurrence position holds the final value |
| Incumbent.LastIndexRepeatsIffLastImproves | pysmac/analyzer.py:166-168 | the appended `len-1` repeats the index before it iff the last iteration improves the incumbent (or is the only one) |
| Incumbent.LastChangePoint | pysmac/analyzer.py:166 | the last first-occurrence position is the last position iff the last value is new |
| Incumbent.ExampleRunningMin | pysmac/analyzer.py:161 | the running minimum of `[5, 3, 3, 1, 4, 1]` is `[5, 3, 3, 1, 1, 1]` |
| Incumbent.ExampleCurve | pysmac/analyzer.py:161-169 | the run `[5, 3, 3, 1, 4, 1]` gives x = `[0, 1, 3, 5]` and y = `[5, 3, 1, 1]` |
| Incumbent.ItemSingleRun | pysmac/analyzer.py:141-142 | the result has one entry per record after the first, each the projection of that record |
| Incumbent.RunIncumbent | pysmac/analyzer.py:160-169 | the curve of one run; RunIncumbentExistsIffRecords and the IncumbentCurve lemmas state it |
| Incumbent.RunIncumbentExistsIffRecords | pysmac/analyzer.py:141-169 | a run's curve exists iff the run has at least one record besides its first |

## Left out

- File and directory I/O is not modelled. `open`/`readlines`, `os.path.isfile` and `glob` are inputs: the lines, a flag and a list of paths. The names of the two validation files a run's readers open are not modelled either.
- `smac_readers` is not part of this model. Each reader is a per-run outcome, success with a value or failure, and the lengths and contents of what it returns are not examined.
- `float()` is a parameter that either parses a token or fails. Floating-point, NaN and infinity are not modelled; performance values are `real`.
- `get_pyfanova_obj` (lines 101-136) is not modelled: it runs a Java subprocess, removes directories and imports a third-party package.
- The plotting and GUI methods (lines 144-206), `get_item_all_runs` and `basic_analysis` are not modelled. They are matplotlib glue, apart from the lines the step curve models. The attribute `data_all_runs` that `get_item_single_run` reads is assigned nowhere in the class, so the run's records are a parameter.
- The `remote_smac` branch (lines 31-32) is not modelled: line 33 overwrites its result at once. The object passed in is taken to be a string path.
- The `sys.path` change at import time, the `print` diagnostics and the `__main__` block are not modelled.
- The model follows Python 2. Under Python 3, line 99 would pop from the dictionary while line 80 iterates over its live `keys()` view, raising a RuntimeError outside the `try`. `str.split()` would also cut at Unicode whitespace, and `\d` would match Unicode digits. `Text.IsSpace` and `RunFiles.IsDigit` are ASCII only.
- Analyzer.SmacAnalyzer.LoadRuns: picks the runs in an arbitrary order, not the order of Python 2's `keys()`. The result is the same for every order, which is what its contract states.
- Analyzer.SmacAnalyzer.ReadLine: checks for a missing value once, before the if-else-if chain on the disjoint key sets, where the code indexes `strlist[1]` inside each branch. The raised error and the resulting settings are the same.
- Incumbent.UniqueIndex: models `np.unique(..., return_index=True)` only on non-increasing input, which is the only input the curve passes it.
