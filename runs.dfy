/** Run discovery and loading in `SMAC_analyzer.__init__`: the run id is read
    out of each trajectory file name with `re.match("traj-run-(\d*).txt", ...)`
    and `int(...)`, and each run keeps the results of the two validation
    readers or is dropped. */
module RunFiles {
  import opened Wrappers
  import opened Text

  predicate IsDigit(c: char) {
    '0' <= c <= '9'
  }

  predicate AllDigits(s: string) {
    forall k :: 0 <= k < |s| ==> IsDigit(s[k])
  }

  /** Number of digits at the start of s: how far `\d*` can reach. */
  function DigitRun(s: string): (n: nat)
    ensures n <= |s|
    ensures forall k :: 0 <= k < n ==> IsDigit(s[k])
    ensures n < |s| ==> !IsDigit(s[n])
  {
    if |s| == 0 || !IsDigit(s[0]) then 0 else 1 + DigitRun(s[1..])
  }

  /** `int(s)` for a non-empty string of decimal digits. */
  function DecimalValue(s: string): nat
    requires AllDigits(s)
    decreases |s|
  {
    if |s| == 0 then 0
    else 10 * DecimalValue(s[..|s| - 1]) + (s[|s| - 1] as int - '0' as int)
  }

  const Prefix := "traj-run-"

  /** With the literal prefix consumed, the rest of the pattern `(\d*).txt`
      matches when the group takes k digits: then any character but a
      newline (the unescaped '.'), then "txt"; nothing has to follow. */
  predicate TailMatches(rest: string, k: nat) {
    k <= DigitRun(rest) && k + 4 <= |rest| && rest[k] != '\n' && rest[k + 1..k + 4] == "txt"
  }

  /** The regex engine's backtracking: `\d*` first takes k digits and gives
      them back one at a time until the tail matches. */
  function Backtrack(rest: string, k: nat): (r: Option<string>)
    requires k <= DigitRun(rest)
    ensures r.Some? <==> exists j: nat :: j <= k && TailMatches(rest, j)
    ensures r.Some? ==> |r.value| <= k && r.value == rest[..|r.value|] && TailMatches(rest, |r.value|)
    ensures r.Some? ==> forall j: nat :: |r.value| < j <= k ==> !TailMatches(rest, j)
    decreases k
  {
    if k + 4 <= |rest| && rest[k] != '\n' && rest[k + 1..k + 4] == "txt" then
      assert TailMatches(rest, k);
      Some(rest[..k])
    else if k == 0 then None
    else Backtrack(rest, k - 1)
  }

  /** `re.match("traj-run-(\d*).txt", name).group(1)`, or None when the
      match fails. The match is anchored at the start only; it is the
      longest digit group after which the tail matches. */
  function MatchGroup(name: string): (r: Option<string>)
    ensures r.Some? <==>
            && |Prefix| <= |name| && name[..|Prefix|] == Prefix
            && exists k: nat :: TailMatches(name[|Prefix|..], k)
    ensures r.Some? ==>
            var rest := name[|Prefix|..];
            && AllDigits(r.value)
            && |r.value| <= |rest| && r.value == rest[..|r.value|]
            && TailMatches(rest, |r.value|)
            && forall k: nat :: TailMatches(rest, k) ==> k <= |r.value|
  {
    if |name| < |Prefix| || name[..|Prefix|] != Prefix then None
    else
      var rest := name[|Prefix|..];
      Backtrack(rest, DigitRun(rest))
  }

  /** Lines 74-76 for one globbed path: the run id, or None when the
      constructor raises (`.group` on a failed match, or `int('')`). */
  function RunIdOf(path: string): Option<nat> {
    match MatchGroup(Basename(path))
    case None => None
    case Some(g) => if |g| == 0 then None else Some(DecimalValue(g))
  }

  /** No trajectory file name holds a '/', so it survives `os.path.join`
      and `os.path.basename` unchanged. */
  lemma TrajNameHasNoSlash(mid: string)
    requires '/' !in mid
    ensures '/' !in Prefix + mid + ".txt"
  {
    var name := Prefix + mid + ".txt";
    forall k | 0 <= k < |name| ensures name[k] != '/' {
      if |Prefix| <= k < |Prefix| + |mid| { assert name[k] == mid[k - |Prefix|]; }
    }
  }

  lemma {:induction false} MatchDigitName(mid: string)
    requires |mid| > 0 && AllDigits(mid)
    ensures MatchGroup(Prefix + mid + ".txt") == Some(mid)
  {
    var name := Prefix + mid + ".txt";
    var rest := name[|Prefix|..];
    assert name[..|Prefix|] == Prefix;
    assert rest == mid + ".txt";
    assert DigitRun(rest) == |mid| by {
      assert rest[|mid|] == '.';
    }
    assert rest[|mid| + 1..|mid| + 4] == "txt";
    assert rest[..|mid|] == mid;
  }

  /** A trajectory file whose middle part is a non-empty digit string yields
      that number as its run id, whatever directory it sits in. */
  lemma DigitNameGivesId(dir: string, mid: string)
    requires |mid| > 0 && AllDigits(mid)
    ensures RunIdOf(Join(dir, Prefix + mid + ".txt")) == Some(DecimalValue(mid))
  {
    TrajNameHasNoSlash(mid);
    BasenameOfJoin(dir, Prefix + mid + ".txt");
    MatchDigitName(mid);
  }

  lemma {:induction false} MatchNonDigitName(mid: string)
    requires |mid| == 0 || !IsDigit(mid[0])
    ensures MatchGroup(Prefix + mid + ".txt") in {None, Some("")}
  {
    var name := Prefix + mid + ".txt";
    var rest := name[|Prefix|..];
    assert name[..|Prefix|] == Prefix;
    assert rest == mid + ".txt";
    assert rest[0] == if |mid| == 0 then '.' else mid[0];
    assert DigitRun(rest) == 0;
  }

  /** A middle part that is empty or starts with a non-digit makes the
      constructor raise instead of skipping the file. */
  lemma NonDigitNameAborts(dir: string, mid: string)
    requires '/' !in mid
    requires |mid| == 0 || !IsDigit(mid[0])
    ensures RunIdOf(Join(dir, Prefix + mid + ".txt")) == None
  {
    TrajNameHasNoSlash(mid);
    BasenameOfJoin(dir, Prefix + mid + ".txt");
    MatchNonDigitName(mid);
  }

  lemma {:induction false} MatchQuirkName()
    ensures MatchGroup("traj-run-123txt.txt") == Some("12")
  {
    var name := "traj-run-123txt.txt";
    var rest := name[|Prefix|..];
    assert name[..|Prefix|] == Prefix;
    assert rest == "123txt.txt";
    assert DigitRun(rest) == 3 by {
      assert rest[0] == '1' && rest[1] == '2' && rest[2] == '3' && rest[3] == 't';
      assert DigitRun(rest[3..]) == 0;
      assert rest[1..][1..][1..] == rest[3..];
    }
    assert rest[4..7] == "xt.";
    assert rest[3..6] == "txt";
    assert rest[..2] == "12";
  }

  /** The unescaped '.' and the missing end anchor let a longer name through:
      the group stops at "12" because "3" stands in for the '.'. */
  lemma DotMatchesAnyCharacter(dir: string)
    ensures RunIdOf(Join(dir, "traj-run-123txt.txt")) == Some(12)
  {
    TrajNameHasNoSlash("123txt");
    assert Prefix + "123txt" + ".txt" == "traj-run-123txt.txt";
    BasenameOfJoin(dir, "traj-run-123txt.txt");
    MatchQuirkName();
    assert DecimalValue("12") == 12 by {
      assert "12"[..1] == "1";
      assert "1"[..0] == "";
    }
  }

  /** Lines 72-76, given the id that each globbed path yields: the ids of
      the paths in order, up to the first path without one. */
  function CollectIds(paths: seq<string>, idOf: string -> Option<nat>): Result<set<nat>, string>
    decreases |paths|
  {
    if |paths| == 0 then Success({})
    else
      var n := |paths| - 1;
      match CollectIds(paths[..n], idOf)
      case Failure(p) => Failure(p)
      case Success(ids) =>
        match idOf(paths[n])
        case None => Failure(paths[n])
        case Some(id) => Success(ids + {id})
  }

  /** Every path must yield an id, and the ids, with duplicates collapsed,
      are the keys of the data dictionary. On failure the first offending
      path is reported. */
  lemma {:induction false} CollectIdsMeaning(paths: seq<string>, idOf: string -> Option<nat>)
    ensures var r := CollectIds(paths, idOf);
            && (r.Success? <==> forall i :: 0 <= i < |paths| ==> idOf(paths[i]).Some?)
            && (r.Success? ==>
                  forall id :: id in r.value <==> exists i :: 0 <= i < |paths| && idOf(paths[i]) == Some(id))
            && (r.Failure? ==>
                  exists i :: && 0 <= i < |paths| && paths[i] == r.error && idOf(paths[i]).None?
                              && forall j :: 0 <= j < i ==> idOf(paths[j]).Some?)
    decreases |paths|
  {
    if |paths| > 0 {
      var n := |paths| - 1;
      CollectIdsMeaning(paths[..n], idOf);
      assert forall i :: 0 <= i < n ==> paths[..n][i] == paths[i];
    }
  }

  /** Once a path fails, the later paths are never looked at. */
  lemma {:induction false} CollectFailurePersists(paths: seq<string>, k: nat, idOf: string -> Option<nat>)
    requires k <= |paths|
    requires CollectIds(paths[..k], idOf).Failure?
    ensures CollectIds(paths, idOf) == CollectIds(paths[..k], idOf)
    decreases |paths| - k
  {
    if k < |paths| {
      var n := |paths| - 1;
      assert paths[..n][..k] == paths[..k];
      CollectFailurePersists(paths[..n], k, idOf);
    } else {
      assert paths[..k] == paths;
    }
  }

  /** One more path: its id joins the set, or it is the failing path. */
  lemma CollectStep(paths: seq<string>, i: nat, idOf: string -> Option<nat>)
    requires i < |paths|
    requires CollectIds(paths[..i], idOf).Success?
    ensures CollectIds(paths[..i + 1], idOf) ==
            match idOf(paths[i])
            case None => Failure(paths[i])
            case Some(id) => Success(CollectIds(paths[..i], idOf).value + {id})
  {
    assert paths[..i + 1][..i] == paths[..i];
  }

  /** The run ids of the globbed trajectory paths. */
  function DiscoverIds(paths: seq<string>): Result<set<nat>, string> {
    CollectIds(paths, RunIdOf)
  }

  // ---------------------------------------------------------------------------
  // Loading

  /** `self.data[i]`: the empty dict put there by discovery, or the two
      reader results stored by lines 95-96. */
  datatype RunEntry<C, P> = Pending | Loaded(parameters: C, testPerformances: P)

  /** The try block of lines 81-96 for run i; None when anything in it
      raises. Without validation the block raises `NotImplemented(...)`,
      which is not callable, so it fails with a TypeError that the bare
      `except` catches like any other failure. `readCalls` and
      `readObjectives` stand for the two validation-file readers applied to
      run i's files; None is a reader that raised. */
  function TryLoad<C, P>(i: nat, validation: bool,
                         readCalls: nat -> Option<C>, readObjectives: nat -> Option<P>)
    : (r: Option<(C, P)>)
    ensures r.Some? <==> validation && readCalls(i).Some? && readObjectives(i).Some?
    ensures r.Some? ==> r.value == (readCalls(i).value, readObjectives(i).value)
  {
    if !validation then None
    else
      match readCalls(i)
      case None => None
      case Some(configs) =>
        match readObjectives(i)
        case None => None
        case Some(performances) => Some((configs, performances))
  }

  /** The dictionary after the load-or-drop loop over the discovered ids:
      exactly the runs whose two readers both succeed, each holding those two
      results, when validation is on. */
  function LoadAll<C, P>(ids: set<nat>, validation: bool,
                         readCalls: nat -> Option<C>, readObjectives: nat -> Option<P>)
    : (data: map<nat, RunEntry<C, P>>)
    ensures data.Keys <= ids
    ensures forall i :: i in data <==>
              i in ids && validation && readCalls(i).Some? && readObjectives(i).Some?
    ensures forall i :: i in data ==>
              data[i] == Loaded(readCalls(i).value, readObjectives(i).value)
  {
    map i | i in ids && TryLoad(i, validation, readCalls, readObjectives).Some? ::
      Loaded(TryLoad(i, validation, readCalls, readObjectives).value.0,
             TryLoad(i, validation, readCalls, readObjectives).value.1)
  }

  /** A failing run changes nothing for the others: readers that agree on
      every run except j give the same entries for every run except j. */
  lemma LoadIsolatesRuns<C, P>(ids: set<nat>, validation: bool, j: nat,
                               readCalls: nat -> Option<C>, readObjectives: nat -> Option<P>,
                               readCalls': nat -> Option<C>, readObjectives': nat -> Option<P>)
    requires forall i :: i != j ==> readCalls(i) == readCalls'(i) && readObjectives(i) == readObjectives'(i)
    ensures var d, d' := LoadAll(ids, validation, readCalls, readObjectives),
                         LoadAll(ids, validation, readCalls', readObjectives');
            forall i :: i != j ==> (i in d <==> i in d') && (i in d ==> d[i] == d'[i])
  {
  }

  /** Without validation every run is dropped and the load still succeeds,
      with an empty dictionary. */
  lemma NoValidationLoadsNothing<C, P>(ids: set<nat>, readCalls: nat -> Option<C>, readObjectives: nat -> Option<P>)
    ensures LoadAll(ids, false, readCalls, readObjectives) == map[]
  {
  }
}
