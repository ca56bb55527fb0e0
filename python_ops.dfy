/** The Python operations: linting (optionally fixing) with flake8 or autopep8, and running pytest. */
module PythonOps {
  import opened Wrappers
  import opened Text
  import opened Shell
  import opened OperationBase
  import opened LanguageBase
  import Core

  // ---------------------------------------------------------------- PythonLintOperation

  /** `PythonLintOperation.get_name`; note the trailing space when `fix` is off. */
  function LintName(fix: bool): (name: string)
    ensures StartsWith(name, "Python Lint ")
    ensures !fix ==> name == "Python Lint "
  {
    "Python Lint " + (if fix then "(autofix)" else "")
  }

  /** The name mentions the autofix mode exactly when it is on. */
  lemma LintNameMentionsAutofix(fix: bool)
    ensures Contains(LintName(fix), "(autofix)") <==> fix
  {
    if fix {
      ContainedAsSuffix("Python Lint ", "(autofix)");
    } else {
      NotContainedWithoutFirstChar(LintName(fix), "(autofix)");
    }
  }

  /** `flake8 <path>`, or `autopep8 --in-place --recursive <path>` when fixing; run in the caller's directory. */
  function LintCommand(fix: bool, repo: Core.Repository): Command {
    Command(if fix then ["autopep8", "--in-place", "--recursive", repo.path] else ["flake8", repo.path], None)
  }

  function LintPlan(fix: bool, repo: Core.Repository): Plan {
    if !SupportsPython(repo.language) then Refused else Steps([LintCommand(fix, repo)])
  }

  /**
   * Linting refuses a repository in another language without running anything; otherwise it
   * runs the one linter command, whose tool and arguments depend only on `fix`, and succeeds
   * exactly when that command does.
   */
  lemma LintSpec(fix: bool, repo: Core.Repository, oracle: Oracle)
    ensures PlanLog(LintPlan(fix, repo), oracle) == if SupportsPython(repo.language) then [LintCommand(fix, repo)] else []
    ensures PlanOutcome(LintPlan(fix, repo), oracle) ==
      Returned(SupportsPython(repo.language) && Answer(oracle, LintCommand(fix, repo)).ok)
    ensures LintCommand(fix, repo).argv[0] == (if fix then "autopep8" else "flake8")
    ensures LintCommand(fix, repo).argv[|LintCommand(fix, repo).argv| - 1] == repo.path
  {
    IssuedSingle(LintCommand(fix, repo), oracle);
  }

  /** `PythonLintOperation.execute`; the printed report is not modelled. */
  method ExecuteLint(fix: bool, repo: Core.Repository, runner: Runner) returns (ok: bool)
    modifies runner
    ensures runner.log == old(runner.log) + PlanLog(LintPlan(fix, repo), runner.oracle)
    ensures Returned(ok) == PlanOutcome(LintPlan(fix, repo), runner.oracle)
  {
    LintSpec(fix, repo, runner.oracle);
    if !SupportsPython(repo.language) {
      return false;
    }
    var cmd := ["flake8", repo.path];
    if fix {
      cmd := ["autopep8", "--in-place", "--recursive", repo.path];
    }
    var result := runner.Run(Command(cmd, None));
    ok := result.ok;
  }

  // ---------------------------------------------------------------- PythonUnitTestOperation

  const UnitTestName: string := "Python Unit Tests"

  /**
   * POSIX `os.path.join(dir, name)` for a relative `name` that does not start with a
   * separator: exactly one separator between the two, none after an empty `dir`.
   */
  function JoinPath(dir: string, name: string): (p: string)
    ensures |dir| + |name| <= |p| <= |dir| + |name| + 1
    ensures p[..|dir|] == dir && (p[|dir|..] == name || p[|dir|..] == "/" + name)
    ensures dir != [] ==> p[|p| - |name| - 1] == '/'
    ensures dir == [] ==> p == name
  {
    if dir == [] || dir[|dir| - 1] == '/' then dir + name else dir + "/" + name
  }

  /** The test location: the configured test path when it is a non-empty string, else `<repo>/tests`. */
  function TestLocation(testPath: Option<string>, repo: Core.Repository): (loc: string)
    ensures testPath.Some? && testPath.value != "" ==> loc == testPath.value
    ensures testPath.None? || testPath.value == "" ==> loc == JoinPath(repo.path, "tests")
  {
    if testPath.Some? && testPath.value != "" then testPath.value else JoinPath(repo.path, "tests")
  }

  /** `pytest <location> -v`, run in the repository. */
  function UnitTestCommand(testPath: Option<string>, repo: Core.Repository): Command {
    Command(["pytest", TestLocation(testPath, repo), "-v"], Some(repo.path))
  }

  function UnitTestPlan(testPath: Option<string>, repo: Core.Repository): Plan {
    if !SupportsPython(repo.language) then Refused else Steps([UnitTestCommand(testPath, repo)])
  }

  /**
   * Testing refuses a repository in another language without running anything; otherwise it
   * runs pytest once, in the repository, and succeeds exactly when pytest does.
   */
  lemma UnitTestSpec(testPath: Option<string>, repo: Core.Repository, oracle: Oracle)
    ensures PlanLog(UnitTestPlan(testPath, repo), oracle) ==
      if SupportsPython(repo.language) then [UnitTestCommand(testPath, repo)] else []
    ensures PlanOutcome(UnitTestPlan(testPath, repo), oracle) ==
      Returned(SupportsPython(repo.language) && Answer(oracle, UnitTestCommand(testPath, repo)).ok)
  {
    IssuedSingle(UnitTestCommand(testPath, repo), oracle);
  }

  /** Without a test path the tests are looked for in the `tests` directory of the repository. */
  lemma DefaultTestLocation(repo: Core.Repository)
    requires repo.path != ""
    ensures var loc := TestLocation(None, repo);
      StartsWith(loc, repo.path) && loc[|loc| - 6..] == "/tests"
  {
    var loc := TestLocation(None, repo);
    assert loc[..|repo.path|] == repo.path;
    assert loc[|loc| - 6..][0] == loc[|loc| - 6];
  }

  /** `PythonUnitTestOperation.execute`; the printed report is not modelled. */
  method ExecuteUnitTest(testPath: Option<string>, repo: Core.Repository, runner: Runner) returns (ok: bool)
    modifies runner
    ensures runner.log == old(runner.log) + PlanLog(UnitTestPlan(testPath, repo), runner.oracle)
    ensures Returned(ok) == PlanOutcome(UnitTestPlan(testPath, repo), runner.oracle)
  {
    UnitTestSpec(testPath, repo, runner.oracle);
    if !SupportsPython(repo.language) {
      return false;
    }
    var location := if testPath.Some? && testPath.value != "" then testPath.value else JoinPath(repo.path, "tests");
    var result := runner.Run(Command(["pytest", location, "-v"], Some(repo.path)));
    ok := result.ok;
  }
}
