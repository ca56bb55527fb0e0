/** The JavaScript/TypeScript operations: linting through the `lint` npm script, and building. */
module JavaScriptOps {
  import opened Text
  import opened Wrappers
  import opened Shell
  import opened OperationBase
  import opened LanguageBase
  import Core

  // ---------------------------------------------------------------- JavaScriptLintOperation

  /** `JavaScriptLintOperation.get_name`; note the trailing space when `fix` is off. */
  function LintName(fix: bool): (name: string)
    ensures StartsWith(name, "JavaScript Lint ")
    ensures !fix ==> name == "JavaScript Lint "
  {
    "JavaScript Lint " + (if fix then "(autofix)" else "")
  }

  /** The name mentions the autofix mode exactly when it is on. */
  lemma LintNameMentionsAutofix(fix: bool)
    ensures Contains(LintName(fix), "(autofix)") <==> fix
  {
    if fix {
      ContainedAsSuffix("JavaScript Lint ", "(autofix)");
    } else {
      NotContainedWithoutFirstChar(LintName(fix), "(autofix)");
    }
  }

  /** `npm run lint`, with `-- --fix` appended when fixing; run in the repository. */
  function LintCommand(fix: bool, repo: Core.Repository): Command {
    Command(["npm", "run", "lint"] + (if fix then ["--", "--fix"] else []), Some(repo.path))
  }

  function LintPlan(fix: bool, repo: Core.Repository): Plan {
    if !SupportsJavaScript(repo.language) then Refused else Steps([LintCommand(fix, repo)])
  }

  /**
   * Linting refuses a repository in another language without running anything; otherwise it
   * runs the lint script once, in the repository, passing `--fix` through exactly when fixing,
   * and succeeds exactly when the script does.
   */
  lemma LintSpec(fix: bool, repo: Core.Repository, oracle: Oracle)
    ensures PlanLog(LintPlan(fix, repo), oracle) == if SupportsJavaScript(repo.language) then [LintCommand(fix, repo)] else []
    ensures PlanOutcome(LintPlan(fix, repo), oracle) ==
      Returned(SupportsJavaScript(repo.language) && Answer(oracle, LintCommand(fix, repo)).ok)
    ensures LintCommand(fix, repo).argv[..3] == ["npm", "run", "lint"]
    ensures "--fix" in LintCommand(fix, repo).argv <==> fix
  {
    IssuedSingle(LintCommand(fix, repo), oracle);
    if fix {
      assert LintCommand(fix, repo).argv[4] == "--fix";
    }
  }

  /** `JavaScriptLintOperation.execute`; the printed report is not modelled. */
  method ExecuteLint(fix: bool, repo: Core.Repository, runner: Runner) returns (ok: bool)
    modifies runner
    ensures runner.log == old(runner.log) + PlanLog(LintPlan(fix, repo), runner.oracle)
    ensures Returned(ok) == PlanOutcome(LintPlan(fix, repo), runner.oracle)
  {
    LintSpec(fix, repo, runner.oracle);
    if !SupportsJavaScript(repo.language) {
      return false;
    }
    var cmd := ["npm", "run", "lint"];
    if fix {
      cmd := ["npm", "run", "lint", "--", "--fix"];
    }
    assert cmd == LintCommand(fix, repo).argv;
    var result := runner.Run(Command(cmd, Some(repo.path)));
    ok := result.ok;
  }

  // ---------------------------------------------------------------- JavaScriptBuildOperation

  const BuildName: string := "JavaScript Build"

  /** `npm install`, run in the repository. */
  function Install(repo: Core.Repository): Command {
    Command(["npm", "install"], Some(repo.path))
  }

  /** `npm run build`, run in the repository. */
  function Build(repo: Core.Repository): Command {
    Command(["npm", "run", "build"], Some(repo.path))
  }

  function BuildPlan(repo: Core.Repository): Plan {
    if !SupportsJavaScript(repo.language) then Refused else Steps([Install(repo), Build(repo)])
  }

  /**
   * Building refuses a repository in another language without running anything; otherwise it
   * installs the dependencies, builds only if that succeeded, and succeeds exactly when both do.
   */
  lemma BuildSpec(repo: Core.Repository, oracle: Oracle)
    ensures PlanLog(BuildPlan(repo), oracle) ==
      if !SupportsJavaScript(repo.language) then []
      else if Answer(oracle, Install(repo)).ok then [Install(repo), Build(repo)]
      else [Install(repo)]
    ensures PlanOutcome(BuildPlan(repo), oracle) ==
      Returned(SupportsJavaScript(repo.language) && Answer(oracle, Install(repo)).ok && Answer(oracle, Build(repo)).ok)
  {
    IssuedTwoThen(Install(repo), Build(repo), [], oracle);
    assert [Install(repo), Build(repo)] + [] == [Install(repo), Build(repo)];
  }

  /** `JavaScriptBuildOperation.execute`: the build is reached only after a successful install. */
  method ExecuteBuild(repo: Core.Repository, runner: Runner) returns (ok: bool)
    modifies runner
    ensures runner.log == old(runner.log) + PlanLog(BuildPlan(repo), runner.oracle)
    ensures Returned(ok) == PlanOutcome(BuildPlan(repo), runner.oracle)
  {
    BuildSpec(repo, runner.oracle);
    if !SupportsJavaScript(repo.language) {
      return false;
    }
    var installed := runner.Run(Install(repo));
    if !installed.ok {
      return false;
    }
    var built := runner.Run(Build(repo));
    ok := built.ok;
  }
}
