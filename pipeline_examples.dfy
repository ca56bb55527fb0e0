/**
 * Concrete runs of the pipeline: the two repositories of the pipeline tests, with operations
 * whose outcome is fixed in advance, and with real operations against a world in which every
 * command succeeds.
 */
module PipelineExamples {
  import opened Wrappers
  import opened Shell
  import opened OperationBase
  import opened Operations
  import opened Pipelines
  import Core
  import Text
  import LanguageBase
  import PythonOps

  const Repo1: Core.Repository := Core.Repository("repo1", "/path/to/repo1", "main", "python", None)
  const Repo2: Core.Repository := Core.Repository("repo2", "/path/to/repo2", "master", "javascript", None)

  /** Visiting two repositories: each name is bound to its repository's list. */
  lemma RunAllTwo(ops: seq<Operation>, r1: Core.Repository, r2: Core.Repository, step: StepFn, rs1: seq<bool>, rs2: seq<bool>)
    requires RunRepo(ops, r1, step) == Some(rs1) && RunRepo(ops, r2, step) == Some(rs2)
    ensures RunAll(ops, [r1, r2], step) == Some(map[r1.name := rs1][r2.name := rs2])
  {
    assert RunAll(ops, [r1], step) == Some(map[r1.name := rs1]) by {
      assert [r1][..0] == [];
    }
    assert [r1, r2][..1] == [r1];
  }

  /** Running one operation, then the rest only when it returned true. */
  lemma RunRepoCons(op: Operation, rest: seq<Operation>, repo: Core.Repository, step: StepFn)
    requires step(op, repo).Returned?
    ensures RunRepo([op] + rest, repo, step) ==
      if !step(op, repo).ok then Some([false])
      else match RunRepo(rest, repo, step)
        case None => None
        case Some(rs) => Some([true] + rs)
  {
    assert ([op] + rest)[0] == op && ([op] + rest)[1..] == rest;
  }

  /** Three operations: the list follows them up to the first false. */
  lemma RunRepoThree(a: Operation, b: Operation, c: Operation, repo: Core.Repository, step: StepFn)
    requires step(a, repo).Returned? && step(b, repo).Returned? && step(c, repo).Returned?
    ensures RunRepo([a, b, c], repo, step) ==
      if !step(a, repo).ok then Some([false])
      else if !step(b, repo).ok then Some([true, false])
      else Some([true, true, step(c, repo).ok])
  {
    RunRepoCons(c, [], repo, step);
    assert RunRepo([], repo, step) == Some([]);
    var x := step(c, repo).ok;
    assert RunRepo([c], repo, step) == Some([x]) by {
      assert [c] + [] == [c] && [true] + [] == [true];
    }
    assert [true] + [x] == [true, x] && [true] + [true, x] == [true, true, x] && [true] + [false] == [true, false];
    RunRepoCons(b, [c], repo, step);
    assert [b] + [c] == [b, c];
    RunRepoCons(a, [b, c], repo, step);
    assert [a] + [b, c] == [a, b, c];
  }

  /** Two operations that both succeed everywhere: both repositories get two trues. */
  lemma AllSucceedScenario(op1: Operation, op2: Operation)
    ensures var step: StepFn := (op, repo) => Returned(true);
      RunAll([op1, op2], [Repo1, Repo2], step) == Some(map["repo1" := [true, true], "repo2" := [true, true]])
  {
    var step: StepFn := (op, repo) => Returned(true);
    var ops := [op1, op2];
    forall repo: Core.Repository ensures RunRepo(ops, repo, step) == Some([true, true]) {
      RunRepoCons(op2, [], repo, step);
      assert [op2] + [] == [op2] && [true] + [] == [true];
      assert RunRepo([op2], repo, step) == Some([true]);
      assert [true] + [true] == [true, true];
      RunRepoCons(op1, [op2], repo, step);
      assert [op1] + [op2] == ops;
    }
    RunAllTwo(ops, Repo1, Repo2, step, [true, true], [true, true]);
  }

  /**
   * The second of three operations fails everywhere: each repository gets a true and a false,
   * and the third operation is never run.
   */
  lemma SecondFailsScenario()
    ensures var step: StepFn := (op, repo) => if op == GitBranch("feature") then Returned(false) else Returned(true);
      RunAll([GitPull, GitBranch("feature"), JavaScriptBuild], [Repo1, Repo2], step) ==
        Some(map["repo1" := [true, false], "repo2" := [true, false]])
  {
    var step: StepFn := (op, repo) => if op == GitBranch("feature") then Returned(false) else Returned(true);
    RunRepoThree(GitPull, GitBranch("feature"), JavaScriptBuild, Repo1, step);
    RunRepoThree(GitPull, GitBranch("feature"), JavaScriptBuild, Repo2, step);
    RunAllTwo([GitPull, GitBranch("feature"), JavaScriptBuild], Repo1, Repo2, step, [true, false], [true, false]);
  }

  /** A world in which every command succeeds and prints nothing. */
  ghost const Willing: Oracle := imap c: Command | true :: Response(true, "")

  /**
   * Real operations where every command succeeds: the placeholder pull request succeeds on
   * both repositories, and Python linting succeeds on the Python repository but refuses the
   * JavaScript one.
   */
  lemma LanguageScenario(pr: OperationBase.PullRequest)
    ensures RunAll([Operation.PullRequest(pr), PythonLint(false)], [Repo1, Repo2], Outcomes(Willing)) ==
      Some(map["repo1" := [true, true], "repo2" := [true, false]])
  {
    var step := Outcomes(Willing);
    LanguageSteps(pr);
    assert step(Operation.PullRequest(pr), Repo1) == Returned(true);
    assert step(Operation.PullRequest(pr), Repo2) == Returned(true);
    assert step(PythonLint(false), Repo1) == Returned(true);
    assert step(PythonLint(false), Repo2) == Returned(false);
    var ops := [Operation.PullRequest(pr), PythonLint(false)];
    RunRepoCons(PythonLint(false), [], Repo1, step);
    RunRepoCons(PythonLint(false), [], Repo2, step);
    assert [PythonLint(false)] + [] == [PythonLint(false)] && [true] + [] == [true];
    assert RunRepo([PythonLint(false)], Repo1, step) == Some([true]);
    RunRepoCons(Operation.PullRequest(pr), [PythonLint(false)], Repo1, step);
    RunRepoCons(Operation.PullRequest(pr), [PythonLint(false)], Repo2, step);
    assert [Operation.PullRequest(pr)] + [PythonLint(false)] == ops;
    assert [true] + [true] == [true, true] && [true] + [false] == [true, false];
    RunAllTwo(ops, Repo1, Repo2, step, [true, true], [true, false]);
  }

  /** What each operation of the scenario does on each repository when every command succeeds. */
  lemma LanguageSteps(pr: OperationBase.PullRequest)
    ensures Step(Operation.PullRequest(pr), Repo1, Willing) == Returned(true)
    ensures Step(Operation.PullRequest(pr), Repo2, Willing) == Returned(true)
    ensures Step(PythonLint(false), Repo1, Willing) == Returned(true)
    ensures Step(PythonLint(false), Repo2, Willing) == Returned(false)
  {
    PullRequestAlwaysSucceeds(pr, Willing);
    LintOnPython();
    LintOnJavaScript();
  }

  /** Linting without fixing, as one step of a pipeline. */
  lemma LintStep(repo: Core.Repository, oracle: Oracle)
    ensures Step(PythonLint(false), repo, oracle) ==
      Returned(LanguageBase.SupportsPython(repo.language) && Answer(oracle, PythonOps.LintCommand(false, repo)).ok)
  {
    PythonOps.LintSpec(false, repo, oracle);
  }

  lemma LintOnPython()
    ensures Step(PythonLint(false), Repo1, Willing) == Returned(true)
  {
    Languages();
    WillingAnswers(PythonOps.LintCommand(false, Repo1));
    LintStep(Repo1, Willing);
  }

  lemma LintOnJavaScript()
    ensures Step(PythonLint(false), Repo2, Willing) == Returned(false)
  {
    Languages();
    LintStep(Repo2, Willing);
  }

  /** The first repository is a Python one, the second is not. */
  lemma Languages()
    ensures LanguageBase.SupportsPython(Repo1.language)
    ensures !LanguageBase.SupportsPython(Repo2.language)
  {
    Text.LowerOfLower(Repo1.language);
    assert |Text.Lower(Repo2.language)| != |"python"|;
  }

  lemma WillingAnswers(c: Command)
    ensures Answer(Willing, c).ok
  {
  }
}
