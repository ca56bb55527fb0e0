/**
 * Every operation of the prototype design as one closed union, with its name, what it does
 * with a repository, and a dispatching `execute`.
 */
module Operations {
  import opened Wrappers
  import opened Shell
  import opened OperationBase
  import opened LanguageBase
  import Core
  import GitOps
  import GitHubOps
  import PythonOps
  import JavaScriptOps

  /** The operation classes, each with the arguments of its constructor. */
  datatype Operation =
    | GitBase
    | PullRequest(pr: OperationBase.PullRequest)
    | GitPull
    | GitBranch(branchName: string)
    | GitHubPullRequest(gh: GitHubOps.GitHubPullRequest)
    | PythonBase
    | JavaScriptBase
    | PythonLint(pythonFix: bool)
    | PythonUnitTest(testPath: Option<string>)
    | JavaScriptLint(javaScriptFix: bool)
    | JavaScriptBuild

  /** `get_name` of each class. */
  function Name(op: Operation): string {
    match op
    case GitBase => GitOperationName
    case PullRequest(_) => PullRequestName
    case GitPull => GitOps.PullName
    case GitBranch(b) => GitOps.BranchName(b)
    case GitHubPullRequest(_) => GitHubOps.GitHubPullRequestName
    case PythonBase => PythonOperationName
    case JavaScriptBase => JavaScriptOperationName
    case PythonLint(fix) => PythonOps.LintName(fix)
    case PythonUnitTest(_) => PythonOps.UnitTestName
    case JavaScriptLint(fix) => JavaScriptOps.LintName(fix)
    case JavaScriptBuild => JavaScriptOps.BuildName
  }

  /** What `execute` of each class does with `repo`. */
  function PlanOf(op: Operation, repo: Core.Repository, oracle: Oracle): Plan {
    match op
    case GitBase => GitOperationPlan()
    case PullRequest(pr) => PullRequestPlan(pr)
    case GitPull => GitOps.PullPlan(repo)
    case GitBranch(b) => GitOps.BranchPlan(b, repo)
    case GitHubPullRequest(gh) => GitHubOps.GitHubPlan(gh, repo, oracle)
    case PythonBase => PythonBasePlan(repo)
    case JavaScriptBase => JavaScriptBasePlan(repo)
    case PythonLint(fix) => PythonOps.LintPlan(fix, repo)
    case PythonUnitTest(testPath) => PythonOps.UnitTestPlan(testPath, repo)
    case JavaScriptLint(fix) => JavaScriptOps.LintPlan(fix, repo)
    case JavaScriptBuild => JavaScriptOps.BuildPlan(repo)
  }

  /** The outcome of `op.execute(repo)`. */
  function Step(op: Operation, repo: Core.Repository, oracle: Oracle): Outcome {
    PlanOutcome(PlanOf(op, repo, oracle), oracle)
  }

  /** The commands `op.execute(repo)` runs. */
  function Log(op: Operation, repo: Core.Repository, oracle: Oracle): seq<Command> {
    PlanLog(PlanOf(op, repo, oracle), oracle)
  }

  /** The operations that raise `NotImplementedError`: the git base always, a language base on its own languages. */
  predicate Raises(op: Operation, repo: Core.Repository) {
    || op.GitBase?
    || (op.PythonBase? && SupportsPython(repo.language))
    || (op.JavaScriptBase? && SupportsJavaScript(repo.language))
  }

  /** Only the base classes raise, and a raising operation runs nothing. */
  lemma RaisesExactly(op: Operation, repo: Core.Repository, oracle: Oracle)
    ensures Step(op, repo, oracle).NotImplemented? <==> Raises(op, repo)
    ensures Step(op, repo, oracle).NotImplemented? ==> Log(op, repo, oracle) == []
  {
    BaseGate(repo, oracle);
  }

  /** The operations bound to one language family. */
  predicate LanguageBound(op: Operation) {
    op.PythonBase? || op.PythonLint? || op.PythonUnitTest? || op.JavaScriptBase? || op.JavaScriptLint? || op.JavaScriptBuild?
  }

  /** The language family `op` accepts; only meaningful for a language-bound operation. */
  predicate Accepts(op: Operation, language: string) {
    if op.PythonBase? || op.PythonLint? || op.PythonUnitTest? then SupportsPython(language)
    else SupportsJavaScript(language)
  }

  /** A language-bound operation returns false on a repository in another language and runs nothing there. */
  lemma WrongLanguageRefused(op: Operation, repo: Core.Repository, oracle: Oracle)
    requires LanguageBound(op) && !Accepts(op, repo.language)
    ensures Step(op, repo, oracle) == Returned(false)
    ensures Log(op, repo, oracle) == []
  {
  }

  /**
   * Every operation stops at its first failing command: all logged commands but the last
   * succeeded, a successful operation's commands all succeeded, and an operation that
   * returned false either ran nothing (it refused the repository) or ended on a failing command.
   */
  lemma StepAgreesWithLog(op: Operation, repo: Core.Repository, oracle: Oracle)
    ensures var log := Log(op, repo, oracle);
      && (forall i :: 0 <= i < |log| - 1 ==> Answer(oracle, log[i]).ok)
      && (Step(op, repo, oracle) == Returned(true) ==> forall i :: 0 <= i < |log| ==> Answer(oracle, log[i]).ok)
      && (Step(op, repo, oracle) == Returned(false) && log != [] ==> !Answer(oracle, log[|log| - 1]).ok)
  {
    var plan := PlanOf(op, repo, oracle);
    if plan.Steps? {
      IssuedStopsAtFailure(plan.cmds, oracle);
    }
  }

  /** `op.execute(repo)`, dispatched on the operation's class. */
  method Execute(op: Operation, repo: Core.Repository, runner: Runner) returns (o: Outcome)
    modifies runner
    ensures runner.log == old(runner.log) + Log(op, repo, runner.oracle)
    ensures o == Step(op, repo, runner.oracle)
  {
    BaseGate(repo, runner.oracle);
    match op {
      case GitBase =>
        o := NotImplemented;
      case PullRequest(pr) =>
        var ok := ExecutePullRequest(pr, runner);
        o := Returned(ok);
      case GitPull =>
        var ok := GitOps.ExecutePull(repo, runner);
        o := Returned(ok);
      case GitBranch(b) =>
        var ok := GitOps.ExecuteBranch(b, repo, runner);
        o := Returned(ok);
      case GitHubPullRequest(gh) =>
        var ok := GitHubOps.ExecuteGitHubPullRequest(gh, repo, runner);
        o := Returned(ok);
      case PythonBase =>
        o := if SupportsPython(repo.language) then NotImplemented else Returned(false);
      case JavaScriptBase =>
        o := if SupportsJavaScript(repo.language) then NotImplemented else Returned(false);
      case PythonLint(fix) =>
        var ok := PythonOps.ExecuteLint(fix, repo, runner);
        o := Returned(ok);
      case PythonUnitTest(testPath) =>
        var ok := PythonOps.ExecuteUnitTest(testPath, repo, runner);
        o := Returned(ok);
      case JavaScriptLint(fix) =>
        var ok := JavaScriptOps.ExecuteLint(fix, repo, runner);
        o := Returned(ok);
      case JavaScriptBuild =>
        var ok := JavaScriptOps.ExecuteBuild(repo, runner);
        o := Returned(ok);
    }
  }
}
