/**
 * Creating a GitHub pull request: find the current branch, commit any uncommitted changes,
 * push the branch and open the pull request with the `gh` command-line tool.
 */
module GitHubOps {
  import opened Wrappers
  import opened Text
  import opened Shell
  import opened OperationBase
  import Core

  const GitHubPullRequestName: string := "GitHub Pull Request Creation"

  /** `GitHubPullRequestOperation.__init__`: title, optional description and optional base branch. */
  datatype GitHubPullRequest = GitHubPullRequest(title: string, description: Option<string>, baseBranch: Option<string>)

  /** The branch the pull request targets: the configured base branch when it is a non-empty string,
      the repository's main branch otherwise. */
  function BaseBranch(pr: GitHubPullRequest, repo: Core.Repository): (base: string)
    ensures pr.baseBranch.Some? && pr.baseBranch.value != "" ==> base == pr.baseBranch.value
    ensures pr.baseBranch.None? || pr.baseBranch.value == "" ==> base == repo.mainBranch
  {
    if pr.baseBranch.Some? && pr.baseBranch.value != "" then pr.baseBranch.value else repo.mainBranch
  }

  /** The pull request body: the description, or the empty string when there is none. */
  function Body(pr: GitHubPullRequest): string {
    pr.description.GetOr("")
  }

  function ShowCurrent(repo: Core.Repository): Command {
    Command(["git", "branch", "--show-current"], Some(repo.path))
  }

  function Status(repo: Core.Repository): Command {
    Command(["git", "status", "--porcelain"], Some(repo.path))
  }

  function AddAll(repo: Core.Repository): Command {
    Command(["git", "add", "."], Some(repo.path))
  }

  function Commit(pr: GitHubPullRequest, repo: Core.Repository): Command {
    Command(["git", "commit", "-m", pr.title], Some(repo.path))
  }

  function Push(branch: string, repo: Core.Repository): Command {
    Command(["git", "push", "-u", "origin", branch], Some(repo.path))
  }

  function CreatePr(pr: GitHubPullRequest, repo: Core.Repository): Command {
    Command(["gh", "pr", "create", "--title", pr.title, "--body", Body(pr), "--base", BaseBranch(pr, repo)], Some(repo.path))
  }

  /** The current branch, as `git branch --show-current` printed it, stripped. */
  function CurrentBranch(repo: Core.Repository, oracle: Oracle): string {
    Strip(Answer(oracle, ShowCurrent(repo)).stdout)
  }

  /** `git status --porcelain` printed something other than whitespace. */
  predicate HasChanges(repo: Core.Repository, oracle: Oracle) {
    Strip(Answer(oracle, Status(repo)).stdout) != ""
  }

  /** The commit steps, run only when there are changes. */
  function CommitSteps(pr: GitHubPullRequest, repo: Core.Repository, oracle: Oracle): seq<Command> {
    if HasChanges(repo, oracle) then [AddAll(repo), Commit(pr, repo)] else []
  }

  /** The steps after the commit: push the current branch, then open the pull request. */
  function PublishSteps(pr: GitHubPullRequest, repo: Core.Repository, oracle: Oracle): seq<Command> {
    [Push(CurrentBranch(repo, oracle), repo), CreatePr(pr, repo)]
  }

  /** The whole sequence, with the outputs of the two queries taken from the oracle. */
  function GitHubPlan(pr: GitHubPullRequest, repo: Core.Repository, oracle: Oracle): Plan {
    Steps([ShowCurrent(repo), Status(repo)] + (CommitSteps(pr, repo, oracle) + PublishSteps(pr, repo, oracle)))
  }

  /** The commands run after the two queries succeeded, and whether they all succeeded. */
  lemma AfterQueries(pr: GitHubPullRequest, repo: Core.Repository, oracle: Oracle)
    ensures var commit := CommitSteps(pr, repo, oracle);
      var push := Push(CurrentBranch(repo, oracle), repo);
      && Issued(commit + PublishSteps(pr, repo, oracle), oracle) ==
        (if commit != [] && !Answer(oracle, AddAll(repo)).ok then [AddAll(repo)]
         else if commit != [] && !Answer(oracle, Commit(pr, repo)).ok then [AddAll(repo), Commit(pr, repo)]
         else commit + (if Answer(oracle, push).ok then [push, CreatePr(pr, repo)] else [push]))
      && (Succeeds(commit + PublishSteps(pr, repo, oracle), oracle) <==>
          (commit != [] ==> Answer(oracle, AddAll(repo)).ok && Answer(oracle, Commit(pr, repo)).ok)
          && Answer(oracle, push).ok && Answer(oracle, CreatePr(pr, repo)).ok)
  {
    var push := Push(CurrentBranch(repo, oracle), repo);
    IssuedOptionalPairThenPair(CommitSteps(pr, repo, oracle), AddAll(repo), Commit(pr, repo), push, CreatePr(pr, repo), oracle);
  }

  /**
   * The commands the operation runs: the two queries, then (once both succeeded) the
   * commit steps when there are changes, push and pull-request creation, stopping after
   * the first that fails; it succeeds exactly when every step it had to run succeeded.
   */
  lemma PullRequestLog(pr: GitHubPullRequest, repo: Core.Repository, oracle: Oracle)
    ensures var rest := CommitSteps(pr, repo, oracle) + PublishSteps(pr, repo, oracle);
      && PlanLog(GitHubPlan(pr, repo, oracle), oracle) ==
        (if !Answer(oracle, ShowCurrent(repo)).ok then [ShowCurrent(repo)]
         else if !Answer(oracle, Status(repo)).ok then [ShowCurrent(repo), Status(repo)]
         else [ShowCurrent(repo), Status(repo)] + Issued(rest, oracle))
      && PlanOutcome(GitHubPlan(pr, repo, oracle), oracle) ==
        Returned(Answer(oracle, ShowCurrent(repo)).ok && Answer(oracle, Status(repo)).ok && Succeeds(rest, oracle))
  {
    var rest := CommitSteps(pr, repo, oracle) + PublishSteps(pr, repo, oracle);
    StepsTwoThen(ShowCurrent(repo), Status(repo), rest, oracle);
  }

  /** `GitHubPullRequestOperation.execute`: each step runs only if every earlier one succeeded. */
  method ExecuteGitHubPullRequest(pr: GitHubPullRequest, repo: Core.Repository, runner: Runner) returns (ok: bool)
    modifies runner
    ensures runner.log == old(runner.log) + PlanLog(GitHubPlan(pr, repo, runner.oracle), runner.oracle)
    ensures Returned(ok) == PlanOutcome(GitHubPlan(pr, repo, runner.oracle), runner.oracle)
  {
    ghost var oracle := runner.oracle;
    ghost var start := runner.log;
    var currentResult := runner.Run(ShowCurrent(repo));
    if !currentResult.ok {
      PullRequestLog(pr, repo, oracle);
      return false;
    }
    var current := Strip(currentResult.stdout);
    var base := BaseBranch(pr, repo);
    var status := runner.Run(Status(repo));
    Snoc2(start, ShowCurrent(repo), Status(repo));
    if !status.ok {
      PullRequestLog(pr, repo, oracle);
      return false;
    }
    ghost var rest := CommitSteps(pr, repo, oracle) + PublishSteps(pr, repo, oracle);
    ok := Publish(pr, repo, runner, current, base, Strip(status.stdout) != "");
    AppendAssoc(start, [ShowCurrent(repo), Status(repo)], Issued(rest, oracle));
    PullRequestLog(pr, repo, oracle);
  }

  /** The part of `execute` after both queries succeeded: commit if needed, push, create. */
  method Publish(pr: GitHubPullRequest, repo: Core.Repository, runner: Runner, current: string, base: string, changes: bool)
    returns (ok: bool)
    requires current == CurrentBranch(repo, runner.oracle) && base == BaseBranch(pr, repo)
    requires changes == HasChanges(repo, runner.oracle)
    modifies runner
    ensures runner.log == old(runner.log) + Issued(CommitSteps(pr, repo, runner.oracle) + PublishSteps(pr, repo, runner.oracle), runner.oracle)
    ensures ok == Succeeds(CommitSteps(pr, repo, runner.oracle) + PublishSteps(pr, repo, runner.oracle), runner.oracle)
  {
    ghost var oracle := runner.oracle;
    ghost var start := runner.log;
    ghost var commit := CommitSteps(pr, repo, oracle);
    ghost var publish := PublishSteps(pr, repo, oracle);
    IssuedAppend(commit, publish, oracle);
    ok := CommitChanges(pr, repo, runner, changes);
    if !ok {
      return;
    }
    IssuedStopsAtFailure(commit, oracle);
    ok := PushAndCreate(pr, repo, runner, current, base);
    AppendAssoc(start, commit, Issued(publish, oracle));
  }

  /** Stage and commit everything when `git status` reported changes; nothing otherwise. */
  method CommitChanges(pr: GitHubPullRequest, repo: Core.Repository, runner: Runner, changes: bool) returns (ok: bool)
    requires changes == HasChanges(repo, runner.oracle)
    modifies runner
    ensures runner.log == old(runner.log) + Issued(CommitSteps(pr, repo, runner.oracle), runner.oracle)
    ensures ok == Succeeds(CommitSteps(pr, repo, runner.oracle), runner.oracle)
  {
    ghost var oracle := runner.oracle;
    if !changes {
      assert CommitSteps(pr, repo, oracle) == [];
      return true;
    }
    assert CommitSteps(pr, repo, oracle) == [AddAll(repo), Commit(pr, repo)];
    IssuedTwoThen(AddAll(repo), Commit(pr, repo), [], oracle);
    assert [AddAll(repo), Commit(pr, repo)] + [] == [AddAll(repo), Commit(pr, repo)];
    var add := runner.Run(AddAll(repo));
    if !add.ok {
      return false;
    }
    var committed := runner.Run(Commit(pr, repo));
    ok := committed.ok;
  }

  /** Push the current branch and open the pull request, the second only if the push succeeded. */
  method PushAndCreate(pr: GitHubPullRequest, repo: Core.Repository, runner: Runner, current: string, base: string)
    returns (ok: bool)
    requires current == CurrentBranch(repo, runner.oracle) && base == BaseBranch(pr, repo)
    modifies runner
    ensures runner.log == old(runner.log) + Issued(PublishSteps(pr, repo, runner.oracle), runner.oracle)
    ensures ok == Succeeds(PublishSteps(pr, repo, runner.oracle), runner.oracle)
  {
    ghost var oracle := runner.oracle;
    ghost var create := CreatePr(pr, repo);
    assert PublishSteps(pr, repo, oracle) == [Push(current, repo), create];
    IssuedPair(Push(current, repo), create, oracle);
    var pushed := runner.Run(Push(current, repo));
    if !pushed.ok {
      return false;
    }
    var created := runner.Run(Command(["gh", "pr", "create", "--title", pr.title, "--body", Body(pr), "--base", base], Some(repo.path)));
    ok := created.ok;
  }
}
