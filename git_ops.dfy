/** The git operations: pulling the main branch, and creating a branch from it. */
module GitOps {
  import opened Wrappers
  import opened Text
  import opened Shell
  import opened OperationBase
  import Core

  // ---------------------------------------------------------------- GitPullOperation

  const PullName: string := "Git Pull"

  /** `git pull origin <main branch>`, run in the repository. */
  function PullCommand(repo: Core.Repository): Command {
    Command(["git", "pull", "origin", repo.mainBranch], Some(repo.path))
  }

  function PullPlan(repo: Core.Repository): Plan {
    Steps([PullCommand(repo)])
  }

  /** Pulling runs exactly the one pull command and succeeds exactly when it does. */
  lemma PullSpec(repo: Core.Repository, oracle: Oracle)
    ensures PlanLog(PullPlan(repo), oracle) == [Command(["git", "pull", "origin", repo.mainBranch], Some(repo.path))]
    ensures PlanOutcome(PullPlan(repo), oracle) == Returned(Answer(oracle, PullCommand(repo)).ok)
  {
    IssuedSingle(PullCommand(repo), oracle);
  }

  /** `GitPullOperation.execute`; a failed or unlaunchable process is `false`. */
  method ExecutePull(repo: Core.Repository, runner: Runner) returns (ok: bool)
    modifies runner
    ensures runner.log == old(runner.log) + PlanLog(PullPlan(repo), runner.oracle)
    ensures Returned(ok) == PlanOutcome(PullPlan(repo), runner.oracle)
  {
    PullSpec(repo, runner.oracle);
    var result := runner.Run(PullCommand(repo));
    ok := result.ok;
  }

  // ---------------------------------------------------------------- GitBranchOperation

  /** `GitBranchOperation.get_name`. */
  function BranchName(branchName: string): (name: string)
    ensures StartsWith(name, "Create Branch: ") && name[|"Create Branch: "|..] == branchName
  {
    "Create Branch: " + branchName
  }

  /** `git checkout <main branch>`, run in the repository. */
  function CheckoutMain(repo: Core.Repository): Command {
    Command(["git", "checkout", repo.mainBranch], Some(repo.path))
  }

  /** `git checkout -b <branch>`, run in the repository. */
  function CheckoutNew(branchName: string, repo: Core.Repository): Command {
    Command(["git", "checkout", "-b", branchName], Some(repo.path))
  }

  function BranchPlan(branchName: string, repo: Core.Repository): Plan {
    Steps([CheckoutMain(repo), CheckoutNew(branchName, repo)])
  }

  /**
   * Creating a branch checks out the main branch first; only if that succeeds is the new
   * branch created, and the operation succeeds exactly when both checkouts do.
   */
  lemma BranchSpec(branchName: string, repo: Core.Repository, oracle: Oracle)
    ensures PlanLog(BranchPlan(branchName, repo), oracle) ==
      if Answer(oracle, CheckoutMain(repo)).ok then [CheckoutMain(repo), CheckoutNew(branchName, repo)] else [CheckoutMain(repo)]
    ensures PlanOutcome(BranchPlan(branchName, repo), oracle) ==
      Returned(Answer(oracle, CheckoutMain(repo)).ok && Answer(oracle, CheckoutNew(branchName, repo)).ok)
  {
    IssuedSingle(CheckoutNew(branchName, repo), oracle);
    IssuedCons(CheckoutMain(repo), [CheckoutNew(branchName, repo)], oracle);
    assert [CheckoutMain(repo)] + [CheckoutNew(branchName, repo)] == [CheckoutMain(repo), CheckoutNew(branchName, repo)];
  }

  /** `GitBranchOperation.execute`: the second checkout is reached only if the first succeeds. */
  method ExecuteBranch(branchName: string, repo: Core.Repository, runner: Runner) returns (ok: bool)
    modifies runner
    ensures runner.log == old(runner.log) + PlanLog(BranchPlan(branchName, repo), runner.oracle)
    ensures Returned(ok) == PlanOutcome(BranchPlan(branchName, repo), runner.oracle)
  {
    BranchSpec(branchName, repo, runner.oracle);
    var checkout := runner.Run(CheckoutMain(repo));
    if !checkout.ok {
      return false;
    }
    var create := runner.Run(CheckoutNew(branchName, repo));
    ok := create.ok;
  }
}
