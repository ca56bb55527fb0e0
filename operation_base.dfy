/**
 * What running one operation on one repository amounts to, and the two operations of the
 * operations base file: the git operation base, whose `execute` is not implemented, and
 * the placeholder pull-request operation.
 */
module OperationBase {
  import opened Wrappers
  import opened Shell

  /** What `execute` does with a control flow of its own: it returns a boolean or raises `NotImplementedError`. */
  datatype Outcome = Returned(ok: bool) | NotImplemented

  /**
   * What an operation does with a repository, given the oracle's answers: refuse it (return
   * false without running anything), run a sequence of commands stopping at the first that
   * fails, or raise `NotImplementedError`.
   */
  datatype Plan = Refused | Steps(cmds: seq<Command>) | Unimplemented

  /** The result of carrying out a plan. */
  function PlanOutcome(plan: Plan, oracle: Oracle): (o: Outcome)
    ensures plan.Refused? ==> o == Returned(false)
    ensures plan.Unimplemented? <==> o.NotImplemented?
    ensures plan.Steps? ==> (o == Returned(true) <==> forall i :: 0 <= i < |plan.cmds| ==> Answer(oracle, plan.cmds[i]).ok)
  {
    match plan
    case Refused => Returned(false)
    case Steps(cmds) => Returned(Succeeds(cmds, oracle))
    case Unimplemented => NotImplemented
  }

  /** The commands carrying out a plan issues; refusing and raising issue none. */
  function PlanLog(plan: Plan, oracle: Oracle): (log: seq<Command>)
    ensures !plan.Steps? ==> log == []
  {
    match plan
    case Steps(cmds) => Issued(cmds, oracle)
    case _ => []
  }

  /** A plan's log is empty exactly when it runs nothing: every plan that runs a command runs its first one. */
  lemma PlanLogEmpty(plan: Plan, oracle: Oracle)
    ensures PlanLog(plan, oracle) == [] <==> !plan.Steps? || plan.cmds == []
    ensures plan.Steps? && plan.cmds != [] ==> PlanLog(plan, oracle)[0] == plan.cmds[0]
  {
  }

  /** A plan of two commands then `rest`: each part runs only if everything before it succeeded. */
  lemma StepsTwoThen(c1: Command, c2: Command, rest: seq<Command>, oracle: Oracle)
    ensures PlanLog(Steps([c1, c2] + rest), oracle) ==
      if !Answer(oracle, c1).ok then [c1] else if !Answer(oracle, c2).ok then [c1, c2] else [c1, c2] + Issued(rest, oracle)
    ensures PlanOutcome(Steps([c1, c2] + rest), oracle) ==
      Returned(Answer(oracle, c1).ok && Answer(oracle, c2).ok && Succeeds(rest, oracle))
  {
    IssuedTwoThen(c1, c2, rest, oracle);
  }

  // ---------------------------------------------------------------- GitOperation

  const GitOperationName: string := "Git Operation"

  /** `GitOperation.execute`: not implemented for the base class. */
  function GitOperationPlan(): Plan {
    Unimplemented
  }

  /** `GitOperation.execute` raises whatever the repository and the world. */
  lemma GitOperationRaises(oracle: Oracle)
    ensures PlanOutcome(GitOperationPlan(), oracle) == NotImplemented
    ensures PlanLog(GitOperationPlan(), oracle) == []
  {
  }

  // ---------------------------------------------------------------- PullRequestOperation

  const PullRequestName: string := "Pull Request Creation"

  /** `PullRequestOperation.__init__`: the description is optional and absent by default. */
  datatype PullRequest = PullRequest(title: string, description: Option<string>)

  function NewPullRequest(title: string, description: Option<string> := None): (pr: PullRequest)
    ensures pr.title == title && pr.description == description
  {
    PullRequest(title, description)
  }

  /** The placeholder `execute`: it runs nothing and reports success. */
  function PullRequestPlan(pr: PullRequest): Plan {
    Steps([])
  }

  /** The placeholder succeeds on every repository without running a command. */
  lemma PullRequestAlwaysSucceeds(pr: PullRequest, oracle: Oracle)
    ensures PlanOutcome(PullRequestPlan(pr), oracle) == Returned(true)
    ensures PlanLog(PullRequestPlan(pr), oracle) == []
  {
  }

  /** `PullRequestOperation.execute`: print a message (not modelled) and report success. */
  method ExecutePullRequest(pr: PullRequest, runner: Runner) returns (ok: bool)
    modifies runner
    ensures runner.log == old(runner.log) + PlanLog(PullRequestPlan(pr), runner.oracle)
    ensures Returned(ok) == PlanOutcome(PullRequestPlan(pr), runner.oracle)
  {
    ok := true;
  }
}
