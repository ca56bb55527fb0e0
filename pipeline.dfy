/**
 * The pipeline of the prototype design: an ordered list of operations run over every managed
 * repository, recording one boolean per operation and stopping, per repository, at the first
 * operation that returns false.
 */
module Pipelines {
  import opened Wrappers
  import opened Shell
  import opened OperationBase
  import opened Operations
  import Core

  // ---------------------------------------------------------------- specification

  /** What running an operation on a repository returns. */
  type StepFn = (Operation, Core.Repository) -> Outcome

  /** The commands running an operation on a repository runs. */
  type LogFn = (Operation, Core.Repository) -> seq<Command>

  /** The operations' own behaviour, given the oracle's answers. */
  function Outcomes(oracle: Oracle): StepFn {
    (op, repo) => Step(op, repo, oracle)
  }

  function Logs(oracle: Oracle): LogFn {
    (op, repo) => Log(op, repo, oracle)
  }

  /** `n` successes. */
  function Trues(n: nat): (rs: seq<bool>)
    ensures |rs| == n && forall i :: 0 <= i < n ==> rs[i]
  {
    seq(n, _ => true)
  }

  /**
   * The list recorded for one repository: one entry per operation run, stopping after the
   * first false; `None` when an operation raises, which aborts the whole run.
   */
  function RunRepo(ops: seq<Operation>, repo: Core.Repository, step: StepFn): Option<seq<bool>> {
    if ops == [] then Some([])
    else match step(ops[0], repo)
      case NotImplemented => None
      case Returned(false) => Some([false])
      case Returned(true) =>
        match RunRepo(ops[1..], repo, step)
        case None => None
        case Some(rs) => Some([true] + rs)
  }

  /** The commands run on one repository, up to the operation that failed or raised. */
  function RepoLog(ops: seq<Operation>, repo: Core.Repository, step: StepFn, log: LogFn): seq<Command> {
    if ops == [] then []
    else log(ops[0], repo) + (if step(ops[0], repo) == Returned(true) then RepoLog(ops[1..], repo, step, log) else [])
  }

  /** The commands of every operation of `ops` in turn. */
  function LogsOf(ops: seq<Operation>, repo: Core.Repository, log: LogFn): seq<Command> {
    if ops == [] then [] else LogsOf(ops[..|ops| - 1], repo, log) + log(ops[|ops| - 1], repo)
  }

  /**
   * The dictionary `execute` returns after visiting `repos` in order: each name is bound to its
   * repository's list, a later repository of the same name overwriting an earlier one; `None`
   * when some repository's run raised.
   */
  function RunAll(ops: seq<Operation>, repos: seq<Core.Repository>, step: StepFn): Option<map<string, seq<bool>>> {
    if repos == [] then Some(map[])
    else
      var last := repos[|repos| - 1];
      match RunAll(ops, repos[..|repos| - 1], step)
      case None => None
      case Some(m) =>
        match RunRepo(ops, last, step)
        case None => None
        case Some(rs) => Some(m[last.name := rs])
  }

  /** Every command `execute` runs while visiting `repos`, up to the raise that aborted it if any. */
  function AllLog(ops: seq<Operation>, repos: seq<Core.Repository>, step: StepFn, log: LogFn): seq<Command> {
    if repos == [] then []
    else if RunAll(ops, repos[..|repos| - 1], step).None? then AllLog(ops, repos[..|repos| - 1], step, log)
    else AllLog(ops, repos[..|repos| - 1], step, log) + RepoLog(ops, repos[|repos| - 1], step, log)
  }

  // ---------------------------------------------------------------- one repository

  /**
   * A list has at most one entry per operation and is empty only when there are no operations;
   * every entry but the last is true, and a list shorter than the operations ends in false.
   */
  lemma {:induction false} RunRepoShape(ops: seq<Operation>, repo: Core.Repository, step: StepFn, log: LogFn)
    ensures RunRepo(ops, repo, step).Some? ==>
      var rs := RunRepo(ops, repo, step).value;
      && |rs| <= |ops|
      && (rs == [] <==> ops == [])
      && (forall i :: 0 <= i < |rs| - 1 ==> rs[i])
      && (|rs| < |ops| ==> !rs[|rs| - 1])
  {
    if ops != [] && step(ops[0], repo) == Returned(true) {
      RunRepoShape(ops[1..], repo, step, log);
      if RunRepo(ops, repo, step).Some? {
        var rs := RunRepo(ops[1..], repo, step).value;
        assert RunRepo(ops, repo, step).value == [true] + rs;
        assert forall i :: 1 <= i < |rs| + 1 ==> ([true] + rs)[i] == rs[i - 1];
      }
    }
  }

  /**
   * Entry `i` is operation `i`'s outcome, and exactly the operations with an entry ran: the
   * repository's commands are theirs, in order.
   */
  lemma {:induction false} RunRepoEntries(ops: seq<Operation>, repo: Core.Repository, step: StepFn, log: LogFn)
    requires RunRepo(ops, repo, step).Some?
    ensures var rs := RunRepo(ops, repo, step).value;
      && |rs| <= |ops|
      && (forall i :: 0 <= i < |rs| ==> step(ops[i], repo) == Returned(rs[i]))
      && RepoLog(ops, repo, step, log) == LogsOf(ops[..|rs|], repo, log)
  {
    if ops != [] && step(ops[0], repo) == Returned(true) {
      RunRepoEntries(ops[1..], repo, step, log);
      var rs := RunRepo(ops[1..], repo, step).value;
      assert RunRepo(ops, repo, step).value == [true] + rs;
      forall i | 1 <= i < |rs| + 1
        ensures step(ops[i], repo) == Returned(([true] + rs)[i])
      {
        assert ops[1..][i - 1] == ops[i];
      }
      LogsOfCons(ops[..|rs| + 1], repo, step, log);
      assert ops[..|rs| + 1][1..] == ops[1..][..|rs|];
    } else if ops != [] && step(ops[0], repo) == Returned(false) {
      assert ops[..1] == [ops[0]];
      LogsOfCons(ops[..1], repo, step, log);
      assert ops[..1][1..] == [];
    }
  }

  /** When every operation succeeds, the list is full-length and all true. */
  lemma {:induction false} RunRepoAllSucceed(ops: seq<Operation>, repo: Core.Repository, step: StepFn, log: LogFn)
    requires forall i :: 0 <= i < |ops| ==> step(ops[i], repo) == Returned(true)
    ensures RunRepo(ops, repo, step) == Some(Trues(|ops|))
    ensures RepoLog(ops, repo, step, log) == LogsOf(ops, repo, log)
  {
    if ops != [] {
      assert step(ops[0], repo) == Returned(true);
      assert forall i :: 0 <= i < |ops[1..]| ==> ops[1..][i] == ops[i + 1];
      RunRepoAllSucceed(ops[1..], repo, step, log);
      assert [true] + Trues(|ops| - 1) == Trues(|ops|);
      LogsOfCons(ops, repo, step, log);
    }
  }

  /** The list is full-length and all true only when every operation succeeded. */
  lemma RunRepoAllTrueOnlyIfAllSucceed(ops: seq<Operation>, repo: Core.Repository, step: StepFn, log: LogFn)
    requires RunRepo(ops, repo, step) == Some(Trues(|ops|))
    ensures forall i :: 0 <= i < |ops| ==> step(ops[i], repo) == Returned(true)
  {
    RunRepoEntries(ops, repo, step, log);
  }

  /** The commands of a non-empty list of operations: the first's, then the rest's. */
  lemma {:induction false} LogsOfCons(ops: seq<Operation>, repo: Core.Repository, step: StepFn, log: LogFn)
    requires ops != []
    ensures LogsOf(ops, repo, log) == log(ops[0], repo) + LogsOf(ops[1..], repo, log)
    decreases |ops|
  {
    if |ops| > 1 {
      var init := ops[..|ops| - 1];
      LogsOfCons(init, repo, step, log);
      assert init[0] == ops[0];
      assert init[1..] == ops[1..][..|ops[1..]| - 1];
    } else {
      assert ops[..0] == [] && ops[1..] == [];
    }
  }

  /** A run's outcome behind `n` successes. */
  function Behind(n: nat, r: Option<seq<bool>>): Option<seq<bool>> {
    match r
    case None => None
    case Some(rs) => Some(Trues(n) + rs)
  }

  lemma BehindOneMore(n: nat, r: Option<seq<bool>>)
    ensures Behind(1, Behind(n, r)) == Behind(n + 1, r)
  {
    if r.Some? {
      assert Trues(n + 1) == [true] + Trues(n);
      assert Trues(1) == [true];
      assert [true] + (Trues(n) + r.value) == ([true] + Trues(n)) + r.value;
    }
  }

  /** The commands of the first `j + 1` operations: those of the first `j`, then operation `j`'s. */
  lemma LogsOfSnoc(ops: seq<Operation>, repo: Core.Repository, step: StepFn, log: LogFn, j: nat)
    requires j < |ops|
    ensures LogsOf(ops[..j + 1], repo, log) == LogsOf(ops[..j], repo, log) + log(ops[j], repo)
  {
    assert ops[..j + 1][..j] == ops[..j];
  }

  /**
   * One step of the inner loop: behind `j` successes, operation `j` raising aborts the run,
   * failing ends the list with false, and succeeding moves on to operation `j + 1`.
   */
  lemma RunRepoAdvance(ops: seq<Operation>, repo: Core.Repository, step: StepFn, log: LogFn, j: nat)
    requires j < |ops|
    ensures var o := step(ops[j], repo);
      && (o.NotImplemented? ==> Behind(j, RunRepo(ops[j..], repo, step)) == None)
      && (o == Returned(false) ==> Behind(j, RunRepo(ops[j..], repo, step)) == Some(Trues(j) + [false]))
      && (o == Returned(true) ==> Behind(j, RunRepo(ops[j..], repo, step)) == Behind(j + 1, RunRepo(ops[j + 1..], repo, step)))
      && (o != Returned(true) ==> LogsOf(ops[..j], repo, log) + RepoLog(ops[j..], repo, step, log) == LogsOf(ops[..j + 1], repo, log))
      && (o == Returned(true) ==>
            LogsOf(ops[..j], repo, log) + RepoLog(ops[j..], repo, step, log) ==
            LogsOf(ops[..j + 1], repo, log) + RepoLog(ops[j + 1..], repo, step, log))
      && LogsOf(ops[..j + 1], repo, log) == LogsOf(ops[..j], repo, log) + log(ops[j], repo)
  {
    var rest := ops[j..];
    assert rest[0] == ops[j] && rest[1..] == ops[j + 1..];
    LogsOfSnoc(ops, repo, step, log, j);
    var o := step(ops[j], repo);
    if o == Returned(true) {
      var r := RunRepo(ops[j + 1..], repo, step);
      assert RunRepo(rest, repo, step) == Behind(1, r) by {
        if r.Some? {
          assert Trues(1) + r.value == [true] + r.value;
        }
      }
      BehindAdd(j, r);
    }
  }

  lemma BehindNone(r: Option<seq<bool>>)
    ensures Behind(0, r) == r
  {
    if r.Some? {
      assert Trues(0) + r.value == r.value;
    }
  }

  lemma BehindAdd(n: nat, r: Option<seq<bool>>)
    ensures Behind(n, Behind(1, r)) == Behind(n + 1, r)
  {
    if r.Some? {
      assert Trues(n + 1) == Trues(n) + [true];
      assert Trues(n) + (Trues(1) + r.value) == (Trues(n) + [true]) + r.value;
    }
  }

  // ---------------------------------------------------------------- all repositories

  /** Once a repository's run has raised, the whole run stays aborted and runs nothing more. */
  lemma {:induction false} RunAllAbort(ops: seq<Operation>, repos: seq<Core.Repository>, step: StepFn, log: LogFn, i: nat)
    requires i <= |repos| && RunAll(ops, repos[..i], step).None?
    ensures RunAll(ops, repos, step).None?
    ensures AllLog(ops, repos, step, log) == AllLog(ops, repos[..i], step, log)
    decreases |repos| - i
  {
    if i == |repos| {
      assert repos[..i] == repos;
    } else {
      var init := repos[..|repos| - 1];
      assert init[..i] == repos[..i];
      RunAllAbort(ops, init, step, log, i);
    }
  }

  /** The step of the outer loop: visiting one more repository. */
  lemma RunAllSnoc(ops: seq<Operation>, repos: seq<Core.Repository>, step: StepFn, log: LogFn, i: nat)
    requires i < |repos| && RunAll(ops, repos[..i], step).Some?
    ensures RunAll(ops, repos[..i + 1], step) ==
      match RunRepo(ops, repos[i], step)
      case None => None
      case Some(rs) => Some(RunAll(ops, repos[..i], step).value[repos[i].name := rs])
    ensures AllLog(ops, repos[..i + 1], step, log) == AllLog(ops, repos[..i], step, log) + RepoLog(ops, repos[i], step, log)
  {
    assert repos[..i + 1][..i] == repos[..i];
  }

  /** The run aborts exactly when some repository's run raises. */
  lemma {:induction false} RunAllNone(ops: seq<Operation>, repos: seq<Core.Repository>, step: StepFn, log: LogFn)
    ensures RunAll(ops, repos, step).None? <==> exists i :: 0 <= i < |repos| && RunRepo(ops, repos[i], step).None?
  {
    if repos != [] {
      var init := repos[..|repos| - 1];
      RunAllNone(ops, init, step, log);
      if exists i :: 0 <= i < |init| && RunRepo(ops, init[i], step).None? {
        var i :| 0 <= i < |init| && RunRepo(ops, init[i], step).None?;
        assert repos[i] == init[i];
      }
      if exists i :: 0 <= i < |repos| && RunRepo(ops, repos[i], step).None? {
        var i :| 0 <= i < |repos| && RunRepo(ops, repos[i], step).None?;
        if i < |init| {
          assert init[i] == repos[i];
        }
      }
    }
  }

  /** The names of `repos`. */
  function Names(repos: seq<Core.Repository>): (ns: set<string>)
    ensures forall i :: 0 <= i < |repos| ==> repos[i].name in ns
    ensures forall n :: n in ns ==> exists i :: 0 <= i < |repos| && repos[i].name == n
  {
    if repos == [] then {}
    else
      var init := repos[..|repos| - 1];
      var ns := Names(init) + {repos[|repos| - 1].name};
      assert forall i :: 0 <= i < |init| ==> init[i] == repos[i];
      ns
  }

  /** The keys of the result are exactly the repositories' names. */
  lemma {:induction false} RunAllKeys(ops: seq<Operation>, repos: seq<Core.Repository>, step: StepFn, log: LogFn)
    requires RunAll(ops, repos, step).Some?
    ensures RunAll(ops, repos, step).value.Keys == Names(repos)
  {
    if repos != [] {
      RunAllKeys(ops, repos[..|repos| - 1], step, log);
    }
  }

  /** `repos[i]` is the last repository named `repos[i].name`. */
  predicate LastOfName(repos: seq<Core.Repository>, i: int)
    requires 0 <= i < |repos|
  {
    forall j :: i < j < |repos| ==> repos[j].name != repos[i].name
  }

  /**
   * Each name is bound to the list of the last repository of that name, computed from that
   * repository and the operations alone: what happened on the other repositories does not
   * enter it.
   */
  lemma {:induction false} RunAllValues(ops: seq<Operation>, repos: seq<Core.Repository>, step: StepFn, log: LogFn)
    requires RunAll(ops, repos, step).Some?
    ensures var m := RunAll(ops, repos, step).value;
      forall i :: 0 <= i < |repos| && LastOfName(repos, i) ==>
        repos[i].name in m && RunRepo(ops, repos[i], step) == Some(m[repos[i].name])
  {
    if repos != [] {
      var init := repos[..|repos| - 1];
      var last := repos[|repos| - 1];
      RunAllValues(ops, init, step, log);
      var m0 := RunAll(ops, init, step).value;
      var m := RunAll(ops, repos, step).value;
      assert m == m0[last.name := RunRepo(ops, last, step).value];
      forall i | 0 <= i < |repos| && LastOfName(repos, i)
        ensures repos[i].name in m && RunRepo(ops, repos[i], step) == Some(m[repos[i].name])
      {
        if i < |repos| - 1 {
          assert repos[i] == init[i];
          assert LastOfName(init, i);
        }
      }
    }
  }

  /** Repositories of distinct names each get their own list. */
  lemma DistinctNames(ops: seq<Operation>, repos: seq<Core.Repository>, step: StepFn, log: LogFn)
    requires RunAll(ops, repos, step).Some?
    requires forall i, j :: 0 <= i < j < |repos| ==> repos[i].name != repos[j].name
    ensures var m := RunAll(ops, repos, step).value;
      |m.Keys| == |repos| &&
      forall i :: 0 <= i < |repos| ==> repos[i].name in m && RunRepo(ops, repos[i], step) == Some(m[repos[i].name])
  {
    RunAllKeys(ops, repos, step, log);
    RunAllValues(ops, repos, step, log);
    NamesCount(repos);
  }

  /** Distinct names: as many names as repositories. */
  lemma {:induction false} NamesCount(repos: seq<Core.Repository>)
    requires forall i, j :: 0 <= i < j < |repos| ==> repos[i].name != repos[j].name
    ensures |Names(repos)| == |repos|
  {
    if repos != [] {
      var init := repos[..|repos| - 1];
      NamesCount(init);
      assert repos[|repos| - 1].name !in Names(init);
    }
  }

  // ---------------------------------------------------------------- the pipeline object

  /** `Pipeline`: a named, ordered list of operations. */
  class Pipeline {
    var name: string
    var operations: seq<Operation>

    /** `Pipeline.__init__`: named, with no operations. */
    constructor(name: string)
      ensures this.name == name && operations == []
    {
      this.name := name;
      operations := [];
    }

    /** `add_operation`: append at the end; the earlier operations stay as they were. */
    method AddOperation(op: Operation)
      modifies this
      ensures operations == old(operations) + [op] && name == old(name)
    {
      operations := operations + [op];
    }

    /**
     * `execute`: visit the repositories in order and record each one's list under its name;
     * a raising operation aborts the whole run (`None`). Neither the operations nor the
     * manager change.
     */
    method Execute(manager: Core.RepositoryManager, runner: Runner) returns (results: Option<map<string, seq<bool>>>)
      modifies runner
      ensures unchanged(this) && unchanged(manager)
      ensures results == RunAll(operations, manager.repositories, Outcomes(runner.oracle))
      ensures runner.log == old(runner.log) + AllLog(operations, manager.repositories, Outcomes(runner.oracle), Logs(runner.oracle))
    {
      ghost var step := Outcomes(runner.oracle);
      ghost var log := Logs(runner.oracle);
      ghost var start := runner.log;
      var repos := manager.GetRepositories();
      var m: map<string, seq<bool>> := map[];
      var i := 0;
      while i < |repos|
        invariant 0 <= i <= |repos|
        invariant RunAll(operations, repos[..i], step) == Some(m)
        invariant runner.log == start + AllLog(operations, repos[..i], step, log)
      {
        ghost var done := AllLog(operations, repos[..i], step, log);
        var repoResults := RunOnRepository(repos[i], runner);
        RunAllSnoc(operations, repos, step, log, i);
        AppendAssoc(start, done, RepoLog(operations, repos[i], step, log));
        if repoResults.None? {
          RunAllAbort(operations, repos, step, log, i + 1);
          return None;
        }
        m := m[repos[i].name := repoResults.value];
        i := i + 1;
      }
      assert repos[..i] == repos;
      results := Some(m);
    }

    /** One turn of the inner loop: run operation `j`; its commands join the log. */
    static method RunStep(ops: seq<Operation>, j: nat, repo: Core.Repository, runner: Runner, ghost start: seq<Command>)
      returns (o: Outcome)
      requires j < |ops|
      requires runner.log == start + LogsOf(ops[..j], repo, Logs(runner.oracle))
      modifies runner
      ensures o == Outcomes(runner.oracle)(ops[j], repo)
      ensures runner.log == start + LogsOf(ops[..j + 1], repo, Logs(runner.oracle))
    {
      ghost var log := Logs(runner.oracle);
      ghost var done := LogsOf(ops[..j], repo, log);
      o := Operations.Execute(ops[j], repo, runner);
      ghost var ran := Log(ops[j], repo, runner.oracle);
      assert log(ops[j], repo) == ran;
      assert runner.log == (start + done) + ran;
      LogsOfSnoc(ops, repo, Outcomes(runner.oracle), log, j);
      assert start + LogsOf(ops[..j + 1], repo, log) == start + (done + ran);
      AppendAssoc(start, done, ran);
    }

    /** The inner loop of `execute`: run the operations on one repository until one returns false. */
    method RunOnRepository(repo: Core.Repository, runner: Runner) returns (repoResults: Option<seq<bool>>)
      modifies runner
      ensures repoResults == RunRepo(operations, repo, Outcomes(runner.oracle))
      ensures runner.log == old(runner.log) + RepoLog(operations, repo, Outcomes(runner.oracle), Logs(runner.oracle))
    {
      ghost var step := Outcomes(runner.oracle);
      ghost var log := Logs(runner.oracle);
      ghost var start := runner.log;
      var results: seq<bool> := [];
      var j := 0;
      assert operations[0..] == operations && operations[..0] == [];
      BehindNone(RunRepo(operations, repo, step));
      while j < |operations|
        invariant 0 <= j <= |operations|
        invariant RunRepo(operations, repo, step) == Behind(j, RunRepo(operations[j..], repo, step))
        invariant RepoLog(operations, repo, step, log) == LogsOf(operations[..j], repo, log) + RepoLog(operations[j..], repo, step, log)
        invariant results == Trues(j)
        invariant runner.log == start + LogsOf(operations[..j], repo, log)
      {
        var success := RunStep(operations, j, repo, runner, start);
        RunRepoAdvance(operations, repo, step, log, j);
        if success.NotImplemented? {
          return None;
        }
        results := results + [success.ok];
        if !success.ok {
          return Some(results);
        }
        j := j + 1;
      }
      assert operations[j..] == [] && Trues(j) + [] == Trues(j);
      repoResults := Some(results);
    }
  }
}
