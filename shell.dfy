/**
 * The external command runner of the prototype design, as an oracle. Running a command
 * blocks until the process exits; all the operations read from it is whether the exit
 * status was zero and, for two git queries, what the process printed.
 */
module Shell {
  import opened Wrappers

  /** One external command: its argument vector and the directory it runs in (`None`: the caller's). */
  datatype Command = Command(argv: seq<string>, cwd: Option<string>)

  /** What running a command reports: whether it exited with status zero, and its standard output. */
  datatype Response = Response(ok: bool, stdout: string)

  /** The outside world's answer to the commands it knows of. */
  type Oracle = imap<Command, Response>

  /** What running `c` reports; a command the world does not know of cannot be launched, which
      the operations treat like a non-zero exit. */
  function Answer(oracle: Oracle, c: Command): Response {
    if c in oracle then oracle[c] else Response(false, "")
  }

  /** The commands issued when `plan` is run step by step, stopping after the first that fails. */
  function Issued(plan: seq<Command>, oracle: Oracle): seq<Command> {
    if plan == [] then []
    else if !Answer(oracle, plan[0]).ok then [plan[0]]
    else [plan[0]] + Issued(plan[1..], oracle)
  }

  /** Every command of `plan` succeeds. */
  predicate Succeeds(plan: seq<Command>, oracle: Oracle) {
    forall i :: 0 <= i < |plan| ==> Answer(oracle, plan[i]).ok
  }

  /** The index of the first command of `plan` that fails, or `|plan|` when none does. */
  function FirstFailure(plan: seq<Command>, oracle: Oracle): (k: nat)
    ensures k <= |plan|
    ensures forall i :: 0 <= i < k ==> Answer(oracle, plan[i]).ok
    ensures k < |plan| ==> !Answer(oracle, plan[k]).ok
  {
    if plan == [] then 0
    else if !Answer(oracle, plan[0]).ok then 0
    else 1 + FirstFailure(plan[1..], oracle)
  }

  /**
   * Running a plan issues its commands in order up to and including the first that fails
   * (all of them when none fails): every issued command but the last succeeded, and the
   * plan succeeds exactly when everything was issued and the last issued command succeeded.
   */
  lemma {:induction false} IssuedSpec(plan: seq<Command>, oracle: Oracle)
    ensures var k := FirstFailure(plan, oracle);
      Issued(plan, oracle) == if k < |plan| then plan[..k + 1] else plan
    ensures Succeeds(plan, oracle) <==> FirstFailure(plan, oracle) == |plan|
  {
    if plan != [] && Answer(oracle, plan[0]).ok {
      IssuedSpec(plan[1..], oracle);
      var k := FirstFailure(plan[1..], oracle);
      if k < |plan[1..]| {
        assert [plan[0]] + plan[1..][..k + 1] == plan[..k + 2];
      } else {
        assert [plan[0]] + plan[1..] == plan;
      }
      assert Succeeds(plan, oracle) <==> Succeeds(plan[1..], oracle) by {
        if Succeeds(plan[1..], oracle) {
          forall i | 0 <= i < |plan| ensures Answer(oracle, plan[i]).ok {
            if i > 0 { assert plan[i] == plan[1..][i - 1]; }
          }
        }
      }
    }
  }

  /** Every issued command except the last succeeded; a plan that fails ends on a failing command. */
  lemma IssuedStopsAtFailure(plan: seq<Command>, oracle: Oracle)
    ensures |Issued(plan, oracle)| <= |plan|
    ensures forall i :: 0 <= i < |Issued(plan, oracle)| - 1 ==> Answer(oracle, Issued(plan, oracle)[i]).ok
    ensures !Succeeds(plan, oracle) ==>
      |Issued(plan, oracle)| > 0 && !Answer(oracle, Issued(plan, oracle)[|Issued(plan, oracle)| - 1]).ok
    ensures Succeeds(plan, oracle) ==> Issued(plan, oracle) == plan
  {
    IssuedSpec(plan, oracle);
  }

  /** Only commands of the plan are issued. */
  lemma {:induction false} IssuedWithin(plan: seq<Command>, oracle: Oracle, c: Command)
    ensures c in Issued(plan, oracle) ==> c in plan
  {
    if plan != [] && Answer(oracle, plan[0]).ok {
      IssuedWithin(plan[1..], oracle, c);
    }
  }

  /** Running a plan runs its first command, and the rest only if that one succeeds. */
  lemma IssuedCons(c: Command, rest: seq<Command>, oracle: Oracle)
    ensures Issued([c] + rest, oracle) == if Answer(oracle, c).ok then [c] + Issued(rest, oracle) else [c]
    ensures Succeeds([c] + rest, oracle) <==> Answer(oracle, c).ok && Succeeds(rest, oracle)
  {
    assert ([c] + rest)[0] == c && ([c] + rest)[1..] == rest;
    if Answer(oracle, c).ok && Succeeds(rest, oracle) {
      forall i | 0 <= i < |[c] + rest| ensures Answer(oracle, ([c] + rest)[i]).ok {
        if i > 0 { assert ([c] + rest)[i] == rest[i - 1]; }
      }
    }
    if Succeeds([c] + rest, oracle) {
      forall i | 0 <= i < |rest| ensures Answer(oracle, rest[i]).ok {
        assert rest[i] == ([c] + rest)[i + 1];
      }
    }
  }

  /**
   * Running two plans back to back: the second is reached only if the whole first one
   * succeeds, and the combination succeeds exactly when both do.
   */
  lemma {:induction false} IssuedAppend(a: seq<Command>, b: seq<Command>, oracle: Oracle)
    ensures Issued(a + b, oracle) == if Succeeds(a, oracle) then a + Issued(b, oracle) else Issued(a, oracle)
    ensures Succeeds(a + b, oracle) <==> Succeeds(a, oracle) && Succeeds(b, oracle)
  {
    if a == [] {
      assert a + b == b;
    } else {
      var h, t := a[0], a[1..];
      assert a + b == [h] + (t + b);
      assert a == [h] + t;
      IssuedCons(h, t + b, oracle);
      IssuedCons(h, t, oracle);
      if Answer(oracle, h).ok {
        IssuedAppend(t, b, oracle);
        if Succeeds(t, oracle) {
          AppendAssoc([h], t, Issued(b, oracle));
        }
      }
    }
  }

  /** A plan of one command runs it and succeeds exactly when it does. */
  lemma IssuedSingle(c: Command, oracle: Oracle)
    ensures Issued([c], oracle) == [c]
    ensures Succeeds([c], oracle) <==> Answer(oracle, c).ok
  {
    IssuedCons(c, [], oracle);
    assert [c] + [] == [c];
  }

  /** A plan of two commands runs the second only if the first succeeds. */
  lemma IssuedPair(c1: Command, c2: Command, oracle: Oracle)
    ensures Issued([c1, c2], oracle) == if Answer(oracle, c1).ok then [c1, c2] else [c1]
    ensures Succeeds([c1, c2], oracle) <==> Answer(oracle, c1).ok && Answer(oracle, c2).ok
  {
    IssuedCons(c1, [c2], oracle);
    IssuedSingle(c2, oracle);
    assert [c1, c2] == [c1] + [c2];
  }

  /** A plan of two commands then `rest`: the second runs only if the first succeeds, `rest` only if both do. */
  lemma IssuedTwoThen(c1: Command, c2: Command, rest: seq<Command>, oracle: Oracle)
    ensures Issued([c1, c2] + rest, oracle) ==
      if !Answer(oracle, c1).ok then [c1] else if !Answer(oracle, c2).ok then [c1, c2] else [c1, c2] + Issued(rest, oracle)
    ensures Succeeds([c1, c2] + rest, oracle) <==> Answer(oracle, c1).ok && Answer(oracle, c2).ok && Succeeds(rest, oracle)
  {
    IssuedAppend([c1, c2], rest, oracle);
    IssuedCons(c1, [c2], oracle);
    IssuedSingle(c2, oracle);
    assert [c1, c2] == [c1] + [c2];
  }

  /**
   * An optional pair of commands, then a pair: each command runs only if every earlier one
   * succeeded, and the whole succeeds exactly when every command in it does.
   */
  lemma IssuedOptionalPairThenPair(first: seq<Command>, a: Command, b: Command, p: Command, q: Command, oracle: Oracle)
    requires first == [] || first == [a, b]
    ensures Issued(first + [p, q], oracle) ==
      (if first != [] && !Answer(oracle, a).ok then [a]
       else if first != [] && !Answer(oracle, b).ok then [a, b]
       else first + (if Answer(oracle, p).ok then [p, q] else [p]))
    ensures Succeeds(first + [p, q], oracle) <==>
      (first != [] ==> Answer(oracle, a).ok && Answer(oracle, b).ok) && Answer(oracle, p).ok && Answer(oracle, q).ok
  {
    IssuedTwoThen(p, q, [], oracle);
    assert [p, q] + [] == [p, q];
    if first != [] {
      IssuedTwoThen(a, b, [p, q], oracle);
    } else {
      assert first + [p, q] == [p, q];
    }
  }

  /** Concatenation is associative: logs appended in stages equal the log appended at once. */
  lemma AppendAssoc<T>(a: seq<T>, b: seq<T>, c: seq<T>)
    ensures (a + b) + c == a + (b + c)
  {
  }

  /** Appending two commands one at a time appends the pair. */
  lemma Snoc2<T>(s: seq<T>, a: T, b: T)
    ensures (s + [a]) + [b] == s + [a, b]
  {
  }

  /** The process runner: it answers each command from the oracle and records what was run. */
  class Runner {
    const oracle: Oracle
    /** Every command run so far, in order. */
    var log: seq<Command>

    constructor(oracle: Oracle)
      ensures this.oracle == oracle && log == []
    {
      this.oracle := oracle;
      log := [];
    }

    /** `subprocess.run(..., check=True)`: run one command; a non-zero exit is `ok == false`. */
    method Run(cmd: Command) returns (r: Response)
      modifies this
      ensures log == old(log) + [cmd]
      ensures r == Answer(oracle, cmd)
    {
      log := log + [cmd];
      r := Answer(oracle, cmd);
    }
  }
}
