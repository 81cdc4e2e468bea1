/**
 * The boundary to external programs (SimpleExec's `RunAsync` and `ReadAsync`). A call is
 * recorded as an `Invocation`; what the program does is given from outside: `exitCode` says
 * how each invocation ends and `output` what it prints. A non-zero exit code is SimpleExec's
 * `ExitCodeException`.
 */
module Process {
  import opened Wrappers

  /** One external program run: the program and its single argument string. */
  datatype Invocation = Invocation(program: string, arguments: string)

  /** `ExitCodeException`: the invoked program exited with a non-zero code. */
  datatype ExitCodeError = ExitCodeError(invocation: Invocation, exitCode: int)

  /** The (standard output, standard error) pair `ReadAsync` returns. */
  datatype Captured = Captured(standardOutput: string, standardError: string)

  /** `Command.RunAsync(program, arguments)`. */
  function Run(invocation: Invocation, exitCode: Invocation -> int): Outcome<ExitCodeError>
  {
    if exitCode(invocation) == 0 then Pass else Fail(ExitCodeError(invocation, exitCode(invocation)))
  }

  /** `Command.ReadAsync(program, arguments)`: the captured output, or the exit-code failure. */
  function Read(invocation: Invocation, exitCode: Invocation -> int, output: Invocation -> Captured)
    : Result<Captured, ExitCodeError>
  {
    if exitCode(invocation) == 0 then Success(output(invocation))
    else Failure(ExitCodeError(invocation, exitCode(invocation)))
  }

  /** The invocations a sequence of calls made, in order, and how the sequence ended. */
  datatype Trace = Trace(invocations: seq<Invocation>, outcome: Outcome<ExitCodeError>)

  /**
   * Awaiting the calls one after another: each runs only if all before it succeeded, and the
   * first failure ends the sequence with that failure.
   */
  function RunAll(calls: seq<Invocation>, exitCode: Invocation -> int): (t: Trace)
    ensures t.invocations <= calls
    ensures t.outcome.Pass? ==> t.invocations == calls
    ensures t.outcome.Fail? ==> |t.invocations| >= 1
    decreases |calls|
  {
    if calls == [] then Trace([], Pass)
    else match Run(calls[0], exitCode)
      case Fail(e) => Trace([calls[0]], Fail(e))
      case Pass =>
        var rest := RunAll(calls[1..], exitCode);
        Trace([calls[0]] + rest.invocations, rest.outcome)
  }

  /**
   * The calls made are a prefix of those asked for; every call but the last succeeded; the run
   * passes exactly when every call was made and succeeded, and otherwise fails with the
   * exit code of the last call made.
   */
  lemma {:induction false} RunAllFailsFast(calls: seq<Invocation>, exitCode: Invocation -> int)
    ensures var t := RunAll(calls, exitCode);
      && t.invocations <= calls
      && (forall i | 0 <= i < |t.invocations| - 1 :: exitCode(t.invocations[i]) == 0)
      && (t.outcome.Pass? <==> (forall i | 0 <= i < |calls| :: exitCode(calls[i]) == 0))
      && (t.outcome.Pass? ==> t.invocations == calls)
      && (t.outcome.Fail? ==> |t.invocations| >= 1 && t.outcome == Run(t.invocations[|t.invocations| - 1], exitCode)
                              && exitCode(t.invocations[|t.invocations| - 1]) != 0)
    decreases |calls|
  {
    if calls != [] {
      RunAllFailsFast(calls[1..], exitCode);
      var t := RunAll(calls, exitCode);
      if exitCode(calls[0]) == 0 {
        var rest := RunAll(calls[1..], exitCode);
        assert t.invocations == [calls[0]] + rest.invocations;
        assert calls == [calls[0]] + calls[1..];
        forall i | 0 <= i < |t.invocations| - 1 ensures exitCode(t.invocations[i]) == 0 {
          if i > 0 {
            assert t.invocations[i] == rest.invocations[i - 1];
          }
        }
        if t.outcome.Pass? {
          forall i | 0 <= i < |calls| ensures exitCode(calls[i]) == 0 {
            if i > 0 {
              assert calls[i] == calls[1..][i - 1];
            }
          }
        }
        if forall i | 0 <= i < |calls| :: exitCode(calls[i]) == 0 {
          forall i | 0 <= i < |calls[1..]| ensures exitCode(calls[1..][i]) == 0 {
            assert calls[1..][i] == calls[i + 1];
          }
        }
      }
    }
  }

  /** One more call runs only if everything before it succeeded. */
  lemma {:induction false} RunAllSnoc(calls: seq<Invocation>, call: Invocation, exitCode: Invocation -> int)
    ensures var before := RunAll(calls, exitCode);
      RunAll(calls + [call], exitCode)
        == if before.outcome.Pass?
           then Trace(before.invocations + [call], Run(call, exitCode))
           else before
    decreases |calls|
  {
    if calls == [] {
      assert calls + [call] == [call];
      assert RunAll([call], exitCode) == Trace([call], Run(call, exitCode)) by {
        assert [call][1..] == [];
      }
    } else {
      assert (calls + [call])[0] == calls[0];
      assert (calls + [call])[1..] == calls[1..] + [call];
      RunAllSnoc(calls[1..], call, exitCode);
    }
  }

  /** Once a call has failed, further calls change nothing. */
  /**
   * One step of awaiting `calls` in turn, when the first `i` have all succeeded: a success
   * extends the passing prefix, and a failure decides the whole sequence.
   */
  lemma RunAllStep(calls: seq<Invocation>, i: nat, done: seq<Invocation>, exitCode: Invocation -> int)
    requires i < |calls|
    requires RunAll(calls[..i], exitCode) == Trace(done, Pass)
    ensures Run(calls[i], exitCode).Pass? ==> RunAll(calls[..i + 1], exitCode) == Trace(done + [calls[i]], Pass)
    ensures Run(calls[i], exitCode).Fail? ==>
      RunAll(calls, exitCode) == Trace(done + [calls[i]], Run(calls[i], exitCode))
  {
    TakeOneMore(calls, i);
    RunAllSnoc(calls[..i], calls[i], exitCode);
    if Run(calls[i], exitCode).Fail? {
      RunAllAfterFailure(calls[..i + 1], calls[i + 1..], exitCode);
    }
  }

  lemma TakeOneMore(calls: seq<Invocation>, i: nat)
    requires i < |calls|
    ensures calls[..i + 1] == calls[..i] + [calls[i]]
    ensures calls[..i + 1] + calls[i + 1..] == calls
  {
  }

  lemma {:induction false} RunAllAfterFailure(calls: seq<Invocation>, more: seq<Invocation>, exitCode: Invocation -> int)
    requires RunAll(calls, exitCode).outcome.Fail?
    ensures RunAll(calls + more, exitCode) == RunAll(calls, exitCode)
    decreases |calls|
  {
    assert calls != [];
    assert (calls + more)[0] == calls[0];
    if exitCode(calls[0]) == 0 {
      assert (calls + more)[1..] == calls[1..] + more;
      RunAllAfterFailure(calls[1..], more, exitCode);
    }
  }
}
