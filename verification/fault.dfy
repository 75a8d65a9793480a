/**
 * The fault policy of `print_rslt` and the staged start-up it governs. A
 * failing status is reported only when a debug stream is attached; then the
 * message carries the status code and the device enters the LED panic loop,
 * which never returns. Without a stream every status is ignored.
 */
module Fault {
  import opened Vendor

  /** A line written to the debug stream, "Error [<code>] : <description>"; the description text is not modelled. */
  datatype Message = ErrorReport(code: int)

  /** What happens after a status has been reported. */
  datatype Verdict = Proceed | Halt(line: Message)

  /** `print_rslt`: halt with a message naming the code, exactly for a failure seen by an attached stream. */
  function Report(debugAttached: bool, rslt: Status): (v: Verdict)
    ensures v.Halt? <==> debugAttached && rslt.Failed?
    ensures v.Halt? ==> rslt.Failed? && v.line == ErrorReport(rslt.code)
  {
    if !debugAttached then Proceed
    else
      match rslt
      case Ok => Proceed
      case Failed(code) => Halt(ErrorReport(code))
  }

  /** One start-up step: the vendor calls it issues and the status passed to `print_rslt`. */
  datatype Stage = Stage(calls: seq<VendorCall>, status: Status)

  /** The effect of running stages: calls issued, lines logged, and whether the panic loop was entered. */
  datatype BootTrace = BootTrace(calls: seq<VendorCall>, log: seq<Message>, halted: bool)

  /** Every call of every stage, in order. */
  function AllCalls(stages: seq<Stage>): seq<VendorCall>
  {
    if stages == [] then [] else stages[0].calls + AllCalls(stages[1..])
  }

  /** Runs each stage and reports its status; a halting report ends the run. */
  function Boot(debugAttached: bool, stages: seq<Stage>): (t: BootTrace)
    ensures t.halted <==> |t.log| == 1
    ensures |t.log| <= 1
  {
    if stages == [] then BootTrace([], [], false)
    else
      match Report(debugAttached, stages[0].status)
      case Halt(line) => BootTrace(stages[0].calls, [line], true)
      case Proceed =>
        var rest := Boot(debugAttached, stages[1..]);
        BootTrace(stages[0].calls + rest.calls, rest.log, rest.halted)
  }

  /** A stage whose report does not halt adds its calls in front of the rest of the run. */
  lemma BootProceeds(debugAttached: bool, stages: seq<Stage>)
    requires stages != [] && Report(debugAttached, stages[0].status) == Proceed
    ensures var rest := Boot(debugAttached, stages[1..]);
            Boot(debugAttached, stages) == BootTrace(stages[0].calls + rest.calls, rest.log, rest.halted)
  {
  }

  /** A stage whose report halts ends the run with its own calls and line. */
  lemma BootStops(debugAttached: bool, stages: seq<Stage>)
    requires stages != [] && Report(debugAttached, stages[0].status).Halt?
    ensures Boot(debugAttached, stages)
            == BootTrace(stages[0].calls, [Report(debugAttached, stages[0].status).line], true)
  {
  }

  /** Without a debug stream no status halts: every stage runs and nothing is logged. */
  lemma {:induction false} BootWithoutSinkRunsAll(stages: seq<Stage>)
    ensures Boot(false, stages) == BootTrace(AllCalls(stages), [], false)
  {
    if stages != [] {
      BootWithoutSinkRunsAll(stages[1..]);
    }
  }

  /** When every stage succeeds, all of them run and nothing is logged, stream or not. */
  lemma {:induction false} BootAllOkRunsAll(debugAttached: bool, stages: seq<Stage>)
    requires forall i :: 0 <= i < |stages| ==> stages[i].status == Ok
    ensures Boot(debugAttached, stages) == BootTrace(AllCalls(stages), [], false)
  {
    if stages != [] {
      BootAllOkRunsAll(debugAttached, stages[1..]);
    }
  }

  /**
   * With a debug stream, the first failing stage `k` halts the run: the stages
   * up to and including it have run, none after it, and the one logged line
   * carries its code.
   */
  lemma {:induction false} BootHaltsAtFirstFailure(stages: seq<Stage>, k: nat)
    requires k < |stages| && stages[k].status.Failed?
    requires forall i :: 0 <= i < k ==> stages[i].status == Ok
    ensures Boot(true, stages) == BootTrace(AllCalls(stages[..k + 1]), [ErrorReport(stages[k].status.code)], true)
  {
    if k == 0 {
      assert AllCalls(stages[..1]) == stages[0].calls + AllCalls(stages[1..1]);
    } else {
      BootHaltsAtFirstFailure(stages[1..], k - 1);
      assert stages[1..][..k] == stages[..k + 1][1..];
    }
  }

  /** With a debug stream, the run halts exactly when some stage fails. */
  lemma {:induction false} BootHaltsIffSomeFailure(stages: seq<Stage>)
    ensures Boot(true, stages).halted <==> exists i :: 0 <= i < |stages| && stages[i].status.Failed?
  {
    if stages != [] {
      BootHaltsIffSomeFailure(stages[1..]);
      if stages[0].status == Ok {
        assert forall i :: 1 <= i < |stages| ==> stages[i] == stages[1..][i - 1];
      }
    }
  }
}
