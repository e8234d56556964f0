/** The events the printer fires to report failed and warned results: the
    per-result block of `print_run_result_error` and the end-of-run sequence
    of `print_run_end_messages`. Events are values here; sending them to the
    logging sink is not modelled. */
module ResultErrors {
  import opened Wrappers
  import Text
  import opened RunStatus

  datatype Event =
    | EmptyLine
    | RunResultWarning(resourceType: string, nodeName: string, path: string)
    | RunResultFailure(resourceType: string, nodeName: string, path: string)
    | RunResultError(msg: string)
    | RunResultErrorNoMessage(status: Status)
    | SQLCompiledPath(compiledPath: Option<string>)
    | CheckNodeTestFailure(relationName: Option<string>)
    | FirstRunResultError(msg: string)
    | AfterFirstRunResultError(msg: string)
    | EndOfRunSummary(numErrors: nat, numWarnings: nat, keyboardInterrupt: bool)
    | StatsLine(stats: Stats)

  /** One event per line of a message: the first line is marked as such and
      every later line follows it. */
  function LineEvents(lines: seq<string>): (es: seq<Event>)
    ensures |es| == |lines|
    ensures forall i :: 0 <= i < |es| ==> es[i] == if i == 0 then FirstRunResultError(lines[0])
                                                      else AfterFirstRunResultError(lines[i])
  {
    if |lines| == 0 then []
    else [FirstRunResultError(lines[0])] + AfterFirstEvents(lines[1..])
  }

  function AfterFirstEvents(lines: seq<string>): (es: seq<Event>)
    ensures |es| == |lines|
    ensures forall i :: 0 <= i < |es| ==> es[i] == AfterFirstRunResultError(lines[i])
  {
    if |lines| == 0 then [] else [AfterFirstRunResultError(lines[0])] + AfterFirstEvents(lines[1..])
  }

  /** The text a line event carries. */
  function LineText(e: Event): string
  {
    match e
    case FirstRunResultError(m) => m
    case AfterFirstRunResultError(m) => m
    case _ => ""
  }

  /** The texts of a run of line events. */
  function LineTexts(es: seq<Event>): (ts: seq<string>)
    ensures |ts| == |es|
    ensures forall i :: 0 <= i < |ts| ==> ts[i] == LineText(es[i])
  {
    if |es| == 0 then [] else [LineText(es[0])] + LineTexts(es[1..])
  }

  /** The heading branch: a failure, or a warning when warnings are asked for. */
  predicate IsHeaded(result: RunResult, isWarning: bool) {
    result.status == Fail || (isWarning && result.status == Warn)
  }

  /** The block reported under a failure or warning heading. */
  function HeadedEvents(result: RunResult, isWarning: bool): (es: seq<Event>)
    ensures |es| == 2 + (if result.node.buildPath.Some? then 2 else 0)
                      + (if result.node.shouldStoreFailures then 2 else 0)
    ensures isWarning <==> es[0].RunResultWarning?
    ensures !isWarning <==> es[0].RunResultFailure?
    ensures isWarning ==> es[0] == RunResultWarning(result.node.resourceType, result.node.name,
                                                    result.node.originalFilePath)
    ensures !isWarning ==> es[0] == RunResultFailure(result.node.resourceType, result.node.name,
                                                     result.node.originalFilePath)
    ensures es[1] == if Truthy(result.message) then RunResultError(result.message.value)
                     else RunResultErrorNoMessage(result.status)
    ensures result.node.buildPath.Some? ==> es[2..4] == [EmptyLine, SQLCompiledPath(result.node.compiledPath)]
    ensures result.node.shouldStoreFailures ==>
              es[|es| - 2..] == [EmptyLine, CheckNodeTestFailure(result.node.relationName)]
  {
    var node := result.node;
    var heading := if isWarning then RunResultWarning(node.resourceType, node.name, node.originalFilePath)
                   else RunResultFailure(node.resourceType, node.name, node.originalFilePath);
    var message := if Truthy(result.message) then RunResultError(result.message.value)
                   else RunResultErrorNoMessage(result.status);
    var compiled := if node.buildPath.Some? then [EmptyLine, SQLCompiledPath(node.compiledPath)] else [];
    var stored := if node.shouldStoreFailures then [EmptyLine, CheckNodeTestFailure(node.relationName)] else [];
    [heading, message] + compiled + stored
  }

  /** `print_run_result_error`: an optional blank line, then either the
      headed block, or one event per line of the message, or nothing. */
  function RunResultErrorEvents(result: RunResult, newline: bool, isWarning: bool): (es: seq<Event>)
    ensures newline <==> |es| > 0 && es[0] == EmptyLine
    ensures var body := if newline then es[1..] else es;
            && (IsHeaded(result, isWarning) ==> body == HeadedEvents(result, isWarning))
            && (!IsHeaded(result, isWarning) && result.message.Some? ==>
                  body == LineEvents(Text.Split(result.message.value, '\n')))
            && (!IsHeaded(result, isWarning) && result.message.None? ==> body == [])
  {
    var lead := if newline then [EmptyLine] else [];
    var body :=
      if IsHeaded(result, isWarning) then HeadedEvents(result, isWarning)
      else if result.message.Some? then LineEvents(Text.Split(result.message.value, '\n'))
      else [];
    lead + body
  }

  /** When the message is reported line by line, there is one event per
      newline-separated piece (one more than there are newlines), the first
      marked as first, and joining the events' texts with newlines gives the
      message back. */
  lemma LineEventsRecoverMessage(result: RunResult, newline: bool, isWarning: bool)
    requires !IsHeaded(result, isWarning) && result.message.Some?
    ensures var es := RunResultErrorEvents(result, newline, isWarning);
            var body := if newline then es[1..] else es;
            && |body| == Text.Occurrences(result.message.value, '\n') + 1
            && body[0].FirstRunResultError?
            && (forall i :: 1 <= i < |body| ==> body[i].AfterFirstRunResultError?)
            && Text.Join(LineTexts(body), '\n') == result.message.value
  {
    var lines := Text.Split(result.message.value, '\n');
    var es := RunResultErrorEvents(result, newline, isWarning);
    var body := if newline then es[1..] else es;
    assert body == LineEvents(lines);
    assert LineTexts(body) == lines;
    Text.JoinSplit(result.message.value, '\n');
  }

  /** A headed block names the right heading: a warning heading exactly when
      warnings are asked for, and never a line-by-line event. */
  lemma HeadedEventsHaveOneHeading(result: RunResult, isWarning: bool)
    requires IsHeaded(result, isWarning)
    ensures var es := HeadedEvents(result, isWarning);
            forall i :: 0 <= i < |es| ==> !es[i].FirstRunResultError? && !es[i].AfterFirstRunResultError?
    ensures var es := HeadedEvents(result, isWarning);
            forall i :: 1 <= i < |es| ==> !es[i].RunResultWarning? && !es[i].RunResultFailure?
  {
  }

  /** The events of a list of results, each reported in turn. */
  function ResultsErrorEvents(results: seq<RunResult>, isWarning: bool): seq<Event>
  {
    if |results| == 0 then []
    else RunResultErrorEvents(results[0], true, isWarning) + ResultsErrorEvents(results[1..], isWarning)
  }

  /** The reports of the end of a run before its status line: a blank line,
      the summary with the error and warning counts, the error blocks and
      then the warning blocks. */
  function RunEndReports(results: seq<RunResult>, keyboardInterrupt: bool): (es: seq<Event>)
  {
    var errors := Filter(IsRunEndError, results);
    var warnings := Filter(IsRunEndWarning, results);
    [EmptyLine, EndOfRunSummary(|errors|, |warnings|, keyboardInterrupt)]
    + ResultsErrorEvents(errors, false) + ResultsErrorEvents(warnings, true)
  }

  /** `print_run_end_messages`: the reports, then the status line. An
      unhandled status stops the status line after the reports were fired;
      it is returned as `unhandled`. */
  method RunEndMessages(results: seq<RunResult>, keyboardInterrupt: bool)
    returns (events: seq<Event>, unhandled: Option<RunResult>)
    ensures |events| >= 2 && events[0] == EmptyLine
    ensures events[1] == EndOfRunSummary(|Filter(IsRunEndError, results)|,
                                         |Filter(IsRunEndWarning, results)|, keyboardInterrupt)
    ensures unhandled.None? <==> AllHandled(results)
    ensures unhandled.Some? ==> exists i :: 0 <= i < |results| && results[i] == unhandled.value
                                             && unhandled.value.status == RuntimeErr && AllHandled(results[..i])
    ensures unhandled.Some? ==> events == RunEndReports(results, keyboardInterrupt)
    ensures unhandled.None? ==> events[..|events| - 1] == RunEndReports(results, keyboardInterrupt)
    ensures unhandled.None? ==>
              events[|events| - 1] == StatsLine(Stats(CountBucket(results, ErrorBucket),
                                                      CountBucket(results, SkipBucket),
                                                      CountBucket(results, PassBucket),
                                                      CountBucket(results, WarnBucket),
                                                      |results|))
  {
    var errors, warnings := PartitionRunEnd(results);
    events := [EmptyLine, EndOfRunSummary(|errors|, |warnings|, keyboardInterrupt)];
    events := events + ResultsErrorEvents(errors, false);
    events := events + ResultsErrorEvents(warnings, true);
    assert events == RunEndReports(results, keyboardInterrupt);
    var stats := RunStatusLine(results);
    match stats {
      case Ok(s) =>
        events := events + [StatsLine(s)];
        unhandled := None;
      case Err(r) =>
        unhandled := Some(r);
    }
  }
}
