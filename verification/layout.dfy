/** The text of one result line, as `print_fancy_output_line` lays it out:
    `<timestamp> | <index> of <total> <message>`, padded with dots to the
    printer width (or cut to it with `...`), then `[<status> in <t>s]`.
    The timestamp, the printer width and the formatted execution time are
    inputs here, not read from a clock or a terminal. */
module Layout {
  import opened Wrappers
  import Text
  import opened RunStatus

  /** `<index> of <total> ` when both are known, otherwise empty. */
  function Progress(index: Option<int>, total: Option<int>): (p: string)
    ensures p == "" <==> index.None? || total.None?
  {
    if index.None? || total.None? then ""
    else Text.IntToString(index.value) + " of " + Text.IntToString(total.value) + " "
  }

  /** The progress text splits on spaces into the index, `of`, the total and
      an empty tail, and both numbers read back from it. */
  lemma ProgressFields(index: int, total: int)
    ensures Text.Split(Progress(Some(index), Some(total)), ' ')
            == [Text.IntToString(index), "of", Text.IntToString(total), ""]
    ensures Text.ParseInt(Text.Split(Progress(Some(index), Some(total)), ' ')[0]) == index
    ensures Text.ParseInt(Text.Split(Progress(Some(index), Some(total)), ' ')[2]) == total
  {
    var a := Text.IntToString(index);
    var b := Text.IntToString(total);
    assert Progress(Some(index), Some(total)) == a + [' '] + ("of" + [' '] + (b + [' '] + ""));
    Text.SplitAfterPiece(b, ' ', "");
    Text.SplitAfterPiece("of", ' ', b + [' '] + "");
    Text.SplitAfterPiece(a, ' ', "of" + [' '] + (b + [' '] + ""));
    Text.IntToStringRoundTrip(index);
    Text.IntToStringRoundTrip(total);
  }

  /** The part before the padding: timestamp, separator, progress, message. */
  function Prefix(timestamp: string, index: Option<int>, total: Option<int>, msg: string): (s: string)
    ensures |s| == |timestamp| + 3 + |Progress(index, total)| + |msg|
    ensures s[..|timestamp| + 3] == timestamp + " | "
    ensures s[|timestamp| + 3..|s| - |msg|] == Progress(index, total)
    ensures s[|s| - |msg|..] == msg
  {
    timestamp + " | " + Progress(index, total) + msg
  }

  /** The prefix padded with dots to `width`; with `truncate`, anything past
      `width - 3` characters is replaced by `...`, where Python's slice
      semantics decide what a negative `width - 3` keeps. */
  function Justify(prefix: string, width: int, truncate: bool): (j: string)
    ensures !truncate ==> |j| >= width && BeginsWith(j, prefix)
    ensures truncate && width >= 3 ==> |j| == width && j[width - 3..] == "..."
  {
    var truncateWidth := width - 3;
    var padded := Text.LJust(prefix, width, '.');
    if truncate && |padded| > truncateWidth then Text.SliceTo(padded, truncateWidth) + "..."
    else padded
  }

  /** Without truncation the prefix is kept whole and dots fill the line up
      to the width. */
  lemma JustifyPads(prefix: string, width: int)
    ensures |Justify(prefix, width, false)| == if width > |prefix| then width else |prefix|
    ensures Justify(prefix, width, false)[..|prefix|] == prefix
    ensures forall i :: |prefix| <= i < |Justify(prefix, width, false)| ==> Justify(prefix, width, false)[i] == '.'
  {
  }

  /** With truncation and a width of at least three, the line is always
      exactly `width` long and ends in `...`: the padded text is never
      shorter than the width, so the cut always happens. */
  lemma JustifyTruncates(prefix: string, width: int)
    requires width >= 3
    ensures |Justify(prefix, width, true)| == width
    ensures Justify(prefix, width, true)[width - 3..] == "..."
    ensures Justify(prefix, width, true)[..width - 3] == Text.LJust(prefix, width, '.')[..width - 3]
  {
    var padded := Text.LJust(prefix, width, '.');
    assert |padded| >= width;
    assert Text.SliceTo(padded, width - 3) == padded[..width - 3];
  }

  /** ` in <seconds>s` when an execution time is known, otherwise empty. */
  function StatusTime(executionTime: Option<string>): (t: string)
    ensures executionTime.None? <==> t == ""
  {
    match executionTime
    case None => ""
    case Some(secs) => " in " + secs + "s"
  }

  /** The full line `<justified> [<status><status time>]`. */
  function FancyOutputLine(
    msg: string, status: string, index: Option<int>, total: Option<int>,
    executionTime: Option<string>, truncate: bool, timestamp: string, width: int): (line: string)
    ensures |line| >= 3 && line[|line| - 1] == ']'
  {
    var justified := Justify(Prefix(timestamp, index, total, msg), width, truncate);
    justified + " [" + status + StatusTime(executionTime) + "]"
  }

  /** The line starts with the justified prefix and its bracketed tail holds
      exactly the status followed by the status time. */
  lemma FancyOutputLineLayout(
    msg: string, status: string, index: Option<int>, total: Option<int>,
    executionTime: Option<string>, truncate: bool, timestamp: string, width: int)
    ensures var j := Justify(Prefix(timestamp, index, total, msg), width, truncate);
            var line := FancyOutputLine(msg, status, index, total, executionTime, truncate, timestamp, width);
            && |line| == |j| + |status| + |StatusTime(executionTime)| + 3
            && line[..|j|] == j
            && line[|j|..|j| + 2] == " ["
            && line[|j| + 2..|line| - 1] == status + StatusTime(executionTime)
  {
  }

  /** Without truncation the line begins with the timestamp, the progress
      and the message in that order. */
  lemma FancyOutputLineStartsWithPrefix(
    msg: string, status: string, index: Option<int>, total: Option<int>,
    executionTime: Option<string>, timestamp: string, width: int)
    ensures var line := FancyOutputLine(msg, status, index, total, executionTime, false, timestamp, width);
            line[..|timestamp| + 3 + |Progress(index, total)| + |msg|]
              == timestamp + " | " + Progress(index, total) + msg
  {
    var p := Prefix(timestamp, index, total, msg);
    JustifyPads(p, width);
  }

  /** `s` begins with `p`. */
  predicate BeginsWith(s: string, p: string) {
    |p| <= |s| && s[..|p|] == p
  }

  /** `line` ends with `tail` followed by the closing bracket. */
  predicate BracketHolds(line: string, tail: string) {
    |tail| + 1 <= |line| && line[|line| - |tail| - 1..|line| - 1] == tail
  }

  /** An untruncated line with a known execution time starts with the
      prefix and ends with `[<status> in <seconds>s]`. */
  lemma TimedLineShape(
    msg: string, status: string, index: Option<int>, total: Option<int>,
    secs: string, timestamp: string, width: int)
    ensures var line := FancyOutputLine(msg, status, index, total, Some(secs), false, timestamp, width);
            var head := timestamp + " | " + Progress(index, total) + msg;
            var tail := status + " in " + secs + "s";
            && |head| + |tail| + 3 <= |line|
            && BeginsWith(line, head)
            && BracketHolds(line, tail)
  {
    FancyOutputLineStartsWithPrefix(msg, status, index, total, Some(secs), timestamp, width);
    FancyOutputLineLayout(msg, status, index, total, Some(secs), false, timestamp, width);
    JustifyPads(Prefix(timestamp, index, total, msg), width);
  }

  /** `print_test_result_line`: `<label> <node name>` with the label as the
      status; an unexpected status is raised before anything is printed. */
  function TestResultLine(result: RunResult, index: int, total: int, timestamp: string, width: int)
    : (line: Result<string, Status>)
    ensures line.Ok? <==> result.status in {Error, Pass, Warn, Fail}
    ensures line.Err? ==> line.error == result.status
  {
    match TestStatusLabel(result.status, result.failures)
    case Err(s) => Err(s)
    case Ok(l) =>
      Ok(FancyOutputLine(l.info + " " + result.node.name, l.info, Some(index), Some(total),
                         Some(result.executionTime), false, timestamp, width))
  }

  /** A printed test line reads `<timestamp> | <index> of <total> <label> <node name>`
      and its bracket holds the label and the execution time. */
  lemma TestResultLineShape(result: RunResult, index: int, total: int, timestamp: string, width: int)
    requires TestResultLine(result, index, total, timestamp, width).Ok?
    ensures var line := TestResultLine(result, index, total, timestamp, width).value;
            var info := TestStatusLabel(result.status, result.failures).value.info;
            var head := timestamp + " | " + Progress(Some(index), Some(total)) + info + " " + result.node.name;
            var tail := info + " in " + result.executionTime + "s";
            && BeginsWith(line, head)
            && BracketHolds(line, tail)
  {
    var info := TestStatusLabel(result.status, result.failures).value.info;
    var msg := info + " " + result.node.name;
    var progress := Progress(Some(index), Some(total));
    assert timestamp + " | " + progress + info + " " + result.node.name == timestamp + " | " + progress + msg;
    assert TestResultLine(result, index, total, timestamp, width).value
        == FancyOutputLine(msg, info, Some(index), Some(total), Some(result.executionTime), false, timestamp, width);
    TimedLineShape(msg, info, Some(index), Some(total), result.executionTime, timestamp, width);
  }

  /** A source freshness result: either it has a node, which names the
      source and table, or it carries the two names itself. */
  datatype SourceNode = SourceNode(sourceName: string, name: string)
  datatype FreshnessResult = FreshnessResult(
    status: Status,
    node: Option<SourceNode>,
    sourceName: string,
    tableName: string,
    executionTime: string)

  /** The source and table a freshness result is about: the node's when it
      has one, otherwise the result's own. */
  function FreshnessTarget(result: FreshnessResult): (names: (string, string))
    ensures result.node.Some? ==> names == (result.node.value.sourceName, result.node.value.name)
    ensures result.node.None? ==> names == (result.sourceName, result.tableName)
  {
    match result.node
    case Some(n) => (n.sourceName, n.name)
    case None => (result.sourceName, result.tableName)
  }

  /** `print_freshness_result_line`: every status has a label, so every
      result gets a line, whose message is `<label> freshness of
      <source>.<table>` and whose bracket holds the label and the time. The
      logging level the source picks per status is not modelled. */
  function FreshnessResultLine(result: FreshnessResult, index: int, total: int, timestamp: string, width: int)
    : (line: string)
    ensures |line| >= 3 && line[|line| - 1] == ']'
    ensures BracketHolds(line, FreshnessStatusLabel(result.status).info + " in " + result.executionTime + "s")
  {
    var info := FreshnessStatusLabel(result.status).info;
    var (source, table) := FreshnessTarget(result);
    var msg := info + " freshness of " + source + "." + table;
    TimedLineShape(msg, info, Some(index), Some(total), result.executionTime, timestamp, width);
    FancyOutputLine(msg, info, Some(index), Some(total), Some(result.executionTime), false, timestamp, width)
  }

  /** A printed freshness line reads `<timestamp> | <index> of <total> <label>
      freshness of <source>.<table>`, naming the node's source and table when
      there is a node, and its bracket holds the label and the execution time. */
  lemma FreshnessResultLineShape(result: FreshnessResult, index: int, total: int, timestamp: string, width: int)
    ensures var line := FreshnessResultLine(result, index, total, timestamp, width);
            var info := FreshnessStatusLabel(result.status).info;
            var (source, table) := FreshnessTarget(result);
            var msg := info + " freshness of " + source + "." + table;
            var head := timestamp + " | " + Progress(Some(index), Some(total)) + msg;
            var tail := info + " in " + result.executionTime + "s";
            && BeginsWith(line, head)
            && BracketHolds(line, tail)
  {
    var info := FreshnessStatusLabel(result.status).info;
    var (source, table) := FreshnessTarget(result);
    var msg := info + " freshness of " + source + "." + table;
    TimedLineShape(msg, info, Some(index), Some(total), result.executionTime, timestamp, width);
  }
}
