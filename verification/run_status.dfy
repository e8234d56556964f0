/** Classification of run results by status, as the end-of-run printer does
    it: the bucket each status counts in, the tally of a whole run, the split
    of a run into the errors and warnings reported in the summary, and the
    labels shown on test and freshness result lines. */
module RunStatus {
  import opened Wrappers
  import Text

  /** Node, test and freshness statuses share these values. */
  datatype Status = Success | Error | Fail | Warn | Skipped | Pass | RuntimeErr

  /** The parts of a graph node the printer reads. */
  datatype Node = Node(
    name: string,
    resourceType: string,
    originalFilePath: string,
    buildPath: Option<string>,
    compiledPath: Option<string>,
    shouldStoreFailures: bool,
    relationName: Option<string>)

  /** One node's result; `executionTime` is the already formatted seconds text. */
  datatype RunResult = RunResult(
    status: Status,
    message: Option<string>,
    node: Node,
    failures: Option<int>,
    executionTime: string)

  /** The counter of the status line a result is added to. */
  datatype Bucket = ErrorBucket | SkipBucket | WarnBucket | PassBucket

  /** The counters of the status line. */
  datatype Stats = Stats(error: nat, skip: nat, pass: nat, warn: nat, total: nat)

  /** `interpret_run_result`: the bucket of a result, or the result itself as
      the unhandled case the source raises on. */
  function InterpretRunResult(r: RunResult): (b: Result<Bucket, RunResult>)
    ensures b == Ok(ErrorBucket) <==> r.status == Error || r.status == Fail
    ensures b == Ok(SkipBucket) <==> r.status == Skipped
    ensures b == Ok(WarnBucket) <==> r.status == Warn
    ensures b == Ok(PassBucket) <==> r.status == Pass || r.status == Success
    ensures b.Err? <==> r.status == RuntimeErr
    ensures b.Err? ==> b.error == r
  {
    match r.status
    case Error => Ok(ErrorBucket)
    case Fail => Ok(ErrorBucket)
    case Skipped => Ok(SkipBucket)
    case Warn => Ok(WarnBucket)
    case Pass => Ok(PassBucket)
    case Success => Ok(PassBucket)
    case RuntimeErr => Err(r)
  }

  /** A result whose status the status line cannot classify. */
  predicate IsUnhandled(r: RunResult) {
    r.status == RuntimeErr
  }

  /** No result of `rs` is one the status line cannot classify. */
  predicate AllHandled(rs: seq<RunResult>) {
    forall i :: 0 <= i < |rs| ==> !IsUnhandled(rs[i])
  }

  /** How many results of `rs` fall into bucket `b`. */
  function CountBucket(rs: seq<RunResult>, b: Bucket): nat
  {
    if |rs| == 0 then 0
    else CountBucket(rs[..|rs| - 1], b) + (if InterpretRunResult(rs[|rs| - 1]) == Ok(b) then 1 else 0)
  }

  /** Every handled result falls into exactly one bucket, so the four counts
      add up to the number of results. */
  lemma {:induction false} BucketsCoverResults(rs: seq<RunResult>)
    requires AllHandled(rs)
    ensures CountBucket(rs, ErrorBucket) + CountBucket(rs, SkipBucket)
            + CountBucket(rs, PassBucket) + CountBucket(rs, WarnBucket) == |rs|
  {
    if |rs| > 0 {
      var init := rs[..|rs| - 1];
      assert AllHandled(init) by {
        forall i | 0 <= i < |init| ensures init[i].status != RuntimeErr {
          assert init[i] == rs[i];
        }
      }
      BucketsCoverResults(init);
      assert rs[|rs| - 1].status != RuntimeErr;
    }
  }

  /** The tally of `print_run_status_line`: all counters start at zero, and
      each result adds one to its bucket and one to the total; the first
      unhandled result aborts the tally. */
  method RunStatusLine(results: seq<RunResult>) returns (r: Result<Stats, RunResult>)
    ensures r.Ok? <==> AllHandled(results)
    ensures r.Ok? ==> r.value.total == |results|
    ensures r.Ok? ==> r.value.total == r.value.error + r.value.skip + r.value.pass + r.value.warn
    ensures r.Ok? ==> r.value.error == CountBucket(results, ErrorBucket)
    ensures r.Ok? ==> r.value.skip == CountBucket(results, SkipBucket)
    ensures r.Ok? ==> r.value.pass == CountBucket(results, PassBucket)
    ensures r.Ok? ==> r.value.warn == CountBucket(results, WarnBucket)
    ensures r.Err? ==> exists i :: 0 <= i < |results| && results[i] == r.error
                                   && r.error.status == RuntimeErr && AllHandled(results[..i])
  {
    var stats := Stats(0, 0, 0, 0, 0);
    var i := 0;
    while i < |results|
      invariant 0 <= i <= |results|
      invariant AllHandled(results[..i])
      invariant stats.total == i
      invariant stats.total == stats.error + stats.skip + stats.pass + stats.warn
      invariant stats.error == CountBucket(results[..i], ErrorBucket)
      invariant stats.skip == CountBucket(results[..i], SkipBucket)
      invariant stats.pass == CountBucket(results[..i], PassBucket)
      invariant stats.warn == CountBucket(results[..i], WarnBucket)
    {
      var b := InterpretRunResult(results[i]);
      if b.Err? {
        return Err(results[i]);
      }
      match b.value {
        case ErrorBucket => stats := stats.(error := stats.error + 1);
        case SkipBucket => stats := stats.(skip := stats.skip + 1);
        case PassBucket => stats := stats.(pass := stats.pass + 1);
        case WarnBucket => stats := stats.(warn := stats.warn + 1);
      }
      stats := stats.(total := stats.total + 1);
      assert results[..i + 1][..i] == results[..i];
      i := i + 1;
    }
    assert results[..i] == results;
    r := Ok(stats);
  }

  /** A skip that carries a message. */
  predicate IsSkipWithMessage(r: RunResult) {
    r.status == Skipped && r.message.Some?
  }

  /** A result reported as an error at the end of a run: a runtime error,
      error or failure, or a skip that carries a message (a node skipped
      because of a problem upstream). */
  predicate IsRunEndError(r: RunResult) {
    r.status in {RuntimeErr, Error, Fail} || IsSkipWithMessage(r)
  }

  /** A result reported as a warning at the end of a run. */
  predicate IsRunEndWarning(r: RunResult) {
    r.status == Warn
  }

  /** The elements of `s` that satisfy `p`, in their original order. */
  function Filter<T>(p: T -> bool, s: seq<T>): (f: seq<T>)
    ensures |f| <= |s|
    ensures forall i :: 0 <= i < |f| ==> p(f[i])
  {
    if |s| == 0 then []
    else Filter(p, s[..|s| - 1]) + (if p(s[|s| - 1]) then [s[|s| - 1]] else [])
  }

  /** `a` can be obtained from `b` by deleting elements. */
  predicate SubsequenceOf<T(==)>(a: seq<T>, b: seq<T>)
    decreases |b|
  {
    if |a| == 0 then true
    else if |b| == 0 then false
    else if a[|a| - 1] == b[|b| - 1] then SubsequenceOf(a[..|a| - 1], b[..|b| - 1])
    else SubsequenceOf(a, b[..|b| - 1])
  }

  /** A filter keeps the relative order of what it keeps. */
  lemma {:induction false} FilterIsSubsequence<T>(p: T -> bool, s: seq<T>)
    ensures SubsequenceOf(Filter(p, s), s)
  {
    if |s| > 0 {
      var init := s[..|s| - 1];
      var last := s[|s| - 1];
      var f := Filter(p, init);
      FilterIsSubsequence(p, init);
      if p(last) {
        assert Filter(p, s) == f + [last];
        assert (f + [last])[..|f|] == f;
      } else {
        assert Filter(p, s) == f;
        if |f| > 0 {
          assert p(f[|f| - 1]);
          assert f[|f| - 1] != last;
        }
      }
    }
  }

  /** The error/warning split of `print_run_end_messages`, keeping run order. */
  method PartitionRunEnd(results: seq<RunResult>) returns (errors: seq<RunResult>, warnings: seq<RunResult>)
    ensures errors == Filter(IsRunEndError, results)
    ensures warnings == Filter(IsRunEndWarning, results)
  {
    errors, warnings := [], [];
    var i := 0;
    while i < |results|
      invariant 0 <= i <= |results|
      invariant errors == Filter(IsRunEndError, results[..i])
      invariant warnings == Filter(IsRunEndWarning, results[..i])
    {
      var r := results[i];
      if r.status == RuntimeErr || r.status == Error || r.status == Fail {
        errors := errors + [r];
      } else if r.status == Skipped && r.message.Some? {
        errors := errors + [r];
      } else if r.status == Warn {
        warnings := warnings + [r];
      }
      assert results[..i + 1][..i] == results[..i];
      i := i + 1;
    }
    assert results[..i] == results;
  }

  /** The two lists of the end-of-run summary are order-preserving
      subsequences of the run, hold only what they should, and share no
      result. */
  lemma RunEndPartitionShape(results: seq<RunResult>)
    ensures SubsequenceOf(Filter(IsRunEndError, results), results)
    ensures SubsequenceOf(Filter(IsRunEndWarning, results), results)
    ensures forall r :: r in Filter(IsRunEndError, results) ==> IsRunEndError(r)
    ensures forall r :: r in Filter(IsRunEndWarning, results) ==> r.status == Warn
    ensures forall r :: r in Filter(IsRunEndError, results) ==> r !in Filter(IsRunEndWarning, results)
  {
    FilterIsSubsequence(IsRunEndError, results);
    FilterIsSubsequence(IsRunEndWarning, results);
  }

  /** The summary's counts against the status line's: warnings are exactly
      the warn bucket; errors are the error bucket plus the unhandled results
      plus the skips that carry a message. */
  lemma {:induction false} RunEndCountsAgreeWithTally(rs: seq<RunResult>)
    ensures |Filter(IsRunEndWarning, rs)| == CountBucket(rs, WarnBucket)
    ensures |Filter(IsRunEndError, rs)|
            == CountBucket(rs, ErrorBucket) + |Filter(IsUnhandled, rs)| + |Filter(IsSkipWithMessage, rs)|
  {
    if |rs| > 0 {
      RunEndCountsAgreeWithTally(rs[..|rs| - 1]);
    }
  }

  /** The colour the printer wraps a label in. */
  datatype Colour = Red | Green | Yellow

  /** The text shown for a result and the colour it is shown in. */
  datatype Label = Label(info: string, colour: Colour)

  /** Python's `str()` of an optional failure count. */
  function FailuresText(f: Option<int>): string
  {
    match f
    case Some(n) => Text.IntToString(n)
    case None => "None"
  }

  /** The label of `print_test_result_line`; any status other than error,
      pass, warn and fail is the unexpected status the source raises on. */
  function TestStatusLabel(status: Status, failures: Option<int>): (l: Result<Label, Status>)
    ensures l.Ok? <==> status in {Error, Pass, Warn, Fail}
    ensures l.Err? ==> l.error == status
    ensures status == Error ==> l == Ok(Label("ERROR", Red))
    ensures status == Pass ==> l == Ok(Label("PASS", Green))
    ensures status == Warn ==> l == Ok(Label("WARN " + FailuresText(failures), Yellow))
    ensures status == Fail ==> l == Ok(Label("FAIL " + FailuresText(failures), Red))
  {
    match status
    case Error => Ok(Label("ERROR", Red))
    case Pass => Ok(Label("PASS", Green))
    case Warn => Ok(Label("WARN " + FailuresText(failures), Yellow))
    case Fail => Ok(Label("FAIL " + FailuresText(failures), Red))
    case _ => Err(status)
  }

  /** Different failure counts print differently: the text of a count is
      never `None` and reads back as the count. */
  lemma FailuresTextInjective(f1: Option<int>, f2: Option<int>)
    requires FailuresText(f1) == FailuresText(f2)
    ensures f1 == f2
  {
    if f1.Some? {
      Text.IntToStringRoundTrip(f1.value);
    }
    if f2.Some? {
      Text.IntToStringRoundTrip(f2.value);
    }
    assert !Text.IsDigits("None") by {
      assert "None"[0] == 'N';
    }
  }

  /** A test label names its status: equal label texts mean equal statuses,
      and a warn or fail label carries the failure count after its first
      five characters, so equal labels also mean equal failure counts. */
  lemma TestLabelDeterminesStatus(s1: Status, f1: Option<int>, s2: Status, f2: Option<int>)
    requires TestStatusLabel(s1, f1).Ok? && TestStatusLabel(s2, f2).Ok?
    requires TestStatusLabel(s1, f1).value.info == TestStatusLabel(s2, f2).value.info
    ensures s1 == s2
    ensures (s1 == Warn || s1 == Fail) ==> FailuresText(f1) == FailuresText(f2)
    ensures (s1 == Warn || s1 == Fail) ==> f1 == f2
  {
    var i1 := TestStatusLabel(s1, f1).value.info;
    var i2 := TestStatusLabel(s2, f2).value.info;
    assert i1[0] == i2[0] && i1[1] == i2[1];
    if s1 == Warn || s1 == Fail {
      assert i1[5..] == FailuresText(f1);
      assert i2[5..] == FailuresText(f2);
      FailuresTextInjective(f1, f2);
    }
  }

  /** The label of `print_freshness_result_line`: a runtime error is `ERROR`,
      an error is `ERROR STALE`, a warning is `WARN`, and anything else passes. */
  function FreshnessStatusLabel(status: Status): (l: Label)
    ensures status == RuntimeErr <==> l == Label("ERROR", Red)
    ensures status == Error <==> l == Label("ERROR STALE", Red)
    ensures status == Warn <==> l == Label("WARN", Yellow)
    ensures status !in {RuntimeErr, Error, Warn} <==> l == Label("PASS", Green)
  {
    match status
    case RuntimeErr => Label("ERROR", Red)
    case Error => Label("ERROR STALE", Red)
    case Warn => Label("WARN", Yellow)
    case _ => Label("PASS", Green)
  }
}
