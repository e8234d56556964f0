# dbt tarball packages and run-result printing, in Dafny

This project models two small pure parts of dbt-core.

1. **The tarball package source** of the dependency layer (`core/dbt/deps/tarball.py`).
   A `packages.yml` entry `{tarball, name, version}` becomes an unpinned package.
   Merging it with another declaration of the same tarball keeps the first one.
   Pinning copies its fields into a pinned package. The pinned package then yields
   registry-style metadata, whose name is `package.version` or just `package`, and
   the archive file name `package.version.tar.gz` that the installer downloads into.
   Identity changes with pinning. An unpinned package is named by its tarball
   reference. A pinned package is named by its package name.
2. **The run-result printer** (`core/dbt/task/printer.py`). This covers:
   - how a node status maps to a status-line counter;
   - the counters of the status line;
   - the split of a run into the errors and warnings of the end-of-run summary;
   - the labels on test and freshness lines;
   - the layout of one result line (timestamp, `i of n`, dot padding or `...` truncation, `[status in t s]`);
   - the events reported for a failed or warned result.

Modules:

- `Wrappers`: optional values and results. `Err` stands for a raised exception.
- `Text`: the Python string operations used. These are `ljust`, `s[:n]` with negative `n`, `split` on one character, `join` and `str(int)`. They come with round-trip lemmas.
- `Tarball`: the package records and their operations.
- `RunStatus`: the status enum, bucketing, the tally, the end-of-run partition and the labels.
- `Layout`: the text of a result line, plus the test and freshness line printers.
- `ResultErrors`: the event sequences of `print_run_result_error` and `print_run_end_messages`.

Values are immutable, so "does not mutate the unpinned package" holds by construction.
Determinism ("two calls give equal results") also holds by construction, because every operation is a function.
Packages are modelled as records and compared field by field. `tarball.py` defines no `__eq__`, so in Python `==` on two package objects compares identity; the merge and pinning lemmas state equality of fields.

The timestamp, the printer width and the formatted execution-time text are parameters.
Colours are kept as a tag on the label. The coloured text is the label text itself.

The repository's unit tests (`test/unit/test_deps.py:54-196`) exercise a checksum (`sha1`), a `subdirectory` and an archive size ceiling (`TARFILE_MAX_SIZE`) for tarball packages.
`core/dbt/deps/tarball.py` defines none of these, so the model follows that file and none is modelled.

## Model

| member | source | states |
|---|---|---|
| Tarball.FromContract | core/dbt/deps/tarball.py:122-128 | the declaration's tarball, name and version become the unpinned package's tarball, package and version; its identity is the tarball reference |
| Tarball.UnpinnedPackage.Incorporate | core/dbt/deps/tarball.py:130-133 | the merged package has exactly `self`'s tarball, package and version |
| Tarball.IncorporateIgnoresOther | core/dbt/deps/tarball.py:130-133 | the merge gives the same package for any `other`; merging again or merging with itself changes nothing |
| Tarball.UnpinnedPackage.Resolved | core/dbt/deps/tarball.py:135-138 | the pinned package has the unpinned package's tarball, package and version |
| Tarball.ResolvedAfterIncorporate | core/dbt/deps/tarball.py:130-138 | pinning a merge gives the same pinned package as pinning `self`; the pinned version is the declared one |
| Tarball.ContractToPinned | core/dbt/deps/tarball.py:122-138 | a declaration reaches the pinned package unchanged; the pinned name is the declared name, and the install downloads from the declared tarball |
| Tarball.IdentityAcrossPinning | core/dbt/deps/tarball.py:16-38 | unpinned name = tarball, pinned name = package, the two agree iff tarball = package, and the source kind is `tarball` for both |
| Tarball.GetVersion | core/dbt/deps/tarball.py:40-41 | the stored version is returned unchanged, including a missing one |
| Tarball.NiceVersionName | core/dbt/deps/tarball.py:43-44 | `version ` followed by the text of the version, with `None` for a missing one |
| Tarball.MetadataName | core/dbt/deps/tarball.py:53-56 | the name always starts with the package; when the version is present and non-empty, a dot and exactly the version follow, otherwise nothing does |
| Tarball.FetchMetadata | core/dbt/deps/tarball.py:46-64 | the metadata has that name, an empty package list, and the tarball reference as its download URL |
| Tarball.TarName | core/dbt/deps/tarball.py:76 | the archive name is the package, a dot, the version text and `.tar.gz`, in that order; a missing version is written `None` |
| Tarball.TarNameMatchesMetadataIffTruthy | core/dbt/deps/tarball.py:53-76 | the archive name equals the metadata name plus `.tar.gz` iff the version is truthy |
| Tarball.Install | core/dbt/deps/tarball.py:74-87 | the install downloads from the metadata's URL, which is the tarball reference; it writes the archive name and allows 5 attempts |
| Text.LJust | core/dbt/task/printer.py:40 | padding keeps the string as a prefix, fills with the pad character, and has length max(len, width) |
| Text.SliceTo | core/dbt/task/printer.py:42 | Python `s[:n]`: the first n characters, clamped, and counted from the end for negative n |
| Text.Split | core/dbt/task/printer.py:295 | splitting on `\n` gives one more piece than there are newlines, and no piece contains a newline |
| Text.JoinSplit | core/dbt/task/printer.py:295 | joining the pieces of a split with the separator gives the original string |
| Text.SplitJoin | core/dbt/task/printer.py:295 | splitting a join of separator-free pieces gives the pieces back |
| Text.IntToStringRoundTrip | core/dbt/task/printer.py:33 | the decimal text of an integer reads back as that integer |
| RunStatus.InterpretRunResult | core/dbt/task/printer.py:229-239 | error/fail → error, skipped → skip, warn → warn, pass/success → pass, each an iff; a runtime error is raised with the result |
| RunStatus.RunStatusLine | core/dbt/task/printer.py:242-256 | the tally succeeds iff no result is a runtime error; then total = number of results = error+skip+pass+warn, and each counter counts its bucket; otherwise it stops at the first runtime error |
| RunStatus.BucketsCoverResults | core/dbt/task/printer.py:251-254 | handled results fall into exactly one bucket each, so the four bucket counts sum to the number of results |
| RunStatus.PartitionRunEnd | core/dbt/task/printer.py:313-327 | errors are the runtime-error/error/fail results and the skips with a message; warnings are the warn results; both keep run order |
| RunStatus.RunEndPartitionShape | core/dbt/task/printer.py:313-327 | both lists are order-preserving subsequences of the run, hold only results of their kind, and share no result |
| RunStatus.RunEndCountsAgreeWithTally | core/dbt/task/printer.py:313-334 | the summary's warning count equals the warn counter; its error count is the error counter plus the runtime errors plus the skips with a message |
| RunStatus.TestStatusLabel | core/dbt/task/printer.py:112-129 | error → `ERROR`, pass → `PASS`, warn → `WARN <failures>`, fail → `FAIL <failures>`, with their colours; any other status raises |
| RunStatus.FailuresTextInjective | core/dbt/task/printer.py:120-125 | different failure counts, a missing count included, print as different texts |
| RunStatus.TestLabelDeterminesStatus | core/dbt/task/printer.py:112-129 | equal test labels mean equal statuses and, for warn and fail, equal failure counts |
| RunStatus.FreshnessStatusLabel | core/dbt/task/printer.py:193-208 | runtime error → `ERROR`, error → `ERROR STALE`, warn → `WARN`, any other status → `PASS`, each an iff |
| Layout.Progress | core/dbt/task/printer.py:30-33 | the progress text is empty iff the index or the total is missing |
| Layout.ProgressFields | core/dbt/task/printer.py:30-33 | the progress text splits on spaces into index, `of`, total and an empty tail, and both numbers read back |
| Layout.Prefix | core/dbt/task/printer.py:34-37 | the prefix is `timestamp \| `, then exactly the progress text, then the message |
| Layout.Justify | core/dbt/task/printer.py:39-42 | an untruncated text is at least `width` long and begins with the prefix; a truncated one with width ≥ 3 is exactly `width` long and ends in `...` |
| Layout.JustifyPads | core/dbt/task/printer.py:39-42 | without truncation the justified text has length max(len(prefix), width), starts with the prefix and has only dots after it |
| Layout.JustifyTruncates | core/dbt/task/printer.py:39-42 | with truncation and width ≥ 3 the justified text has length exactly width, ends in `...`, and keeps the first width−3 padded characters |
| Layout.StatusTime | core/dbt/task/printer.py:44-48 | the status time is empty iff no execution time is given |
| Layout.FancyOutputLine | core/dbt/task/printer.py:50-51 | the line ends with `]` |
| Layout.FancyOutputLineLayout | core/dbt/task/printer.py:44-51 | the line is the justified text, ` [`, the status and status time, then `]`, with matching length |
| Layout.FancyOutputLineStartsWithPrefix | core/dbt/task/printer.py:25-51 | an untruncated line begins with timestamp, ` \| `, progress and message |
| Layout.TimedLineShape | core/dbt/task/printer.py:25-51 | an untruncated timed line begins with the prefix and its bracket holds `<status> in <t>s` |
| Layout.TestResultLine | core/dbt/task/printer.py:107-137 | a test line is produced iff the status is error, pass, warn or fail; otherwise the status is raised |
| Layout.TestResultLineShape | core/dbt/task/printer.py:107-137 | a test line reads `<timestamp> \| i of n <label> <node name>` and its bracket holds the label and the time |
| Layout.FreshnessTarget | core/dbt/task/printer.py:210-215 | the source and table come from the node when the result has one, otherwise from the result itself |
| Layout.FreshnessResultLine | core/dbt/task/printer.py:192-226 | every status gets a line; it ends with `]` and its bracket holds the status label and ` in <t>s` |
| Layout.FreshnessResultLineShape | core/dbt/task/printer.py:192-226 | a freshness line reads `<label> freshness of <source>.<table>` after the progress, using the node's names when there is a node, and its bracket holds the label and the time |
| ResultErrors.HeadedEvents | core/dbt/task/printer.py:266-291 | the headed block opens with a warning heading iff warnings are asked for (a failure heading otherwise), naming the node's resource type, name and original file path; then the message, or a no-message event when the message is empty or missing; then a blank line and the compiled path iff there is a build path, and a blank line and the failures relation last iff failures are stored; nothing else |
| ResultErrors.RunResultErrorEvents | core/dbt/task/printer.py:259-300 | a blank line first iff `newline`; then the headed block for a failure (or a warning when asked), else one event per message line when there is a message, else nothing |
| ResultErrors.LineEventsRecoverMessage | core/dbt/task/printer.py:293-300 | line-by-line reporting emits newlines+1 events, a first-line event then after-first events, whose texts joined by `\n` give the message back |
| ResultErrors.HeadedEventsHaveOneHeading | core/dbt/task/printer.py:266-291 | a headed block has its heading only first and never uses line-by-line events |
| ResultErrors.LineEvents | core/dbt/task/printer.py:294-300 | one event per line; the first is a first-line event, the rest are after-first events, in order |
| ResultErrors.RunEndMessages | core/dbt/task/printer.py:313-342 | a blank line, the summary with the partition's counts, the error blocks, the warning blocks, then, iff no result is a runtime error, a status line whose error, skip, pass and warn counters count their buckets and whose total is the number of results; the first runtime error in run order is returned after the reports |

## Left out

- Download and install I/O (`core/dbt/deps/tarball.py:77-107`): directory creation, the download, the untar, and the retry wrapper. The wrapper's code is not part of this model. Only the attempt count 5 is kept.
- `get_downloads_path`, `get_project_name`, the caching `fetch_metadata` of the base class, and `RegistryPackageMetadata.from_dict` validation: their code is not part of this model. `from_dict` is taken to accept the dictionary as built.
- Checksums, archive size limits, subdirectories and package-root discovery: no code for them exists in `core/dbt/deps/tarball.py`.
- Git, local and registry packages, version constraints and the resolver: no code for them is part of this model.
- Printer side effects: `fire_event`, `TextOnly`, `DbtStatusMessage` and `InvocationProcessor` are not modelled. Events are returned as values instead.
- `get_timestamp` and `ui.printer_width` are parameters.
- `ui.red`, `ui.green` and `ui.yellow` are modelled as a colour tag. The text is left unchanged.
- Layout.StatusTime: the `{:0.2f}` float formatting is not modelled. The seconds text is a parameter, and only the ` in <t>s` framing is modelled.
- `logger_fn` and the functions that choose it (`get_printable_result`, `print_model_result_line`, `print_seed_result_line`, `print_snapshot_result_line`, `print_skip_caused_by_error`): they read an undefined `logger`. The snapshot line also formats with an unseen config dictionary.
- Layout.TestResultLine and Layout.FreshnessResultLine: `print_test_result_line` and `print_freshness_result_line` also read the undefined `logger` (`core/dbt/task/printer.py:115-127` and `196-208`), so as written the test printer raises `NameError` for error, pass, warn and fail. Every other status raises the `RuntimeError` at `core/dbt/task/printer.py:129`, which the model returns as `Err`. The freshness printer raises `NameError` for every status. The model assumes `logger` resolves and shows the intended output. The logging level is not modelled.
- `get_counts`: it reads an undefined `NodeType` and the unseen `utils.pluralize`.
- `print_start_line`, `print_hook_start_line` and `print_hook_end_line`: each only fires one event with its arguments.
- `core/dbt/task/serve.py`: an HTTP server, which is I/O only.
- Layout.FancyOutputLine: with truncation and a width below 3, the line follows Python's negative slicing. The layout lemmas state nothing about that case.
