# qtc-cppcheck run coordinator, in Dafny

This project models `CppcheckRunner`, the part of the Qt Creator cppcheck
plugin that decides when the `cppcheck` tool runs, on which files and with
which arguments, and what its output means. Editor events put files on a
queue. A single-shot timer or the end of a run dispatches the queue as one
batch. The dispatcher sizes the command and passes files and include paths
either inline or through two list files. The tool's stderr lines become
diagnostics, and its stdout lines ending in `% done` become progress values.

The model has these modules:

- `QtStrings` gives the Qt string operations the runner relies on:
  - `split` keeps empty parts, and `SkipEmptyParts` drops them;
  - `join` with a one-character separator;
  - `trimmed`, with `QChar::isSpace`;
  - `indexOf` and `lastIndexOf`;
  - `mid`;
  - `QString::number`;
  - `toInt`, which trims, takes an optional sign and decimal digits, checks the 32-bit range, and gives 0 on failure.
- `StringLists` gives `QStringList::removeDuplicates` and `sort` (lexicographic order on characters). Applied one after the other, they yield the canonical listing of a set of files.
- `Arguments` builds the run arguments in `updateSettings`, including the `--enable` override loop. It also covers the include flags, the contents of the two list files and the sizing rule of `checkQueuedFiles`.
- `OutputParser` holds the per-line work of `readError` (one diagnostic per template line) and of `readOutput` (one progress value per `% done` line).
- `Runner` holds the runner class:
  - The `State` datatype lists its fields, and each event has a step function on `State`.
  - The class `CppcheckRunner` has those fields. Each method is proved to change them exactly as its step function says. The reading methods are proved to return what the parsing functions give for the lines read.
- `RunnerProperties` proves what the runner guarantees over its step functions, including over sequences of events.

The process is an `open` flag. Each kill the runner asks for is a returned
`kill` flag, and each process start is a returned `Invocation`. The
single-shot timer is a count of scheduled firings that have not yet arrived.
The process's finished signal runs `finished` and then `checkQueuedFiles`
(src/CppcheckRunner.cpp:47-52), and `ProcessFinished` models exactly that.

Behaviours the code has as written are modelled as written:

- **The override loop never finds anything.** The `--enable` override loop runs on a list that has just been cleared, so no earlier `--enable` survives.
- **Progress needs show-output.** `readOutput` returns before reading when output is not shown, so progress is reported only in that case (src/CppcheckRunner.cpp:187-189).
- **A bad percentage is reported as 0.** A percentage that does not parse is still reported, with the value 0 (src/CppcheckRunner.cpp:203-204).
- **A failed start is not retried.** A failed start closes the process through `finished` and does not dispatch the queue.
- **The timer guard never holds.** `singleShot` is a static call, so the `isActive` guard is always false, and every idle `checkFiles` schedules another firing. The consequence is proved in `RunnerProperties.SecondFiringWhileRunning`:
  - two idle requests followed by a request made while a run is open lead to a start requested on an open process;
  - after that run finishes, nothing is left in the queue.
- **The list-file cache looks only at the files.** The cache is keyed on the batch alone and is updated before the files are opened. After a failed open, the same batch is started against empty list files.
- **`-j N` is one argument.** It is a single element that contains a space (src/CppcheckRunner.cpp:82-83).

## Model

| member | source | states |
|---|---|---|
| Runner.ArgumentLimit | src/CppcheckRunner.cpp:28-36 | the command-length limit is at least 32000; on Linux it is the getconf value when that exceeds 32000, otherwise 32000; elsewhere it is 32767 |
| Runner.CppcheckRunner.constructor | src/CppcheckRunner.cpp:25-53 | the runner starts with every list empty, no output flags, no progress handle, the process closed, no pending firing, and the limit from `ArgumentLimit` |
| Runner.CppcheckRunner.UpdateSettings | src/CppcheckRunner.cpp:64-90 | the output flags are copied from the settings, and the run arguments become exactly `RunArguments` of the settings and thread count; the override loop runs on the cleared list; nothing else changes and the state stays well formed |
| Runner.CppcheckRunner.SetIncludePaths | src/CppcheckRunner.cpp:92-98 | the include list is replaced by one `-I` flag per path, in order; nothing else changes |
| Runner.CppcheckRunner.CheckFiles | src/CppcheckRunner.cpp:100-117 | for non-empty input, the new state is `CheckFilesNext` (merged canonical queue; one more pending firing only when no process is open) and the kill output is `CheckFilesKills` |
| Runner.CppcheckRunner.StopChecking | src/CppcheckRunner.cpp:119-124 | the queue is emptied, nothing else changes, and a kill is asked for exactly when the process is open |
| Runner.CppcheckRunner.CheckQueuedFiles | src/CppcheckRunner.cpp:126-184 | the new state and the requested start are exactly `DispatchStep` of the old state, the settings, the expanded custom parameters, the list files and the limit |
| Runner.CppcheckRunner.TimerFires | src/CppcheckRunner.cpp:114-116 | a pending firing is used up and the queue is dispatched as by `checkQueuedFiles` |
| Runner.CppcheckRunner.Started | src/CppcheckRunner.cpp:238-251 | a fresh progress handle exists and is running; nothing else changes |
| Runner.CppcheckRunner.ErrorOccurred | src/CppcheckRunner.cpp:253-261 | a failed start has the effect of `finished`; any other error changes nothing |
| Runner.CppcheckRunner.Finished | src/CppcheckRunner.cpp:263-272 | the process is closed and an existing progress handle is reported finished; nothing else changes |
| Runner.CppcheckRunner.ProcessFinished | src/CppcheckRunner.cpp:47-52 | the finished signal runs `finished` and then a dispatch, as `ProcessFinishedStep` states |
| Runner.CppcheckRunner.ReadOutput | src/CppcheckRunner.cpp:186-208 | the values reported are `ProgressReports` of the lines when output is shown and a progress handle exists, and none otherwise |
| Runner.CppcheckRunner.ReadError | src/CppcheckRunner.cpp:210-236 | the diagnostics emitted are `ErrorDiagnostics` of the lines, with the runner's id flag and native separator, in input order |
| Runner.ErrorLines | src/CppcheckRunner.cpp:213-235 | the loop over the stderr lines collects, in order, exactly the diagnostics `ErrorDiagnostics` gives for those lines |
| Runner.MergeQueue | src/CppcheckRunner.cpp:102-104 | the merged queue is strictly sorted and holds exactly the files of the old queue and of the request; it is the canonical listing `SortedUnique` of the two |
| Runner.StripIncludePrefixes | src/CppcheckRunner.cpp:158-160 | the in-place loop leaves each include flag without its first two characters |
| Arguments.LastEnableIndex | src/CppcheckRunner.cpp:72-74 | the result is an index whose argument starts with `--enable`, and no later argument does; there is no result only when no argument does |
| Arguments.TakeEnableOverride | src/CppcheckRunner.cpp:72-77 | scanning from the end, the last `--enable` argument is taken out of the list and replaces the enable flag; without one, both are unchanged |
| Arguments.RunArgumentsEnable | src/CppcheckRunner.cpp:68-85 | the built list holds exactly one `--enable` argument, at position 0 with check-unused on and 1 otherwise, and it ends in `,unusedFunction` exactly when check-unused is on |
| Arguments.RunArgumentsThreads | src/CppcheckRunner.cpp:78-84 | the first argument is the single `-j N` element exactly when check-unused is off, and its count reads back as the thread count |
| Arguments.RunArgumentsLayout | src/CppcheckRunner.cpp:78-89 | the list has one, two or three flags plus the template flag; the template flag is last, and `--inconclusive` appears exactly when configured |
| Arguments.ThreadFlagRoundTrip | src/CppcheckRunner.cpp:82-83 | `-j ` followed by `QString::number(n)` reads back as n for every 32-bit n |
| Arguments.IncludeFlags | src/CppcheckRunner.cpp:92-97 | one flag per path; every flag starts with `-I`; dropping the first two characters of each, as the include list is written, gives back exactly the paths |
| Arguments.IncludeListRoundTrip | src/CppcheckRunner.cpp:158-163 | for non-empty paths without newlines, splitting the include list text on newlines gives the paths |
| Arguments.FileListRoundTrip | src/CppcheckRunner.cpp:154-156 | for a non-empty batch without newlines, splitting the file list text on newlines gives the batch |
| Arguments.CommandArgumentsShape | src/CppcheckRunner.cpp:144-177 | the final command keeps the given arguments as its prefix; below the limit the rest is the files and then the includes, and at or above it the rest is exactly `--file-list=` and `--includes-file=` with the two names |
| Arguments.InlineCommandLength | src/CppcheckRunner.cpp:144-147 | an inline command, joined with spaces, is the compared sum plus at most the two spaces the comparison leaves out, so it stays below the limit plus two |
| OutputParser.FromNativeSeparators | src/CppcheckRunner.cpp:226 | the length is kept and so is every character other than the native separator; a character becomes or stays `/` exactly where the path has the native separator or `/`; no native separator survives unless it is `/`, and a path without one is returned unchanged |
| OutputParser.LineDiagnostics | src/CppcheckRunner.cpp:214-234 | one stderr line gives at most one diagnostic: exactly one when the trimmed line holds at least four commas (so none for a blank or short line), and that one is the trimmed line's parse |
| OutputParser.ParseErrorLine | src/CppcheckRunner.cpp:222-233 | a diagnostic's type is a Latin-1 character, its id is empty when ids are not shown, and its file holds no native separator other than `/`; the field values themselves are stated by `TemplateLineFields` |
| OutputParser.TemplateLineFields | src/CppcheckRunner.cpp:222-232 | for any message, a line whose four leading fields hold no comma gives a diagnostic whose type is the first character of the severity field, whose id is the id field only when ids are shown, whose file is the file field with normalised separators and whose line is the line field read by `toInt` |
| OutputParser.ParseErrorLineDefined | src/CppcheckRunner.cpp:222-225 | a trimmed line gives a diagnostic exactly when it holds at least four commas |
| OutputParser.MessageFromSuffix | src/CppcheckRunner.cpp:233 | when the message field occurs in the line, the description is the suffix of the line that starts at the field's first occurrence: it starts with the field, and the field occurs nowhere before it |
| OutputParser.MessageIsSuffix | src/CppcheckRunner.cpp:233 | a diagnostic's description is the suffix of its line that starts at the first occurrence of the line's fifth field, so commas inside messages are kept |
| OutputParser.EmptyMessageFieldGivesWholeLine | src/CppcheckRunner.cpp:233 | with an empty fifth field, the description is the whole line |
| OutputParser.SplitFields | src/CppcheckRunner.cpp:222 | a template line splits into its four comma-free leading fields followed by the pieces of the message |
| OutputParser.TemplateLineRoundTrip | src/CppcheckRunner.cpp:222-234 | a line written by the template flag parses back to the first character of its severity, its id only when ids are shown, its whole message, its file with normalised separators, and its line number read as an integer; this holds when the four leading fields have no comma and the message's first piece is non-empty and does not occur earlier |
| OutputParser.ErrorDiagnosticsAppend | src/CppcheckRunner.cpp:213-235 | reading two runs of lines emits the first run's diagnostics followed by the second's |
| OutputParser.LineProgress | src/CppcheckRunner.cpp:192-205 | one stdout line reports at most one value: exactly one when the trimmed line ends with `% done`, and that value is the line's `ProgressValue` |
| OutputParser.ProgressValue | src/CppcheckRunner.cpp:198-204 | a line gives a value exactly when it ends with `% done`, and the value is a 32-bit integer |
| OutputParser.PercentTextAfterSpace | src/CppcheckRunner.cpp:201-203 | for `<text> <digits>% done`, the slice read is the space and the digits |
| OutputParser.PercentTextNoSpace | src/CppcheckRunner.cpp:201-203 | with no space before `% done`, `lastIndexOf` finds none and `mid(-1, …)` reads the whole text before the marker |
| OutputParser.BareProgressRoundTrip | src/CppcheckRunner.cpp:198-204 | a line `N% done` with nothing before the number reports N for every 32-bit N |
| OutputParser.ProgressRoundTrip | src/CppcheckRunner.cpp:198-204 | a line `<text> N% done` reports N for every 32-bit N |
| OutputParser.ProgressExample | src/CppcheckRunner.cpp:198-204 | `Checking foo.cpp... 42% done` reports 42 |
| OutputParser.NonNumericPercentReportsZero | src/CppcheckRunner.cpp:203-204 | `garbage% done` is still reported, with the value 0 |
| StringLists.RemoveDuplicates | src/CppcheckRunner.cpp:103 | the result has no duplicates and the same files as the input |
| StringLists.Sort | src/CppcheckRunner.cpp:104 | the result is sorted and is a permutation of the input |
| StringLists.SortedUniqueCanonical | src/CppcheckRunner.cpp:102-104 | the deduplicated, sorted queue is strictly sorted, has the same files, and is the only list with both properties |
| StringLists.SortedUniqueMerge | src/CppcheckRunner.cpp:102-104 | merging into an already canonical queue gives the same queue as merging into the raw one |
| QtStrings.SplitCount | src/CppcheckRunner.cpp:222-223 | a line has one more field than it has commas |
| QtStrings.SplitSkipEmptyPieces | src/CppcheckRunner.cpp:137 | the custom parameters split without empty parts give non-empty pieces without spaces that together spell the parameters without their spaces |
| QtStrings.SplitSkipEmptyJoin | src/CppcheckRunner.cpp:137 | the split breaks at every separator and drops the empty pieces: joining any separator-free pieces, empty ones included, and splitting again gives exactly the non-empty pieces, in order |
| QtStrings.NonEmptyAppend | src/CppcheckRunner.cpp:137 | dropping the empty pieces works piecewise and keeps the order of the rest |
| QtStrings.SplitSkipEmptyExample | src/CppcheckRunner.cpp:137 | leading, doubled and trailing spaces give no pieces: ` a  b ` splits into `a` and `b` |
| QtStrings.SplitSkipEmptyWhole | src/CppcheckRunner.cpp:137 | a non-empty string without the separator is one piece |
| QtStrings.ToInt | src/CppcheckRunner.cpp:203 | `toInt` always gives a 32-bit value; text that parses reads as its value, and text that does not reads as 0 |
| QtStrings.IntToStringRoundTrip | src/CppcheckRunner.cpp:82-83 | `toInt` reads `QString::number(n)` back as n for every 32-bit n |
| RunnerProperties.CheckFilesQueue | src/CppcheckRunner.cpp:100-111 | after `checkFiles` the queue is strictly sorted and holds exactly the old queue's files and the new ones; a kill happens exactly when the process is open and the queue equals the running batch; a firing is scheduled exactly when no process is open; nothing else changes |
| RunnerProperties.CheckFilesOrderIndependent | src/CppcheckRunner.cpp:102-104 | the queue does not depend on the order in which two requests arrive |
| RunnerProperties.CheckFilesIdempotent | src/CppcheckRunner.cpp:102-104 | asking again for the same files leaves the queue unchanged |
| RunnerProperties.IdleChecksScheduleEachTime | src/CppcheckRunner.cpp:114-116 | two idle requests schedule two firings |
| RunnerProperties.DispatchMovesQueue | src/CppcheckRunner.cpp:126-142 | without a queue or a binary nothing happens. Otherwise the batch becomes the old queue, the queue is emptied and the configuration is kept. A start is requested for the binary, and opens the process, unless the list files were needed and could not be opened |
| RunnerProperties.DispatchArguments | src/CppcheckRunner.cpp:137-177 | a requested command starts with the space-split custom parameters and then the run arguments; it continues with the batch and then the includes below the limit, or with exactly the two list-file arguments at or above it |
| RunnerProperties.ListFilesRewrittenOnlyForNewBatch | src/CppcheckRunner.cpp:147-150 | the list files and their cache change only when a long command is dispatched for a batch other than the cached one, and the cache then records that batch |
| RunnerProperties.FileListContents | src/CppcheckRunner.cpp:153-156 | when the list files are written, the file list holds the batch, one file per line |
| RunnerProperties.IncludeListContents | src/CppcheckRunner.cpp:157-163 | when the list files are written with include paths in use, the include list holds the original paths, one per line, and is empty when there are none |
| RunnerProperties.IgnoredIncludesWriteEmptyList | src/CppcheckRunner.cpp:139-163 | when include paths are ignored, the written include list is empty |
| RunnerProperties.FailedListFilesDropBatch | src/CppcheckRunner.cpp:148-169 | when the list files cannot be opened, nothing starts, the queue and both files are empty, and the cache records the batch |
| RunnerProperties.StaleListFilesAfterFailedOpen | src/CppcheckRunner.cpp:148-150 | after a failed open, the same batch queued again is started against the empty list files without rewriting them |
| RunnerProperties.FinishedCloses | src/CppcheckRunner.cpp:263-272 | `finished` closes the process and reports an existing handle finished; nothing else changes |
| RunnerProperties.FailedStartKeepsQueue | src/CppcheckRunner.cpp:258-260 | a failed start acts as `finished`, leaving the queue as it is without dispatching it; other errors change nothing |
| RunnerProperties.ExtraFiringDoesNothing | src/CppcheckRunner.cpp:127-129 | a firing that finds the queue empty only uses itself up |
| RunnerProperties.KillRestartsBatch | src/CppcheckRunner.cpp:105-108 | asking again for exactly the running batch kills the run, and its finish starts that batch again |
| RunnerProperties.SecondFiringWhileRunning | src/CppcheckRunner.cpp:114-116 | after two idle requests, the second firing arrives while the first run is open. It takes files requested during that run into the batch and asks for a start on the open process. That run's finish then finds nothing queued |
| RunnerProperties.QueueStepsPreserveWellFormed | src/CppcheckRunner.cpp:64-124 | the settings, include-path, `checkFiles` and `stopChecking` steps keep the queue, batch and cache canonical and the include flags prefixed |
| RunnerProperties.DispatchPreservesWellFormed | src/CppcheckRunner.cpp:126-184 | a dispatch keeps the state well formed |
| RunnerProperties.ProcessStepsPreserveWellFormed | src/CppcheckRunner.cpp:238-272 | `started`, `error` and the finished signal keep the state well formed |

## Left out

- The `getconf ARG_MAX` probe is a subprocess. Its result enters as a parameter of the constructor, as does the choice between Linux and other systems.
- QProcess itself is not modelled:
  - starting and killing the process, reading its channels and the signal connections are all abstract;
  - a start requested while the process is open is refused by Qt; the model records the request and keeps the process open;
  - a killed process reaches the runner through its finished signal, which is the `ProcessFinished` event.
- The 200 ms delay is not modelled; only the count of pending firings is kept.
- Line buffering is not modelled: `ReadOutput` and `ReadError` take the complete lines available, and a trailing partial line waits for the next signal.
- Logging is not modelled. This covers `Core::MessageManager` output, including the echo of every output line and the "Starting CppChecker with" message.
- The `startedChecking` signal is not modelled separately. It is emitted exactly when a start is requested.
- Progress registration is not modelled:
  - `ProgressManager` and `FutureProgress` registration and the cancel button are left out (the cancel button calls `stopChecking`, which is modelled);
  - the progress range is not modelled;
  - reported values are returned rather than stored, and what Qt does with them is not modelled.
- Macro expansion of the custom parameters and `QThread::idealThreadCount` are foreign calls. They enter as parameters.
- `QDir::fromNativeSeparators` is modelled as replacing one native separator character.
- Encodings are not modelled. `fromUtf8` and `toLocal8Bit` are left out: strings are character sequences, and the list files hold text.
- Strings are Unicode scalar values rather than UTF-16 code units. Two things differ from Qt for characters outside the Basic Multilingual Plane:
  - the order used by `sort`;
  - lengths: `QString::length()` counts such a character as 2, the model as 1. The sum compared in `checkQueuedFiles` is therefore smaller in the model, and a batch with such file names can stay inline in the model where the program switches to list files.
- The 32-bit `int` lengths summed in `checkQueuedFiles` are unbounded here. An overflow of that sum is not modelled.
- Temporary files: file names, write errors and the close calls are not modelled, and `resize(0)` on a file that was never created is taken to leave it empty as well.
- The destructor (src/CppcheckRunner.cpp:55-62) and the settings pointer checks are not modelled.
- src/OptionsWidget.cpp is not part of this model: it is a settings form.
- Runner.CppcheckRunner.ReadOutput: returns the values passed to `setProgressValue`, not the handle's progress value, because Qt's handling of those values is outside the model.
