/**
 * The run coordinator of the cppcheck plugin: a file queue fed by editor
 * events, a dispatcher that turns the queue into one tool invocation, and
 * the process lifecycle. The external process is an `open` flag, the
 * single-shot timer a count of pending firings, and each call the runner
 * makes into the process (kill, start) is an output of the method that
 * makes it.
 *
 * The state is captured by the value type `State`; every event has a step
 * function on it, and each method of `CppcheckRunner` is proved to move its
 * fields exactly as that step function says.
 */
module Runner {
  import opened Wrappers
  import opened QtStrings
  import opened StringLists
  import opened Arguments
  import opened OutputParser

  /**
   * The plugin settings the runner reads. The custom parameters are not a
   * field: a dispatch reads them after macro expansion, as its `expanded`
   * argument.
   */
  datatype Settings = Settings(
    binaryFile: String,
    checkUnused: bool,
    checkInconclusive: bool,
    ignoreIncludePaths: bool,
    showBinaryOutput: bool,
    showId: bool)

  /** QProcess::ProcessError */
  datatype ProcessError = FailedToStart | Crashed | Timedout | ReadError | WriteError | UnknownError

  /** The progress handle created when a run starts: still running, or reported finished. */
  datatype ProgressState = Running | Done

  /** A process start the runner asks for. */
  datatype Invocation = Invocation(program: String, arguments: seq<String>)

  /** The two temporary list files: their names, and whether both open for writing. */
  datatype ListFiles = ListFiles(fileListName: String, includeListName: String, canOpen: bool)

  /** Every field of the runner that an event may change. */
  datatype State = State(
    queue: seq<String>,            // files waiting for the next run
    current: seq<String>,          // the batch of the last dispatched run
    listCache: seq<String>,        // the batch the list files were last written for
    runArguments: seq<String>,
    includePaths: seq<String>,     // each one "-I" followed by a path
    showOutput: bool,
    showId: bool,
    progress: Option<ProgressState>,
    open: bool,                    // the process has been started and not yet closed
    pendingTimers: nat,            // single-shot firings scheduled and not yet delivered
    fileListText: String,          // the contents of the file list file
    includeListText: String)       // the contents of the include list file

  /** A dispatch: the next state and the start it requests, if any. */
  datatype Dispatch = Dispatch(next: State, request: Option<Invocation>)

  /** The state right after construction. */
  function Initial(): State {
    State([], [], [], [], [], false, false, None, false, 0, [], [])
  }

  /** The state invariant: the three batches are canonical listings, include flags carry their prefix. */
  predicate WellFormed(s: State) {
    && StrictlySorted(s.queue)
    && StrictlySorted(s.current)
    && StrictlySorted(s.listCache)
    && forall p <- s.includePaths :: StartsWith(p, IncludePrefix)
  }

  /**
   * The command-length limit: the operating system's argument limit, but at
   * least 32000, on Linux (where `probe` is what getconf reports, 0 when it
   * reports nothing readable); 32767 elsewhere.
   */
  function ArgumentLimit(linux: bool, probe: int): (r: int)
    ensures r >= 32000
    ensures linux ==> r >= probe && (r == probe || r == 32000)
    ensures !linux ==> r == 32767
  {
    if linux then (if probe > 32000 then probe else 32000) else 32767
  }

  // ---------------------------------------------------------------------------
  // The step functions
  // ---------------------------------------------------------------------------

  /** updateSettings: output flags from the settings and freshly built run arguments. */
  function SettingsNext(s: State, settings: Settings, threads: int): State {
    s.(showOutput := settings.showBinaryOutput, showId := settings.showId,
       runArguments := RunArguments(settings.checkUnused, settings.checkInconclusive, threads))
  }

  /** setIncludePaths: one "-I" flag per path. */
  function IncludePathsNext(s: State, paths: seq<String>): State {
    s.(includePaths := IncludeFlags(paths))
  }

  /** checkFiles: the merged canonical queue, and one more timer firing when no process is open. */
  function CheckFilesNext(s: State, files: seq<String>): State {
    var queue := SortedUnique(s.queue + files);
    if s.open then s.(queue := queue)
    else s.(queue := queue, pendingTimers := s.pendingTimers + 1)
  }

  /** checkFiles kills the open process when the merged queue is exactly the running batch. */
  predicate CheckFilesKills(s: State, files: seq<String>) {
    s.open && SortedUnique(s.queue + files) == s.current
  }

  /** stopChecking: the queue is dropped. */
  function StopNext(s: State): State {
    s.(queue := [])
  }

  /** A start request for `arguments`: QProcess opens the device unless it is already open. */
  function Start(s: State, program: String, arguments: seq<String>): Dispatch {
    Dispatch(s.(open := true), Some(Invocation(program, arguments)))
  }

  /**
   * checkQueuedFiles: with a queue and a binary, the queue becomes the
   * current batch; a short command carries files and includes inline, a long
   * one points at the list files, which are rewritten only for a batch other
   * than the cached one, and the batch is dropped when they fail to open.
   */
  function DispatchStep(s: State, settings: Settings, expanded: String, lists: ListFiles,
                        maxLength: int): Dispatch {
    if s.queue == [] || settings.binaryFile == [] then Dispatch(s, None)
    else
      var arguments := SplitSkipEmpty(expanded, ' ') + s.runArguments;
      var includes := if !settings.ignoreIncludePaths then s.includePaths else [];
      var batch := s.queue;
      var moved := s.(current := batch, queue := []);
      var command := CommandArguments(arguments, batch, includes, maxLength,
                                      lists.fileListName, lists.includeListName);
      if !NeedsListFiles(arguments, batch, includes, maxLength) || s.listCache == batch then
        Start(moved, settings.binaryFile, command)
      else if !lists.canOpen then
        Dispatch(moved.(listCache := batch, fileListText := [], includeListText := []), None)
      else
        Start(moved.(listCache := batch, fileListText := FileListText(batch),
                     includeListText := IncludeListText(includes)),
              settings.binaryFile, command)
  }

  /** A timer firing: one fewer pending, then a dispatch. */
  function TimerStep(s: State, settings: Settings, expanded: String, lists: ListFiles,
                     maxLength: int): Dispatch
    requires s.pendingTimers > 0
  {
    DispatchStep(s.(pendingTimers := s.pendingTimers - 1), settings, expanded, lists, maxLength)
  }

  /** started: a fresh progress handle that is running. */
  function StartedNext(s: State): State {
    s.(progress := Some(Running))
  }

  /** finished: the handle, if any, is reported finished and the process is closed. */
  function FinishedNext(s: State): State {
    s.(progress := if s.progress.Some? then Some(Done) else None, open := false)
  }

  /** error: a failed start is handled as a finish; other errors change nothing. */
  function ErrorNext(s: State, error: ProcessError): State {
    if error == FailedToStart then FinishedNext(s) else s
  }

  /** The process's finished signal: finished, then a dispatch of whatever is queued. */
  function ProcessFinishedStep(s: State, settings: Settings, expanded: String, lists: ListFiles,
                               maxLength: int): Dispatch {
    DispatchStep(FinishedNext(s), settings, expanded, lists, maxLength)
  }

  /** The progress values readOutput reports: none unless output is shown and a handle exists. */
  function OutputReports(s: State, lines: seq<String>): seq<int> {
    if s.showOutput && s.progress.Some? then ProgressReports(lines) else []
  }

  // ---------------------------------------------------------------------------
  // The runner
  // ---------------------------------------------------------------------------

  class CppcheckRunner {
    var queue: seq<String>
    var current: seq<String>
    var listCache: seq<String>
    var runArguments: seq<String>
    var includePaths: seq<String>
    var showOutput: bool
    var showId: bool
    var progress: Option<ProgressState>
    var open: bool
    var pendingTimers: nat
    var fileListText: String
    var includeListText: String
    const maxArgumentsLength: int
    const nativeSeparator: char

    /** The runner's fields as a value. */
    function Model(): State
      reads this
    {
      State(queue, current, listCache, runArguments, includePaths, showOutput, showId,
            progress, open, pendingTimers, fileListText, includeListText)
    }

    ghost predicate Valid()
      reads this
    {
      WellFormed(Model())
    }

    /** The limit comes from getconf on Linux (`probe`) and is fixed elsewhere. */
    constructor (linux: bool, probe: int, nativeSeparator: char)
      ensures Model() == Initial() && Valid()
      ensures maxArgumentsLength == ArgumentLimit(linux, probe)
      ensures this.nativeSeparator == nativeSeparator
    {
      queue, current, listCache := [], [], [];
      runArguments, includePaths := [], [];
      showOutput, showId := false, false;
      progress, open, pendingTimers := None, false, 0;
      fileListText, includeListText := [], [];
      maxArgumentsLength := ArgumentLimit(linux, probe);
      this.nativeSeparator := nativeSeparator;
    }

    method UpdateSettings(settings: Settings, idealThreadCount: int)
      requires Valid()
      modifies this
      ensures Model() == SettingsNext(old(Model()), settings, idealThreadCount) && Valid()
    {
      showOutput := settings.showBinaryOutput;
      showId := settings.showId;
      runArguments := [];
      var enabled := DefaultEnable;
      var rest, flag := TakeEnableOverride(runArguments, enabled);
      runArguments, enabled := rest, flag;
      assert runArguments == [] && enabled == DefaultEnable;
      if settings.checkUnused {
        enabled := enabled + UnusedFunction;
      } else {
        runArguments := runArguments + [ThreadFlag(idealThreadCount)];
        assert DefaultEnable + "" == DefaultEnable;
      }
      assert enabled == EnableFlag(settings.checkUnused);
      runArguments := runArguments + [enabled];
      if settings.checkInconclusive {
        runArguments := runArguments + [InconclusiveFlag];
      }
      runArguments := runArguments + [TemplateFlag];
      assert runArguments == RunArguments(settings.checkUnused, settings.checkInconclusive, idealThreadCount);
    }

    method SetIncludePaths(paths: seq<String>)
      requires Valid()
      modifies this
      ensures Model() == IncludePathsNext(old(Model()), paths) && Valid()
    {
      includePaths := [];
      var i := 0;
      while i < |paths|
        invariant 0 <= i <= |paths|
        invariant includePaths == IncludeFlags(paths[..i])
        invariant Model() == old(Model()).(includePaths := includePaths)
      {
        includePaths := includePaths + [IncludePrefix + paths[i]];
        assert paths[..i + 1] == paths[..i] + [paths[i]];
        i := i + 1;
      }
      assert paths[..i] == paths;
    }

    /** Returns whether the open process is killed. */
    method CheckFiles(fileNames: seq<String>) returns (kill: bool)
      requires Valid() && fileNames != []
      modifies this
      ensures Model() == CheckFilesNext(old(Model()), fileNames) && Valid()
      ensures kill == CheckFilesKills(old(Model()), fileNames)
    {
      queue := MergeQueue(queue, fileNames);
      if open {
        kill := queue == current;
        return;
      }
      kill := false;
      pendingTimers := pendingTimers + 1;
    }

    /** Returns whether the open process is killed. */
    method StopChecking() returns (kill: bool)
      requires Valid()
      modifies this
      ensures Model() == StopNext(old(Model())) && Valid()
      ensures kill == old(open)
    {
      queue := [];
      kill := open;
    }

    /**
     * The dispatcher. `expanded` is the custom parameters after macro
     * expansion; the result is the start it asks the process for.
     */
    method CheckQueuedFiles(settings: Settings, expanded: String, lists: ListFiles)
      returns (request: Option<Invocation>)
      requires Valid()
      modifies this
      ensures Dispatch(Model(), request)
           == DispatchStep(old(Model()), settings, expanded, lists, maxArgumentsLength)
      ensures Valid()
    {
      if queue == [] {
        return None;
      }
      var binary := settings.binaryFile;
      if binary == [] {
        return None;
      }
      var arguments := SplitSkipEmpty(expanded, ' ');
      arguments := arguments + runArguments;
      ghost var fixed := arguments;
      var includes := if !settings.ignoreIncludePaths then includePaths else [];
      current := queue;
      queue := [];
      var argumentLength := |Join(arguments, ' ')|;
      var filesLength := |Join(current, ' ')|;
      var includesLength := |Join(includes, ' ')|;
      if argumentLength + includesLength + filesLength >= maxArgumentsLength {
        if listCache != current {
          listCache := current;
          fileListText, includeListText := [], [];
          if lists.canOpen {
            fileListText := FileListText(listCache);
            var entries := StripIncludePrefixes(includes);
            includeListText := Join(entries, '\n');
          } else {
            return None;
          }
        }
        arguments := arguments + [FileListPrefix + lists.fileListName];
        arguments := arguments + [IncludesFilePrefix + lists.includeListName];
        assert arguments == fixed + ListFileArguments(lists.fileListName, lists.includeListName);
      } else {
        arguments := arguments + current;
        arguments := arguments + includes;
      }
      request := Some(Invocation(binary, arguments));
      open := true;
    }

    /** One delivered single-shot firing. */
    method TimerFires(settings: Settings, expanded: String, lists: ListFiles)
      returns (request: Option<Invocation>)
      requires Valid() && pendingTimers > 0
      modifies this
      ensures Dispatch(Model(), request)
           == TimerStep(old(Model()), settings, expanded, lists, maxArgumentsLength)
      ensures Valid()
    {
      pendingTimers := pendingTimers - 1;
      request := CheckQueuedFiles(settings, expanded, lists);
    }

    method Started()
      requires Valid()
      modifies this
      ensures Model() == StartedNext(old(Model())) && Valid()
    {
      progress := Some(Running);
    }

    method ErrorOccurred(error: ProcessError)
      requires Valid()
      modifies this
      ensures Model() == ErrorNext(old(Model()), error) && Valid()
    {
      if error == FailedToStart {
        Finished(-1);
      }
    }

    method Finished(exitCode: int)
      requires Valid()
      modifies this
      ensures Model() == FinishedNext(old(Model())) && Valid()
    {
      if progress.Some? {
        progress := Some(Done);
      }
      open := false;
    }

    /** The process's finished signal is connected to finished and then to checkQueuedFiles. */
    method ProcessFinished(exitCode: int, settings: Settings, expanded: String, lists: ListFiles)
      returns (request: Option<Invocation>)
      requires Valid()
      modifies this
      ensures Dispatch(Model(), request)
           == ProcessFinishedStep(old(Model()), settings, expanded, lists, maxArgumentsLength)
      ensures Valid()
    {
      Finished(exitCode);
      request := CheckQueuedFiles(settings, expanded, lists);
    }

    /** readOutput over the complete lines available: the progress values it reports. */
    method ReadOutput(lines: seq<String>) returns (reported: seq<int>)
      ensures reported == OutputReports(Model(), lines)
    {
      reported := [];
      if !showOutput {
        return;
      }
      var i := 0;
      while i < |lines|
        invariant 0 <= i <= |lines|
        invariant reported == OutputReports(Model(), lines[..i])
      {
        ProgressReportsStep(lines, i);
        var line := Trimmed(lines[i]);
        if line != [] && EndsWith(line, ProgressMarker) && progress.Some? {
          reported := reported + [ToInt(PercentText(line))];
        }
        i := i + 1;
      }
      assert lines[..i] == lines;
    }

    /** readError over the complete lines available: the diagnostics it emits, in order. */
    method ReadError(lines: seq<String>) returns (diagnostics: seq<Diagnostic>)
      ensures diagnostics == ErrorDiagnostics(lines, showId, nativeSeparator)
    {
      diagnostics := ErrorLines(lines, showId, nativeSeparator);
    }
  }

  /** The loop of readError: every complete stderr line, in order. */
  method ErrorLines(lines: seq<String>, showId: bool, native: char) returns (diagnostics: seq<Diagnostic>)
    ensures diagnostics == ErrorDiagnostics(lines, showId, native)
  {
    diagnostics := [];
    var i := 0;
    while i < |lines|
      invariant 0 <= i <= |lines|
      invariant diagnostics == ErrorDiagnostics(lines[..i], showId, native)
    {
      var next := diagnostics + LineDiagnostics(lines[i], showId, native);
      assert next == ErrorDiagnostics(lines[..i + 1], showId, native) by {
        ErrorDiagnosticsStep(lines, i, showId, native);
      }
      diagnostics := next;
      i := i + 1;
    }
    assert lines[..i] == lines;
  }

  /** checkFiles' merge: the queue and the new files, without duplicates, sorted. */
  method MergeQueue(queue: seq<String>, files: seq<String>) returns (merged: seq<String>)
    ensures merged == SortedUnique(queue + files) && StrictlySorted(merged)
    ensures forall f :: f in merged <==> f in queue || f in files
  {
    merged := queue + files;
    merged := RemoveDuplicates(merged);
    merged := Sort(merged);
    SortedUniqueCanonical(queue + files, []);
  }

  /** The loop that drops the "-I" of each include flag, in place on a copy. */
  method StripIncludePrefixes(includes: seq<String>) returns (r: seq<String>)
    ensures r == IncludeListEntries(includes)
  {
    r := includes;
    var i := 0;
    while i < |r|
      invariant 0 <= i <= |r| == |includes|
      invariant forall k :: 0 <= k < i ==> r[k] == Mid(includes[k], 2)
      invariant forall k :: i <= k < |r| ==> r[k] == includes[k]
    {
      r := r[i := Mid(r[i], 2)];
      i := i + 1;
    }
  }
}
