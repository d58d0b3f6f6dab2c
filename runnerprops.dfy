/**
 * What the run coordinator guarantees, stated over its step functions: the
 * file queue, the dispatcher's command and list files, and the sequences of
 * events the process and the timer drive.
 */
module RunnerProperties {
  import opened Wrappers
  import opened QtStrings
  import opened StringLists
  import opened Arguments
  import opened Runner

  // ---------------------------------------------------------------------------
  // The file queue (src/CppcheckRunner.cpp:100-124)
  // ---------------------------------------------------------------------------

  /**
   * After checkFiles the queue is strictly sorted and holds exactly the old
   * queue's files and the new ones; an open process is killed exactly when
   * that queue is its batch, and only an idle runner schedules a firing.
   * Nothing else changes.
   */
  lemma CheckFilesQueue(s: State, files: seq<String>)
    ensures var r := CheckFilesNext(s, files);
      && StrictlySorted(r.queue)
      && (forall x :: x in r.queue <==> x in s.queue || x in files)
      && (CheckFilesKills(s, files) <==> s.open && r.queue == s.current)
      && r.pendingTimers == (if s.open then s.pendingTimers else s.pendingTimers + 1)
      && r.(queue := s.queue, pendingTimers := s.pendingTimers) == s
  {
    SortedUniqueCanonical(s.queue + files, []);
  }

  /** The queue does not depend on the order in which files were asked for. */
  lemma CheckFilesOrderIndependent(s: State, a: seq<String>, b: seq<String>)
    ensures CheckFilesNext(CheckFilesNext(s, a), b).queue == CheckFilesNext(CheckFilesNext(s, b), a).queue
  {
    SortedUniqueMerge(s.queue + a, b);
    SortedUniqueMerge(s.queue + b, a);
    SortedUniqueSameElements(s.queue + a + b, s.queue + b + a);
  }

  /** Asking again for files already queued leaves the queue as it is. */
  lemma CheckFilesIdempotent(s: State, files: seq<String>)
    ensures CheckFilesNext(CheckFilesNext(s, files), files).queue == CheckFilesNext(s, files).queue
  {
    SortedUniqueMerge(s.queue + files, files);
    SortedUniqueCanonical(s.queue + files + files, SortedUnique(s.queue + files));
    SortedUniqueCanonical(s.queue + files, []);
  }

  /**
   * The single-shot guard never holds: every checkFiles on an idle runner
   * schedules one more firing, however many are pending.
   */
  lemma IdleChecksScheduleEachTime(s: State, a: seq<String>, b: seq<String>)
    requires !s.open
    ensures CheckFilesNext(CheckFilesNext(s, a), b).pendingTimers == s.pendingTimers + 2
  {
  }

  // ---------------------------------------------------------------------------
  // The dispatcher (src/CppcheckRunner.cpp:126-184)
  // ---------------------------------------------------------------------------

  /** The arguments checkQueuedFiles puts in front of files, includes or list files. */
  function LeadingArguments(s: State, expanded: String): seq<String> {
    SplitSkipEmpty(expanded, ' ') + s.runArguments
  }

  /** The include flags the dispatcher passes on. */
  function PassedIncludes(s: State, settings: Settings): seq<String> {
    if settings.ignoreIncludePaths then [] else s.includePaths
  }

  /** Whether the command for the queued batch is too long to be given inline. */
  predicate QueueNeedsListFiles(s: State, settings: Settings, expanded: String, maxLength: int) {
    NeedsListFiles(LeadingArguments(s, expanded), s.queue, PassedIncludes(s, settings), maxLength)
  }

  /**
   * Without a queue or a binary nothing happens; otherwise the queue becomes
   * the current batch and is emptied, the settings-derived fields are kept,
   * and a start is requested for the configured binary, which opens the
   * process, unless the list files were due and failed to open.
   */
  lemma DispatchMovesQueue(s: State, settings: Settings, expanded: String, lists: ListFiles, maxLength: int)
    ensures var r := DispatchStep(s, settings, expanded, lists, maxLength);
      && (s.queue == [] || settings.binaryFile == [] ==> r == Dispatch(s, None))
      && (s.queue != [] && settings.binaryFile != [] ==>
            && r.next.queue == [] && r.next.current == s.queue
            && r.next.runArguments == s.runArguments && r.next.includePaths == s.includePaths
            && r.next.pendingTimers == s.pendingTimers && r.next.progress == s.progress
            && (r.request.None? <==>
                  QueueNeedsListFiles(s, settings, expanded, maxLength)
                  && s.listCache != s.queue && !lists.canOpen)
            && (r.request.Some? ==> r.next.open && r.request.value.program == settings.binaryFile)
            && (r.request.None? ==> r.next.open == s.open))
  {
  }

  /**
   * The requested command starts with the custom parameters split on spaces
   * without empty pieces, then the run arguments; below the limit it goes on
   * with the batch and then the include flags, at or above it it ends with
   * exactly the two list-file arguments.
   */
  lemma DispatchArguments(s: State, settings: Settings, expanded: String, lists: ListFiles, maxLength: int)
    requires DispatchStep(s, settings, expanded, lists, maxLength).request.Some?
    ensures var args := DispatchStep(s, settings, expanded, lists, maxLength).request.value.arguments;
      var lead := LeadingArguments(s, expanded);
      && |lead| <= |args| && args[..|lead|] == lead
      && (!QueueNeedsListFiles(s, settings, expanded, maxLength) ==>
            args[|lead|..] == s.queue + PassedIncludes(s, settings))
      && (QueueNeedsListFiles(s, settings, expanded, maxLength) ==>
            args[|lead|..] == [FileListPrefix + lists.fileListName, IncludesFilePrefix + lists.includeListName])
  {
    var lead := LeadingArguments(s, expanded);
    CommandArgumentsShape(lead, s.queue, PassedIncludes(s, settings), maxLength,
                          lists.fileListName, lists.includeListName);
  }

  /**
   * The list files change only when a long command is dispatched for a batch
   * other than the cached one, and the cache then records that batch, before
   * the files are opened.
   */
  lemma ListFilesRewrittenOnlyForNewBatch(s: State, settings: Settings, expanded: String, lists: ListFiles, maxLength: int)
    ensures var r := DispatchStep(s, settings, expanded, lists, maxLength);
      var rewrites := s.queue != [] && settings.binaryFile != []
                      && QueueNeedsListFiles(s, settings, expanded, maxLength) && s.listCache != s.queue;
      && (!rewrites ==> r.next.listCache == s.listCache
                        && r.next.fileListText == s.fileListText
                        && r.next.includeListText == s.includeListText)
      && (rewrites ==> r.next.listCache == s.queue)
  {
  }

  /** A written file list holds the batch, one file per line. */
  lemma FileListContents(s: State, settings: Settings, expanded: String, lists: ListFiles, maxLength: int)
    requires s.queue != [] && settings.binaryFile != [] && lists.canOpen
    requires QueueNeedsListFiles(s, settings, expanded, maxLength) && s.listCache != s.queue
    requires forall f <- s.queue :: '\n' !in f
    ensures Split(DispatchStep(s, settings, expanded, lists, maxLength).next.fileListText, '\n') == s.queue
  {
    FileListRoundTrip(s.queue);
  }

  /**
   * A written include list holds the include paths themselves, one per line,
   * with the "-I" of each flag dropped; it is empty when there are none.
   */
  lemma IncludeListContents(s: State, settings: Settings, expanded: String, lists: ListFiles, maxLength: int,
                            paths: seq<String>)
    requires s.queue != [] && settings.binaryFile != [] && lists.canOpen
    requires QueueNeedsListFiles(s, settings, expanded, maxLength) && s.listCache != s.queue
    requires s.includePaths == IncludeFlags(paths) && !settings.ignoreIncludePaths
    requires forall p <- paths :: '\n' !in p
    ensures var text := DispatchStep(s, settings, expanded, lists, maxLength).next.includeListText;
      && (paths != [] ==> Split(text, '\n') == paths)
      && (paths == [] ==> text == [])
  {
    if paths != [] {
      IncludeListRoundTrip(paths);
    }
  }

  /** With include paths ignored, the include list is written empty. */
  lemma IgnoredIncludesWriteEmptyList(s: State, settings: Settings, expanded: String, lists: ListFiles,
                                      maxLength: int)
    requires s.queue != [] && settings.binaryFile != [] && lists.canOpen
    requires QueueNeedsListFiles(s, settings, expanded, maxLength) && s.listCache != s.queue
    requires settings.ignoreIncludePaths
    ensures DispatchStep(s, settings, expanded, lists, maxLength).next.includeListText == []
  {
  }

  /**
   * When the list files cannot be opened the batch is dropped: nothing is
   * started, the queue and both files are empty, yet the cache records it.
   */
  lemma FailedListFilesDropBatch(s: State, settings: Settings, expanded: String, lists: ListFiles, maxLength: int)
    requires s.queue != [] && settings.binaryFile != [] && !lists.canOpen
    requires QueueNeedsListFiles(s, settings, expanded, maxLength) && s.listCache != s.queue
    ensures var r := DispatchStep(s, settings, expanded, lists, maxLength);
      && r.request.None?
      && r.next.queue == [] && r.next.current == s.queue && r.next.listCache == s.queue
      && r.next.fileListText == [] && r.next.includeListText == []
      && r.next.open == s.open
  {
  }

  /**
   * The cache is keyed on the batch alone and set before opening: after a
   * failed write, the same batch queued again is started against the empty
   * list files without rewriting them.
   */
  lemma StaleListFilesAfterFailedOpen(s: State, settings: Settings, expanded: String,
                                      failing: ListFiles, working: ListFiles, maxLength: int)
    requires WellFormed(s) && s.queue != [] && settings.binaryFile != [] && !failing.canOpen
    requires QueueNeedsListFiles(s, settings, expanded, maxLength) && s.listCache != s.queue
    ensures var dropped := DispatchStep(s, settings, expanded, failing, maxLength).next;
      var requeued := CheckFilesNext(dropped, s.queue);
      var retry := DispatchStep(requeued, settings, expanded, working, maxLength);
      && retry.request.Some?
      && retry.next.current == s.queue
      && retry.next.fileListText == [] && retry.next.includeListText == []
  {
    var dropped := DispatchStep(s, settings, expanded, failing, maxLength).next;
    assert dropped.queue + s.queue == s.queue;
    SortedUniqueFixpoint(s.queue);
    var requeued := CheckFilesNext(dropped, s.queue);
    assert requeued.queue == s.queue && requeued.listCache == s.queue;
    assert LeadingArguments(requeued, expanded) == LeadingArguments(s, expanded);
    assert PassedIncludes(requeued, settings) == PassedIncludes(s, settings);
  }

  // ---------------------------------------------------------------------------
  // Events (src/CppcheckRunner.cpp:47-52, 238-272)
  // ---------------------------------------------------------------------------

  /** finished closes the process and finalises an existing handle; nothing else changes. */
  lemma FinishedCloses(s: State)
    ensures var r := FinishedNext(s);
      && !r.open
      && (r.progress.Some? <==> s.progress.Some?)
      && (s.progress.Some? ==> r.progress == Some(Done))
      && r.(progress := s.progress, open := s.open) == s
  {
  }

  /**
   * A failed start closes the process like a finish but dispatches nothing:
   * the queue stays as it was, however long it is; other errors change
   * nothing.
   */
  lemma FailedStartKeepsQueue(s: State, error: ProcessError)
    ensures error == FailedToStart ==> ErrorNext(s, error) == FinishedNext(s) && ErrorNext(s, error).queue == s.queue
    ensures error != FailedToStart ==> ErrorNext(s, error) == s
  {
  }

  /** A firing that finds the queue empty only uses itself up. */
  lemma ExtraFiringDoesNothing(s: State, settings: Settings, expanded: String, lists: ListFiles, maxLength: int)
    requires s.pendingTimers > 0 && s.queue == []
    ensures TimerStep(s, settings, expanded, lists, maxLength)
         == Dispatch(s.(pendingTimers := s.pendingTimers - 1), None)
  {
  }

  /**
   * Asking again for exactly the running batch kills the process, and its
   * finish starts that batch over (when the list files, if needed, can be
   * had).
   */
  lemma KillRestartsBatch(s: State, files: seq<String>, settings: Settings, expanded: String,
                          lists: ListFiles, maxLength: int)
    requires files != [] && CheckFilesKills(s, files) && settings.binaryFile != []
    requires lists.canOpen
    ensures var r := ProcessFinishedStep(CheckFilesNext(s, files), settings, expanded, lists, maxLength);
      && r.request.Some? && r.next.current == s.current && r.next.queue == [] && r.next.open
  {
    var queue := SortedUnique(s.queue + files);
    SortedUniqueCanonical(s.queue + files, []);
    assert files[0] in s.queue + files;
    assert queue != [];
  }

  /**
   * Two idle requests schedule two firings. The first starts batch `a`; if
   * `b` is requested while that run is open, the second firing moves `b` into
   * the current batch and asks for a start while the process is still open,
   * which QProcess refuses, and the finish of the run for `a` then finds
   * nothing queued: the files of `b` are not checked.
   */
  lemma SecondFiringWhileRunning(s: State, a: seq<String>, b: seq<String>, settings: Settings,
                                 expanded: String, lists: ListFiles, maxLength: int)
    requires WellFormed(s) && !s.open && s.queue == [] && a != [] && b != []
    requires settings.binaryFile != [] && lists.canOpen
    requires SortedUnique(b) != SortedUnique(a)
    ensures var s1 := CheckFilesNext(CheckFilesNext(s, a), a);
      && s1.pendingTimers == s.pendingTimers + 2
      && var d1 := TimerStep(s1, settings, expanded, lists, maxLength);
      && d1.request.Some? && d1.next.current == SortedUnique(a) && d1.next.pendingTimers > 0
      && var s2 := CheckFilesNext(d1.next, b);
      && !CheckFilesKills(d1.next, b) && s2.open
      && var d2 := TimerStep(s2, settings, expanded, lists, maxLength);
      && d2.request.Some? && d2.next.current == SortedUnique(b)
      && var d3 := ProcessFinishedStep(d2.next, settings, expanded, lists, maxLength);
      && d3.request.None? && d3.next.queue == [] && !d3.next.open
  {
    var s1 := CheckFilesNext(CheckFilesNext(s, a), a);
    QueueOfFreshBatch(s, a);
    var d1 := TimerStep(s1, settings, expanded, lists, maxLength);
    FiringStarts(s1, settings, expanded, lists, maxLength);
    var s2 := CheckFilesNext(d1.next, b);
    RequestWhileRunning(d1.next, b);
    var d2 := TimerStep(s2, settings, expanded, lists, maxLength);
    FiringStarts(s2, settings, expanded, lists, maxLength);
    FinishWithEmptyQueue(d2.next, settings, expanded, lists, maxLength);
  }

  /** A firing with a queue, a binary and list files that open starts the queue as the batch. */
  lemma FiringStarts(s: State, settings: Settings, expanded: String, lists: ListFiles, maxLength: int)
    requires s.pendingTimers > 0 && s.queue != [] && settings.binaryFile != [] && lists.canOpen
    ensures var d := TimerStep(s, settings, expanded, lists, maxLength);
      && d.request.Some? && d.next.current == s.queue && d.next.queue == [] && d.next.open
      && d.next.pendingTimers == s.pendingTimers - 1
  {
    DispatchMovesQueue(s.(pendingTimers := s.pendingTimers - 1), settings, expanded, lists, maxLength);
  }

  /** A request for other files while a run is open queues them without a kill or a firing. */
  lemma RequestWhileRunning(s: State, b: seq<String>)
    requires s.open && s.queue == [] && b != [] && SortedUnique(b) != s.current
    ensures var s2 := CheckFilesNext(s, b);
      && !CheckFilesKills(s, b) && s2.open && s2.queue == SortedUnique(b) && s2.queue != []
      && s2.pendingTimers == s.pendingTimers
  {
    assert s.queue + b == b;
    NonEmptyCanonical(b);
  }

  /** The finish of a run with nothing queued closes the process and starts nothing. */
  lemma FinishWithEmptyQueue(s: State, settings: Settings, expanded: String, lists: ListFiles, maxLength: int)
    requires s.queue == []
    ensures var d := ProcessFinishedStep(s, settings, expanded, lists, maxLength);
      && d.request.None? && d.next.queue == [] && !d.next.open
  {
  }

  /** Asking twice for `a` from an empty queue queues its canonical listing and schedules two firings. */
  lemma QueueOfFreshBatch(s: State, a: seq<String>)
    requires !s.open && s.queue == [] && a != []
    ensures var s1 := CheckFilesNext(CheckFilesNext(s, a), a);
      && s1.queue == SortedUnique(a) && s1.queue != []
      && s1.pendingTimers == s.pendingTimers + 2 && !s1.open
      && s1.(queue := s.queue, pendingTimers := s.pendingTimers) == s
  {
    assert s.queue + a == a;
    SortedUniqueMerge(a, a);
    SortedUniqueSameElements(a + a, a);
    NonEmptyCanonical(a);
  }

  /** A non-empty list has a non-empty canonical listing. */
  lemma NonEmptyCanonical(a: seq<String>)
    requires a != []
    ensures SortedUnique(a) != []
  {
    SortedUniqueCanonical(a, []);
    assert a[0] in a;
  }

  /** The configuration and queue steps keep the state well formed. */
  lemma QueueStepsPreserveWellFormed(s: State, settings: Settings, threads: int, paths: seq<String>,
                                     files: seq<String>)
    requires WellFormed(s)
    ensures WellFormed(SettingsNext(s, settings, threads))
    ensures WellFormed(IncludePathsNext(s, paths))
    ensures WellFormed(CheckFilesNext(s, files))
    ensures WellFormed(StopNext(s))
  {
    SortedUniqueCanonical(s.queue + files, []);
  }

  /** A dispatch keeps the state well formed: the batch it records was a canonical queue. */
  lemma DispatchPreservesWellFormed(s: State, settings: Settings, expanded: String, lists: ListFiles,
                                    maxLength: int)
    requires WellFormed(s)
    ensures WellFormed(DispatchStep(s, settings, expanded, lists, maxLength).next)
  {
    var r := DispatchStep(s, settings, expanded, lists, maxLength).next;
    if s.queue != [] && settings.binaryFile != [] {
      assert r.queue == [] && r.current == s.queue && r.includePaths == s.includePaths;
      assert r.listCache == s.listCache || r.listCache == s.queue;
    }
  }

  /** The process events keep the state well formed. */
  lemma ProcessStepsPreserveWellFormed(s: State, settings: Settings, expanded: String, lists: ListFiles,
                                       maxLength: int, error: ProcessError)
    requires WellFormed(s)
    ensures WellFormed(StartedNext(s))
    ensures WellFormed(ErrorNext(s, error))
    ensures WellFormed(ProcessFinishedStep(s, settings, expanded, lists, maxLength).next)
  {
    assert WellFormed(FinishedNext(s));
    DispatchPreservesWellFormed(FinishedNext(s), settings, expanded, lists, maxLength);
  }
}
