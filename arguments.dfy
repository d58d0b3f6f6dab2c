/**
 * The analysis tool's command line: the static arguments updateSettings builds
 * from the configuration, and the sizing rule checkQueuedFiles applies to put
 * the batch's files and include paths either on the command line or in two
 * list files.
 */
module Arguments {
  import opened Wrappers
  import opened QtStrings

  const EnablePrefix: String := "--enable"
  const DefaultEnable: String := EnablePrefix + "=warning,style,performance," + "portability,information,missingInclude"
  const UnusedFunction: String := ",unusedFunction"
  const InconclusiveFlag: String := "--inconclusive"
  const TemplatePrefix: String := "--template="
  const TemplateFlag: String := TemplatePrefix + "{file},{line},{severity}," + "{id},{message}"
  const ThreadPrefix: String := "-j "
  const IncludePrefix: String := "-I"
  const FileListPrefix: String := "--file-list="
  const IncludesFilePrefix: String := "--includes-file="

  /** The parallelism flag: one argument holding "-j", a space and the count. */
  function ThreadFlag(threads: int): String {
    ThreadPrefix + IntToString(threads)
  }

  /** The enable flag: the fixed check list, plus unusedFunction when asked for. */
  function EnableFlag(checkUnused: bool): String {
    DefaultEnable + (if checkUnused then UnusedFunction else "")
  }

  // ---------------------------------------------------------------------------
  // The enable override (src/CppcheckRunner.cpp:72-77)
  // ---------------------------------------------------------------------------

  /** The position of the last argument that starts with --enable. */
  function LastEnableIndex(args: seq<String>): (r: Option<nat>)
    ensures r.Some? ==> r.value < |args| && StartsWith(args[r.value], EnablePrefix)
    ensures forall j :: 0 <= j < |args| && (r.None? || r.value < j) ==> !StartsWith(args[j], EnablePrefix)
  {
    if args == [] then None
    else if StartsWith(args[|args| - 1], EnablePrefix) then Some(|args| - 1)
    else LastEnableIndex(args[..|args| - 1])
  }

  /**
   * The override loop: scanning from the end, the first argument starting with
   * --enable is taken out of the list and replaces the enable flag; without
   * one, both stay as they were.
   */
  method TakeEnableOverride(args: seq<String>, enabled: String) returns (rest: seq<String>, flag: String)
    ensures LastEnableIndex(args).None? ==> rest == args && flag == enabled
    ensures LastEnableIndex(args).Some? ==>
      var k := LastEnableIndex(args).value;
      flag == args[k] && rest == args[..k] + args[k + 1..]
  {
    rest, flag := args, enabled;
    var i := |args| - 1;
    while i >= 0
      invariant -1 <= i < |args|
      invariant rest == args && flag == enabled
      invariant forall j :: i < j < |args| ==> !StartsWith(args[j], EnablePrefix)
    {
      if StartsWith(rest[i], EnablePrefix) {
        flag := rest[i];
        rest := rest[..i] + rest[i + 1..];
        return;
      }
      i := i - 1;
    }
  }

  // ---------------------------------------------------------------------------
  // The static arguments (src/CppcheckRunner.cpp:68-89)
  // ---------------------------------------------------------------------------

  /**
   * The run arguments updateSettings leaves: the parallelism flag unless
   * unused-function checking is on, the enable flag, --inconclusive when
   * configured, and the output template.
   */
  function RunArguments(checkUnused: bool, checkInconclusive: bool, threads: int): seq<String> {
    (if checkUnused then [] else [ThreadFlag(threads)])
    + [EnableFlag(checkUnused)]
    + (if checkInconclusive then [InconclusiveFlag] else [])
    + [TemplateFlag]
  }

  lemma ThreadFlagIsNotEnable(threads: int)
    ensures !StartsWith(ThreadFlag(threads), EnablePrefix)
    ensures ThreadFlag(threads) != InconclusiveFlag
  {
    assert ThreadFlag(threads)[1] == 'j';
  }

  lemma EnableFlagFacts(checkUnused: bool)
    ensures StartsWith(EnableFlag(checkUnused), EnablePrefix)
    ensures EnableFlag(checkUnused) != InconclusiveFlag
    ensures EndsWith(EnableFlag(checkUnused), UnusedFunction) <==> checkUnused
  {
    var f := EnableFlag(checkUnused);
    assert f[..8] == EnablePrefix;
    assert f[2] != InconclusiveFlag[2];
    if !checkUnused {
      var tail := "portability,information,missingInclude";
      assert f[|f| - 1] == tail[|tail| - 1] == 'e';
    }
  }

  lemma FixedFlagsAreNotEnable()
    ensures !StartsWith(InconclusiveFlag, EnablePrefix)
    ensures !StartsWith(TemplateFlag, EnablePrefix)
    ensures TemplateFlag != InconclusiveFlag
  {
    assert InconclusiveFlag[2] == 'i';
    assert TemplateFlag[2] == TemplatePrefix[2] == 't';
  }

  /**
   * Exactly one argument of the built list starts with --enable: no earlier
   * --enable entry survives, because the list is cleared before the
   * override loop; it ends in ",unusedFunction" exactly when unused-function
   * checking is on.
   */
  lemma RunArgumentsEnable(checkUnused: bool, checkInconclusive: bool, threads: int)
    ensures var r := RunArguments(checkUnused, checkInconclusive, threads);
      var e := if checkUnused then 0 else 1;
      && e < |r| && r[e] == EnableFlag(checkUnused)
      && (forall j :: 0 <= j < |r| ==> (StartsWith(r[j], EnablePrefix) <==> j == e))
      && (EndsWith(r[e], UnusedFunction) <==> checkUnused)
  {
    ThreadFlagIsNotEnable(threads);
    FixedFlagsAreNotEnable();
    EnableFlagFacts(checkUnused);
  }

  /** The "-j N" flag reads back as N. */
  lemma ThreadFlagRoundTrip(threads: int)
    requires IntMin <= threads <= IntMax
    ensures StartsWith(ThreadFlag(threads), ThreadPrefix)
    ensures ToInt(ThreadFlag(threads)[|ThreadPrefix|..]) == threads
  {
    IntToStringRoundTrip(threads);
    assert ThreadFlag(threads)[|ThreadPrefix|..] == IntToString(threads);
  }

  /**
   * The "-j N" flag is the first argument exactly when unused-function
   * checking is off, and its count then reads back as N.
   */
  lemma RunArgumentsThreads(checkUnused: bool, checkInconclusive: bool, threads: int)
    requires IntMin <= threads <= IntMax
    ensures var r := RunArguments(checkUnused, checkInconclusive, threads);
      && (StartsWith(r[0], ThreadPrefix) <==> !checkUnused)
      && (!checkUnused ==> r[0] == ThreadFlag(threads) && ToInt(r[0][|ThreadPrefix|..]) == threads)
  {
    var r := RunArguments(checkUnused, checkInconclusive, threads);
    if checkUnused {
      assert r[0] == EnableFlag(true);
      assert r[0][1] == '-' != ThreadPrefix[1];
    } else {
      assert r[0] == ThreadFlag(threads);
      ThreadFlagRoundTrip(threads);
    }
  }

  /**
   * The list has one argument per configured flag, the template flag last,
   * and --inconclusive exactly when configured.
   */
  lemma RunArgumentsLayout(checkUnused: bool, checkInconclusive: bool, threads: int)
    ensures var r := RunArguments(checkUnused, checkInconclusive, threads);
      && |r| == (if checkUnused then 0 else 1) + 2 + (if checkInconclusive then 1 else 0)
      && r[|r| - 1] == TemplateFlag
      && (InconclusiveFlag in r <==> checkInconclusive)
  {
    ThreadFlagIsNotEnable(threads);
    FixedFlagsAreNotEnable();
    EnableFlagFacts(checkUnused);
  }

  // ---------------------------------------------------------------------------
  // Include paths and the two list files (src/CppcheckRunner.cpp:92-97, 148-169)
  // ---------------------------------------------------------------------------

  /**
   * The arguments setIncludePaths stores: "-I" before each path. Every flag
   * carries the prefix, and dropping two characters from each, as the include
   * list is written, gives back exactly the paths.
   */
  function IncludeFlags(paths: seq<String>): (r: seq<String>)
    ensures |r| == |paths|
    ensures forall f <- r :: StartsWith(f, IncludePrefix)
    ensures IncludeListEntries(r) == paths
  {
    var r := seq(|paths|, i requires 0 <= i < |paths| => IncludePrefix + paths[i]);
    assert forall i :: 0 <= i < |paths| ==> r[i][..2] == IncludePrefix && r[i][2..] == paths[i];
    r
  }

  /** The include list file's entries: each argument without its first two characters. */
  function IncludeListEntries(includes: seq<String>): (r: seq<String>)
    ensures |r| == |includes|
    ensures forall i :: 0 <= i < |includes| ==> r[i] == Mid(includes[i], 2)
  {
    seq(|includes|, i requires 0 <= i < |includes| => Mid(includes[i], 2))
  }

  /** The text written to the file list: the batch, one file per line. */
  function FileListText(files: seq<String>): String {
    Join(files, '\n')
  }

  /** The text written to the include list. */
  function IncludeListText(includes: seq<String>): String {
    Join(IncludeListEntries(includes), '\n')
  }

  /**
   * Reading the include list line by line gives back exactly the paths given
   * to setIncludePaths, when there is at least one and none spans two lines.
   */
  lemma IncludeListRoundTrip(paths: seq<String>)
    requires paths != []
    requires forall p <- paths :: '\n' !in p
    ensures Split(IncludeListText(IncludeFlags(paths)), '\n') == paths
  {
    SplitJoin(paths, '\n');
  }

  /** Reading the file list line by line gives back exactly the batch. */
  lemma FileListRoundTrip(files: seq<String>)
    requires files != []
    requires forall f <- files :: '\n' !in f
    ensures Split(FileListText(files), '\n') == files
  {
    SplitJoin(files, '\n');
  }

  // ---------------------------------------------------------------------------
  // The sizing rule (src/CppcheckRunner.cpp:144-177)
  // ---------------------------------------------------------------------------

  /** The sum checkQueuedFiles compares with the limit: the three single-space joins. */
  function CommandLength(arguments: seq<String>, files: seq<String>, includes: seq<String>): nat {
    |Join(arguments, ' ')| + |Join(files, ' ')| + |Join(includes, ' ')|
  }

  /** At or above the limit, files and includes go to list files. */
  predicate NeedsListFiles(arguments: seq<String>, files: seq<String>, includes: seq<String>, maxLength: int) {
    CommandLength(arguments, files, includes) >= maxLength
  }

  /** The two arguments that point the tool at the list files. */
  function ListFileArguments(fileListName: String, includeListName: String): seq<String> {
    [FileListPrefix + fileListName, IncludesFilePrefix + includeListName]
  }

  /** The final argument list for a batch. */
  function CommandArguments(arguments: seq<String>, files: seq<String>, includes: seq<String>,
                            maxLength: int, fileListName: String, includeListName: String): seq<String> {
    if NeedsListFiles(arguments, files, includes, maxLength) then
      arguments + ListFileArguments(fileListName, includeListName)
    else
      arguments + files + includes
  }

  /**
   * The final list keeps the given arguments as its prefix, then holds either
   * the files followed by the includes (below the limit) or exactly the two
   * list-file arguments (at or above it).
   */
  lemma CommandArgumentsShape(arguments: seq<String>, files: seq<String>, includes: seq<String>,
                              maxLength: int, fileListName: String, includeListName: String)
    ensures var r := CommandArguments(arguments, files, includes, maxLength, fileListName, includeListName);
      && |arguments| <= |r| && r[..|arguments|] == arguments
      && (!NeedsListFiles(arguments, files, includes, maxLength) ==>
            r[|arguments|..] == files + includes)
      && (NeedsListFiles(arguments, files, includes, maxLength) ==>
            |r| == |arguments| + 2
            && StartsWith(r[|arguments|], FileListPrefix)
            && StartsWith(r[|arguments| + 1], IncludesFilePrefix)
            && r[|arguments|][|FileListPrefix|..] == fileListName
            && r[|arguments| + 1][|IncludesFilePrefix|..] == includeListName)
  {
    var r := CommandArguments(arguments, files, includes, maxLength, fileListName, includeListName);
    if NeedsListFiles(arguments, files, includes, maxLength) {
      assert r[|arguments|] == FileListPrefix + fileListName;
      assert r[|arguments| + 1] == IncludesFilePrefix + includeListName;
    } else {
      assert r == arguments + (files + includes);
    }
  }

  /** Joining two lists costs one separator more than joining each, when both are non-empty. */
  lemma JoinAppendLength(a: seq<String>, b: seq<String>, sep: char)
    ensures |Join(a + b, sep)| == |Join(a, sep)| + |Join(b, sep)| + (if a != [] && b != [] then 1 else 0)
  {
    JoinLength(a, sep);
    JoinLength(b, sep);
    JoinLength(a + b, sep);
    TotalLengthAppend(a, b);
  }

  /**
   * Below the limit the inline command line, joined with single spaces, is
   * the compared sum plus the at most two spaces between the three groups,
   * which the comparison leaves out: it stays under the limit plus two.
   */
  lemma InlineCommandLength(arguments: seq<String>, files: seq<String>, includes: seq<String>,
                            maxLength: int, fileListName: String, includeListName: String)
    requires !NeedsListFiles(arguments, files, includes, maxLength)
    ensures var line := Join(CommandArguments(arguments, files, includes, maxLength, fileListName, includeListName), ' ');
      CommandLength(arguments, files, includes) <= |line| <= CommandLength(arguments, files, includes) + 2
      && |line| < maxLength + 2
  {
    JoinAppendLength(arguments, files, ' ');
    JoinAppendLength(arguments + files, includes, ' ');
  }
}
