/**
 * The per-line work of readError and readOutput: a diagnostic from each
 * stderr line in the tool's template format, and a progress value from each
 * stdout line ending in "% done".
 */
module OutputParser {
  import opened Wrappers
  import opened QtStrings

  /** One finding, in the order the runner hands it on: type, id, description, file, line. */
  datatype Diagnostic = Diagnostic(severity: char, id: String, message: String, file: String, line: int)

  /** The positions of the template's fields in a stderr line. */
  const FileField: nat := 0
  const LineField: nat := 1
  const SeverityField: nat := 2
  const IdField: nat := 3
  const MessageField: nat := 4

  /** QChar::toLatin1: characters past Latin-1 become the null character. */
  function ToLatin1(c: char): char {
    if c as int < 256 then c else '\0'
  }

  /** QString::at(0); on an empty field it reads the terminating null character. */
  function FirstChar(s: String): char {
    if s == [] then '\0' else s[0]
  }

  /**
   * QDir::fromNativeSeparators: every native separator becomes '/', and every
   * other character stays where it is. No native separator survives (unless
   * it is '/' itself), and a path without one comes back unchanged.
   */
  function FromNativeSeparators(path: String, native: char): (r: String)
    ensures |r| == |path|
    ensures forall i :: 0 <= i < |path| && path[i] != native ==> r[i] == path[i]
    ensures forall i :: 0 <= i < |path| ==> (r[i] == '/' <==> path[i] == native || path[i] == '/')
    ensures native != '/' ==> native !in r
    ensures native !in path ==> r == path
  {
    seq(|path|, i requires 0 <= i < |path| => if path[i] == native then '/' else path[i])
  }

  /**
   * The description: the line from the first occurrence of the message
   * field's text on (QString::mid(-1) would be the whole line).
   */
  function MessageFrom(line: String, field: String): String {
    match IndexOf(line, field)
    case Some(i) => line[i..]
    case None => line
  }

  /**
   * The diagnostic of one trimmed stderr line; None when it has fewer than
   * five fields. Its type is a Latin-1 character, its id is empty unless ids
   * are shown, and its file uses '/' only.
   */
  function ParseErrorLine(line: String, showId: bool, native: char): (r: Option<Diagnostic>)
    ensures r.Some? ==> r.value.severity as int < 256
    ensures r.Some? && !showId ==> r.value.id == []
    ensures r.Some? && native != '/' ==> native !in r.value.file
  {
    var details := Split(line, ',');
    if |details| <= MessageField then None
    else Some(Diagnostic(
      ToLatin1(FirstChar(details[SeverityField])),
      if showId then details[IdField] else "",
      MessageFrom(line, details[MessageField]),
      FromNativeSeparators(details[FileField], native),
      ToInt(details[LineField])))
  }

  /** The values `each` yields for a run of lines, one line after the other. */
  function Collect<T>(lines: seq<String>, each: String -> seq<T>): seq<T> {
    if lines == [] then []
    else Collect(lines[..|lines| - 1], each) + each(lines[|lines| - 1])
  }

  /** Collecting over consecutive chunks gives the chunks' results one after the other. */
  lemma {:induction false} CollectAppend<T>(a: seq<String>, b: seq<String>, each: String -> seq<T>)
    ensures Collect(a + b, each) == Collect(a, each) + Collect(b, each)
    decreases |b|
  {
    if b == [] {
      assert a + b == a;
    } else {
      var c := a + b;
      var front := b[..|b| - 1];
      assert c[..|c| - 1] == a + front;
      assert c[|c| - 1] == b[|b| - 1];
      CollectAppend(a, front, each);
    }
  }

  /** The diagnostics readError emits for a run of raw stderr lines, in order. */
  function ErrorDiagnostics(lines: seq<String>, showId: bool, native: char): seq<Diagnostic> {
    Collect(lines, raw => LineDiagnostics(raw, showId, native))
  }

  /** One more line appends that line's diagnostics. */
  lemma ErrorDiagnosticsStep(lines: seq<String>, i: nat, showId: bool, native: char)
    requires i < |lines|
    ensures ErrorDiagnostics(lines[..i + 1], showId, native)
         == ErrorDiagnostics(lines[..i], showId, native) + LineDiagnostics(lines[i], showId, native)
  {
    assert lines[..i + 1][..i] == lines[..i];
  }

  /**
   * What readError emits for one raw stderr line: nothing for a blank line or
   * one with fewer than four commas, and otherwise exactly the line's parse.
   */
  function LineDiagnostics(raw: String, showId: bool, native: char): (r: seq<Diagnostic>)
    ensures |r| <= 1
    ensures |r| == 1 <==> Count(Trimmed(raw), ',') >= 4
    ensures r != [] ==> Some(r[0]) == ParseErrorLine(Trimmed(raw), showId, native)
  {
    var line := Trimmed(raw);
    ParseErrorLineDefined(line, showId, native);
    if line == [] then []
    else match ParseErrorLine(line, showId, native)
         case Some(d) => [d]
         case None => []
  }

  /** A line yields a diagnostic exactly when it holds at least four commas. */
  lemma ParseErrorLineDefined(line: String, showId: bool, native: char)
    ensures ParseErrorLine(line, showId, native).Some? <==> Count(line, ',') >= 4
  {
    SplitCount(line, ',');
  }

  /**
   * When the field occurs in the line, the description is the suffix of the
   * line that starts at the field's first occurrence.
   */
  lemma MessageFromSuffix(line: String, field: String, i: nat)
    requires OccursAt(line, field, i)
    ensures EndsWith(line, MessageFrom(line, field))
    ensures StartsWith(MessageFrom(line, field), field)
    ensures forall j: nat :: j < |line| - |MessageFrom(line, field)| ==> !OccursAt(line, field, j)
  {
    var r := IndexOf(line, field);
    assert r.Some?;
    assert line[r.value..][..|field|] == line[r.value..r.value + |field|];
  }

  /**
   * The description is the suffix of the line that begins at the first
   * occurrence of the message field's text, so commas inside the message
   * survive.
   */
  lemma MessageIsSuffix(line: String, showId: bool, native: char)
    requires ParseErrorLine(line, showId, native).Some?
    ensures EndsWith(line, ParseErrorLine(line, showId, native).value.message)
    ensures StartsWith(ParseErrorLine(line, showId, native).value.message, Split(line, ',')[MessageField])
    ensures forall j: nat :: j < |line| - |ParseErrorLine(line, showId, native).value.message|
                           ==> !OccursAt(line, Split(line, ',')[MessageField], j)
  {
    var field := Split(line, ',')[MessageField];
    SplitPieceOccurs(line, ',', MessageField);
    var i: nat :| OccursAt(line, field, i);
    MessageFromSuffix(line, field, i);
  }

  /** An empty message field occurs at the very start: the description is the whole line. */
  lemma EmptyMessageFieldGivesWholeLine(line: String, showId: bool, native: char)
    requires ParseErrorLine(line, showId, native).Some?
    requires Split(line, ',')[MessageField] == []
    ensures ParseErrorLine(line, showId, native).value.message == line
  {
    assert OccursAt(line, [], 0);
  }

  /** The stderr line the tool writes for a finding, following the template flag. */
  function TemplateLine(file: String, lineText: String, severity: String, id: String, message: String): String {
    file + [','] + (lineText + [','] + (severity + [','] + (id + [','] + message)))
  }

  /** The four fields before the message, comma-separated. */
  function LeadingFields(file: String, lineText: String, severity: String, id: String): String {
    file + [','] + lineText + [','] + severity + [','] + id
  }

  /** The part of a message up to its first comma: the message field of its line. */
  function MessageHead(message: String): String {
    Split(message, ',')[0]
  }

  lemma TemplateLineShape(file: String, lineText: String, severity: String, id: String, message: String)
    ensures TemplateLine(file, lineText, severity, id, message)
         == LeadingFields(file, lineText, severity, id) + [','] + message
  {
  }

  /**
   * Reading back a template line: the fields before the message hold no
   * comma, and the message's head is not empty and does not already occur in
   * them; then the diagnostic carries the whole message, commas included,
   * the first character of the severity, the id only when ids are shown, the
   * file with normalised separators, and the line number the text reads as.
   */
  lemma TemplateLineRoundTrip(file: String, lineText: String, severity: String, id: String,
                              message: String, showId: bool, native: char)
    requires ',' !in file && ',' !in lineText && ',' !in severity && ',' !in id
    requires MessageHead(message) != []
    requires forall i: nat :: !OccursAt(LeadingFields(file, lineText, severity, id), MessageHead(message), i)
    ensures ParseErrorLine(TemplateLine(file, lineText, severity, id, message), showId, native)
         == Some(Diagnostic(ToLatin1(FirstChar(severity)), if showId then id else "", message,
                            FromNativeSeparators(file, native), ToInt(lineText)))
  {
    var line := TemplateLine(file, lineText, severity, id, message);
    var details := Split(line, ',');
    SplitFields(file, lineText, severity, id, message);
    assert |details| > MessageField;
    assert details[FileField] == file && details[LineField] == lineText;
    assert details[SeverityField] == severity && details[IdField] == id;
    assert details[MessageField] == MessageHead(message);
    TemplateLineShape(file, lineText, severity, id, message);
    MessageAfterPrefix(LeadingFields(file, lineText, severity, id), message);
    assert MessageFrom(line, details[MessageField]) == message;
  }

  /**
   * Whatever the message, a template line whose four leading fields hold no
   * comma gives a diagnostic with the first character of the severity, the
   * id only when ids are shown, the file with normalised separators and the
   * line number the text reads as.
   */
  lemma TemplateLineFields(file: String, lineText: String, severity: String, id: String,
                           message: String, showId: bool, native: char)
    requires ',' !in file && ',' !in lineText && ',' !in severity && ',' !in id
    ensures var r := ParseErrorLine(TemplateLine(file, lineText, severity, id, message), showId, native);
      && r.Some?
      && r.value.severity == ToLatin1(FirstChar(severity))
      && r.value.id == (if showId then id else "")
      && r.value.file == FromNativeSeparators(file, native)
      && r.value.line == ToInt(lineText)
  {
    SplitFields(file, lineText, severity, id, message);
  }

  /** The fields of a template line: the four leading ones, then the pieces of the message. */
  lemma SplitFields(file: String, lineText: String, severity: String, id: String, message: String)
    requires ',' !in file && ',' !in lineText && ',' !in severity && ',' !in id
    ensures Split(TemplateLine(file, lineText, severity, id, message), ',')
         == [file, lineText, severity, id] + Split(message, ',')
  {
    var rest := severity + [','] + (id + [','] + message);
    SplitTwoFields(TemplateLine(file, lineText, severity, id, message), file, lineText, rest);
    SplitTwoFields(rest, severity, id, message);
    Regroup(file, lineText, severity, id, Split(message, ','));
  }

  /** Two comma-free fields in front of `rest` are the first two pieces. */
  lemma SplitTwoFields(s: String, a: String, b: String, rest: String)
    requires ',' !in a && ',' !in b
    requires s == a + [','] + (b + [','] + rest)
    ensures Split(s, ',') == [a, b] + Split(rest, ',')
  {
    SplitAfterField(b, rest, ',');
    SplitAfterField(a, b + [','] + rest, ',');
  }

  lemma Regroup<T>(a: T, b: T, c: T, d: T, x: seq<T>)
    ensures [a, b] + ([c, d] + x) == [a, b, c, d] + x
  {
  }

  /**
   * With a head absent from `prefix`, the first occurrence of the message's
   * head in `prefix + "," + message` is where the message begins.
   */
  lemma MessageAfterPrefix(prefix: String, message: String)
    requires MessageHead(message) != []
    requires forall i: nat :: !OccursAt(prefix, MessageHead(message), i)
    ensures MessageFrom(prefix + [','] + message, MessageHead(message)) == message
  {
    var line := prefix + [','] + message;
    var head := MessageHead(message);
    var start := |prefix| + 1;
    assert line[start..] == message;
    SplitHeadIsPrefix(message, ',');
    assert OccursAt(line, head, start) by {
      assert line[start..start + |head|] == message[..|head|];
    }
    HeadNotBefore(prefix, message, head);
    assert IndexOf(line, head) == Some(start);
  }

  /** A comma-free, non-empty head that does not occur in `prefix` does not occur before the message. */
  lemma HeadNotBefore(prefix: String, message: String, head: String)
    requires head == MessageHead(message) && head != []
    requires forall i: nat :: !OccursAt(prefix, head, i)
    ensures forall i: nat :: i < |prefix| + 1 ==> !OccursAt(prefix + [','] + message, head, i)
  {
    var line := prefix + [','] + message;
    assert ',' !in head by { assert head in Split(message, ','); }
    forall i: nat | i < |prefix| + 1
      ensures !OccursAt(line, head, i)
    {
      if i + |head| <= |prefix| {
        assert line[i..i + |head|] == prefix[i..i + |head|];
        assert !OccursAt(prefix, head, i);
      } else if i + |head| <= |line| {
        assert line[|prefix|] == ',';
        assert line[i..i + |head|][|prefix| - i] == ',';
      }
    }
  }

  /** readError emits the diagnostics of consecutive chunks one after the other. */
  lemma {:induction false} ErrorDiagnosticsAppend(a: seq<String>, b: seq<String>, showId: bool, native: char)
    ensures ErrorDiagnostics(a + b, showId, native)
         == ErrorDiagnostics(a, showId, native) + ErrorDiagnostics(b, showId, native)
  {
    CollectAppend(a, b, raw => LineDiagnostics(raw, showId, native));
  }

  // ---------------------------------------------------------------------------
  // Progress lines (src/CppcheckRunner.cpp:198-205)
  // ---------------------------------------------------------------------------

  const ProgressMarker: String := "% done"

  /**
   * The text between the last space before the marker and the marker, that
   * space included; the whole text before the marker when there is no space
   * (QString::mid from -1).
   */
  function PercentText(line: String): String
    requires EndsWith(line, ProgressMarker)
  {
    var e := |line| - |ProgressMarker|;
    match LastIndexOfChar(line, ' ', e)
    case Some(i) => line[i..e]
    case None => line[..e]
  }

  /** The value readOutput reports for one trimmed stdout line, if any. */
  function ProgressValue(line: String): (r: Option<int>)
    ensures r.Some? <==> EndsWith(line, ProgressMarker)
    ensures r.Some? ==> IntMin <= r.value <= IntMax
  {
    if EndsWith(line, ProgressMarker) then Some(ToInt(PercentText(line))) else None
  }

  /**
   * What readOutput reports for one raw stdout line: one value exactly when
   * the trimmed line ends with the marker, and that value is the line's.
   */
  function LineProgress(raw: String): (r: seq<int>)
    ensures |r| <= 1
    ensures |r| == 1 <==> EndsWith(Trimmed(raw), ProgressMarker)
    ensures r != [] ==> Some(r[0]) == ProgressValue(Trimmed(raw))
  {
    match ProgressValue(Trimmed(raw))
    case Some(v) => [v]
    case None => []
  }

  /** The values readOutput reports for a run of raw stdout lines, in order. */
  function ProgressReports(lines: seq<String>): seq<int> {
    Collect(lines, LineProgress)
  }

  /** One more line appends that line's progress value, if any. */
  lemma ProgressReportsStep(lines: seq<String>, i: nat)
    requires i < |lines|
    ensures ProgressReports(lines[..i + 1]) == ProgressReports(lines[..i]) + LineProgress(lines[i])
  {
    assert lines[..i + 1][..i] == lines[..i];
  }

  /** Before the marker, the text from the last space on is what is read as the percentage. */
  lemma PercentTextAfterSpace(text: String, digits: String)
    requires ' ' !in digits
    ensures EndsWith(text + [' '] + digits + ProgressMarker, ProgressMarker)
    ensures PercentText(text + [' '] + digits + ProgressMarker) == [' '] + digits
  {
    var line := text + [' '] + digits + ProgressMarker;
    var e := |line| - |ProgressMarker|;
    assert line[e..] == ProgressMarker;
    assert line[e] == '%';
    assert forall j :: |text| < j < e ==> line[j] == digits[j - |text| - 1];
    LastIndexOfCharAt(line, ' ', e, |text|);
    assert line[|text|..e] == [' '] + digits;
  }

  /**
   * With no space before the marker, the whole text before it is read as the
   * percentage (QString::mid from -1).
   */
  lemma PercentTextNoSpace(text: String)
    requires ' ' !in text
    ensures EndsWith(text + ProgressMarker, ProgressMarker)
    ensures PercentText(text + ProgressMarker) == text
  {
    var line := text + ProgressMarker;
    var e := |text|;
    assert line[e..] == ProgressMarker;
    assert forall j :: 0 <= j <= e ==> line[j] != ' ' by {
      assert forall j :: 0 <= j < e ==> line[j] == text[j];
      assert line[e] == '%';
    }
    assert line[..e] == text;
  }

  /** A line "N% done", with nothing before the number, reports N. */
  lemma BareProgressRoundTrip(percent: int)
    requires IntMin <= percent <= IntMax
    ensures ProgressValue(IntToString(percent) + ProgressMarker) == Some(percent)
  {
    PercentTextNoSpace(IntToString(percent));
    IntToStringRoundTrip(percent);
  }

  /** A leading space does not change the number a text reads as. */
  lemma ToIntAfterSpace(t: String)
    requires t != [] && !IsSpace(t[0]) && !IsSpace(t[|t| - 1])
    ensures ToInt([' '] + t) == ToInt(t)
  {
    var spaced := [' '] + t;
    assert spaced + [] == spaced && [] + t + [] == t;
    TrimmedCore([' '], t, []);
    TrimmedCore([], t, []);
    SameTrimmedSameInt(spaced, t);
  }

  /** toInt reads the trimmed text only. */
  lemma SameTrimmedSameInt(s: String, t: String)
    requires Trimmed(s) == Trimmed(t)
    ensures ToInt(s) == ToInt(t)
  {
  }

  /** A line "<text> N% done" reports N. */
  lemma ProgressRoundTrip(text: String, percent: int)
    requires IntMin <= percent <= IntMax
    ensures ProgressValue(text + " " + IntToString(percent) + ProgressMarker) == Some(percent)
  {
    var digits := IntToString(percent);
    PercentTextAfterSpace(text, digits);
    IntToStringTrimmed(percent);
    ToIntAfterSpace(digits);
    IntToStringRoundTrip(percent);
  }

  /** The typical progress line of a run. */
  lemma ProgressExample()
    ensures ProgressValue("Checking foo.cpp... 42% done") == Some(42)
  {
    var text := "Checking foo.cpp...";
    ProgressRoundTrip(text, 42);
    FortyTwo();
    ExampleLine();
  }

  lemma ExampleLine()
    ensures "Checking foo.cpp..." + " " + "42" + ProgressMarker == "Checking foo.cpp... 42% done"
  {
  }

  lemma FortyTwo()
    ensures IntToString(42) == "42"
  {
    assert NatToString(4) == "4";
  }

  /** A percentage that is not a number is still reported, as 0. */
  lemma NonNumericPercentReportsZero()
    ensures ProgressValue("garbage% done") == Some(0)
  {
    var line := "garbage% done";
    assert line[|line| - |ProgressMarker|..] == ProgressMarker;
    assert forall j :: 0 <= j <= 7 ==> line[j] != ' ';
    var word := "garbage";
    assert PercentText(line) == word;
    assert !IsSpace(word[0]) && !IsSpace(word[|word| - 1]) && !IsDigit(word[0]);
    ToIntNonNumeric(word);
  }

  /** A text that starts with neither a sign nor a digit reads as 0. */
  lemma ToIntNonNumeric(t: String)
    requires t != [] && !IsSpace(t[0]) && !IsSpace(t[|t| - 1])
    requires !IsDigit(t[0]) && t[0] != '-' && t[0] != '+'
    ensures ToInt(t) == 0
  {
    TrimmedCore([], t, []);
    assert [] + t + [] == t;
  }
}
