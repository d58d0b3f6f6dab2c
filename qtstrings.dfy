/**
 * The QString operations the runner relies on, as functions over sequences of
 * Unicode scalar values: a `char` is one character, so a character outside the
 * Basic Multilingual Plane counts 1 here where QString counts 2 code units.
 */
module QtStrings {
  import opened Wrappers

  type String = seq<char>

  // ---------------------------------------------------------------------------
  // Prefixes, suffixes and occurrences
  // ---------------------------------------------------------------------------

  /** QString::startsWith */
  predicate StartsWith(s: String, prefix: String) {
    |prefix| <= |s| && s[..|prefix|] == prefix
  }

  /** QString::endsWith */
  predicate EndsWith(s: String, suffix: String) {
    |suffix| <= |s| && s[|s| - |suffix|..] == suffix
  }

  /** `t` occurs in `s` starting at position `i`. */
  predicate OccursAt(s: String, t: String, i: nat) {
    i + |t| <= |s| && s[i..i + |t|] == t
  }

  /** The first position at or after `from` where `t` occurs in `s`. */
  function IndexOfFrom(s: String, t: String, from: nat): (r: Option<nat>)
    requires from <= |s|
    ensures r.Some? ==> from <= r.value && OccursAt(s, t, r.value)
    ensures forall j: nat :: from <= j && (r.None? || j < r.value) ==> !OccursAt(s, t, j)
    decreases |s| - from
  {
    if OccursAt(s, t, from) then Some(from)
    else if from == |s| then None
    else IndexOfFrom(s, t, from + 1)
  }

  /** QString::indexOf(t): the first occurrence of `t` in `s`; None stands for -1. */
  function IndexOf(s: String, t: String): (r: Option<nat>)
    ensures r.Some? ==> OccursAt(s, t, r.value)
    ensures forall j: nat :: (r.None? || j < r.value) ==> !OccursAt(s, t, j)
  {
    IndexOfFrom(s, t, 0)
  }

  /** The first position holding `c`; None when `c` does not occur. */
  function IndexOfChar(s: String, c: char): (r: Option<nat>)
    ensures r.None? <==> c !in s
    ensures r.Some? ==> r.value < |s| && s[r.value] == c && c !in s[..r.value]
    ensures r.Some? ==> forall j :: 0 <= j < r.value ==> s[j] != c
  {
    if |s| == 0 then None
    else if s[0] == c then Some(0)
    else match IndexOfChar(s[1..], c)
      case None => None
      case Some(i) => assert s[1..][..i] == s[1..i + 1]; Some(i + 1)
  }

  /** The first `c` is at `i` when `s[i]` is `c` and no earlier position holds one. */
  lemma IndexOfCharAt(s: String, c: char, i: nat)
    requires i < |s| && s[i] == c && c !in s[..i]
    ensures IndexOfChar(s, c) == Some(i)
  {
    assert forall j :: 0 <= j < i ==> s[..i][j] == s[j];
  }

  /**
   * QString::lastIndexOf(c, from) for 0 <= from < |s|: the last position at
   * or before `from` holding `c`; None stands for -1.
   */
  function LastIndexOfChar(s: String, c: char, from: nat): (r: Option<nat>)
    requires from < |s|
    ensures r.Some? ==> r.value <= from && s[r.value] == c
    ensures forall j: nat :: (r.None? || r.value < j) && j <= from ==> s[j] != c
  {
    if s[from] == c then Some(from)
    else if from == 0 then None
    else LastIndexOfChar(s, c, from - 1)
  }

  /** The last `c` at or before `from` is at `i` when `s[i]` is `c` and none follows up to `from`. */
  lemma LastIndexOfCharAt(s: String, c: char, from: nat, i: nat)
    requires i <= from < |s| && s[i] == c
    requires forall j :: i < j <= from ==> s[j] != c
    ensures LastIndexOfChar(s, c, from) == Some(i)
  {
  }

  /** QString::mid(pos) for pos >= 0: the suffix from `pos`, empty past the end. */
  function Mid(s: String, pos: nat): (r: String)
    ensures pos <= |s| ==> s == s[..pos] + r
    ensures pos >= |s| ==> r == []
  {
    if pos >= |s| then [] else s[pos..]
  }

  // ---------------------------------------------------------------------------
  // Whitespace (QChar::isSpace) and QString::trimmed
  // ---------------------------------------------------------------------------

  /**
   * QChar::isSpace: tab to carriage return, NEL, and the Unicode separators
   * (categories Zs, Zl and Zp).
   */
  predicate IsSpace(c: char) {
    || c == ' ' || ('\t' <= c <= '\r') || c == '\U{0085}' || c == '\U{00A0}'
    || c == '\U{1680}' || ('\U{2000}' <= c <= '\U{200A}') || c == '\U{2028}'
    || c == '\U{2029}' || c == '\U{202F}' || c == '\U{205F}' || c == '\U{3000}'
  }

  /** `s` with its leading whitespace removed. */
  function TrimStart(s: String): (r: String)
    ensures |r| <= |s| && r == s[|s| - |r|..]
    ensures forall i :: 0 <= i < |s| - |r| ==> IsSpace(s[i])
    ensures r != [] ==> !IsSpace(r[0])
  {
    if s != [] && IsSpace(s[0]) then TrimStart(s[1..]) else s
  }

  /** `s` with its trailing whitespace removed. */
  function TrimEnd(s: String): (r: String)
    ensures |r| <= |s| && r == s[..|r|]
    ensures forall i :: |r| <= i < |s| ==> IsSpace(s[i])
    ensures r != [] ==> !IsSpace(r[|r| - 1])
  {
    if s != [] && IsSpace(s[|s| - 1]) then TrimEnd(s[..|s| - 1]) else s
  }

  /** QString::trimmed */
  function Trimmed(s: String): String {
    TrimEnd(TrimStart(s))
  }

  lemma {:induction false} TrimStartOf(pre: String, rest: String)
    requires forall c <- pre :: IsSpace(c)
    requires rest != [] ==> !IsSpace(rest[0])
    ensures TrimStart(pre + rest) == rest
  {
    if pre != [] {
      assert pre[0] in pre;
      assert (pre + rest)[1..] == pre[1..] + rest;
      TrimStartOf(pre[1..], rest);
    } else {
      assert pre + rest == rest;
    }
  }

  lemma {:induction false} TrimEndOf(rest: String, post: String)
    requires forall c <- post :: IsSpace(c)
    requires rest != [] ==> !IsSpace(rest[|rest| - 1])
    ensures TrimEnd(rest + post) == rest
  {
    if post != [] {
      assert post[|post| - 1] in post;
      assert (rest + post)[..|rest + post| - 1] == rest + post[..|post| - 1];
      TrimEndOf(rest, post[..|post| - 1]);
    } else {
      assert rest + post == rest;
    }
  }

  /** Trimming removes exactly the surrounding whitespace: a string of the form
      spaces + core + spaces, whose core neither starts nor ends with a space,
      trims to that core. */
  lemma TrimmedCore(pre: String, core: String, post: String)
    requires forall c <- pre :: IsSpace(c)
    requires forall c <- post :: IsSpace(c)
    requires core != [] ==> !IsSpace(core[0]) && !IsSpace(core[|core| - 1])
    ensures Trimmed(pre + core + post) == core
  {
    if core == [] {
      assert pre + core + post == pre + post;
      TrimStartOf(pre + post, []);
      assert pre + post + [] == pre + post;
    } else {
      assert (core + post)[0] == core[0];
      assert pre + core + post == pre + (core + post);
      TrimStartOf(pre, core + post);
      TrimEndOf(core, post);
    }
  }

  // ---------------------------------------------------------------------------
  // QString::split and QStringList::join
  // ---------------------------------------------------------------------------

  /** QString::split(sep) keeping empty parts: the pieces between separators. */
  function Split(s: String, sep: char): (parts: seq<String>)
    ensures |parts| >= 1
    ensures forall p <- parts :: sep !in p
    decreases |s|
  {
    match IndexOfChar(s, sep)
    case None => [s]
    case Some(i) => [s[..i]] + Split(s[i + 1..], sep)
  }

  /** QString::split(sep, QString::SkipEmptyParts) */
  function SplitSkipEmpty(s: String, sep: char): seq<String> {
    NonEmpty(Split(s, sep))
  }

  /** The non-empty strings of `ps`, in order. */
  function NonEmpty(ps: seq<String>): (r: seq<String>)
    ensures forall p <- r :: p != [] && p in ps
  {
    if ps == [] then []
    else if ps[0] == [] then NonEmpty(ps[1..])
    else [ps[0]] + NonEmpty(ps[1..])
  }

  /** QStringList::join(sep) for a one-character separator. */
  function Join(parts: seq<String>, sep: char): String {
    if |parts| == 0 then []
    else if |parts| == 1 then parts[0]
    else parts[0] + [sep] + Join(parts[1..], sep)
  }

  /** The sum of the lengths of `parts`. */
  function TotalLength(parts: seq<String>): nat {
    if parts == [] then 0 else |parts[0]| + TotalLength(parts[1..])
  }

  /** All strings of `parts` concatenated. */
  function Concat(parts: seq<String>): String {
    if parts == [] then [] else parts[0] + Concat(parts[1..])
  }

  /** `s` with every `c` removed. */
  function RemoveAll(s: String, c: char): String {
    if s == [] then [] else (if s[0] == c then [] else [s[0]]) + RemoveAll(s[1..], c)
  }

  /** The number of times `c` occurs in `s`. */
  function Count(s: String, c: char): nat {
    if s == [] then 0 else (if s[0] == c then 1 else 0) + Count(s[1..], c)
  }

  lemma {:induction false} RemoveAllAppend(a: String, b: String, c: char)
    ensures RemoveAll(a + b, c) == RemoveAll(a, c) + RemoveAll(b, c)
  {
    if a == [] {
      assert a + b == b;
    } else {
      assert (a + b)[0] == a[0];
      assert (a + b)[1..] == a[1..] + b;
      RemoveAllAppend(a[1..], b, c);
    }
  }

  lemma {:induction false} CountAppend(a: String, b: String, c: char)
    ensures Count(a + b, c) == Count(a, c) + Count(b, c)
  {
    if a == [] {
      assert a + b == b;
    } else {
      assert (a + b)[0] == a[0];
      assert (a + b)[1..] == a[1..] + b;
      CountAppend(a[1..], b, c);
    }
  }

  /** A string without `c` loses nothing to RemoveAll and counts no `c`. */
  lemma {:induction false} WithoutChar(s: String, c: char)
    requires c !in s
    ensures RemoveAll(s, c) == s && Count(s, c) == 0
  {
    if s != [] { WithoutChar(s[1..], c); }
  }

  lemma JoinCons(a: String, parts: seq<String>, sep: char)
    requires parts != []
    ensures Join([a] + parts, sep) == a + [sep] + Join(parts, sep)
  {
    assert ([a] + parts)[1..] == parts;
  }

  /** The first piece of a split is a prefix of the string. */
  lemma SplitHeadIsPrefix(s: String, sep: char)
    ensures StartsWith(s, Split(s, sep)[0])
  {
    var r := IndexOfChar(s, sep);
    if r.Some? {
      assert Split(s, sep)[0] == s[..r.value];
    } else {
      assert Split(s, sep)[0] == s;
    }
  }

  /** Joining the pieces of a split with the same separator gives back the string. */
  lemma {:induction false} JoinSplit(s: String, sep: char)
    ensures Join(Split(s, sep), sep) == s
    decreases |s|
  {
    var r := IndexOfChar(s, sep);
    if r.Some? {
      var i := r.value;
      var rest := s[i + 1..];
      assert Split(s, sep) == [s[..i]] + Split(rest, sep);
      JoinSplit(rest, sep);
      JoinCons(s[..i], Split(rest, sep), sep);
      assert s == s[..i] + [sep] + rest;
    } else {
      assert Split(s, sep) == [s];
    }
  }

  /** Splitting a join gives back the parts, when no part holds the separator. */
  lemma {:induction false} SplitJoin(parts: seq<String>, sep: char)
    requires |parts| >= 1
    requires forall p <- parts :: sep !in p
    ensures Split(Join(parts, sep), sep) == parts
  {
    if |parts| > 1 {
      var s := Join(parts, sep);
      var p := parts[0];
      assert p in parts;
      assert s == p + [sep] + Join(parts[1..], sep);
      assert s[..|p|] == p;
      IndexOfCharAt(s, sep, |p|);
      assert s[|p| + 1..] == Join(parts[1..], sep);
      SplitJoin(parts[1..], sep);
    }
  }

  /** Splitting `a + [sep] + b`, where `a` holds no separator, gives `a` first. */
  lemma SplitAfterField(a: String, b: String, sep: char)
    requires sep !in a
    ensures Split(a + [sep] + b, sep) == [a] + Split(b, sep)
  {
    var s := a + [sep] + b;
    assert s[..|a|] == a;
    IndexOfCharAt(s, sep, |a|);
    assert s[|a| + 1..] == b;
  }

  /** A split has one more piece than the string has separators. */
  lemma {:induction false} SplitCount(s: String, sep: char)
    ensures |Split(s, sep)| == Count(s, sep) + 1
    decreases |s|
  {
    match IndexOfChar(s, sep)
    case None => WithoutChar(s, sep);
    case Some(i) =>
      SplitCount(s[i + 1..], sep);
      assert s == s[..i] + [sep] + s[i + 1..];
      CountAppend(s[..i] + [sep], s[i + 1..], sep);
      CountAppend(s[..i], [sep], sep);
      WithoutChar(s[..i], sep);
  }

  /** The pieces of a split, put together, are the string without its separators. */
  lemma RemoveAllAtSeparator(s: String, sep: char, i: nat)
    requires i < |s| && s[i] == sep && sep !in s[..i]
    ensures RemoveAll(s, sep) == s[..i] + RemoveAll(s[i + 1..], sep)
  {
    assert s == s[..i] + [sep] + s[i + 1..];
    RemoveAllAround(s[..i], s[i + 1..], sep);
  }

  /** A separator after a separator-free text is dropped and the text kept. */
  lemma RemoveAllAround(a: String, b: String, sep: char)
    requires sep !in a
    ensures RemoveAll(a + [sep] + b, sep) == a + RemoveAll(b, sep)
  {
    var head := a + [sep];
    assert RemoveAll(head, sep) == a by {
      RemoveAllAppend(a, [sep], sep);
      assert RemoveAll([sep], sep) == [] by {
        assert [sep][1..] == [];
      }
      WithoutChar(a, sep);
      assert a + [] == a;
    }
    RemoveAllAppend(head, b, sep);
  }

  lemma {:induction false} ConcatSplit(s: String, sep: char)
    ensures Concat(Split(s, sep)) == RemoveAll(s, sep)
    decreases |s|
  {
    var r := IndexOfChar(s, sep);
    if r.Some? {
      var i := r.value;
      var parts := Split(s[i + 1..], sep);
      assert Split(s, sep) == [s[..i]] + parts;
      assert ([s[..i]] + parts)[1..] == parts;
      ConcatSplit(s[i + 1..], sep);
      RemoveAllAtSeparator(s, sep, i);
    } else {
      assert Split(s, sep) == [s];
      WithoutChar(s, sep);
    }
  }

  lemma {:induction false} ConcatNonEmpty(ps: seq<String>)
    ensures Concat(NonEmpty(ps)) == Concat(ps)
  {
    if ps != [] {
      ConcatNonEmpty(ps[1..]);
      if ps[0] != [] {
        var r := [ps[0]] + NonEmpty(ps[1..]);
        assert r[0] == ps[0] && r[1..] == NonEmpty(ps[1..]);
      }
    }
  }

  /**
   * Splitting with SkipEmptyParts yields non-empty, separator-free pieces
   * that together hold every other character of the string, in order.
   */
  lemma SplitSkipEmptyPieces(s: String, sep: char)
    ensures forall p <- SplitSkipEmpty(s, sep) :: p != [] && sep !in p
    ensures Concat(SplitSkipEmpty(s, sep)) == RemoveAll(s, sep)
  {
    ConcatNonEmpty(Split(s, sep));
    ConcatSplit(s, sep);
  }

  /** NonEmpty keeps a list that has no empty string. */
  lemma {:induction false} NonEmptyKeeps(ps: seq<String>)
    requires forall p <- ps :: p != []
    ensures NonEmpty(ps) == ps
  {
    if ps != [] {
      assert ps[0] in ps;
      assert forall p <- ps[1..] :: p in ps;
      NonEmptyKeeps(ps[1..]);
      assert [ps[0]] + ps[1..] == ps;
    }
  }

  /** NonEmpty works piecewise: the empty strings of each part are dropped, the order kept. */
  lemma {:induction false} NonEmptyAppend(a: seq<String>, b: seq<String>)
    ensures NonEmpty(a + b) == NonEmpty(a) + NonEmpty(b)
  {
    if a == [] {
      assert a + b == b;
    } else {
      assert (a + b)[0] == a[0];
      assert (a + b)[1..] == a[1..] + b;
      NonEmptyAppend(a[1..], b);
    }
  }

  /**
   * SkipEmptyParts splits at every separator and then drops the empty
   * pieces: joining separator-free pieces, empty ones included, and
   * splitting again gives back exactly the non-empty pieces, in order.
   */
  lemma SplitSkipEmptyJoin(ps: seq<String>, sep: char)
    requires forall p <- ps :: sep !in p
    ensures SplitSkipEmpty(Join(ps, sep), sep) == NonEmpty(ps)
  {
    if ps == [] {
      assert Split([], sep) == [[]];
      assert NonEmpty([[]]) == NonEmpty([[]][1..]);
    } else {
      SplitJoin(ps, sep);
    }
  }

  /** A non-empty string without the separator is one piece. */
  lemma SplitSkipEmptyWhole(s: String, sep: char)
    requires s != [] && sep !in s
    ensures SplitSkipEmpty(s, sep) == [s]
  {
    SplitSkipEmptyJoin([s], sep);
    NonEmptyKeeps([s]);
  }

  /** Leading, doubled and trailing separators give no pieces. */
  lemma SplitSkipEmptyExample()
    ensures SplitSkipEmpty(" a  b ", ' ') == ["a", "b"]
  {
    var ps: seq<String> := ["", "a", "", "b", ""];
    assert Join(ps, ' ') == " a  b " by {
      assert Join(ps[3..], ' ') == "b ";
      assert Join(ps[1..], ' ') == "a  b ";
    }
    SplitSkipEmptyJoin(ps, ' ');
    assert NonEmpty(ps) == ["a", "b"] by {
      NonEmptyAppend(ps[..2], ps[2..]);
      assert ps == ps[..2] + ps[2..];
      NonEmptyAppend(ps[2..4], ps[4..]);
      assert ps[2..] == ps[2..4] + ps[4..];
    }
  }

  /** The joined length is the parts' lengths plus one separator between each two. */
  lemma {:induction false} JoinLength(parts: seq<String>, sep: char)
    ensures |Join(parts, sep)| == TotalLength(parts) + (if parts == [] then 0 else |parts| - 1)
  {
    if |parts| > 1 {
      JoinLength(parts[1..], sep);
    } else if |parts| == 1 {
      assert parts[1..] == [];
    }
  }

  lemma {:induction false} TotalLengthAppend(a: seq<String>, b: seq<String>)
    ensures TotalLength(a + b) == TotalLength(a) + TotalLength(b)
  {
    if a == [] {
      assert a + b == b;
    } else {
      assert (a + b)[0] == a[0];
      assert (a + b)[1..] == a[1..] + b;
      TotalLengthAppend(a[1..], b);
    }
  }

  /** Every piece of a split occurs in the string. */
  lemma OccursInSuffix(s: String, off: nat, p: String, j: nat)
    requires off <= |s| && OccursAt(s[off..], p, j)
    ensures OccursAt(s, p, off + j)
  {
    assert s[off + j..off + j + |p|] == s[off..][j..j + |p|];
  }

  lemma {:induction false} SplitPieceOccurs(s: String, sep: char, k: nat)
    requires k < |Split(s, sep)|
    ensures exists i: nat :: OccursAt(s, Split(s, sep)[k], i)
    decreases |s|
  {
    var r := IndexOfChar(s, sep);
    if r.Some? {
      var i := r.value;
      var parts := Split(s[i + 1..], sep);
      assert Split(s, sep) == [s[..i]] + parts;
      if k == 0 {
        assert Split(s, sep)[k] == s[..i];
        assert OccursAt(s, s[..i], 0);
      } else {
        assert Split(s, sep)[k] == parts[k - 1];
        SplitPieceOccurs(s[i + 1..], sep, k - 1);
        var j: nat :| OccursAt(s[i + 1..], parts[k - 1], j);
        OccursInSuffix(s, i + 1, parts[k - 1], j);
      }
    } else {
      assert Split(s, sep)[k] == s;
      assert OccursAt(s, s, 0);
    }
  }

  // ---------------------------------------------------------------------------
  // Decimal numbers: QString::toInt and QString::number
  // ---------------------------------------------------------------------------

  const IntMin: int := -0x8000_0000
  const IntMax: int := 0x7FFF_FFFF

  predicate IsDigit(c: char) {
    '0' <= c <= '9'
  }

  predicate AllDigits(s: String) {
    forall c <- s :: IsDigit(c)
  }

  function DigitValue(c: char): nat
    requires IsDigit(c)
  {
    (c as int) - ('0' as int)
  }

  /** The value of a string of decimal digits. */
  function DigitsValue(ds: String): nat
    requires AllDigits(ds)
  {
    if ds == [] then 0
    else
      assert ds[|ds| - 1] in ds;
      10 * DigitsValue(ds[..|ds| - 1]) + DigitValue(ds[|ds| - 1])
  }

  /**
   * QString::toInt with its `ok` flag: surrounding whitespace is ignored, one
   * optional sign, then at least one digit and nothing else, within the
   * 32-bit range; None where `ok` would be false.
   */
  function ParseInt(s: String): Option<int> {
    ParseSigned(Trimmed(s))
  }

  /** The conversion proper, on text whose surrounding whitespace is already gone. */
  function ParseSigned(t: String): Option<int> {
    var negative := |t| > 0 && t[0] == '-';
    var digits := if |t| > 0 && (t[0] == '-' || t[0] == '+') then t[1..] else t;
    if digits == [] || !AllDigits(digits) then None
    else
      var value: int := DigitsValue(digits);
      var v := if negative then -value else value;
      if IntMin <= v <= IntMax then Some(v) else None
  }

  /** QString::toInt without `ok`: a failed conversion yields 0. */
  function ToInt(s: String): (r: int)
    ensures IntMin <= r <= IntMax
    ensures ParseInt(s).Some? ==> r == ParseInt(s).value
    ensures ParseInt(s).None? ==> r == 0
  {
    ParseInt(s).GetOr(0)
  }

  /** The decimal digits of `n`, most significant first, without leading zeros. */
  function NatToString(n: nat): (r: String)
    ensures r != [] && AllDigits(r)
  {
    (if n < 10 then [] else NatToString(n / 10)) + [('0' as int + n % 10) as char]
  }

  /** QString::number(n) */
  function IntToString(n: int): (r: String)
    ensures r != [] && ' ' !in r
  {
    if n < 0 then "-" + NatToString(-n) else NatToString(n)
  }

  lemma {:induction false} NatToStringValue(n: nat)
    ensures DigitsValue(NatToString(n)) == n
  {
    var r := NatToString(n);
    assert r[..|r| - 1] == if n < 10 then [] else NatToString(n / 10);
    if n >= 10 {
      NatToStringValue(n / 10);
    }
  }

  /** QString::number writes no surrounding whitespace. */
  lemma IntToStringTrimmed(n: int)
    ensures !IsSpace(IntToString(n)[0]) && !IsSpace(IntToString(n)[|IntToString(n)| - 1])
    ensures Trimmed(IntToString(n)) == IntToString(n)
  {
    var s := IntToString(n);
    var d := NatToString(if n < 0 then -n else n);
    assert IsDigit(d[0]) && IsDigit(d[|d| - 1]) by {
      assert d[0] in d && d[|d| - 1] in d;
    }
    assert s[|s| - 1] == d[|d| - 1];
    TrimmedCore([], s, []);
    assert [] + s + [] == s;
  }

  lemma NatToStringRoundTrip(n: nat)
    requires n <= IntMax
    ensures ParseInt(NatToString(n)) == Some(n)
  {
    var s := NatToString(n);
    assert ParseSigned(s) == Some(n) by {
      NatToStringValue(n);
      ParseNonNegative(s);
    }
    assert ParseInt(s) == ParseSigned(s) by {
      IntToStringTrimmed(n);
    }
  }

  /** Digits read as their value, within range. */
  lemma ParseNonNegative(s: String)
    requires s != [] && AllDigits(s) && DigitsValue(s) <= IntMax
    ensures ParseSigned(s) == Some(DigitsValue(s))
  {
    assert s[0] in s;
    assert s[0] != '-' && s[0] != '+';
  }

  lemma NegativeToStringRoundTrip(n: int)
    requires IntMin <= n < 0
    ensures ParseInt(IntToString(n)) == Some(n)
  {
    NegativeParsesSigned(n);
    NumberNeedsNoTrimming(n);
  }

  lemma NegativeParsesSigned(n: int)
    requires IntMin <= n < 0
    ensures ParseSigned(IntToString(n)) == Some(n)
  {
    var d := NatToString(-n);
    NatToStringValue(-n);
    ParseNegative(d);
  }

  /** Reading QString::number's text skips no whitespace. */
  lemma NumberNeedsNoTrimming(n: int)
    ensures ParseInt(IntToString(n)) == ParseSigned(IntToString(n))
  {
    IntToStringTrimmed(n);
  }

  /** A "-" followed by digits reads as the negated digits' value, within range. */
  lemma ParseNegative(d: String)
    requires d != [] && AllDigits(d) && DigitsValue(d) <= -IntMin
    ensures ParseSigned("-" + d) == Some(-(DigitsValue(d) as int))
  {
    assert ("-" + d)[1..] == d;
  }

  /** QString::toInt reads back what QString::number wrote, for every 32-bit value. */
  lemma IntToStringRoundTrip(n: int)
    requires IntMin <= n <= IntMax
    ensures ParseInt(IntToString(n)) == Some(n)
    ensures ToInt(IntToString(n)) == n
  {
    if n < 0 {
      NegativeToStringRoundTrip(n);
    } else {
      NatToStringRoundTrip(n);
    }
  }
}
