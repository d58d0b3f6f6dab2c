/**
 * The QStringList operations the file queue uses: QString's ordering,
 * removeDuplicates and sort.
 */
module StringLists {
  import opened QtStrings

  // ---------------------------------------------------------------------------
  // QString's operator<: lexicographic order of characters
  // ---------------------------------------------------------------------------

  predicate Below(a: String, b: String) {
    if a == [] then b != []
    else b != [] && (a[0] < b[0] || (a[0] == b[0] && Below(a[1..], b[1..])))
  }

  predicate AtMost(a: String, b: String) {
    a == b || Below(a, b)
  }

  lemma {:induction false} BelowAsymmetric(a: String, b: String)
    ensures !(Below(a, b) && Below(b, a))
  {
    if a != [] && b != [] && a[0] == b[0] {
      BelowAsymmetric(a[1..], b[1..]);
    }
  }

  lemma BelowIrreflexive(a: String)
    ensures !Below(a, a)
  {
    BelowAsymmetric(a, a);
  }

  lemma {:induction false} BelowTransitive(a: String, b: String, c: String)
    ensures Below(a, b) && Below(b, c) ==> Below(a, c)
  {
    if a != [] && b != [] && c != [] && a[0] == b[0] == c[0] {
      BelowTransitive(a[1..], b[1..], c[1..]);
    }
  }

  /** Any two different strings are ordered one way or the other. */
  lemma {:induction false} BelowTotal(a: String, b: String)
    ensures a == b || Below(a, b) || Below(b, a)
  {
    if a != [] && b != [] && a[0] == b[0] {
      BelowTotal(a[1..], b[1..]);
      assert a == [a[0]] + a[1..] && b == [b[0]] + b[1..];
    }
  }

  lemma AtMostTransitive(a: String, b: String, c: String)
    ensures AtMost(a, b) && AtMost(b, c) ==> AtMost(a, c)
  {
    BelowTransitive(a, b, c);
  }

  // ---------------------------------------------------------------------------
  // Sortedness
  // ---------------------------------------------------------------------------

  predicate Sorted(s: seq<String>) {
    forall i, j :: 0 <= i < j < |s| ==> AtMost(s[i], s[j])
  }

  predicate StrictlySorted(s: seq<String>) {
    forall i, j :: 0 <= i < j < |s| ==> Below(s[i], s[j])
  }

  predicate NoDuplicates(s: seq<String>) {
    forall i, j :: 0 <= i < j < |s| ==> s[i] != s[j]
  }

  /** The same strings, ignoring order and repetition. */
  ghost predicate SameElements(a: seq<String>, b: seq<String>) {
    forall x :: x in a <==> x in b
  }

  /** A strictly sorted list has no duplicates. */
  lemma StrictlySortedNoDuplicates(s: seq<String>)
    requires StrictlySorted(s)
    ensures NoDuplicates(s)
  {
    forall i, j | 0 <= i < j < |s| ensures s[i] != s[j] {
      BelowIrreflexive(s[i]);
    }
  }

  /** In a strictly sorted list every element is at least the first. */
  lemma StrictlySortedHead(s: seq<String>, x: String)
    requires StrictlySorted(s) && x in s
    ensures AtMost(s[0], x)
  {
    var k :| 0 <= k < |s| && s[k] == x;
    assert k == 0 || Below(s[0], s[k]);
  }

  /**
   * A strictly sorted list is determined by its elements: two strictly sorted
   * lists holding the same strings are equal.
   */
  lemma {:induction false} StrictlySortedUnique(a: seq<String>, b: seq<String>)
    requires StrictlySorted(a) && StrictlySorted(b) && SameElements(a, b)
    ensures a == b
  {
    assert a != [] ==> a[0] in b;
    assert b != [] ==> b[0] in a;
    if a != [] && b != [] {
      StrictlySortedHead(b, a[0]);
      StrictlySortedHead(a, b[0]);
      BelowAsymmetric(a[0], b[0]);
      assert a[0] == b[0];
      forall x ensures x in a[1..] <==> x in b[1..] {
        BelowIrreflexive(x);
        if x in a[1..] {
          var i :| 1 <= i < |a| && a[i] == x;
          assert Below(a[0], a[i]);
        }
        if x in b[1..] {
          var j :| 1 <= j < |b| && b[j] == x;
          assert Below(b[0], b[j]);
        }
        assert x in a <==> x in a[..1] || x in a[1..] by { assert a == a[..1] + a[1..]; }
        assert x in b <==> x in b[..1] || x in b[1..] by { assert b == b[..1] + b[1..]; }
      }
      StrictlySortedUnique(a[1..], b[1..]);
      assert a == [a[0]] + a[1..] && b == [b[0]] + b[1..];
    }
  }

  // ---------------------------------------------------------------------------
  // QStringList::removeDuplicates and QStringList::sort
  // ---------------------------------------------------------------------------

  /**
   * QStringList::removeDuplicates: one copy of each string. Which copy is kept
   * is not stated; the queue is sorted right after.
   */
  function RemoveDuplicates(s: seq<String>): (r: seq<String>)
    ensures NoDuplicates(r) && SameElements(r, s)
  {
    if s == [] then []
    else
      var r := RemoveDuplicates(s[..|s| - 1]);
      assert s == s[..|s| - 1] + [s[|s| - 1]];
      if s[|s| - 1] in r then r else r + [s[|s| - 1]]
  }

  /** Inserting `x` into a sorted list before the first element not below it. */
  function Insert(x: String, s: seq<String>): (r: seq<String>)
    requires Sorted(s)
    ensures Sorted(r) && |r| == |s| + 1
    ensures multiset(r) == multiset(s) + multiset{x}
    ensures forall y :: y in r <==> y == x || y in s
  {
    if s == [] then [x]
    else if !Below(s[0], x) then
      BelowTotal(s[0], x);
      assert forall j :: 0 < j < |s| ==> AtMost(x, s[j]) by {
        forall j | 0 < j < |s| ensures AtMost(x, s[j]) { AtMostTransitive(x, s[0], s[j]); }
      }
      [x] + s
    else
      var t := Insert(x, s[1..]);
      assert forall y :: y in t ==> AtMost(s[0], y);
      assert s == [s[0]] + s[1..];
      [s[0]] + t
  }

  /** QStringList::sort: the strings in ascending order. */
  function Sort(s: seq<String>): (r: seq<String>)
    ensures Sorted(r) && |r| == |s|
    ensures multiset(r) == multiset(s)
    ensures SameElements(r, s)
  {
    if s == [] then []
    else
      assert s == [s[0]] + s[1..];
      Insert(s[0], Sort(s[1..]))
  }

  /** Insertion of a new string keeps a list strictly sorted. */
  lemma InsertStrict(x: String, s: seq<String>)
    requires StrictlySorted(s) && x !in s
    ensures StrictlySorted(Insert(x, s))
  {
    var r := Insert(x, s);
    forall i, j | 0 <= i < j < |r| ensures Below(r[i], r[j]) {
      assert r[i] in r && r[j] in r;
      if r[i] == r[j] {
        // r[i] occurs twice in r, but r holds x once and each element of s once
        MultisetTwice(r, i, j);
        assert multiset(r)[r[i]] == multiset(s)[r[i]] + (if r[i] == x then 1 else 0);
        StrictlySortedNoDuplicates(s);
        NoDuplicatesCount(s, r[i]);
      }
    }
  }

  lemma MultisetTwice(r: seq<String>, i: nat, j: nat)
    requires i < j < |r| && r[i] == r[j]
    ensures multiset(r)[r[i]] >= 2
  {
    assert r == r[..i] + [r[i]] + r[i + 1..j] + [r[j]] + r[j + 1..];
  }

  lemma {:induction false} NoDuplicatesCount(s: seq<String>, x: String)
    requires NoDuplicates(s)
    ensures multiset(s)[x] == if x in s then 1 else 0
  {
    if s != [] {
      NoDuplicatesCount(s[1..], x);
      assert s == [s[0]] + s[1..];
      assert s[0] !in s[1..];
    }
  }

  /** Sorting a list without duplicates leaves it strictly sorted. */
  lemma {:induction false} SortStrict(s: seq<String>)
    requires NoDuplicates(s)
    ensures StrictlySorted(Sort(s))
  {
    if s != [] {
      SortStrict(s[1..]);
      assert s[0] !in s[1..];
      InsertStrict(s[0], Sort(s[1..]));
    }
  }

  /** removeDuplicates followed by sort, as the file queue applies them. */
  function SortedUnique(s: seq<String>): seq<String> {
    Sort(RemoveDuplicates(s))
  }

  /**
   * The deduplicated, sorted list is the canonical listing of the strings of
   * `s`: strictly sorted, with the same elements, and equal to every other
   * strictly sorted list with those elements.
   */
  lemma SortedUniqueCanonical(s: seq<String>, other: seq<String>)
    ensures StrictlySorted(SortedUnique(s)) && SameElements(SortedUnique(s), s)
    ensures StrictlySorted(other) && SameElements(other, s) ==> other == SortedUnique(s)
  {
    SortStrict(RemoveDuplicates(s));
    if StrictlySorted(other) && SameElements(other, s) {
      StrictlySortedUnique(other, SortedUnique(s));
    }
  }

  /**
   * Merging in two steps equals merging at once: a queue built by successive
   * merges is the sorted, duplicate-free union of everything merged into it.
   */
  lemma SortedUniqueMerge(a: seq<String>, b: seq<String>)
    ensures SortedUnique(SortedUnique(a) + b) == SortedUnique(a + b)
  {
    SortedUniqueCanonical(a, []);
    SortedUniqueCanonical(SortedUnique(a) + b, []);
    SortedUniqueCanonical(a + b, SortedUnique(SortedUnique(a) + b));
  }

  /** A list that is already strictly sorted is its own canonical listing. */
  lemma SortedUniqueFixpoint(s: seq<String>)
    requires StrictlySorted(s)
    ensures SortedUnique(s) == s
  {
    SortedUniqueCanonical(s, s);
  }

  /** Lists with the same strings have the same canonical listing. */
  lemma SortedUniqueSameElements(a: seq<String>, b: seq<String>)
    requires SameElements(a, b)
    ensures SortedUnique(a) == SortedUnique(b)
  {
    SortedUniqueCanonical(b, []);
    SortedUniqueCanonical(a, SortedUnique(b));
  }
}
