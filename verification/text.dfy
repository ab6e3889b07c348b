/**
 * The string operations the views rely on, restricted to ASCII:
 * `str.lower`, `str.strip`, `str.startswith`, `str.split(sep)`.
 */
module Text {
  import opened Wrappers

  /** Python's `str.isspace` on ASCII: space, tab through carriage return, and the separators 0x1C-0x1F. */
  predicate IsSpace(c: char) {
    c == ' ' || ('\t' <= c <= '\r') || ('\U{1C}' <= c <= '\U{1F}')
  }

  predicate IsUpper(c: char) {
    'A' <= c <= 'Z'
  }

  function LowerChar(c: char): (r: char)
    ensures !IsUpper(r)
  {
    if IsUpper(c) then (c as int + 32) as char else c
  }

  /** Python's `str.lower()` on ASCII letters; every other character is kept. */
  function Lower(s: string): (r: string)
    ensures |r| == |s|
    ensures forall i :: 0 <= i < |s| ==> r[i] == LowerChar(s[i])
  {
    seq(|s|, i requires 0 <= i < |s| => LowerChar(s[i]))
  }

  /** No white space at either end. */
  predicate Trimmed(s: string) {
    |s| == 0 || (!IsSpace(s[0]) && !IsSpace(s[|s| - 1]))
  }

  /** `r` is the slice of `s` starting at `i`, and everything outside the slice is white space. */
  predicate StrippedAt(s: string, r: string, i: int) {
    && 0 <= i <= |s| - |r|
    && r == s[i..i + |r|]
    && (forall k :: 0 <= k < i ==> IsSpace(s[k]))
    && (forall k :: i + |r| <= k < |s| ==> IsSpace(s[k]))
  }

  /** The position of the first non-space character at or after `from` (or `|s|`). */
  function SkipSpace(s: string, from: nat): (k: nat)
    requires from <= |s|
    ensures from <= k <= |s|
    ensures forall j :: from <= j < k ==> IsSpace(s[j])
    ensures k < |s| ==> !IsSpace(s[k])
    decreases |s| - from
  {
    if from < |s| && IsSpace(s[from]) then SkipSpace(s, from + 1) else from
  }

  /** The end of the text in `s[lo..end]` once trailing white space is dropped. */
  function SkipSpaceBack(s: string, lo: nat, end: nat): (k: nat)
    requires lo <= end <= |s|
    ensures lo <= k <= end
    ensures forall j :: k <= j < end ==> IsSpace(s[j])
    ensures k > lo ==> !IsSpace(s[k - 1])
    decreases end
  {
    if end > lo && IsSpace(s[end - 1]) then SkipSpaceBack(s, lo, end - 1) else end
  }

  /**
   * Python's `str.strip()` with no argument: the result is a contiguous slice
   * of `s` with no white space at either end, and only white space was cut.
   */
  function Strip(s: string): (r: string)
    ensures Trimmed(r)
    ensures exists i :: StrippedAt(s, r, i)
  {
    var lo := SkipSpace(s, 0);
    var hi := SkipSpaceBack(s, lo, |s|);
    assert StrippedAt(s, s[lo..hi], lo);
    s[lo..hi]
  }

  /** A string without white space at either end is its own strip. */
  lemma StripTrimmed(s: string)
    requires Trimmed(s)
    ensures Strip(s) == s
  {
  }

  predicate StartsWith(s: string, prefix: string) {
    |prefix| <= |s| && s[..|prefix|] == prefix
  }

  /** `sep` occurs in `s` at position `i`. */
  predicate OccursAt(s: string, sep: string, i: int) {
    0 <= i && i + |sep| <= |s| && s[i..i + |sep|] == sep
  }

  /** The first position at or after `from` where `sep` occurs in `s`, if any. */
  function FindFrom(s: string, sep: string, from: nat): (r: Option<nat>)
    requires from <= |s|
    ensures r.Some? ==> from <= r.value && OccursAt(s, sep, r.value)
    ensures r.Some? ==> forall k :: from <= k < r.value ==> !OccursAt(s, sep, k)
    ensures r.None? ==> forall k :: from <= k ==> !OccursAt(s, sep, k)
    decreases |s| - from
  {
    if from + |sep| > |s| then None
    else if s[from..from + |sep|] == sep then Some(from)
    else FindFrom(s, sep, from + 1)
  }

  /** Python's `str.find`, with `None` for -1. */
  function Find(s: string, sep: string): Option<nat> {
    FindFrom(s, sep, 0)
  }

  /** Python's `sep in s`. */
  predicate Contains(s: string, sep: string) {
    Find(s, sep).Some?
  }

  /** Searching for a one-character separator looks at one character at a time. */
  lemma FindCharStep(s: string, c: char, from: nat)
    requires from < |s|
    ensures FindFrom(s, [c], from) == if s[from] == c then Some(from) else FindFrom(s, [c], from + 1)
  {
    assert s[from..from + 1] == [s[from]];
  }

  /** Python's `sep.join(pieces)` for a non-empty list of pieces. */
  function Join(pieces: seq<string>, sep: string): string
    requires |pieces| >= 1
    decreases |pieces|
  {
    if |pieces| == 1 then pieces[0] else pieces[0] + sep + Join(pieces[1..], sep)
  }

  /** The text in front of the first occurrence of `sep` does not contain `sep`. */
  lemma PrefixBeforeFirstOccurrence(s: string, sep: string, i: nat)
    requires |sep| > 0
    requires Find(s, sep) == Some(i)
    ensures !Contains(s[..i], sep)
  {
    var t := s[..i];
    forall k | 0 <= k
      ensures !OccursAt(t, sep, k)
    {
      if k + |sep| <= |t| {
        assert t[k..k + |sep|] == s[k..k + |sep|];
        assert !OccursAt(s, sep, k);
      }
    }
  }

  /**
   * Python's `s.split(sep)` for a non-empty separator: the pieces between
   * successive non-overlapping occurrences of `sep`, scanning left to right.
   * Joining the pieces with `sep` gives `s` back, no piece contains `sep`,
   * and there are at least two pieces exactly when `sep` occurs in `s`.
   */
  function Split(s: string, sep: string): (r: seq<string>)
    requires |sep| > 0
    ensures |r| >= 1
    ensures Join(r, sep) == s
    ensures forall k :: 0 <= k < |r| ==> !Contains(r[k], sep)
    ensures |r| >= 2 <==> Contains(s, sep)
    decreases |s|
  {
    match Find(s, sep)
    case None => [s]
    case Some(i) =>
      PrefixBeforeFirstOccurrence(s, sep, i);
      var rest := Split(s[i + |sep|..], sep);
      var r := [s[..i]] + rest;
      assert r[1..] == rest;
      assert s == s[..i] + s[i..i + |sep|] + s[i + |sep|..];
      r
  }

  /** The number of occurrences of `c` in `s`. */
  function CountChar(s: string, c: char): nat
    decreases |s|
  {
    if |s| == 0 then 0 else (if s[0] == c then 1 else 0) + CountChar(s[1..], c)
  }

  lemma {:induction false} CountCharAppend(a: string, b: string, c: char)
    ensures CountChar(a + b, c) == CountChar(a, c) + CountChar(b, c)
    decreases |a|
  {
    if |a| > 0 {
      assert (a + b)[1..] == a[1..] + b;
      CountCharAppend(a[1..], b, c);
    } else {
      assert a + b == b;
    }
  }

  lemma {:induction false} CountCharAbsent(s: string, c: char)
    requires forall k :: 0 <= k < |s| ==> s[k] != c
    ensures CountChar(s, c) == 0
    decreases |s|
  {
    if |s| > 0 {
      CountCharAbsent(s[1..], c);
    }
  }

  /** Splitting on a one-character separator gives one more piece than there are separators. */
  lemma {:induction false} SplitCharCount(s: string, c: char)
    ensures |Split(s, [c])| == CountChar(s, c) + 1
    decreases |s|
  {
    var sep := [c];
    match Find(s, sep)
    case None =>
      forall k | 0 <= k < |s|
        ensures s[k] != c
      {
        assert !OccursAt(s, sep, k);
        assert s[k..k + 1] == [s[k]];
      }
      CountCharAbsent(s, c);
    case Some(i) =>
      var t := s[i + 1..];
      forall k | 0 <= k < i
        ensures s[..i][k] != c
      {
        assert !OccursAt(s, sep, k);
        assert s[k..k + 1] == [s[k]];
      }
      CountCharAbsent(s[..i], c);
      assert s[i..i + 1] == sep;
      assert s == s[..i] + [c] + t;
      CountCharAppend(s[..i] + [c], t, c);
      CountCharAppend(s[..i], [c], c);
      SplitCharCount(t, c);
  }
}
