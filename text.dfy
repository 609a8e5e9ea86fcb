/**
 * The string operations the forms and handlers rely on: JavaScript
 * truthiness of strings, `String.prototype.trim` and `String.prototype.split`
 * with a one-character separator.
 */
module Text {
  import opened Wrappers

  /**
   * The characters `trim` removes: the ECMAScript WhiteSpace code points
   * (tab, vertical tab, form feed, the byte order mark and every space
   * separator of category Zs) and the four LineTerminator code points.
   */
  const WhitespaceChars: seq<char> := [
    '\U{9}', '\U{B}', '\U{C}', '\U{20}', '\U{A0}', '\U{FEFF}', '\U{1680}',
    '\U{2000}', '\U{2001}', '\U{2002}', '\U{2003}', '\U{2004}', '\U{2005}', '\U{2006}',
    '\U{2007}', '\U{2008}', '\U{2009}', '\U{200A}', '\U{202F}', '\U{205F}', '\U{3000}',
    '\U{A}', '\U{D}', '\U{2028}', '\U{2029}'
  ]

  predicate IsWhitespace(c: char) {
    Occurs(c, WhitespaceChars)
  }

  /** `c in chars`, spelled out one character at a time so that the solver only unfolds it when asked. */
  predicate Occurs(c: char, chars: seq<char>) {
    chars != [] && (chars[0] == c || Occurs(c, chars[1..]))
  }

  /** A string field of a parsed JSON body is truthy when it is present and not "". */
  predicate Truthy(s: Option<string>) {
    s.Some? && s.value != ""
  }

  /** Every character of `s` from `lo` up to `hi` is whitespace. */
  predicate BlankBetween(s: string, lo: int, hi: int)
    requires 0 <= lo <= hi <= |s|
  {
    forall k :: lo <= k < hi ==> IsWhitespace(s[k])
  }

  predicate AllWhitespace(s: string) {
    BlankBetween(s, 0, |s|)
  }

  /** The first position at or after `i` that is not whitespace, or |s|. */
  function SkipBlanks(s: string, i: nat): (j: nat)
    requires i <= |s|
    ensures i <= j <= |s| && BlankBetween(s, i, j)
    ensures j == |s| || !IsWhitespace(s[j])
    decreases |s| - i
  {
    if i == |s| || !IsWhitespace(s[i]) then i else SkipBlanks(s, i + 1)
  }

  /** The end of `s[lo..j]` once its trailing whitespace is dropped. */
  function SkipBlanksBack(s: string, lo: nat, j: nat): (e: nat)
    requires lo <= j <= |s|
    ensures lo <= e <= j && BlankBetween(s, e, j)
    ensures e == lo || !IsWhitespace(s[e - 1])
  {
    if j == lo || !IsWhitespace(s[j - 1]) then j else SkipBlanksBack(s, lo, j - 1)
  }

  /** `r` is the slice of `s` starting at `i` and only whitespace lies outside it. */
  predicate SliceWithBlankMargins(r: string, s: string, i: int) {
    0 <= i <= |s| - |r| && r == s[i..i + |r|] && BlankBetween(s, 0, i) && BlankBetween(s, i + |r|, |s|)
  }

  /**
   * `s.trim()`: a slice of `s` that neither starts nor ends with whitespace,
   * everything cut away on either side being whitespace.
   */
  function Trim(s: string): (r: string)
    ensures exists i :: SliceWithBlankMargins(r, s, i)
    ensures r == [] || (!IsWhitespace(r[0]) && !IsWhitespace(r[|r| - 1]))
  {
    var i := SkipBlanks(s, 0);
    var e := SkipBlanksBack(s, i, |s|);
    assert SliceWithBlankMargins(s[i..e], s, i);
    s[i..e]
  }

  /** `!s.trim()`: the form rejects a field that is empty after trimming exactly when it is all whitespace. */
  lemma TrimEmptyIffBlank(s: string)
    ensures Trim(s) == [] <==> AllWhitespace(s)
  {
    var r := Trim(s);
    var i :| SliceWithBlankMargins(r, s, i);
    if r != [] {
      assert s[i] == r[0];
    }
  }

  /** Trimming only removes characters: every character of the result occurs in the input. */
  lemma TrimKeepsChars(s: string)
    ensures forall c :: c in Trim(s) ==> c in s
  {
    var r := Trim(s);
    var i :| SliceWithBlankMargins(r, s, i);
    forall c | c in r ensures c in s {
      var k :| 0 <= k < |r| && r[k] == c;
      assert s[i + k] == c;
    }
  }

  /** Trimming a trimmed string changes nothing. */
  lemma TrimIdempotent(s: string)
    ensures Trim(Trim(s)) == Trim(s)
  {
    var r := Trim(s);
    if r != [] {
      assert SkipBlanks(r, 0) == 0;
      assert SkipBlanksBack(r, 0, |r|) == |r|;
      assert r[0..|r|] == r;
    }
  }

  /** The position of the first `sep` at or after `i`, or |s| when there is none. */
  function NextSeparator(s: string, sep: char, i: nat): (j: nat)
    requires i <= |s|
    ensures i <= j <= |s| && (j < |s| ==> s[j] == sep)
    ensures forall k :: i <= k < j ==> s[k] != sep
    decreases |s| - i
  {
    if i == |s| || s[i] == sep then i else NextSeparator(s, sep, i + 1)
  }

  /** The pieces of `s[i..]` between consecutive separators. */
  function SplitFrom(s: string, sep: char, i: nat): (r: seq<string>)
    requires i <= |s|
    ensures |r| >= 1
    ensures forall k :: 0 <= k < |r| ==> sep !in r[k]
    decreases |s| - i
  {
    var j := NextSeparator(s, sep, i);
    assert forall c :: c in s[i..j] ==> c != sep;
    if j == |s| then [s[i..]] else [s[i..j]] + SplitFrom(s, sep, j + 1)
  }

  /**
   * `s.split(sep)`: the pieces between consecutive separators, in order;
   * there is always at least one piece, and the empty string gives [""].
   */
  function Split(s: string, sep: char): (r: seq<string>)
    ensures |r| >= 1
    ensures forall k :: 0 <= k < |r| ==> sep !in r[k]
  {
    SplitFrom(s, sep, 0)
  }

  /** The pieces laid end to end with `sep` between neighbours, as `join` does. */
  function Join(pieces: seq<string>, sep: char): string
    requires |pieces| >= 1
  {
    if |pieces| == 1 then pieces[0] else pieces[0] + [sep] + Join(pieces[1..], sep)
  }

  lemma {:induction false} JoinSplitFrom(s: string, sep: char, i: nat)
    requires i <= |s|
    ensures Join(SplitFrom(s, sep, i), sep) == s[i..]
    decreases |s| - i
  {
    var j := NextSeparator(s, sep, i);
    if j < |s| {
      var rest := SplitFrom(s, sep, j + 1);
      var pieces := [s[i..j]] + rest;
      assert SplitFrom(s, sep, i) == pieces;
      assert pieces[1..] == rest;
      JoinSplitFrom(s, sep, j + 1);
      calc {
        Join(pieces, sep);
        s[i..j] + [sep] + Join(rest, sep);
        s[i..j] + [sep] + s[j + 1..];
        { assert s[j] == sep; }
        s[i..];
      }
    }
  }

  /** Splitting loses nothing: joining the pieces back with the separator gives the original text. */
  lemma JoinSplit(s: string, sep: char)
    ensures Join(Split(s, sep), sep) == s
  {
    JoinSplitFrom(s, sep, 0);
  }
}
