/**
 * Text helpers shared by the orchestrator, the renderer and the client:
 * the white-space classes of JavaScript and Python, trimming, word and
 * separator splitting, joining, first-occurrence search, replacement,
 * decimal printing and parsing, pairing of words onto lines and clamping.
 */
module Strings {
  import opened Wrappers

  // ---------------------------------------------------------------------
  // Character classes
  // ---------------------------------------------------------------------

  /** What JavaScript's `\s` and `String.prototype.trim` treat as white space. */
  predicate IsJsSpace(c: char) {
    c == ' ' || c == '\t' || c == '\n' || c == '\r' || c == '\U{000B}' || c == '\U{000C}'
    || c == '\U{00A0}' || c == '\U{FEFF}' || c == '\U{1680}' || ('\U{2000}' <= c <= '\U{200A}')
    || c == '\U{2028}' || c == '\U{2029}' || c == '\U{202F}' || c == '\U{205F}' || c == '\U{3000}'
  }

  /** What Python's `str.isspace` (and so `str.split()` without argument) treats as white space. */
  predicate IsPySpace(c: char) {
    ('\t' <= c <= '\r') || ('\U{001C}' <= c <= '\U{001F}') || c == ' ' || c == '\U{0085}'
    || c == '\U{00A0}' || c == '\U{1680}' || ('\U{2000}' <= c <= '\U{200A}')
    || c == '\U{2028}' || c == '\U{2029}' || c == '\U{202F}' || c == '\U{205F}' || c == '\U{3000}'
  }

  /** The characters a JavaScript regular-expression `.` does not match. */
  predicate IsLineTerminator(c: char) {
    c == '\n' || c == '\r' || c == '\U{2028}' || c == '\U{2029}'
  }

  /** JavaScript's `\d`: an ASCII decimal digit. */
  predicate IsDigit(c: char) {
    '0' <= c <= '9'
  }

  predicate AllDigits(s: string) {
    forall i :: 0 <= i < |s| ==> IsDigit(s[i])
  }

  // ---------------------------------------------------------------------
  // Trimming (`String.prototype.trim`)
  // ---------------------------------------------------------------------

  /** Number of white-space characters at the start of `s`. */
  function LeadingSpaces(s: string): (n: nat)
    ensures n <= |s|
    ensures forall k :: 0 <= k < n ==> IsJsSpace(s[k])
    ensures n == |s| || !IsJsSpace(s[n])
    decreases |s|
  {
    if |s| > 0 && IsJsSpace(s[0]) then 1 + LeadingSpaces(s[1..]) else 0
  }

  /** Number of white-space characters at the end of `s`. */
  function TrailingSpaces(s: string): (n: nat)
    ensures n <= |s|
    ensures forall k :: |s| - n <= k < |s| ==> IsJsSpace(s[k])
    ensures n == |s| || !IsJsSpace(s[|s| - n - 1])
    decreases |s|
  {
    if |s| > 0 && IsJsSpace(s[|s| - 1]) then 1 + TrailingSpaces(s[..|s| - 1]) else 0
  }

  /** `s.trim()`: the longest slice of `s` that neither starts nor ends with white space. */
  function Trim(s: string): (r: string)
    ensures LeadingSpaces(s) + |r| <= |s|
    ensures r == [] || (!IsJsSpace(r[0]) && !IsJsSpace(r[|r| - 1]))
    ensures forall i :: 0 <= i < |r| ==> r[i] == s[LeadingSpaces(s) + i]
    ensures (forall i :: 0 <= i < |s| ==> IsJsSpace(s[i])) <==> r == []
  {
    var t := s[LeadingSpaces(s)..];
    var r := t[..|t| - TrailingSpaces(t)];
    assert r != [] ==> t[0] == r[0] && t[|t| - TrailingSpaces(t) - 1] == r[|r| - 1];
    assert (forall i :: 0 <= i < |s| ==> IsJsSpace(s[i])) ==> LeadingSpaces(s) == |s|;
    assert |t| > 0 ==> !IsJsSpace(t[0]) && TrailingSpaces(t) < |t|;
    r
  }

  // ---------------------------------------------------------------------
  // Words: maximal runs of non-separator characters
  // ---------------------------------------------------------------------

  /** Length of the run of non-separator characters at the start of `s`. */
  function WordLength(s: string, isSep: char -> bool): (n: nat)
    ensures n <= |s|
    ensures forall k :: 0 <= k < n ==> !isSep(s[k])
    ensures n == |s| || isSep(s[n])
    decreases |s|
  {
    if |s| > 0 && !isSep(s[0]) then 1 + WordLength(s[1..], isSep) else 0
  }

  /**
   * The maximal runs of non-separator characters of `s`, in order: Python's
   * `s.split()` with `isSep == IsPySpace`, and JavaScript's
   * `s.trim().split(/\s+/).filter(Boolean)` with `isSep == IsJsSpace`.
   */
  function Words(s: string, isSep: char -> bool): (ws: seq<string>)
    ensures forall i :: 0 <= i < |ws| ==> |ws[i]| > 0
    ensures forall i, k :: 0 <= i < |ws| && 0 <= k < |ws[i]| ==> !isSep(ws[i][k])
    decreases |s|
  {
    if |s| == 0 then []
    else if isSep(s[0]) then Words(s[1..], isSep)
    else
      var n := WordLength(s, isSep);
      [s[..n]] + Words(s[n..], isSep)
  }

  /** The characters of `s` that are not separators, in order. */
  function Unseparated(s: string, isSep: char -> bool): string
    decreases |s|
  {
    if |s| == 0 then [] else (if isSep(s[0]) then [] else [s[0]]) + Unseparated(s[1..], isSep)
  }

  function Concat(ws: seq<string>): string
    decreases |ws|
  {
    if |ws| == 0 then [] else ws[0] + Concat(ws[1..])
  }

  /** A string is all separators exactly when nothing is left once they are removed. */
  lemma {:induction false} AllSeparatorsIffEmpty(s: string, isSep: char -> bool)
    ensures (forall i :: 0 <= i < |s| ==> isSep(s[i])) <==> Unseparated(s, isSep) == []
    decreases |s|
  {
    if |s| > 0 {
      AllSeparatorsIffEmpty(s[1..], isSep);
      assert (forall i :: 0 <= i < |s| ==> isSep(s[i])) <==> isSep(s[0]) && (forall i :: 0 <= i < |s| - 1 ==> isSep(s[1..][i]));
    }
  }

  /** Concatenation distributes over appending lists of strings. */
  lemma {:induction false} ConcatAppend(ws: seq<string>, vs: seq<string>)
    ensures Concat(ws + vs) == Concat(ws) + Concat(vs)
    decreases |ws|
  {
    if |ws| > 0 {
      assert (ws + vs)[1..] == ws[1..] + vs;
      ConcatAppend(ws[1..], vs);
    } else {
      assert ws + vs == vs;
    }
  }

  lemma {:induction false} UnseparatedAppend(a: string, b: string, isSep: char -> bool)
    ensures Unseparated(a + b, isSep) == Unseparated(a, isSep) + Unseparated(b, isSep)
    decreases |a|
  {
    if |a| > 0 {
      assert (a + b)[1..] == a[1..] + b;
      UnseparatedAppend(a[1..], b, isSep);
    } else {
      assert a + b == b;
    }
  }

  lemma {:induction false} UnseparatedOfWord(w: string, isSep: char -> bool)
    requires forall k :: 0 <= k < |w| ==> !isSep(w[k])
    ensures Unseparated(w, isSep) == w
    decreases |w|
  {
    if |w| > 0 {
      UnseparatedOfWord(w[1..], isSep);
    }
  }

  /** Splitting into words loses only separators: the words, concatenated, are the other characters of `s`. */
  lemma {:induction false} WordsKeepText(s: string, isSep: char -> bool)
    ensures Concat(Words(s, isSep)) == Unseparated(s, isSep)
    decreases |s|
  {
    if |s| == 0 {
    } else if isSep(s[0]) {
      WordsKeepText(s[1..], isSep);
    } else {
      var n := WordLength(s, isSep);
      WordsKeepText(s[n..], isSep);
      assert s == s[..n] + s[n..];
      UnseparatedAppend(s[..n], s[n..], isSep);
      UnseparatedOfWord(s[..n], isSep);
    }
  }

  /** The word length is the index of the first separator, or the whole length when there is none. */
  lemma WordLengthIsFirstSeparator(s: string, isSep: char -> bool, n: nat)
    requires n <= |s|
    requires forall k :: 0 <= k < n ==> !isSep(s[k])
    requires n == |s| || isSep(s[n])
    ensures WordLength(s, isSep) == n
  {
  }

  /** A non-empty run without separators is exactly one word. */
  lemma WordsOfWord(w: string, isSep: char -> bool)
    requires |w| > 0
    requires forall k :: 0 <= k < |w| ==> !isSep(w[k])
    ensures Words(w, isSep) == [w]
  {
    WordLengthIsFirstSeparator(w, isSep, |w|);
    assert w[..|w|] == w && w[|w|..] == [];
  }

  /** A separator after `a` does not lengthen `a`'s first word. */
  lemma WordLengthBeforeSeparator(a: string, c: char, b: string, isSep: char -> bool)
    requires isSep(c)
    ensures WordLength(a + [c] + b, isSep) == WordLength(a, isSep)
  {
    var s, m := a + [c] + b, WordLength(a, isSep);
    assert forall k :: 0 <= k < m ==> s[k] == a[k];
    assert s[m] == if m < |a| then a[m] else c;
    WordLengthIsFirstSeparator(s, isSep, m);
  }

  /** A separator ends a word: the words on each side of it are split independently. */
  lemma {:induction false} WordsSplitAtSeparator(a: string, c: char, b: string, isSep: char -> bool)
    requires isSep(c)
    ensures Words(a + [c] + b, isSep) == Words(a, isSep) + Words(b, isSep)
    decreases |a|
  {
    var s := a + [c] + b;
    if |a| == 0 {
      assert s[1..] == b;
    } else if isSep(a[0]) {
      assert s[1..] == a[1..] + [c] + b;
      WordsSplitAtSeparator(a[1..], c, b, isSep);
    } else {
      var m := WordLength(a, isSep);
      WordLengthBeforeSeparator(a, c, b, isSep);
      assert s[..m] == a[..m];
      assert s[m..] == a[m..] + [c] + b;
      WordsSplitAtSeparator(a[m..], c, b, isSep);
    }
  }

  // ---------------------------------------------------------------------
  // Splitting on one separator character and joining
  // ---------------------------------------------------------------------

  /** Index of the first `c` in `s`. */
  function IndexOfChar(s: string, c: char): (r: Option<nat>)
    ensures r.Some? ==> r.value < |s| && s[r.value] == c && c !in s[..r.value]
    ensures r.None? ==> c !in s
    decreases |s|
  {
    if |s| == 0 then None
    else if s[0] == c then Some(0)
    else match IndexOfChar(s[1..], c)
      case None => None
      case Some(i) => assert s[1..][..i] == s[1..i + 1]; Some(i + 1)
  }

  /**
   * `s.split(c)` (JavaScript) and `s.split(c)` (Python) for a one-character
   * separator: the pieces between the occurrences of `c`; never empty.
   */
  function Split(s: string, c: char): (parts: seq<string>)
    ensures |parts| >= 1
    ensures forall i :: 0 <= i < |parts| ==> c !in parts[i]
    decreases |s|
  {
    match IndexOfChar(s, c)
    case None => [s]
    case Some(i) => [s[..i]] + Split(s[i + 1..], c)
  }

  /** `parts.join(sep)` / `sep.join(parts)`. */
  function Join(parts: seq<string>, sep: string): string
    decreases |parts|
  {
    if |parts| == 0 then [] else if |parts| == 1 then parts[0] else parts[0] + sep + Join(parts[1..], sep)
  }

  /** Joining the pieces of a split with the separator gives back the string. */
  lemma {:induction false} JoinSplit(s: string, c: char)
    ensures Join(Split(s, c), [c]) == s
    decreases |s|
  {
    match IndexOfChar(s, c)
    case None =>
    case Some(i) =>
      var rest := s[i + 1..];
      var parts := Split(s, c);
      assert parts == [s[..i]] + Split(rest, c);
      assert parts[1..] == Split(rest, c);
      assert Join(parts, [c]) == s[..i] + [c] + Join(Split(rest, c), [c]);
      JoinSplit(rest, c);
      assert s == s[..i] + [c] + rest;
  }

  /** Splitting a join of separator-free pieces gives back the pieces. */
  lemma {:induction false} SplitJoin(parts: seq<string>, c: char)
    requires |parts| >= 1
    requires forall i :: 0 <= i < |parts| ==> c !in parts[i]
    ensures Split(Join(parts, [c]), c) == parts
    decreases |parts|
  {
    if |parts| > 1 {
      var s := Join(parts, [c]);
      assert s == parts[0] + [c] + Join(parts[1..], [c]);
      assert s[|parts[0]|] == c;
      assert s[..|parts[0]|] == parts[0];
      assert IndexOfChar(s, c) == Some(|parts[0]|);
      assert s[|parts[0]| + 1..] == Join(parts[1..], [c]);
      SplitJoin(parts[1..], c);
    }
  }

  // ---------------------------------------------------------------------
  // Substring search and replacement
  // ---------------------------------------------------------------------

  predicate OccursAt(s: string, pat: string, k: nat) {
    k + |pat| <= |s| && s[k..k + |pat|] == pat
  }

  /** `s.indexOf(pat, from)`: the first occurrence at or after `from`. */
  function IndexOfFrom(s: string, pat: string, from: nat): (r: Option<nat>)
    ensures r.Some? ==> from <= r.value && OccursAt(s, pat, r.value)
    ensures r.Some? ==> forall k :: from <= k < r.value ==> !OccursAt(s, pat, k)
    ensures r.None? ==> forall k :: from <= k ==> !OccursAt(s, pat, k)
    decreases |s| - from
  {
    if from + |pat| > |s| then None
    else if s[from..from + |pat|] == pat then Some(from)
    else IndexOfFrom(s, pat, from + 1)
  }

  /** `s.indexOf(pat)`. */
  function IndexOf(s: string, pat: string): (r: Option<nat>)
    ensures r.Some? ==> OccursAt(s, pat, r.value) && forall k :: 0 <= k < r.value ==> !OccursAt(s, pat, k)
    ensures r.None? <==> forall k :: !OccursAt(s, pat, k)
  {
    IndexOfFrom(s, pat, 0)
  }

  /** Python's `s.replace(pat, rep)`: every non-overlapping occurrence, left to right. */
  function ReplaceAll(s: string, pat: string, rep: string): (r: string)
    requires |pat| > 0
    ensures (forall k :: !OccursAt(s, pat, k)) ==> r == s
    decreases |s|
  {
    match IndexOf(s, pat)
    case None => s
    case Some(i) => s[..i] + rep + ReplaceAll(s[i + |pat|..], pat, rep)
  }

  /**
   * Replacement goes left to right: the text before the first occurrence is
   * kept, that occurrence becomes `rep`, and the search resumes after it, so
   * occurrences never overlap.
   */
  lemma ReplaceAllFirst(a: string, pat: string, b: string, rep: string)
    requires |pat| > 0
    requires forall k :: 0 <= k < |a| ==> !OccursAt(a + pat + b, pat, k)
    ensures ReplaceAll(a + pat + b, pat, rep) == a + rep + ReplaceAll(b, pat, rep)
  {
    var s := a + pat + b;
    assert OccursAt(s, pat, |a|) by {
      assert s[|a|..|a| + |pat|] == pat;
    }
    assert IndexOf(s, pat) == Some(|a|);
    assert s[..|a|] == a;
    assert s[|a| + |pat|..] == b;
  }

  /** Replacing a pattern by itself changes nothing. */
  lemma {:induction false} ReplaceAllSame(s: string, pat: string)
    requires |pat| > 0
    ensures ReplaceAll(s, pat, pat) == s
    decreases |s|
  {
    match IndexOf(s, pat)
    case None =>
    case Some(i) =>
      ReplaceAllSame(s[i + |pat|..], pat);
      assert s[i..i + |pat|] == pat;
      assert s == s[..i] + s[i..i + |pat|] + s[i + |pat|..];
  }

  /** ASCII upper case (Python's `str.upper` on ASCII text). */
  function AsciiUpper(s: string): string {
    seq(|s|, i requires 0 <= i < |s| => if 'a' <= s[i] <= 'z' then (s[i] as int - 32) as char else s[i])
  }

  /** ASCII lower case (Python's `str.lower` on ASCII text). */
  function AsciiLower(s: string): string {
    seq(|s|, i requires 0 <= i < |s| => if 'A' <= s[i] <= 'Z' then (s[i] as int + 32) as char else s[i])
  }

  // ---------------------------------------------------------------------
  // Decimal numbers
  // ---------------------------------------------------------------------

  function DigitChar(d: nat): (c: char)
    requires d < 10
    ensures IsDigit(c) && c as int - '0' as int == d
  {
    (d + '0' as int) as char
  }

  /** `String(n)` / `str(n)` for a natural number. */
  function NatToString(n: nat): (s: string)
    ensures |s| > 0 && AllDigits(s)
    decreases n
  {
    if n < 10 then [DigitChar(n)] else NatToString(n / 10) + [DigitChar(n % 10)]
  }

  /** `String(i)` for an integer: a minus sign before the digits of a negative value. */
  function IntToString(i: int): string {
    if i < 0 then "-" + NatToString(-i) else NatToString(i)
  }

  /** `parseInt` of a string of decimal digits. */
  function DigitsValue(s: string): nat
    requires AllDigits(s)
    decreases |s|
  {
    if |s| == 0 then 0 else DigitsValue(s[..|s| - 1]) * 10 + (s[|s| - 1] as int - '0' as int)
  }

  /** Printing a number in decimal and parsing it back gives the number. */
  lemma {:induction false} DigitsRoundTrip(n: nat)
    ensures DigitsValue(NatToString(n)) == n
    decreases n
  {
    if n >= 10 {
      var s := NatToString(n);
      assert s[..|s| - 1] == NatToString(n / 10);
      DigitsRoundTrip(n / 10);
    }
  }

  // ---------------------------------------------------------------------
  // Pairing words onto lines
  // ---------------------------------------------------------------------

  /** The words taken two at a time, each pair joined by one space; an odd last word stands alone. */
  function Pairs(words: seq<string>): (lines: seq<string>)
    ensures |lines| == (|words| + 1) / 2
    decreases |words|
  {
    if |words| == 0 then []
    else if |words| == 1 then [words[0]]
    else [words[0] + " " + words[1]] + Pairs(words[2..])
  }

  /** Line `i` of `Pairs(words)` is words `2i` and `2i+1` joined by a space, or word `2i` alone at an odd end. */
  lemma {:induction false} PairsAt(words: seq<string>, i: nat)
    requires i < (|words| + 1) / 2
    ensures Pairs(words)[i] == if 2 * i + 1 < |words| then words[2 * i] + " " + words[2 * i + 1] else words[2 * i]
    decreases |words|
  {
    if i > 0 {
      PairsAt(words[2..], i - 1);
    }
  }

  /** Joining the paired lines with spaces gives the words joined with spaces: pairing only chooses line breaks. */
  lemma {:induction false} PairsKeepWords(words: seq<string>)
    ensures Join(Pairs(words), " ") == Join(words, " ")
    decreases |words|
  {
    if |words| > 2 {
      PairsKeepWords(words[2..]);
      assert Join(words[1..], " ") == words[1] + " " + Join(words[2..], " ");
    }
  }

  /**
   * The loop `for (i = 0; i < words.length; i += 2) lines.push(words.slice(i, i + 2).join(' '))`
   * (and its Python twin `for i in range(0, len(words), 2): lines.append(" ".join(words[i:i + 2]))`).
   */
  method PairUp(words: seq<string>) returns (lines: seq<string>)
    ensures lines == Pairs(words)
  {
    lines := [];
    var i := 0;
    while i < |words|
      invariant 0 <= i <= |words| + 1 && i % 2 == 0
      invariant i > |words| ==> i == |words| + 1
      invariant lines + Pairs(words[if i <= |words| then i else |words|..]) == Pairs(words)
      decreases |words| - i
    {
      if i + 1 < |words| {
        assert Pairs(words[i..]) == [words[i] + " " + words[i + 1]] + Pairs(words[i + 2..]);
        lines := lines + [words[i] + " " + words[i + 1]];
        i := i + 2;
      } else {
        assert Pairs(words[i..]) == [words[i]];
        lines := lines + [words[i]];
        i := i + 2;
      }
    }
  }

  // ---------------------------------------------------------------------
  // Clamping
  // ---------------------------------------------------------------------

  function Min(a: int, b: int): int {
    if a < b then a else b
  }

  /** `Math.min(hi, Math.max(lo, v))` (and Python's `max(lo, min(hi, v))`). */
  function Clamp(v: int, lo: int, hi: int): (r: int)
    requires lo <= hi
    ensures lo <= r <= hi
    ensures lo <= v <= hi ==> r == v
    ensures v < lo ==> r == lo
    ensures v > hi ==> r == hi
  {
    if v < lo then lo else if v > hi then hi else v
  }
}
