/**
 * The string operations the matching engine relies on, with Python's
 * semantics: `str.lower()` (ASCII letters only), `str.strip()`,
 * `str.split(',')` and the substring test `needle in haystack`.
 */
module Text {

  // ---------------------------------------------------------------------
  // Case folding
  // ---------------------------------------------------------------------

  /** Lower-cases one ASCII upper-case letter; every other character is kept. */
  function LowerChar(c: char): char {
    if 'A' <= c <= 'Z' then (c as int + 32) as char else c
  }

  /** `s.lower()`, restricted to the ASCII letters. */
  function Lower(s: string): (r: string)
    ensures |r| == |s|
    ensures forall i :: 0 <= i < |s| ==> r[i] == LowerChar(s[i])
  {
    seq(|s|, i requires 0 <= i < |s| => LowerChar(s[i]))
  }

  /** Lower-casing twice is lower-casing once. */
  lemma LowerIdempotent(s: string)
    ensures Lower(Lower(s)) == Lower(s)
  {
    var once := Lower(s);
    assert forall i :: 0 <= i < |s| ==> LowerChar(once[i]) == once[i];
  }

  /** Lower-casing commutes with taking a slice. */
  lemma LowerSlice(s: string, lo: int, hi: int)
    requires 0 <= lo <= hi <= |s|
    ensures Lower(s[lo..hi]) == Lower(s)[lo..hi]
  {
  }

  // ---------------------------------------------------------------------
  // Whitespace stripping
  // ---------------------------------------------------------------------

  /** The characters for which Python's `str.isspace()` holds. */
  predicate IsSpace(c: char) {
    || '\t' <= c <= '\r'
    || '\U{1C}' <= c <= ' '
    || c == '\U{85}' || c == '\U{A0}' || c == '\U{1680}'
    || '\U{2000}' <= c <= '\U{200A}'
    || c == '\U{2028}' || c == '\U{2029}' || c == '\U{202F}'
    || c == '\U{205F}' || c == '\U{3000}'
  }

  /** The number of whitespace characters that open `s`. */
  function LeadingSpaces(s: string): (n: nat)
    ensures n <= |s|
    ensures forall i :: 0 <= i < n ==> IsSpace(s[i])
    ensures n < |s| ==> !IsSpace(s[n])
  {
    if |s| > 0 && IsSpace(s[0]) then 1 + LeadingSpaces(s[1..]) else 0
  }

  /** The number of whitespace characters that close `s`. */
  function TrailingSpaces(s: string): (n: nat)
    ensures n <= |s|
    ensures forall i :: |s| - n <= i < |s| ==> IsSpace(s[i])
    ensures n < |s| ==> !IsSpace(s[|s| - n - 1])
  {
    if |s| > 0 && IsSpace(s[|s| - 1]) then 1 + TrailingSpaces(s[..|s| - 1]) else 0
  }

  /**
   * `s.strip()`: `s` without its leading and trailing whitespace. The result
   * sits in `s` after the leading blanks, neither opens nor closes with
   * whitespace, and everything of `s` around it is whitespace; these facts
   * leave only one possible result.
   */
  function Strip(s: string): (r: string)
    ensures |r| <= |s|
    ensures r != [] ==> !IsSpace(r[0]) && !IsSpace(r[|r| - 1])
    ensures OccursAt(r, s, LeadingSpaces(s))
    ensures forall i :: 0 <= i < LeadingSpaces(s) || LeadingSpaces(s) + |r| <= i < |s| ==> IsSpace(s[i])
  {
    var lead := LeadingSpaces(s);
    var rest := s[lead..];
    rest[..|rest| - TrailingSpaces(rest)]
  }

  /**
   * The contract of `Strip` determines it: any text that sits in `s` after
   * the leading blanks, has no whitespace at either end and leaves only
   * whitespace around it is `Strip(s)`.
   */
  lemma StripUnique(s: string, r: string)
    requires r != [] ==> !IsSpace(r[0]) && !IsSpace(r[|r| - 1])
    requires OccursAt(r, s, LeadingSpaces(s))
    requires forall i :: LeadingSpaces(s) + |r| <= i < |s| ==> IsSpace(s[i])
    ensures r == Strip(s)
  {
    SameTrimmedText(s, LeadingSpaces(s), r, Strip(s));
  }

  /**
   * Two texts found at the same place in `s`, each ending on a non-whitespace
   * character and followed only by whitespace, are the same text.
   */
  lemma SameTrimmedText(s: string, at: nat, a: string, b: string)
    requires OccursAt(a, s, at) && OccursAt(b, s, at)
    requires a != [] ==> !IsSpace(a[|a| - 1])
    requires b != [] ==> !IsSpace(b[|b| - 1])
    requires forall i :: at + |a| <= i < |s| ==> IsSpace(s[i])
    requires forall i :: at + |b| <= i < |s| ==> IsSpace(s[i])
    ensures a == b
  {
    NoLongerThanBlankTail(s, at, a, b);
    NoLongerThanBlankTail(s, at, b, a);
  }

  /**
   * Two texts found at the same place in `s`: when everything after `a` is
   * whitespace and `b` ends on a non-whitespace character, `b` is no longer.
   */
  lemma NoLongerThanBlankTail(s: string, at: nat, a: string, b: string)
    requires OccursAt(a, s, at) && OccursAt(b, s, at)
    requires b != [] ==> !IsSpace(b[|b| - 1])
    requires forall i :: at + |a| <= i < |s| ==> IsSpace(s[i])
    ensures |b| <= |a|
  {
    assert b != [] ==> b[|b| - 1] == s[at + |b| - 1];
  }

  /** Text that neither opens nor closes with whitespace is left as it is. */
  lemma StripUnpadded(s: string)
    requires s != [] ==> !IsSpace(s[0]) && !IsSpace(s[|s| - 1])
    ensures Strip(s) == s
  {
    assert LeadingSpaces(s) == 0;
    assert TrailingSpaces(s) == 0;
  }

  /** A leading whitespace character is stripped away. */
  lemma StripLeadingSpace(c: char, s: string)
    requires IsSpace(c)
    ensures Strip([c] + s) == Strip(s)
  {
    var t := [c] + s;
    assert t[1..] == s;
    assert LeadingSpaces(t) == 1 + LeadingSpaces(s);
    assert t[LeadingSpaces(t)..] == s[LeadingSpaces(s)..];
  }

  /** One leading blank before otherwise unpadded text is all that `strip` removes. */
  lemma StripOneBlank(s: string)
    requires |s| >= 2 && IsSpace(s[0]) && !IsSpace(s[1]) && !IsSpace(s[|s| - 1])
    ensures Strip(s) == s[1..]
  {
    var rest := s[1..];
    assert s == [s[0]] + rest;
    StripLeadingSpace(s[0], rest);
    StripUnpadded(rest);
  }

  // ---------------------------------------------------------------------
  // Splitting on commas
  // ---------------------------------------------------------------------

  /** `s.split(',')`: the comma-free pieces between the commas, always at least one. */
  function SplitComma(s: string): (pieces: seq<string>)
    ensures |pieces| >= 1
    ensures forall k :: 0 <= k < |pieces| ==> ',' !in pieces[k]
    ensures IsPrefix(pieces[0], s)
  {
    if s == [] then [""]
    else if s[0] == ',' then [""] + SplitComma(s[1..])
    else
      var tail := SplitComma(s[1..]);
      [[s[0]] + tail[0]] + tail[1..]
  }

  /** `','.join(pieces)`. */
  function JoinComma(pieces: seq<string>): string
    requires |pieces| >= 1
  {
    if |pieces| == 1 then pieces[0] else pieces[0] + "," + JoinComma(pieces[1..])
  }

  /** Splitting on commas and joining with commas gives the original text back. */
  lemma {:induction false} SplitJoin(s: string)
    ensures JoinComma(SplitComma(s)) == s
  {
    if s == [] {
    } else if s[0] == ',' {
      SplitJoin(s[1..]);
      var tail := SplitComma(s[1..]);
      assert SplitComma(s)[1..] == tail;
    } else {
      SplitJoin(s[1..]);
      var tail := SplitComma(s[1..]);
      var pieces := SplitComma(s);
      assert pieces[1..] == tail[1..];
      if |tail| == 1 {
        assert pieces == [[s[0]] + tail[0]];
      } else {
        calc {
          JoinComma(pieces);
          ([s[0]] + tail[0]) + "," + JoinComma(tail[1..]);
          [s[0]] + (tail[0] + "," + JoinComma(tail[1..]));
          [s[0]] + JoinComma(tail);
          [s[0]] + s[1..];
        }
      }
    }
  }

  /** Splitting text that holds no comma gives that text as the only piece. */
  lemma {:induction false} SplitNoComma(s: string)
    requires ',' !in s
    ensures SplitComma(s) == [s]
  {
    if s != [] {
      assert s[0] in s;
      assert forall c :: c in s[1..] ==> c in s;
      SplitNoComma(s[1..]);
      assert [s[0]] + s[1..] == s;
    }
  }

  /** Splitting at a first comma: the text before it is the first piece, the rest split on. */
  lemma {:induction false} SplitAtFirstComma(head: string, rest: string)
    requires ',' !in head
    ensures SplitComma(head + [','] + rest) == [head] + SplitComma(rest)
  {
    if head == [] {
      assert head + [','] + rest == [','] + rest;
      assert ([','] + rest)[1..] == rest;
    } else {
      var s := head + [','] + rest;
      assert s[1..] == head[1..] + [','] + rest;
      assert forall c :: c in head[1..] ==> c in head;
      SplitAtFirstComma(head[1..], rest);
      assert [head[0]] + head[1..] == head;
    }
  }

  /** Every piece of `s.split(',')` occurs in `s`; `offset` is where. */
  lemma {:induction false} SplitPieceOffset(s: string, k: nat) returns (offset: nat)
    requires k < |SplitComma(s)|
    ensures OccursAt(SplitComma(s)[k], s, offset)
  {
    var pieces := SplitComma(s);
    if s == [] {
      offset := 0;
    } else if s[0] == ',' {
      if k == 0 {
        offset := 0;
      } else {
        var inner := SplitPieceOffset(s[1..], k - 1);
        ShiftOccurrence(pieces[k], s, inner);
        offset := inner + 1;
      }
    } else {
      if k == 0 {
        offset := 0;
      } else {
        var tail := SplitComma(s[1..]);
        assert pieces[k] == tail[k];
        var inner := SplitPieceOffset(s[1..], k);
        ShiftOccurrence(pieces[k], s, inner);
        offset := inner + 1;
      }
    }
  }

  // ---------------------------------------------------------------------
  // Substrings
  // ---------------------------------------------------------------------

  /** `s.startswith(p)`. */
  predicate IsPrefix(p: string, s: string) {
    |p| <= |s| && p == s[..|p|]
  }

  /** `needle` occurs in `haystack` starting at index `i`. */
  predicate OccursAt(needle: string, haystack: string, i: int) {
    0 <= i && i + |needle| <= |haystack| && haystack[i..i + |needle|] == needle
  }

  /** Python's `needle in haystack` on strings; the empty string is in every string. */
  predicate Contains(haystack: string, needle: string)
    decreases |haystack|
  {
    IsPrefix(needle, haystack) || (|haystack| > 0 && Contains(haystack[1..], needle))
  }

  /** The empty string is contained in every string. */
  lemma EmptyIsContained(haystack: string)
    ensures Contains(haystack, "")
  {
  }

  /** An occurrence in the tail of `s` is an occurrence in `s`, one place later. */
  lemma ShiftOccurrence(needle: string, s: string, i: int)
    requires |s| > 0 && OccursAt(needle, s[1..], i)
    ensures OccursAt(needle, s, i + 1)
  {
    assert s[1..][i..i + |needle|] == s[i + 1..i + 1 + |needle|];
  }

  /** An occurrence at some index is a witness for `Contains`. */
  lemma {:induction false} ContainsFromOccurrence(haystack: string, needle: string, i: int)
    requires OccursAt(needle, haystack, i)
    ensures Contains(haystack, needle)
  {
    if i > 0 {
      assert haystack[1..][i - 1..i - 1 + |needle|] == haystack[i..i + |needle|];
      ContainsFromOccurrence(haystack[1..], needle, i - 1);
    }
  }

  /** `Contains` always has an occurrence as its witness; `i` is one such index. */
  lemma {:induction false} OccurrenceFromContains(haystack: string, needle: string) returns (i: nat)
    requires Contains(haystack, needle)
    ensures OccursAt(needle, haystack, i)
    decreases |haystack|
  {
    if IsPrefix(needle, haystack) {
      i := 0;
    } else {
      var j := OccurrenceFromContains(haystack[1..], needle);
      ShiftOccurrence(needle, haystack, j);
      i := j + 1;
    }
  }

  /** A needle holding a character the haystack lacks is not contained in it. */
  lemma {:induction false} MissingCharNotContained(haystack: string, needle: string, c: char)
    requires c in needle && c !in haystack
    ensures !Contains(haystack, needle)
    decreases |haystack|
  {
    var k :| 0 <= k < |needle| && needle[k] == c;
    if |needle| <= |haystack| {
      assert haystack[..|needle|][k] != needle[k];
    }
    if |haystack| > 0 {
      assert forall d :: d in haystack[1..] ==> d in haystack;
      MissingCharNotContained(haystack[1..], needle, c);
    }
  }

  /** A needle longer than the haystack is not contained in it. */
  lemma {:induction false} LongerNotContained(haystack: string, needle: string)
    requires |needle| > |haystack|
    ensures !Contains(haystack, needle)
    decreases |haystack|
  {
    if |haystack| > 0 {
      LongerNotContained(haystack[1..], needle);
    }
  }

  /** Occurrence is transitive: a piece of a piece of `s` is a piece of `s`. */
  lemma OccursTransitive(a: string, b: string, c: string, i: int, j: int)
    requires OccursAt(a, b, i) && OccursAt(b, c, j)
    ensures OccursAt(a, c, i + j)
  {
    assert forall k :: 0 <= k < |a| ==> a[k] == b[i + k] == c[j + i + k];
    assert c[i + j..i + j + |a|] == a;
  }

  /** Lower-casing keeps an occurrence where it is. */
  lemma OccursLower(a: string, s: string, i: int)
    requires OccursAt(a, s, i)
    ensures OccursAt(Lower(a), Lower(s), i)
  {
    LowerSlice(s, i, i + |a|);
  }
}
