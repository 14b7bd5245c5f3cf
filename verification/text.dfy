/** The Python 2 string operations the scraper relies on, over strings as
    sequences of characters: strip, replace of one character by nothing,
    encode('ascii', 'ignore'), startswith, find, split, and ordering. */
module Text {

  /** Python 2 has two string types and their strip() differ: a unicode
      string drops Unicode whitespace, a byte string only the six ASCII
      whitespace characters. */
  datatype StringKind = Unicode | Bytes

  predicate IsAsciiSpace(c: char) {
    c == ' ' || '\t' <= c <= '\r'
  }

  /** Whitespace as Python 2.7's str.isspace / unicode.isspace see it. */
  predicate IsSpace(kind: StringKind, c: char) {
    match kind
    case Bytes => IsAsciiSpace(c)
    case Unicode =>
      || IsAsciiSpace(c)
      || '\U{1C}' <= c <= '\U{1F}'
      || c == '\U{85}' || c == '\U{A0}' || c == '\U{1680}' || c == '\U{180E}'
      || '\U{2000}' <= c <= '\U{200A}'
      || c == '\U{2028}' || c == '\U{2029}' || c == '\U{202F}' || c == '\U{205F}'
      || c == '\U{3000}'
  }

  ghost predicate AllSpace(kind: StringKind, s: string) {
    forall i :: 0 <= i < |s| ==> IsSpace(kind, s[i])
  }

  /** The number of whitespace characters that open `s`. */
  function LeadingSpaces(kind: StringKind, s: string): (n: nat)
    ensures n <= |s|
    ensures forall i :: 0 <= i < n ==> IsSpace(kind, s[i])
    ensures n < |s| ==> !IsSpace(kind, s[n])
  {
    if s == [] || !IsSpace(kind, s[0]) then 0 else 1 + LeadingSpaces(kind, s[1..])
  }

  /** The number of whitespace characters that close `s`. */
  function TrailingSpaces(kind: StringKind, s: string): (n: nat)
    ensures n <= |s|
    ensures forall i :: |s| - n <= i < |s| ==> IsSpace(kind, s[i])
    ensures n < |s| ==> !IsSpace(kind, s[|s| - 1 - n])
  {
    if s == [] || !IsSpace(kind, s[|s| - 1]) then 0
    else 1 + TrailingSpaces(kind, s[..|s| - 1])
  }

  /** Python's strip(): `s` without its leading and trailing whitespace. */
  function Strip(kind: StringKind, s: string): (r: string)
    ensures |r| <= |s|
  {
    var lead := LeadingSpaces(kind, s);
    if lead == |s| then [] else s[lead..|s| - TrailingSpaces(kind, s)]
  }

  /** Cutting `s` at `i` and `j` leaves only whitespace outside the cut,
      and the cut, unless empty, neither starts nor ends with whitespace. */
  ghost predicate TrimCut(kind: StringKind, s: string, i: int, j: int) {
    && 0 <= i <= j <= |s| && AllSpace(kind, s[..i]) && AllSpace(kind, s[j..])
    && (i < j ==> !IsSpace(kind, s[i]) && !IsSpace(kind, s[j - 1]))
  }

  /** `r` is `s` with whitespace cut off both ends and none left at either
      end of `r`: what strip() is meant to give. */
  ghost predicate Trimmed(kind: StringKind, r: string, s: string) {
    exists i, j :: TrimCut(kind, s, i, j) && r == s[i..j]
  }

  /** The stripped string is a factor of `s`, everything cut off around it
      is whitespace, and it neither starts nor ends with whitespace. */
  lemma StripShape(kind: StringKind, s: string)
    ensures Trimmed(kind, Strip(kind, s), s)
  {
    var lead := LeadingSpaces(kind, s);
    if lead == |s| {
      assert s[..0] == [] && s[0..] == s;
      assert TrimCut(kind, s, 0, 0) && Strip(kind, s) == s[0..0];
    } else {
      var trail := TrailingSpaces(kind, s);
      assert !IsSpace(kind, s[lead]);
      assert AllSpace(kind, s[..lead]) && AllSpace(kind, s[|s| - trail..]);
      assert TrimCut(kind, s, lead, |s| - trail);
    }
  }

  /** Whitespace up to `i` and none at `i` is exactly the leading run. */
  lemma LeadingSpacesAt(kind: StringKind, s: string, i: nat)
    requires i <= |s| && AllSpace(kind, s[..i]) && (i < |s| ==> !IsSpace(kind, s[i]))
    ensures LeadingSpaces(kind, s) == i
  {
  }

  /** Whitespace from `j` on and none just before `j` is exactly the
      trailing run. */
  lemma TrailingSpacesAt(kind: StringKind, s: string, j: nat)
    requires j <= |s| && AllSpace(kind, s[j..]) && (0 < j ==> !IsSpace(kind, s[j - 1]))
    ensures TrailingSpaces(kind, s) == |s| - j
  {
  }

  /** Only one string is `s` trimmed, so Trimmed characterises strip(). */
  lemma TrimmedUnique(kind: StringKind, r: string, s: string)
    requires Trimmed(kind, r, s)
    ensures r == Strip(kind, s)
  {
    var i, j :| TrimCut(kind, s, i, j) && r == s[i..j];
    TrimmedAt(kind, s, i, j);
  }

  /** The cut at `i` and `j` of a trimmed string is strip's. */
  lemma TrimmedAt(kind: StringKind, s: string, i: int, j: int)
    requires TrimCut(kind, s, i, j)
    ensures s[i..j] == Strip(kind, s)
  {
    if i == j {
      StripOfSpaces(kind, s, i);
    } else {
      StripOfCut(kind, s, i, j);
    }
  }

  /** A string that is whitespace on both sides of a cut strips to nothing. */
  lemma StripOfSpaces(kind: StringKind, s: string, i: nat)
    requires i <= |s| && AllSpace(kind, s[..i]) && AllSpace(kind, s[i..])
    ensures Strip(kind, s) == []
  {
    assert s == s[..i] + s[i..];
    LeadingSpacesAt(kind, s, |s|);
  }

  /** Cutting whitespace off both ends at the first and last other
      characters is what strip does. */
  lemma StripOfCut(kind: StringKind, s: string, i: nat, j: nat)
    requires i < j <= |s| && AllSpace(kind, s[..i]) && AllSpace(kind, s[j..])
    requires !IsSpace(kind, s[i]) && !IsSpace(kind, s[j - 1])
    ensures Strip(kind, s) == s[i..j]
  {
    LeadingSpacesAt(kind, s, i);
    TrailingSpacesAt(kind, s, j);
  }

  /** A string with no whitespace at either end is its own strip. */
  lemma StripUnpadded(kind: StringKind, s: string)
    requires s != [] ==> !IsSpace(kind, s[0]) && !IsSpace(kind, s[|s| - 1])
    ensures Strip(kind, s) == s
  {
    if s != [] {
      LeadingSpacesAt(kind, s, 0);
      TrailingSpacesAt(kind, s, |s|);
    }
  }

  /** The characters of `s` that `keep` accepts, in their order. */
  function Filter(s: string, keep: char -> bool): (r: string)
    ensures |r| <= |s|
  {
    if s == [] then []
    else (if keep(s[0]) then [s[0]] else []) + Filter(s[1..], keep)
  }

  /** A character is in the filtered string exactly when it is in the
      string and accepted. */
  lemma {:induction false} FilterMembers(s: string, keep: char -> bool)
    ensures forall c :: c in Filter(s, keep) <==> c in s && keep(c)
  {
    if s != [] {
      FilterMembers(s[1..], keep);
      assert s == [s[0]] + s[1..];
    }
  }

  /** Filtering distributes over concatenation. */
  lemma {:induction false} FilterAppend(a: string, b: string, keep: char -> bool)
    ensures Filter(a + b, keep) == Filter(a, keep) + Filter(b, keep)
  {
    if a == [] {
      assert a + b == b;
    } else {
      var head := if keep(a[0]) then [a[0]] else [];
      assert (a + b)[0] == a[0];
      assert (a + b)[1..] == a[1..] + b;
      assert Filter(a + b, keep) == head + Filter(a[1..] + b, keep);
      FilterAppend(a[1..], b, keep);
      assert head + (Filter(a[1..], keep) + Filter(b, keep)) == (head + Filter(a[1..], keep)) + Filter(b, keep);
    }
  }

  /** Filtering keeps a string whose characters are all accepted. */
  lemma {:induction false} FilterKeepsAll(s: string, keep: char -> bool)
    requires forall i :: 0 <= i < |s| ==> keep(s[i])
    ensures Filter(s, keep) == s
  {
    if s != [] {
      FilterKeepsAll(s[1..], keep);
      assert s == [s[0]] + s[1..];
    }
  }

  /** Filtering an accepted prefix, then a rejected character, keeps the
      prefix and goes on with the rest. */
  lemma FilterSkip(p: string, c: char, q: string, keep: char -> bool)
    requires forall i :: 0 <= i < |p| ==> keep(p[i])
    requires !keep(c)
    ensures Filter(p + [c] + q, keep) == p + Filter(q, keep)
  {
    FilterKeepsAll(p, keep);
    assert Filter([c], keep) == [] by {
      assert [c][1..] == [];
    }
    FilterAppend(p, [c], keep);
    assert Filter(p + [c], keep) == p;
    FilterAppend(p + [c], q, keep);
  }

  predicate IsNotColon(c: char) {
    c != ':'
  }

  /** Python's `s.replace(':', '')`. */
  function RemoveColons(s: string): string {
    Filter(s, IsNotColon)
  }

  predicate IsAscii(c: char) {
    c < '\U{80}'
  }

  /** Python's `s.encode('ascii', 'ignore')`: every character outside ASCII
      is dropped. */
  function AsciiOnly(s: string): string {
    Filter(s, IsAscii)
  }

  /** Dropping the non-ASCII characters of an ASCII prefix, one non-ASCII
      character and a rest leaves the prefix and the rest's ASCII part. */
  lemma AsciiOnlySkip(p: string, c: char, q: string)
    requires forall i :: 0 <= i < |p| ==> p[i] < '\U{80}'
    requires c >= '\U{80}'
    ensures AsciiOnly(p + [c] + q) == p + AsciiOnly(q)
  {
    FilterSkip(p, c, q, IsAscii);
  }

  /** An ASCII string is its own ASCII part. */
  lemma AsciiOnlyOfAscii(s: string)
    requires forall i :: 0 <= i < |s| ==> s[i] < '\U{80}'
    ensures AsciiOnly(s) == s
  {
    FilterKeepsAll(s, IsAscii);
  }

  predicate StartsWith(s: string, prefix: string) {
    |prefix| <= |s| && s[..|prefix|] == prefix
  }

  /** Python's `s.find(c)` for one character: the first index holding `c`,
      or -1 when there is none. */
  function Find(s: string, c: char): (r: int)
    ensures -1 <= r < |s|
    ensures r == -1 <==> c !in s
    ensures 0 <= r ==> s[r] == c && c !in s[..r]
  {
    if s == [] then -1
    else if s[0] == c then 0
    else
      var k := Find(s[1..], c);
      assert s == [s[0]] + s[1..];
      if k == -1 then -1
      else
        assert s[..k + 1] == [s[0]] + s[1..][..k];
        k + 1
  }

  /** Python's slice `s[0:stop]`, where a negative `stop` counts from the end. */
  function SliceTo(s: string, stop: int): (r: string)
    ensures |r| <= |s| && r == s[..|r|]
    ensures 0 <= stop ==> |r| == if stop <= |s| then stop else |s|
    ensures stop < 0 ==> |r| + -stop == |s| || (r == [] && |s| < -stop)
  {
    if 0 <= stop then s[..if stop <= |s| then stop else |s|]
    else s[..if |s| + stop >= 0 then |s| + stop else 0]
  }

  /** `sep` occurs in `s` at index `k`. */
  predicate OccursAt(s: string, sep: string, k: int) {
    0 <= k && k + |sep| <= |s| && s[k..k + |sep|] == sep
  }

  ghost predicate Contains(s: string, sep: string) {
    exists k :: OccursAt(s, sep, k)
  }

  lemma OccursShift(s: string, sep: string, k: int)
    requires s != [] && 0 <= k
    ensures OccursAt(s[1..], sep, k) <==> OccursAt(s, sep, k + 1)
  {
    if 0 <= k && k + |sep| <= |s| - 1 {
      assert s[1..][k..k + |sep|] == s[k + 1..k + 1 + |sep|];
    }
  }

  /** Python's `s.find(sep)`: the first index where `sep` occurs, or -1. */
  function FindSub(s: string, sep: string): (r: int)
    requires |sep| > 0
    ensures r == -1 || OccursAt(s, sep, r)
    decreases |s|
  {
    if |s| < |sep| then -1
    else if s[..|sep|] == sep then 0
    else
      var k := FindSub(s[1..], sep);
      if k == -1 then -1
      else
        OccursShift(s, sep, k);
        k + 1
  }

  /** find gives -1 exactly when `sep` does not occur, and otherwise its
      leftmost occurrence. */
  lemma {:induction false} FindSubLeftmost(s: string, sep: string)
    requires |sep| > 0
    ensures var r := FindSub(s, sep);
      && (r == -1 <==> !Contains(s, sep))
      && (0 <= r ==> forall k :: 0 <= k < r ==> !OccursAt(s, sep, k))
    decreases |s|
  {
    if |s| < |sep| {
      assert forall k :: !OccursAt(s, sep, k);
    } else if s[..|sep|] == sep {
      assert OccursAt(s, sep, 0);
    } else {
      FindSubLeftmost(s[1..], sep);
      var k := FindSub(s[1..], sep);
      assert !OccursAt(s, sep, 0);
      if k == -1 {
        forall j | OccursAt(s, sep, j) ensures false {
          OccursShift(s, sep, j - 1);
        }
      } else {
        OccursShift(s, sep, k);
        forall j | 0 < j < k + 1 ensures !OccursAt(s, sep, j) {
          OccursShift(s, sep, j - 1);
        }
      }
    }
  }

  /** Python's `s.split(sep)`: the pieces of `s` between the occurrences of
      `sep`, found left to right; there is always at least one. */
  function Split(s: string, sep: string): (parts: seq<string>)
    requires |sep| > 0
    ensures |parts| >= 1
    decreases |s|
  {
    var k := FindSub(s, sep);
    if k == -1 then [s] else [s[..k]] + Split(s[k + |sep|..], sep)
  }

  /** The text before the first occurrence of `sep` does not contain it. */
  lemma HeadHasNoSeparator(s: string, sep: string, k: int)
    requires |sep| > 0
    requires 0 <= k <= |s| && forall j :: 0 <= j < k ==> !OccursAt(s, sep, j)
    ensures !Contains(s[..k], sep)
  {
    forall j | OccursAt(s[..k], sep, j) ensures false {
      assert j < k;
      assert s[..k][j..j + |sep|] == s[j..j + |sep|];
      assert OccursAt(s, sep, j);
    }
  }

  /** There are two pieces or more exactly when `sep` occurs, no piece
      contains `sep`, and the first piece is what precedes the first
      occurrence. */
  lemma {:induction false} SplitPieces(s: string, sep: string)
    requires |sep| > 0
    ensures var parts := Split(s, sep);
      && (|parts| >= 2 <==> Contains(s, sep))
      && (forall i :: 0 <= i < |parts| ==> !Contains(parts[i], sep))
      && (Contains(s, sep) ==> OccursAt(s, sep, |parts[0]|) && parts[0] == s[..|parts[0]|])
    decreases |s|
  {
    var k := FindSub(s, sep);
    FindSubLeftmost(s, sep);
    if k != -1 {
      var rest := s[k + |sep|..];
      SplitPieces(rest, sep);
      HeadHasNoSeparator(s, sep, k);
      var parts, tail := Split(s, sep), Split(rest, sep);
      assert parts == [s[..k]] + tail;
      assert forall i :: 0 <= i < |parts| ==> !Contains(parts[i], sep) by {
        forall i | 0 <= i < |parts| ensures !Contains(parts[i], sep) {
          if i > 0 {
            assert parts[i] == tail[i - 1];
          }
        }
      }
    }
  }

  /** Without `sep`, the only piece is the whole string. */
  lemma SplitWithout(s: string, sep: string)
    requires |sep| > 0 && !Contains(s, sep)
    ensures Split(s, sep) == [s]
  {
    FindSubLeftmost(s, sep);
  }

  /** When `sep` occurs, the pieces after the first are the pieces of what
      follows its first occurrence. */
  lemma SplitRest(s: string, sep: string)
    requires |sep| > 0 && Contains(s, sep)
    ensures var parts := Split(s, sep);
      |parts[0]| + |sep| <= |s| && parts[1..] == Split(s[|parts[0]| + |sep|..], sep)
  {
    FindSubLeftmost(s, sep);
    var k := FindSub(s, sep);
    var rest := Split(s[k + |sep|..], sep);
    var parts := Split(s, sep);
    assert parts == [s[..k]] + rest;
    assert |parts[0]| == k;
    assert parts[1..] == rest;
  }

  /** Python's `sep.join(parts)`. */
  function Join(parts: seq<string>, sep: string): string
    requires |parts| >= 1
  {
    if |parts| == 1 then parts[0] else parts[0] + sep + Join(parts[1..], sep)
  }

  /** Joining a piece in front of at least one more. */
  lemma JoinCons(head: string, parts: seq<string>, sep: string)
    requires |parts| >= 1
    ensures Join([head] + parts, sep) == head + sep + Join(parts, sep)
  {
    assert ([head] + parts)[1..] == parts;
  }

  /** Splitting loses nothing: joining the pieces gives the string back. */
  lemma {:induction false} SplitJoin(s: string, sep: string)
    requires |sep| > 0
    ensures Join(Split(s, sep), sep) == s
    decreases |s|
  {
    var k := FindSub(s, sep);
    if k != -1 {
      var rest := s[k + |sep|..];
      SplitJoin(rest, sep);
      JoinCons(s[..k], Split(rest, sep), sep);
      AroundOccurrence(s, sep, k);
    }
  }

  /** A string is what precedes an occurrence of `sep`, `sep`, and what
      follows it. */
  lemma AroundOccurrence(s: string, sep: string, k: int)
    requires OccursAt(s, sep, k)
    ensures s == s[..k] + sep + s[k + |sep|..]
  {
    assert s == s[..k] + s[k..k + |sep|] + s[k + |sep|..];
  }


  /** Python's `a < b` on strings: lexicographic by code point, a proper
      prefix being smaller. */
  predicate LexLess(a: string, b: string) {
    LexLessFrom(a, b, 0)
  }

  /** `a[i..] < b[i..]`, read off by index. */
  predicate LexLessFrom(a: string, b: string, i: nat)
    decreases |a| - i
  {
    if i >= |a| then i < |b|
    else i < |b| && (a[i] < b[i] || (a[i] == b[i] && LexLessFrom(a, b, i + 1)))
  }

  lemma {:induction false} LexLessFromShift(a: string, b: string, i: nat)
    requires a != [] && b != []
    ensures LexLessFrom(a, b, i + 1) == LexLessFrom(a[1..], b[1..], i)
    decreases |a| - i
  {
    if i + 1 < |a| {
      LexLessFromShift(a, b, i + 1);
    }
  }

  /** The comparison decided at the first characters. */
  lemma LexLessUnfold(a: string, b: string)
    ensures LexLess(a, b) ==
      if a == [] then b != []
      else b != [] && (a[0] < b[0] || (a[0] == b[0] && LexLess(a[1..], b[1..])))
  {
    if a != [] && b != [] {
      LexLessFromShift(a, b, 0);
    }
  }

  lemma {:induction false} LexLessTrichotomy(a: string, b: string)
    ensures LexLess(a, b) || a == b || LexLess(b, a)
    ensures !(LexLess(a, b) && LexLess(b, a))
    ensures !LexLess(a, a)
  {
    LexLessUnfold(a, b);
    LexLessUnfold(b, a);
    LexLessUnfold(a, a);
    if a != [] && b != [] {
      LexLessTrichotomy(a[1..], b[1..]);
      if a[0] == b[0] && a[1..] == b[1..] {
        assert a == [a[0]] + a[1..] && b == [b[0]] + b[1..];
      }
    }
    if a != [] {
      LexLessTrichotomy(a[1..], a[1..]);
    }
  }

  /** Comparing two equal-length strings extended by one character each. */
  lemma {:induction false} LexLessSnoc(a: string, b: string, x: char, y: char)
    requires |a| == |b|
    ensures LexLess(a + [x], b + [y]) <==> LexLess(a, b) || (a == b && x < y)
  {
    LexLessUnfold(a + [x], b + [y]);
    LexLessUnfold(a, b);
    if a == [] {
      LexLessUnfold([], []);
    } else {
      assert (a + [x])[1..] == a[1..] + [x];
      assert (b + [y])[1..] == b[1..] + [y];
      LexLessSnoc(a[1..], b[1..], x, y);
      if a[0] == b[0] && a[1..] == b[1..] {
        assert a == [a[0]] + a[1..] && b == [b[0]] + b[1..];
      }
      LexLessTrichotomy(a, a);
    }
  }

  predicate IsDigit(c: char) {
    '0' <= c <= '9'
  }

  predicate AllDigits(s: string) {
    forall i :: 0 <= i < |s| ==> IsDigit(s[i])
  }

  function DigitValue(c: char): (d: nat)
    requires IsDigit(c)
  {
    c as int - '0' as int
  }

  function DigitChar(d: nat): (c: char)
    requires d < 10
    ensures IsDigit(c) && DigitValue(c) == d
  {
    ('0' as int + d) as char
  }

  /** The number a string of decimal digits denotes. */
  function DigitsValue(s: string): nat
    requires AllDigits(s)
  {
    if s == [] then 0 else DigitsValue(s[..|s| - 1]) * 10 + DigitValue(s[|s| - 1])
  }

  function Pow10(n: nat): nat {
    if n == 0 then 1 else 10 * Pow10(n - 1)
  }

  /** `n` digits denote less than 10^n. */
  lemma {:induction false} DigitsValueBound(s: string)
    requires AllDigits(s)
    ensures DigitsValue(s) < Pow10(|s|)
  {
    if s != [] {
      DigitsValueBound(s[..|s| - 1]);
    }
  }

  /** `n` written in decimal with exactly `width` digits, zeros in front:
      strftime's `%04d`-style fields. Reading the digits back gives `n`. */
  function ZeroPad(n: nat, width: nat): (r: string)
    requires n < Pow10(width)
    ensures |r| == width && AllDigits(r) && DigitsValue(r) == n
  {
    if width == 0 then []
    else
      var front := ZeroPad(n / 10, width - 1);
      var r := front + [DigitChar(n % 10)];
      assert r[..|r| - 1] == front;
      r
  }

  /** For equal-length digit strings, Python's string order is the order of
      the numbers they denote: the reason comparing HHMMSS texts as strings
      compares clock times. */
  lemma {:induction false} LexLessDigits(a: string, b: string)
    requires |a| == |b| && AllDigits(a) && AllDigits(b)
    ensures LexLess(a, b) <==> DigitsValue(a) < DigitsValue(b)
    decreases |a|
  {
    if a == [] {
      assert !LexLess(a, b);
    } else {
      var a', b' := a[..|a| - 1], b[..|b| - 1];
      var x, y := a[|a| - 1], b[|b| - 1];
      assert a == a' + [x] && b == b' + [y];
      LexLessSnoc(a', b', x, y);
      LexLessDigits(a', b');
      LexLessDigits(b', a');
      LexLessTrichotomy(a', b');
      assert DigitsValue(a) == DigitsValue(a') * 10 + DigitValue(x);
      assert DigitsValue(b) == DigitsValue(b') * 10 + DigitValue(y);
    }
  }
}
