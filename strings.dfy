/** Character classes and string operations of JavaScript that the weekly-goals
    code relies on: the `\s` class, `trim`, `split("\n")`, `join("\n")`, and the
    decimal rendering of integers. Strings are sequences of Unicode scalar values. */
module Strings {

  datatype Option<T> = None | Some(value: T)

  /** JavaScript's `\s` (and the set `trim` removes): ECMA-262 WhiteSpace plus LineTerminator. */
  predicate IsSpace(c: char) {
    c == '\t' || c == '\n' || c == '\U{000B}' || c == '\U{000C}' || c == '\r' || c == ' '
    || c == '\U{00A0}' || c == '\U{1680}' || ('\U{2000}' <= c <= '\U{200A}')
    || c == '\U{2028}' || c == '\U{2029}' || c == '\U{202F}' || c == '\U{205F}'
    || c == '\U{3000}' || c == '\U{FEFF}'
  }

  /** ECMA-262 line terminators: what `.` never matches, and where `^` and `$`
      may match under the `m` flag. */
  predicate IsLineTerminator(c: char) {
    c == '\n' || c == '\r' || c == '\U{2028}' || c == '\U{2029}'
  }

  predicate AllSpace(s: string) {
    forall k :: 0 <= k < |s| ==> IsSpace(s[k])
  }

  predicate NoLineTerminator(s: string) {
    forall k :: 0 <= k < |s| ==> !IsLineTerminator(s[k])
  }

  /** Length of the longest all-space prefix: what a greedy `\s*` consumes. */
  function LeadingSpaces(s: string): (n: nat)
    ensures n <= |s|
    ensures n < |s| ==> !IsSpace(s[n])
  {
    if |s| > 0 && IsSpace(s[0]) then 1 + LeadingSpaces(s[1..]) else 0
  }

  /** What `LeadingSpaces` skips is all spaces. */
  lemma {:induction false} LeadingSpacesAreSpaces(s: string)
    ensures AllSpace(s[..LeadingSpaces(s)])
  {
    if |s| > 0 && IsSpace(s[0]) {
      LeadingSpacesAreSpaces(s[1..]);
      assert s[..LeadingSpaces(s)] == [s[0]] + s[1..][..LeadingSpaces(s[1..])];
    }
  }

  /** Length of the longest all-space suffix. */
  function TrailingSpaces(s: string): (n: nat)
    ensures n <= |s|
    ensures AllSpace(s[|s| - n..])
    ensures n < |s| ==> !IsSpace(s[|s| - n - 1])
  {
    if |s| > 0 && IsSpace(s[|s| - 1]) then 1 + TrailingSpaces(s[..|s| - 1]) else 0
  }

  /** A greedy space run is determined by where the first non-space character is. */
  lemma {:induction false} LeadingSpacesAt(s: string, a: nat)
    requires a <= |s| && AllSpace(s[..a])
    requires a == |s| || !IsSpace(s[a])
    ensures LeadingSpaces(s) == a
  {
    if a > 0 {
      assert IsSpace(s[..a][0]);
      var t := s[1..][..a - 1];
      assert AllSpace(t) by {
        forall k | 0 <= k < |t| ensures IsSpace(t[k]) {
          assert t[k] == s[..a][k + 1];
        }
      }
      LeadingSpacesAt(s[1..], a - 1);
    }
  }

  predicate IsTrimmed(s: string) {
    |s| == 0 || (!IsSpace(s[0]) && !IsSpace(s[|s| - 1]))
  }

  /** `r` is `s[a..b]` and everything of `s` outside `[a, b)` is space. */
  predicate SpaceFramed(s: string, a: int, b: int, r: string) {
    0 <= a <= b <= |s| && r == s[a..b] && AllSpace(s[..a]) && AllSpace(s[b..])
  }

  /** `String.prototype.trim`: spaces are removed from either end until
      neither end is a space. */
  function Trim(s: string): (r: string)
    ensures IsTrimmed(r)
    ensures |r| <= |s|
  {
    if |s| > 0 && IsSpace(s[0]) then Trim(s[1..])
    else if |s| > 0 && IsSpace(s[|s| - 1]) then Trim(s[..|s| - 1])
    else s
  }

  /** What `trim` returns is a middle part `s[a..b]` of its input, and all it
      cut off is space. */
  lemma {:induction false} TrimFramed(s: string) returns (a: nat, b: nat)
    ensures SpaceFramed(s, a, b, Trim(s))
    decreases |s|
  {
    if |s| > 0 && IsSpace(s[0]) {
      var a', b' := TrimFramed(s[1..]);
      a, b := a' + 1, b' + 1;
      assert s[..a] == [s[0]] + s[1..][..a'];
      assert s[b..] == s[1..][b'..];
      SliceOfTail(s, a', b');
    } else if |s| > 0 && IsSpace(s[|s| - 1]) {
      var p := s[..|s| - 1];
      a, b := TrimFramed(p);
      assert s[..a] == p[..a];
      assert s[b..] == p[b..] + [s[|s| - 1]];
      assert s[a..b] == p[a..b];
    } else {
      a, b := 0, |s|;
      assert s[0..|s|] == s;
    }
  }

  lemma SliceOfTail<T>(s: seq<T>, i: nat, j: nat)
    requires i <= j < |s|
    ensures s[1..][i..j] == s[i + 1..j + 1]
  {
  }

  lemma TrimOfTrimmed(s: string)
    requires IsTrimmed(s)
    ensures Trim(s) == s
  {
  }

  lemma NoLineTerminatorInTrim(s: string)
    requires NoLineTerminator(s)
    ensures NoLineTerminator(Trim(s))
  {
    var a, b := TrimFramed(s);
    forall k | 0 <= k < |Trim(s)| ensures !IsLineTerminator(Trim(s)[k]) {
      assert Trim(s)[k] == s[a + k];
    }
  }

  lemma LeadingSpacesAppend(w: string, t: string)
    requires AllSpace(w)
    ensures LeadingSpaces(w + t) == |w| + LeadingSpaces(t)
  {
    var n := LeadingSpaces(t);
    var s := w + t;
    LeadingSpacesAreSpaces(t);
    assert s[|w|..] == t;
    assert s[..|w| + n] == w + t[..n];
    if |w| + n < |s| { assert s[|w| + n] == t[n]; }
    LeadingSpacesAt(s, |w| + n);
  }

  /** Spaces in front of a string do not change what `trim` returns. */
  lemma {:induction false} TrimSkipsLeadingSpace(w: string, t: string)
    requires AllSpace(w)
    ensures Trim(w + t) == Trim(t)
    decreases |w|
  {
    if |w| == 0 {
      assert w + t == t;
    } else {
      assert (w + t)[1..] == w[1..] + t;
      TrimSkipsLeadingSpace(w[1..], t);
    }
  }

  /* ---------------- slicing ---------------- */

  lemma SliceOfSlice<T>(s: seq<T>, a: int, b: int, i: int, j: int)
    requires 0 <= a <= b <= |s| && 0 <= i <= j <= b - a
    ensures s[a..b][i..j] == s[a + i..a + j]
  {
    forall k | 0 <= k < j - i
      ensures s[a..b][i..j][k] == s[a + i..a + j][k]
    {
      assert s[a..b][i..j][k] == s[a..b][i + k] == s[a + i + k];
    }
  }

  lemma DropOfDrop<T>(s: seq<T>, a: int, i: int)
    requires 0 <= a && 0 <= i && a + i <= |s|
    ensures s[a..][i..] == s[a + i..]
  {
  }

  lemma TakeOfDrop<T>(s: seq<T>, a: int, i: int)
    requires 0 <= a && 0 <= i && a + i <= |s|
    ensures s[a..][..i] == s[a..a + i]
  {
  }

  /** The two parts of a concatenation. */
  lemma AfterPrefix<T>(a: seq<T>, b: seq<T>)
    ensures (a + b)[|a|..] == b && (a + b)[..|a|] == a
  {
  }

  lemma TakeInSecond<T>(a: seq<T>, b: seq<T>, k: int)
    requires |a| <= k <= |a| + |b|
    ensures (a + b)[..k] == a + b[..k - |a|]
  {
  }

  /** The same text around two strings that give equal results. */
  lemma CancelAround<T>(a: seq<T>, x: seq<T>, y: seq<T>, b: seq<T>)
    requires a + x + b == a + y + b
    ensures x == y
  {
    assert |x| == |y|;
    assert x == (a + x + b)[|a|..|a| + |x|];
    assert y == (a + y + b)[|a|..|a| + |y|];
  }

  lemma Concat3<T>(a: seq<T>, b: seq<T>, c: seq<T>)
    ensures a + b + c == a + (b + c)
  {
  }

  /** A block with one element in front, regrouped around that element. */
  lemma RegroupAround<T>(a: seq<T>, x: T, g: seq<T>, c: seq<T>)
    ensures a + ([x] + g) + c == a + ([x] + (g + c))
  {
  }

  lemma RegroupAroundTwo<T>(a: seq<T>, x: T, g: seq<T>, y: T, c: seq<T>)
    ensures a + ([x] + g) + [y] + c == a + ([x] + ((g + [y]) + c))
  {
  }

  /* ---------------- split and join on "\n" ---------------- */

  /** `s.split("\n")`: never empty, and no piece holds a newline. */
  function Split(s: string): (r: seq<string>)
    ensures |r| >= 1
  {
    if |s| == 0 then [""]
    else if s[0] == '\n' then [""] + Split(s[1..])
    else
      var rest := Split(s[1..]);
      [[s[0]] + rest[0]] + rest[1..]
  }

  /** `lines.join("\n")`. */
  function Join(lines: seq<string>): string
  {
    if |lines| == 0 then ""
    else if |lines| == 1 then lines[0]
    else lines[0] + "\n" + Join(lines[1..])
  }

  predicate NoNewlines(lines: seq<string>) {
    forall k :: 0 <= k < |lines| ==> '\n' !in lines[k]
  }

  /** No piece of a split holds the separator. */
  lemma {:induction false} SplitPieces(s: string)
    ensures NoNewlines(Split(s))
    decreases |s|
  {
    if |s| > 0 {
      SplitPieces(s[1..]);
      var rest := Split(s[1..]);
      var r := Split(s);
      if s[0] == '\n' {
        assert r == [""] + rest;
        forall k | 0 <= k < |r| ensures '\n' !in r[k] {
          if k > 0 { assert r[k] == rest[k - 1]; }
        }
      } else {
        forall k | 0 <= k < |r| ensures '\n' !in r[k] {
          if k > 0 { assert r[k] == rest[k]; }
          else { assert r[0] == [s[0]] + rest[0]; }
        }
      }
    }
  }

  lemma NoNewlinesConcat(a: seq<string>, b: seq<string>)
    requires NoNewlines(a) && NoNewlines(b)
    ensures NoNewlines(a + b)
  {
    forall k | 0 <= k < |a + b|
      ensures '\n' !in (a + b)[k]
    {
      if k >= |a| {
        assert (a + b)[k] == b[k - |a|];
      }
    }
  }

  lemma {:induction false} JoinSplit(s: string)
    ensures Join(Split(s)) == s
  {
    if |s| == 0 {
    } else if s[0] == '\n' {
      JoinSplit(s[1..]);
      assert Split(s)[1..] == Split(s[1..]);
    } else {
      JoinSplit(s[1..]);
      var rest := Split(s[1..]);
      var r := Split(s);
      assert r[1..] == rest[1..];
      if |rest| == 1 {
        assert Join(r) == [s[0]] + rest[0];
      } else {
        assert Join(rest) == rest[0] + "\n" + Join(rest[1..]);
        assert Join(r) == ([s[0]] + rest[0]) + "\n" + Join(rest[1..]);
      }
      assert s == [s[0]] + s[1..];
    }
  }

  /** Splitting a line that has no newline, followed by a newline and more text. */
  lemma {:induction false} SplitLine(a: string, b: string)
    requires '\n' !in a
    ensures Split(a) == [a]
    ensures Split(a + "\n" + b) == [a] + Split(b)
  {
    if |a| == 0 {
      assert a + "\n" + b == "\n" + b;
      assert ("\n" + b)[1..] == b;
    } else {
      SplitLine(a[1..], b);
      assert (a + "\n" + b)[1..] == a[1..] + "\n" + b;
      assert [a[0]] + a[1..] == a;
    }
  }

  lemma {:induction false} SplitJoin(lines: seq<string>)
    requires |lines| >= 1 && NoNewlines(lines)
    ensures Split(Join(lines)) == lines
  {
    if |lines| == 1 {
      SplitLine(lines[0], "");
    } else {
      SplitJoin(lines[1..]);
      SplitLine(lines[0], Join(lines[1..]));
      assert [lines[0]] + lines[1..] == lines;
    }
  }

  lemma {:induction false} JoinAppend(a: seq<string>, b: seq<string>)
    requires |a| >= 1 && |b| >= 1
    ensures Join(a + b) == Join(a) + "\n" + Join(b)
  {
    if |a| == 1 {
      assert (a + b)[1..] == b;
    } else {
      JoinAppend(a[1..], b);
      assert (a + b)[1..] == a[1..] + b;
    }
  }

  /** A blank line between two blocks of lines is two newlines in the text. */
  lemma JoinBlankBetween(a: seq<string>, b: seq<string>)
    requires |a| >= 1 && |b| >= 1
    ensures Join(a + [""] + b) == Join(a) + "\n\n" + Join(b)
  {
    var c := [""] + b;
    JoinAppend(a, c);
    assert c[1..] == b;
    assert Join(c) == "\n" + Join(b) by {
      assert Join(c) == c[0] + "\n" + Join(c[1..]);
      assert c[0] == "";
    }
    Concat3(a, [""], b);
    StringAssoc(Join(a), "\n", "\n", Join(b));
    assert "\n" + "\n" == "\n\n";
  }

  /** A line and a blank line in front of a block of lines. */
  lemma JoinLineBlank(line: string, b: seq<string>)
    requires |b| >= 1
    ensures Join([line, ""] + b) == line + "\n\n" + Join(b)
  {
    assert [line, ""] + b == [line] + [""] + b;
    JoinBlankBetween([line], b);
  }

  lemma StringAssoc(a: string, b: string, c: string, d: string)
    ensures a + b + (c + d) == a + (b + c) + d
    ensures a + (b + c + d) == a + b + c + d
  {
  }

  /** `line` sits in `s` at `p`, with a line break or an end of `s` on either side. */
  predicate LineAt(s: string, line: string, p: nat) {
    p + |line| <= |s| && s[p..p + |line|] == line
    && (p == 0 || s[p - 1] == '\n')
    && (p + |line| == |s| || s[p + |line|] == '\n')
  }

  /** Where line `k` sits in the joined text: it starts at the beginning or just
      after a newline, and ends at the end or just before a newline. */
  lemma {:induction false} JoinPlacesLine(lines: seq<string>, k: nat) returns (p: nat)
    requires k < |lines|
    ensures LineAt(Join(lines), lines[k], p)
  {
    if |lines| == 1 {
      p := 0;
      assert Join(lines)[0..|lines[0]|] == lines[0];
    } else {
      var tail := Join(lines[1..]);
      assert Join(lines) == lines[0] + "\n" + tail;
      if k == 0 {
        p := 0;
        LineAtFront(lines[0], tail);
      } else {
        var q := JoinPlacesLine(lines[1..], k - 1);
        p := |lines[0]| + 1 + q;
        LineAtShift(lines[0], tail, lines[k], q);
      }
    }
  }

  /** The first line of `head + "\n" + tail` is `head`. */
  lemma LineAtFront(head: string, tail: string)
    ensures LineAt(head + "\n" + tail, head, 0)
  {
    var s := head + "\n" + tail;
    assert s[0..|head|] == head;
    assert s[|head|] == '\n';
  }

  /** A line of `tail` is a line of `head + "\n" + tail`, further on. */
  lemma LineAtShift(head: string, tail: string, line: string, q: nat)
    requires LineAt(tail, line, q)
    ensures LineAt(head + "\n" + tail, line, |head| + 1 + q)
  {
    var s := head + "\n" + tail;
    var p := |head| + 1 + q;
    assert s[p..p + |line|] == tail[q..q + |line|];
    if p + |line| < |s| { assert s[p + |line|] == tail[q + |line|]; }
    if q > 0 { assert s[p - 1] == tail[q - 1]; }
  }


  /* ---------------- case folding ---------------- */

  /** Canonical form of a character under the `i` flag without `u`: only ASCII
      letters fold, because a non-ASCII character never folds onto an ASCII one. */
  function ToLowerAscii(c: char): char {
    if 'A' <= c <= 'Z' then (c as int + 32) as char else c
  }

  predicate EqualsIgnoreCase(a: string, b: string) {
    |a| == |b| && forall k :: 0 <= k < |a| ==> ToLowerAscii(a[k]) == ToLowerAscii(b[k])
  }

  /* ---------------- decimal numbers ---------------- */

  predicate IsDigit(c: char) {
    '0' <= c <= '9'
  }

  predicate AllDigits(s: string) {
    forall k :: 0 <= k < |s| ==> IsDigit(s[k])
  }

  function DigitChar(d: nat): (c: char)
    requires d < 10
    ensures IsDigit(c) && c as int - '0' as int == d
  {
    ('0' as int + d) as char
  }

  /** `n.toString()` for a non-negative integer: decimal, no leading zeros. */
  function NatToString(n: nat): (s: string)
    ensures 1 <= |s|
    ensures |s| == 1 <==> n < 10
  {
    if n < 10 then [DigitChar(n)] else NatToString(n / 10) + [DigitChar(n % 10)]
  }

  lemma {:induction false} NatToStringDigits(n: nat)
    ensures AllDigits(NatToString(n))
  {
    if n >= 10 {
      NatToStringDigits(n / 10);
      var s := NatToString(n);
      forall k | 0 <= k < |s| ensures IsDigit(s[k]) {
        if k < |s| - 1 { assert s[k] == NatToString(n / 10)[k]; }
      }
    }
  }

  /** `n.toString()` for any integer: a minus sign in front of negative values. */
  function IntToString(n: int): (s: string)
    ensures 1 <= |s|
  {
    if n < 0 then "-" + NatToString(-n) else NatToString(n)
  }

  /** What `IntToString` writes is digits and possibly a minus sign. */
  lemma IntToStringChars(n: int)
    ensures forall k :: 0 <= k < |IntToString(n)| ==> IsDigit(IntToString(n)[k]) || IntToString(n)[k] == '-'
  {
    var s := IntToString(n);
    if n < 0 {
      NatToStringDigits(-n);
      forall k | 0 <= k < |s| ensures IsDigit(s[k]) || s[k] == '-' {
        if k > 0 { assert s[k] == NatToString(-n)[k - 1]; }
      }
    } else {
      NatToStringDigits(n);
    }
  }

  /** The value of a string of decimal digits. */
  function DigitsValue(s: string): nat
    requires AllDigits(s)
  {
    if |s| == 0 then 0 else DigitsValue(s[..|s| - 1]) * 10 + (s[|s| - 1] as int - '0' as int)
  }

  /** Reads back what `IntToString` writes. */
  function ParseInt(s: string): Option<int> {
    if |s| >= 2 && s[0] == '-' && AllDigits(s[1..]) then Some(-(DigitsValue(s[1..]) as int))
    else if |s| >= 1 && AllDigits(s) then Some(DigitsValue(s))
    else None
  }

  lemma {:induction false} NatToStringRoundTrip(n: nat)
    ensures AllDigits(NatToString(n))
    ensures DigitsValue(NatToString(n)) == n
  {
    NatToStringDigits(n);
    if n >= 10 {
      NatToStringRoundTrip(n / 10);
      var s := NatToString(n);
      assert s[..|s| - 1] == NatToString(n / 10);
    }
  }

  lemma IntToStringRoundTrip(n: int)
    ensures ParseInt(IntToString(n)) == Some(n)
  {
    if n < 0 {
      NegativeRoundTrip(n);
    } else {
      NatToStringRoundTrip(n);
      assert IntToString(n)[0] != '-';
    }
  }

  lemma NegativeRoundTrip(n: int)
    requires n < 0
    ensures ParseInt(IntToString(n)) == Some(n)
  {
    var d := NatToString(-n);
    NatToStringRoundTrip(-n);
    ParseMinus(d);
    assert IntToString(n) == "-" + d;
  }

  lemma ParseMinus(d: string)
    requires |d| >= 1 && AllDigits(d)
    ensures ParseInt("-" + d) == Some(-(DigitsValue(d) as int))
  {
    assert ("-" + d)[1..] == d;
  }

  /** `s.padStart(2, "0")`. */
  function PadStart2(s: string): (r: string)
    ensures |r| == if |s| < 2 then 2 else |s|
    ensures r[|r| - |s|..] == s
  {
    if |s| == 0 then "00" else if |s| == 1 then "0" + s else s
  }

  /** What `PadStart2` puts in front is zeros. */
  lemma PadStart2Zeros(s: string)
    ensures forall k :: 0 <= k < |PadStart2(s)| - |s| ==> PadStart2(s)[k] == '0'
  {
  }
}
