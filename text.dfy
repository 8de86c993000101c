/**
 * The Python string operations the replay tools depend on, over `string`
 * (a sequence of Unicode scalar values, like Python's `str`):
 * decimal digits, `str(int)`, `str.strip()`, `str.lower()`, `str.replace`,
 * `str.join` and the code-point order that `<` and `list.sort` use on strings.
 */
module Text {

  // ---------------------------------------------------------------- digits

  predicate IsDigit(c: char) { '0' <= c <= '9' }

  predicate AllDigits(s: string) { forall i :: 0 <= i < |s| ==> IsDigit(s[i]) }

  function DigitValue(c: char): (d: nat)
    requires IsDigit(c)
    ensures d < 10
  {
    c as int - '0' as int
  }

  function DigitChar(d: nat): (c: char)
    requires d < 10
    ensures IsDigit(c) && DigitValue(c) == d
  {
    (d + '0' as int) as char
  }

  function Pow10(n: nat): (p: nat)
    ensures p >= 1
  {
    if n == 0 then 1 else 10 * Pow10(n - 1)
  }

  /** The number a string of decimal digits denotes (most significant first). */
  function Value(s: string): nat
    requires AllDigits(s)
  {
    if s == [] then 0 else Value(s[..|s| - 1]) * 10 + DigitValue(s[|s| - 1])
  }

  lemma {:induction false} ValueBound(s: string)
    requires AllDigits(s)
    ensures Value(s) < Pow10(|s|)
  {
    if s != [] {
      ValueBound(s[..|s| - 1]);
    }
  }

  /** The value of a concatenation of digit strings. */
  lemma {:induction false} ValueAppend(a: string, b: string)
    requires AllDigits(a) && AllDigits(b)
    ensures AllDigits(a + b) && Value(a + b) == Value(a) * Pow10(|b|) + Value(b)
  {
    if b == [] {
      assert a + b == a;
    } else {
      var b' := b[..|b| - 1];
      var d := DigitValue(b[|b| - 1]);
      assert (a + b)[..|a + b| - 1] == a + b' && (a + b)[|a + b| - 1] == b[|b| - 1];
      ValueAppend(a, b');
      var va, vb, p := Value(a), Value(b'), Pow10(|b'|);
      assert Value(a + b) == (va * p + vb) * 10 + d;
      assert Value(b) == vb * 10 + d;
      assert Pow10(|b|) == p * 10;
      ShiftDigit(va, p, vb, d);
    }
  }

  lemma ShiftDigit(x: int, p: int, y: int, d: int)
    ensures (x * p + y) * 10 + d == x * (p * 10) + (y * 10 + d)
  {
  }

  /** `n` printed with exactly `w` digits, zero-padded on the left (Python's `%0wd` for n < 10^w). */
  function Padded(n: nat, w: nat): (r: string)
    ensures |r| == w && AllDigits(r)
  {
    if w == 0 then [] else Padded(n / 10, w - 1) + [DigitChar(n % 10)]
  }

  /** Reading back a padded number gives the number, when it fits in the width. */
  lemma {:induction false} PaddedValue(n: nat, w: nat)
    requires n < Pow10(w)
    ensures Value(Padded(n, w)) == n
  {
    if w > 0 {
      PaddedValue(n / 10, w - 1);
      var r := Padded(n, w);
      assert r[..|r| - 1] == Padded(n / 10, w - 1);
    }
  }

  /** Printing back the value of a digit string of width w gives the string. */
  lemma {:induction false} PaddedOfValue(s: string)
    requires AllDigits(s)
    ensures Padded(Value(s), |s|) == s
  {
    if s != [] {
      var s' := s[..|s| - 1];
      PaddedOfValue(s');
      assert Value(s) / 10 == Value(s') && Value(s) % 10 == DigitValue(s[|s| - 1]);
      assert s == s' + [s[|s| - 1]];
    }
  }

  /** Python's `str(n)` for a non-negative integer: no leading zero. */
  function NatToString(n: nat): (r: string)
    ensures |r| > 0 && AllDigits(r) && Value(r) == n
    ensures |r| > 1 ==> r[0] != '0'
  {
    if n < 10 then [DigitChar(n)]
    else
      var r := NatToString(n / 10) + [DigitChar(n % 10)];
      assert r[..|r| - 1] == NatToString(n / 10);
      r
  }

  /** Python's `str(i)` for any integer. */
  function IntToString(i: int): (r: string)
    ensures i < 0 <==> (|r| > 0 && r[0] == '-')
    ensures i >= 0 ==> AllDigits(r) && Value(r) == i
    ensures i < 0 ==> AllDigits(r[1..]) && Value(r[1..]) == -i
  {
    if i < 0 then "-" + NatToString(-i) else NatToString(i)
  }

  // ---------------------------------------------------------------- strip, lower

  /** Python's `str.isspace()` for one character (the Unicode whitespace set). */
  predicate IsSpace(c: char)
  {
    var n := c as int;
    (9 <= n <= 13) || (28 <= n <= 32) || n == 0x85 || n == 0xA0 || n == 0x1680
    || (0x2000 <= n <= 0x200A) || n == 0x2028 || n == 0x2029 || n == 0x202F
    || n == 0x205F || n == 0x3000
  }

  function StripLeft(s: string): (r: string)
    ensures |r| <= |s| && r == s[|s| - |r|..]
    ensures r == [] || !IsSpace(r[0])
    ensures forall i :: 0 <= i < |s| - |r| ==> IsSpace(s[i])
  {
    if s != [] && IsSpace(s[0]) then StripLeft(s[1..]) else s
  }

  function StripRight(s: string): (r: string)
    ensures |r| <= |s| && r == s[..|r|]
    ensures r == [] || !IsSpace(r[|r| - 1])
    ensures forall i :: |r| <= i < |s| ==> IsSpace(s[i])
  {
    if s != [] && IsSpace(s[|s| - 1]) then StripRight(s[..|s| - 1]) else s
  }

  /** Python's `str.strip()`: drop leading and trailing whitespace. */
  function Strip(s: string): (r: string)
    ensures |r| <= |s|
    ensures r == [] || (!IsSpace(r[0]) && !IsSpace(r[|r| - 1]))
    ensures exists i, j :: 0 <= i <= j <= |s| && r == s[i..j] && forall k :: 0 <= k < i || j <= k < |s| ==> IsSpace(s[k])
  {
    var t := StripLeft(s);
    var i := |s| - |t|;
    var r := StripRight(t);
    assert r == s[i..i + |r|];
    r
  }

  function LowerChar(c: char): char
  {
    if 'A' <= c <= 'Z' then (c as int + 32) as char else c
  }

  /** Python's `str.lower()` on the ASCII letters. */
  function Lower(s: string): (r: string)
    ensures |r| == |s|
    ensures forall i :: 0 <= i < |s| ==> r[i] == LowerChar(s[i])
  {
    if s == [] then [] else [LowerChar(s[0])] + Lower(s[1..])
  }

  // ---------------------------------------------------------------- search, replace, join

  /** `w` occurs in `s` (Python's `w in s` for strings). */
  predicate Contains(s: string, w: string)
    decreases |s|
  {
    |w| <= |s| && (s[..|w|] == w || (|s| > 0 && Contains(s[1..], w)))
  }

  /**
   * Python's `s.replace(old, new)`: every occurrence of `old`, found left to
   * right without overlap, is replaced by `new`.
   */
  function Replace(s: string, target: string, repl: string): (r: string)
    requires |target| > 0
    ensures |repl| == |target| ==> |r| == |s|
    decreases |s|
  {
    if |s| < |target| then s
    else if s[..|target|] == target then repl + Replace(s[|target|..], target, repl)
    else [s[0]] + Replace(s[1..], target, repl)
  }

  /** A text in which `old` does not occur is left alone by `Replace`. */
  lemma {:induction false} ReplaceAbsent(s: string, target: string, repl: string)
    requires |target| > 0 && !Contains(s, target)
    ensures Replace(s, target, repl) == s
  {
    if |s| >= |target| {
      ReplaceAbsent(s[1..], target, repl);
      assert [s[0]] + s[1..] == s;
    }
  }

  /** Every part followed by `sep`. */
  function Terminated(sep: string, parts: seq<string>): string
  {
    if parts == [] then "" else parts[0] + sep + Terminated(sep, parts[1..])
  }

  /** Python's `sep.join(parts)`: the parts with `sep` between each two. */
  function Join(sep: string, parts: seq<string>): (r: string)
    ensures parts == [] ==> r == ""
    ensures parts != [] ==> r + sep == Terminated(sep, parts)
  {
    if parts == [] then "" else if |parts| == 1 then parts[0] else parts[0] + sep + Join(sep, parts[1..])
  }

  // ---------------------------------------------------------------- order

  /** Python's `a < b` on strings: code-point lexicographic order. */
  predicate LexLess(a: string, b: string)
    decreases |a|
  {
    if |a| == 0 then |b| > 0
    else if |b| == 0 then false
    else if a[0] != b[0] then a[0] < b[0]
    else LexLess(a[1..], b[1..])
  }

  predicate LexLe(a: string, b: string) { !LexLess(b, a) }

  lemma {:induction false} LexLessIrreflexive(a: string)
    ensures !LexLess(a, a)
  {
    if |a| > 0 {
      LexLessIrreflexive(a[1..]);
    }
  }

  lemma {:induction false} LexLessTransitive(a: string, b: string, c: string)
    requires LexLess(a, b) && LexLess(b, c)
    ensures LexLess(a, c)
  {
    if |a| > 0 && |b| > 0 && |c| > 0 && a[0] == b[0] && b[0] == c[0] {
      LexLessTransitive(a[1..], b[1..], c[1..]);
    }
  }

  lemma {:induction false} LexLessTotal(a: string, b: string)
    ensures LexLess(a, b) || a == b || LexLess(b, a)
  {
    if |a| > 0 && |b| > 0 && a[0] == b[0] {
      LexLessTotal(a[1..], b[1..]);
      if a[1..] == b[1..] {
        assert a == [a[0]] + a[1..] && b == [b[0]] + b[1..];
      }
    }
  }

  lemma LexLeTransitive(a: string, b: string, c: string)
    requires LexLe(a, b) && LexLe(b, c)
    ensures LexLe(a, c)
  {
    if LexLess(c, a) {
      LexLessTotal(a, b);
      if a == b {
      } else if LexLess(b, a) {
      } else {
        LexLessTransitive(c, a, b);
      }
    }
  }

  lemma LexLeTotal(a: string, b: string)
    ensures LexLe(a, b) || LexLe(b, a)
  {
    if LexLess(b, a) && LexLess(a, b) {
      LexLessTransitive(a, b, a);
      LexLessIrreflexive(a);
    }
  }

  /** Comparing concatenations whose first parts have equal length compares the first parts, then the rest. */
  lemma {:induction false} LexLessAppend(a: string, b: string, c: string, d: string)
    requires |a| == |b|
    ensures LexLess(a + c, b + d) <==> LexLess(a, b) || (a == b && LexLess(c, d))
  {
    if a != [] {
      assert (a + c)[1..] == a[1..] + c && (b + d)[1..] == b[1..] + d;
      LexLessAppend(a[1..], b[1..], c, d);
      LexLessIrreflexive(a);
      if a[0] == b[0] && a[1..] == b[1..] {
        assert a == [a[0]] + a[1..] && b == [b[0]] + b[1..];
      }
    } else {
      assert a + c == c && b + d == d;
    }
  }

  lemma MulLe(x: nat, y: nat, p: nat)
    requires x < y
    ensures x * p + p <= y * p
  {
    var z := y - x - 1;
    assert y * p == x * p + p + z * p;
  }

  /** On digit strings of equal width the code-point order is the numeric order. */
  lemma {:induction false} LexLessDigits(a: string, b: string)
    requires AllDigits(a) && AllDigits(b) && |a| == |b|
    ensures LexLess(a, b) <==> Value(a) < Value(b)
  {
    if a != [] {
      var n := |a| - 1;
      assert a == [a[0]] + a[1..] && b == [b[0]] + b[1..];
      ValueAppend([a[0]], a[1..]);
      ValueAppend([b[0]], b[1..]);
      assert Value([a[0]]) == DigitValue(a[0]) && Value([b[0]]) == DigitValue(b[0]);
      ValueBound(a[1..]);
      ValueBound(b[1..]);
      var p := Pow10(n);
      if a[0] < b[0] {
        MulLe(DigitValue(a[0]), DigitValue(b[0]), p);
      } else if b[0] < a[0] {
        MulLe(DigitValue(b[0]), DigitValue(a[0]), p);
      } else {
        LexLessDigits(a[1..], b[1..]);
      }
    }
  }

  /** Digit strings of equal width are equal exactly when their values are. */
  lemma ValueInjective(a: string, b: string)
    requires AllDigits(a) && AllDigits(b) && |a| == |b| && Value(a) == Value(b)
    ensures a == b
  {
    PaddedOfValue(a);
    PaddedOfValue(b);
  }
}
