/**
 * The string operations the API applies to upstream payloads:
 * `String.prototype.trim`, `toLowerCase` (on ASCII letters), `Array.prototype.join`,
 * the splitting that inverts a join, and the decimal text of a non-negative integer
 * (what a template literal `${idx}` produces for an array index).
 */
module JsText {

  /** ECMAScript WhiteSpace and LineTerminator code points, which `trim` removes. */
  predicate IsWhiteSpace(c: char) {
    || c == ' ' || c == '\t' || c == '\n' || c == '\r'
    || c == '\U{000B}' || c == '\U{000C}' || c == '\U{00A0}' || c == '\U{FEFF}'
    || c == '\U{1680}' || ('\U{2000}' <= c <= '\U{200A}')
    || c == '\U{2028}' || c == '\U{2029}' || c == '\U{202F}' || c == '\U{205F}' || c == '\U{3000}'
  }

  /** Removes leading white space; the result is a suffix of `s`. */
  function TrimStart(s: string): (r: string)
    ensures |r| <= |s| && r == s[|s| - |r|..]
    ensures r == [] || !IsWhiteSpace(r[0])
  {
    if s != [] && IsWhiteSpace(s[0]) then TrimStart(s[1..]) else s
  }

  /** Removes trailing white space; the result is a prefix of `s`. */
  function TrimEnd(s: string): (r: string)
    ensures |r| <= |s| && r == s[..|r|]
    ensures r == [] || !IsWhiteSpace(r[|r| - 1])
  {
    if s != [] && IsWhiteSpace(s[|s| - 1]) then TrimEnd(s[..|s| - 1]) else s
  }

  /** `s.trim()`: white space cut from both ends. */
  function Trim(s: string): (r: string)
    ensures |r| <= |s|
    ensures r == [] || (!IsWhiteSpace(r[0]) && !IsWhiteSpace(r[|r| - 1]))
  {
    TrimEnd(TrimStart(s))
  }

  /** All that `trimStart` cuts away is white space. */
  lemma {:induction false} TrimStartCutsWhiteSpace(s: string)
    ensures forall k :: 0 <= k < |s| - |TrimStart(s)| ==> IsWhiteSpace(s[k])
  {
    if s != [] && IsWhiteSpace(s[0]) {
      TrimStartCutsWhiteSpace(s[1..]);
      forall k | 1 <= k < |s| - |TrimStart(s)| ensures IsWhiteSpace(s[k]) {
        assert s[k] == s[1..][k - 1];
      }
    }
  }

  /** All that `trimEnd` cuts away is white space. */
  lemma {:induction false} TrimEndCutsWhiteSpace(s: string)
    ensures forall k :: |TrimEnd(s)| <= k < |s| ==> IsWhiteSpace(s[k])
  {
    if s != [] && IsWhiteSpace(s[|s| - 1]) {
      TrimEndCutsWhiteSpace(s[..|s| - 1]);
      forall k | |TrimEnd(s)| <= k < |s| - 1 ensures IsWhiteSpace(s[k]) {
        assert s[k] == s[..|s| - 1][k];
      }
    }
  }

  /** `trim` keeps one contiguous slice of `s`, and all it cuts before and after that
      slice is white space. */
  lemma TrimCutsOnlyWhiteSpace(s: string)
    ensures |s| - |TrimStart(s)| + |Trim(s)| <= |s|
    ensures Trim(s) == s[|s| - |TrimStart(s)|..|s| - |TrimStart(s)| + |Trim(s)|]
    ensures forall k :: 0 <= k < |s| - |TrimStart(s)| ==> IsWhiteSpace(s[k])
    ensures forall k :: |s| - |TrimStart(s)| + |Trim(s)| <= k < |s| ==> IsWhiteSpace(s[k])
  {
    TrimStartCutsWhiteSpace(s);
    TrimIsSlice(s);
    TrimCutsTrailing(s);
  }

  lemma TrimIsSlice(s: string)
    ensures |s| - |TrimStart(s)| + |Trim(s)| <= |s|
    ensures Trim(s) == s[|s| - |TrimStart(s)|..|s| - |TrimStart(s)| + |Trim(s)|]
  {
    SliceOfSlice(s, TrimStart(s), Trim(s));
  }

  /** A prefix `r` of a suffix `t` of `s` is a slice of `s`. */
  lemma SliceOfSlice(s: string, t: string, r: string)
    requires |t| <= |s| && t == s[|s| - |t|..]
    requires |r| <= |t| && r == t[..|r|]
    ensures |s| - |t| + |r| <= |s| && r == s[|s| - |t|..|s| - |t| + |r|]
  {
  }

  lemma TrimCutsTrailing(s: string)
    ensures forall k :: |s| - |TrimStart(s)| + |Trim(s)| <= k < |s| ==> IsWhiteSpace(s[k])
  {
    var t, r := TrimStart(s), Trim(s);
    var i := |s| - |t|;
    TrimEndCutsWhiteSpace(t);
    forall k | i + |r| <= k < |s| ensures IsWhiteSpace(s[k]) {
      assert s[k] == t[k - i];
    }
  }

  lemma TrimIdempotent(s: string)
    ensures Trim(Trim(s)) == Trim(s)
  {
    var r := Trim(s);
    if r != [] {
      assert TrimStart(r) == r;
      assert TrimEnd(r) == r;
    }
  }

  function LowerChar(c: char): (d: char)
    ensures !('A' <= d <= 'Z')
    ensures ('A' <= c <= 'Z') || d == c
  {
    if 'A' <= c <= 'Z' then (c as int - 'A' as int + 'a' as int) as char else c
  }

  /** Lowering a letter never makes or removes white space. */
  lemma LowerCharWhiteSpace(c: char)
    ensures IsWhiteSpace(LowerChar(c)) <==> IsWhiteSpace(c)
  {
  }

  /** `s.toLowerCase()` restricted to the ASCII letters. */
  function ToLower(s: string): (r: string)
    ensures |r| == |s|
    ensures forall k :: 0 <= k < |r| ==> !('A' <= r[k] <= 'Z')
    ensures forall k :: 0 <= k < |r| ==> r[k] == LowerChar(s[k])
  {
    if s == [] then []
    else
      var r := [LowerChar(s[0])] + ToLower(s[1..]);
      assert forall k :: 1 <= k < |r| ==> r[k] == ToLower(s[1..])[k - 1] && s[k] == s[1..][k - 1];
      r
  }

  /** Lowering keeps a string free of white space at its ends. */
  lemma ToLowerKeepsEnds(t: string)
    requires t == [] || (!IsWhiteSpace(t[0]) && !IsWhiteSpace(t[|t| - 1]))
    ensures ToLower(t) == [] || (!IsWhiteSpace(ToLower(t)[0]) && !IsWhiteSpace(ToLower(t)[|t| - 1]))
  {
    if t != [] {
      LowerCharWhiteSpace(t[0]);
      LowerCharWhiteSpace(t[|t| - 1]);
    }
  }

  /** Text without capitals A–Z is its own lower case. */
  lemma ToLowerOfLowerCase(s: string)
    ensures (forall k :: 0 <= k < |s| ==> !('A' <= s[k] <= 'Z')) ==> ToLower(s) == s
  {
  }

  lemma ToLowerIdempotent(s: string)
    ensures ToLower(ToLower(s)) == ToLower(s)
  {
  }

  /** `parts.join([sep])`: the first piece leads, and a separator follows it when another
      piece comes after. */
  function Join(parts: seq<string>, sep: char): (r: string)
    ensures |parts| == 0 ==> r == []
    ensures |parts| >= 1 ==> |parts[0]| <= |r| && r[..|parts[0]|] == parts[0]
    ensures |parts| >= 2 ==> |parts[0]| < |r| && r[|parts[0]|] == sep
  {
    if |parts| == 0 then []
    else if |parts| == 1 then parts[0]
    else parts[0] + [sep] + Join(parts[1..], sep)
  }

  /** `s.split(sep)` for a one-character separator: the maximal separator-free pieces. */
  function Split(s: string, sep: char): (r: seq<string>)
    ensures |r| >= 1
  {
    if s == [] then [[]]
    else
      var rest := Split(s[1..], sep);
      if s[0] == sep then [[]] + rest else [[s[0]] + rest[0]] + rest[1..]
  }

  /** The pieces of a list that are truthy strings, `parts.filter(Boolean)`. */
  function NonEmpty(parts: seq<string>): (r: seq<string>)
    ensures |r| <= |parts|
    ensures forall k :: 0 <= k < |r| ==> r[k] != []
    ensures forall x :: x in r <==> x in parts && x != []
  {
    if parts == [] then []
    else if parts[0] == [] then NonEmpty(parts[1..])
    else [parts[0]] + NonEmpty(parts[1..])
  }

  /** Filtering a concatenation filters each part. */
  lemma {:induction false} NonEmptyAppend(a: seq<string>, b: seq<string>)
    ensures NonEmpty(a + b) == NonEmpty(a) + NonEmpty(b)
  {
    if a == [] {
      assert a + b == b;
    } else {
      assert (a + b)[0] == a[0];
      assert (a + b)[1..] == a[1..] + b;
      NonEmptyAppend(a[1..], b);
    }
  }

  lemma {:induction false} SplitSeparatorFree(a: string, sep: char)
    requires sep !in a
    ensures Split(a, sep) == [a]
  {
    if a != [] {
      SplitSeparatorFree(a[1..], sep);
      assert [a[0]] + a[1..] == a;
    }
  }

  lemma {:induction false} SplitAtSeparator(a: string, sep: char, b: string)
    requires sep !in a
    ensures Split(a + [sep] + b, sep) == [a] + Split(b, sep)
  {
    var s := a + [sep] + b;
    if a == [] {
      assert s[1..] == b;
    } else {
      assert s[1..] == a[1..] + [sep] + b;
      SplitAtSeparator(a[1..], sep, b);
      assert [a[0]] + a[1..] == a;
    }
  }

  /** Splitting undoes joining when no piece contains the separator. */
  lemma {:induction false} SplitJoin(parts: seq<string>, sep: char)
    requires |parts| >= 1
    requires forall k :: 0 <= k < |parts| ==> sep !in parts[k]
    ensures Split(Join(parts, sep), sep) == parts
  {
    if |parts| == 1 {
      SplitSeparatorFree(parts[0], sep);
    } else {
      SplitJoin(parts[1..], sep);
      SplitAtSeparator(parts[0], sep, Join(parts[1..], sep));
      assert [parts[0]] + parts[1..] == parts;
    }
  }

  predicate IsDigit(c: char) { '0' <= c <= '9' }

  function DigitChar(d: nat): (c: char)
    requires d < 10
    ensures IsDigit(c)
  {
    ('0' as int + d) as char
  }

  /** The decimal text of `n`, as `String(n)` gives for a non-negative integer. */
  function Decimal(n: nat): (r: string)
    ensures r != []
    ensures forall k :: 0 <= k < |r| ==> IsDigit(r[k])
    ensures |r| > 1 ==> r[0] != '0'
  {
    if n < 10 then [DigitChar(n)] else Decimal(n / 10) + [DigitChar(n % 10)]
  }

  /** The value a string of decimal digits denotes. */
  function DecimalValue(s: string): nat
    requires forall k :: 0 <= k < |s| ==> IsDigit(s[k])
  {
    if s == [] then 0
    else
      assert IsDigit(s[|s| - 1]);
      DecimalValue(s[..|s| - 1]) * 10 + (s[|s| - 1] as int - '0' as int)
  }

  lemma {:induction false} DecimalValueOfDecimal(n: nat)
    ensures DecimalValue(Decimal(n)) == n
  {
    if n >= 10 {
      DecimalValueOfDecimal(n / 10);
      var s := Decimal(n);
      assert s[..|s| - 1] == Decimal(n / 10);
    }
  }

  lemma DecimalInjective(m: nat, n: nat)
    requires Decimal(m) == Decimal(n)
    ensures m == n
  {
    DecimalValueOfDecimal(m);
    DecimalValueOfDecimal(n);
  }

  /** Two strings of the form `a + "-" + digits` with the same text have the same digits:
      the digits are recovered as the text after the last hyphen. */
  lemma HyphenDigitsSuffix(a: string, x: string, b: string, y: string)
    requires forall k :: 0 <= k < |x| ==> IsDigit(x[k])
    requires forall k :: 0 <= k < |y| ==> IsDigit(y[k])
    requires a + ['-'] + x == b + ['-'] + y
    ensures x == y
  {
    var s := a + ['-'] + x;
    var t := b + ['-'] + y;
    assert forall k :: |a| + 1 <= k < |s| ==> s[k] == x[k - |a| - 1];
    assert forall k :: |b| + 1 <= k < |t| ==> t[k] == y[k - |b| - 1];
    assert s[|a|] == '-' && t[|b|] == '-';
    assert |a| <= |b| by { assert t[|a|] == '-'; }
    assert |b| <= |a| by { assert s[|b|] == '-'; }
    assert x == s[|a| + 1..] == t[|b| + 1..] == y;
  }
}
