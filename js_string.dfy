/**
 * The few JavaScript string operations the application relies on, with the
 * semantics ECMAScript gives them: `startsWith`, `indexOf`, `split` with a
 * string separator, `replace` with a string pattern (first occurrence only),
 * `trim`, `substring(0, n)`, `repeat`, and `Number.prototype.toString` on integers.
 */
module JsString {
  import opened Wrappers

  predicate StartsWith(s: string, p: string) {
    |p| <= |s| && s[..|p|] == p
  }

  /** An opening of `a` is an opening of `a + b`. */
  lemma StartsWithConcat(a: string, b: string, p: string)
    requires StartsWith(a, p)
    ensures StartsWith(a + b, p)
  {
    assert (a + b)[..|p|] == a[..|p|];
  }

  /** `p` occurs in `s` at index `i`. */
  predicate OccursAt(s: string, p: string, i: nat) {
    i + |p| <= |s| && s[i..i + |p|] == p
  }

  predicate Contains(s: string, p: string) {
    exists i: nat | i <= |s| :: OccursAt(s, p, i)
  }

  lemma OccursAtTail(s: string, p: string, j: nat)
    requires |s| > 0
    ensures OccursAt(s, p, j + 1) <==> OccursAt(s[1..], p, j)
  {
    if j + 1 + |p| <= |s| {
      assert s[1..][j..j + |p|] == s[j + 1..j + 1 + |p|];
    }
  }

  /** `s.indexOf(p)`: the first index at which `p` occurs, None for -1. */
  function IndexOf(s: string, p: string): (r: Option<nat>)
    ensures r.Some? ==> OccursAt(s, p, r.value)
    ensures r.Some? ==> forall j: nat :: j < r.value ==> !OccursAt(s, p, j)
    ensures r.None? ==> forall j: nat :: !OccursAt(s, p, j)
    decreases |s|
  {
    if |s| < |p| then None
    else if s[..|p|] == p then Some(0)
    else
      var rest := IndexOf(s[1..], p);
      assert forall j: nat :: OccursAt(s, p, j + 1) <==> OccursAt(s[1..], p, j) by {
        forall j: nat ensures OccursAt(s, p, j + 1) <==> OccursAt(s[1..], p, j) {
          OccursAtTail(s, p, j);
        }
      }
      assert forall j: nat :: OccursAt(s, p, j) ==> j == 0 || OccursAt(s[1..], p, j - 1);
      match rest
      case None => None
      case Some(i) => Some(i + 1)
  }

  /** `s.split(sep)` for a non-empty string separator: the pieces between
      non-overlapping occurrences of `sep`, found from left to right. */
  function Split(s: string, sep: string): (r: seq<string>)
    requires |sep| > 0
    ensures |r| >= 1
    decreases |s|
  {
    match IndexOf(s, sep)
    case None => [s]
    case Some(i) => [s[..i]] + Split(s[i + |sep|..], sep)
  }

  /** `xs.join(sep)`. */
  function Join(xs: seq<string>, sep: string): string {
    if |xs| == 0 then ""
    else if |xs| == 1 then xs[0]
    else xs[0] + sep + Join(xs[1..], sep)
  }

  /** Splitting loses nothing: joining the pieces with the separator gives back the string. */
  lemma {:induction false} SplitJoin(s: string, sep: string)
    requires |sep| > 0
    ensures Join(Split(s, sep), sep) == s
    decreases |s|
  {
    match IndexOf(s, sep)
    case None =>
    case Some(i) =>
      var rest := s[i + |sep|..];
      var pieces := Split(rest, sep);
      SplitJoin(rest, sep);
      var all := [s[..i]] + pieces;
      assert Split(s, sep) == all;
      assert all[1..] == pieces;
      assert Join(all, sep) == s[..i] + sep + Join(pieces, sep);
      assert s[i..i + |sep|] == sep;
      assert s == s[..i] + s[i..i + |sep|] + rest;
  }

  /** A prefix that ends before the first occurrence does not contain the pattern. */
  lemma PrefixAvoids(s: string, p: string, i: nat)
    requires |p| > 0 && i <= |s|
    requires forall j: nat :: j < i ==> !OccursAt(s, p, j)
    ensures !Contains(s[..i], p)
  {
    forall j: nat | j <= i ensures !OccursAt(s[..i], p, j) {
      if OccursAt(s[..i], p, j) {
        assert s[..i][j..j + |p|] == s[j..j + |p|];
        assert OccursAt(s, p, j);
      }
    }
  }

  /** No piece contains the separator. */
  lemma {:induction false} SplitPiecesAvoidSep(s: string, sep: string, k: nat)
    requires |sep| > 0
    requires k < |Split(s, sep)|
    ensures !Contains(Split(s, sep)[k], sep)
    decreases |s|
  {
    match IndexOf(s, sep)
    case None =>
    case Some(i) =>
      var rest := s[i + |sep|..];
      assert Split(s, sep) == [s[..i]] + Split(rest, sep);
      if k == 0 {
        PrefixAvoids(s, sep, i);
      } else {
        SplitPiecesAvoidSep(rest, sep, k - 1);
        assert Split(s, sep)[k] == Split(rest, sep)[k - 1];
      }
  }

  /** Number of occurrences of the character `c` in `s`. */
  function Count(s: string, c: char): nat {
    if |s| == 0 then 0 else (if s[0] == c then 1 else 0) + Count(s[1..], c)
  }

  lemma {:induction false} CountConcat(a: string, b: string, c: char)
    ensures Count(a + b, c) == Count(a, c) + Count(b, c)
  {
    if |a| == 0 {
      assert a + b == b;
    } else {
      assert (a + b)[1..] == a[1..] + b;
      CountConcat(a[1..], b, c);
    }
  }

  lemma {:induction false} CountAtMost(s: string, c: char)
    ensures Count(s, c) <= |s|
  {
    if |s| > 0 {
      CountAtMost(s[1..], c);
    }
  }

  lemma {:induction false} CountAbsent(s: string, c: char)
    requires forall j: nat :: !OccursAt(s, [c], j)
    ensures Count(s, c) == 0
  {
    if |s| > 0 {
      assert !OccursAt(s, [c], 0);
      assert s[0] != c;
      forall j: nat ensures !OccursAt(s[1..], [c], j) {
        OccursAtTail(s, [c], j);
      }
      CountAbsent(s[1..], c);
    }
  }

  /** With a one-character separator there is one piece more than there are separators. */
  lemma {:induction false} SplitCharCount(s: string, c: char)
    ensures |Split(s, [c])| == Count(s, c) + 1
    decreases |s|
  {
    match IndexOf(s, [c])
    case None =>
      CountAbsent(s, c);
    case Some(i) =>
      var rest := s[i + 1..];
      SplitCharCount(rest, c);
      assert s == s[..i] + [c] + rest;
      CountConcat(s[..i] + [c], rest, c);
      CountConcat(s[..i], [c], c);
      forall j: nat ensures !OccursAt(s[..i], [c], j) {
        if OccursAt(s[..i], [c], j) {
          assert s[..i][j..j + 1] == s[j..j + 1];
          assert OccursAt(s, [c], j);
        }
      }
      CountAbsent(s[..i], c);
      assert Count([c], c) == 1;
  }

  /** `s.replace(p, rep)` with a string pattern: only the first occurrence is replaced
      (`rep` is taken literally; the `$` patterns of the replacement string are not used
      by the application). */
  function ReplaceFirst(s: string, p: string, rep: string): (r: string)
  {
    match IndexOf(s, p)
    case None => s
    case Some(i) => s[..i] + rep + s[i + |p|..]
  }

  /** Replacing a prefix with the empty string removes exactly that prefix. */
  lemma ReplacePrefix(s: string, p: string)
    requires StartsWith(s, p)
    ensures ReplaceFirst(s, p, "") == s[|p|..]
    ensures s == p + ReplaceFirst(s, p, "")
  {
    assert OccursAt(s, p, 0);
    assert s == s[..|p|] + s[|p|..];
  }

  /** `value || fallback` for a `string | null | undefined` value: the empty string,
      null and undefined are falsy. */
  function OrElse(value: Option<string>, fallback: string): (r: string)
    ensures r == fallback || (value.Some? && r == value.value && r != "")
    ensures value.Some? && value.value != "" ==> r == value.value
  {
    if TruthyString(value) then value.value else fallback
  }

  /** Truthiness of an optional string: present and not empty. */
  predicate TruthyString(v: Option<string>) {
    v.Some? && v.value != ""
  }

  /** Truthiness of an optional integer-valued number: present and not zero. */
  predicate TruthyInt(v: Option<int>) {
    v.Some? && v.value != 0
  }

  /** ECMAScript WhiteSpace and LineTerminator code points, which `trim` removes. */
  predicate IsJsWhitespace(c: char) {
    c == '\t' || c == '\n' || c == '\U{B}' || c == '\U{C}' || c == '\r' || c == ' '
    || c == '\U{A0}' || c == '\U{1680}' || ('\U{2000}' <= c <= '\U{200A}')
    || c == '\U{2028}' || c == '\U{2029}' || c == '\U{202F}' || c == '\U{205F}'
    || c == '\U{3000}' || c == '\U{FEFF}'
  }

  predicate IsBlank(s: string) {
    forall i :: 0 <= i < |s| ==> IsJsWhitespace(s[i])
  }

  function TrimStart(s: string): string {
    if |s| > 0 && IsJsWhitespace(s[0]) then TrimStart(s[1..]) else s
  }

  function TrimEnd(s: string): string {
    if |s| > 0 && IsJsWhitespace(s[|s| - 1]) then TrimEnd(s[..|s| - 1]) else s
  }

  /** `s.trim()` */
  function Trim(s: string): string {
    TrimEnd(TrimStart(s))
  }

  lemma {:induction false} TrimStartEmpty(s: string)
    ensures TrimStart(s) == "" <==> IsBlank(s)
  {
    if |s| > 0 && IsJsWhitespace(s[0]) {
      TrimStartEmpty(s[1..]);
      assert IsBlank(s[1..]) ==> IsBlank(s) by {
        if IsBlank(s[1..]) {
          forall i | 0 <= i < |s| ensures IsJsWhitespace(s[i]) {
            if i > 0 { assert s[i] == s[1..][i - 1]; }
          }
        }
      }
    }
  }

  lemma {:induction false} TrimEndEmpty(s: string)
    requires |s| == 0 || !IsJsWhitespace(s[0])
    ensures TrimEnd(s) == "" <==> |s| == 0
  {
    if |s| > 0 && IsJsWhitespace(s[|s| - 1]) {
      assert |s| > 1;
      TrimEndEmpty(s[..|s| - 1]);
    }
  }

  /** `s.trim()` is the empty string, i.e. falsy, exactly when `s` is all whitespace. */
  lemma TrimEmptyIffBlank(s: string)
    ensures Trim(s) == "" <==> IsBlank(s)
  {
    TrimStartEmpty(s);
    var t := TrimStart(s);
    TrimStartFirst(s);
    TrimEndEmpty(t);
  }

  lemma {:induction false} TrimStartFirst(s: string)
    ensures |TrimStart(s)| == 0 || !IsJsWhitespace(TrimStart(s)[0])
  {
    if |s| > 0 && IsJsWhitespace(s[0]) {
      TrimStartFirst(s[1..]);
    }
  }

  /** `s.substring(0, n)` for n >= 0. */
  function Prefix(s: string, n: nat): (r: string)
    ensures |r| == if n < |s| then n else |s|
    ensures r <= s
  {
    if n < |s| then s[..n] else s
  }

  /** `s.repeat(n)` */
  function Repeat(s: string, n: nat): string {
    if n == 0 then "" else s + Repeat(s, n - 1)
  }

  lemma {:induction false} RepeatLength(s: string, n: nat)
    ensures |Repeat(s, n)| == n * |s|
  {
    if n > 0 {
      RepeatLength(s, n - 1);
    }
  }

  lemma {:induction false} CountRepeat(s: string, n: nat, c: char)
    ensures Count(Repeat(s, n), c) == n * Count(s, c)
  {
    if n > 0 {
      CountRepeat(s, n - 1, c);
      CountConcat(s, Repeat(s, n - 1), c);
    }
  }

  function DigitChar(d: nat): char
    requires d < 10
  {
    "0123456789"[d]
  }

  predicate IsDigit(c: char) {
    '0' <= c <= '9'
  }

  /** Decimal digits of a natural number, as `n.toString()`. */
  function NatToString(n: nat): (r: string)
    ensures |r| >= 1
    ensures forall i :: 0 <= i < |r| ==> IsDigit(r[i])
    ensures r[0] == '0' ==> n == 0
    decreases n
  {
    if n < 10 then [DigitChar(n)] else NatToString(n / 10) + [DigitChar(n % 10)]
  }

  /** `n.toString()` for an integer-valued JavaScript number. */
  function IntToString(n: int): (r: string)
    ensures |r| >= 1
  {
    if n < 0 then "-" + NatToString(-n) else NatToString(n)
  }

  /** A number from 10 to 99 is written as its tens digit followed by its units digit. */
  lemma TwoDigits(n: nat)
    requires 10 <= n < 100
    ensures IntToString(n) == [DigitChar(n / 10), DigitChar(n % 10)]
  {
    assert NatToString(n / 10) == [DigitChar(n / 10)];
  }

  /** Value of a string of decimal digits, the inverse of NatToString. */
  function DigitsValue(s: string): nat
    requires forall i :: 0 <= i < |s| ==> IsDigit(s[i])
  {
    if |s| == 0 then 0
    else
      assert IsDigit(s[|s| - 1]);
      10 * DigitsValue(s[..|s| - 1]) + (s[|s| - 1] as int - '0' as int)
  }

  /** NatToString loses no information. */
  lemma {:induction false} NatToStringValue(n: nat)
    ensures DigitsValue(NatToString(n)) == n
    decreases n
  {
    if n >= 10 {
      NatToStringValue(n / 10);
      var r := NatToString(n);
      assert r[..|r| - 1] == NatToString(n / 10);
    }
  }

  lemma NatToStringInjective(m: nat, n: nat)
    ensures NatToString(m) == NatToString(n) ==> m == n
  {
    NatToStringValue(m);
    NatToStringValue(n);
  }
}
