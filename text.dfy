/**
 * String operations of the JavaScript runtime that the pipeline relies on:
 * the `\s` / `trim` whitespace class, `endsWith`, `toLowerCase`, `split`,
 * and the decimal rendering of `Number.prototype.toString`.
 */
module Text {

  /** ECMAScript WhiteSpace and LineTerminator code points: what `\s` matches and `trim` removes. */
  predicate IsSpace(c: char) {
    var n := c as int;
    n == 0x09 || n == 0x0A || n == 0x0B || n == 0x0C || n == 0x0D || n == 0x20
    || n == 0xA0 || n == 0x1680 || (0x2000 <= n <= 0x200A) || n == 0x2028 || n == 0x2029
    || n == 0x202F || n == 0x205F || n == 0x3000 || n == 0xFEFF
  }

  predicate IsBlank(s: string) {
    forall i :: 0 <= i < |s| ==> IsSpace(s[i])
  }

  /** `s.trimStart()`: drops the leading run of whitespace. */
  function TrimStart(s: string): (r: string)
    ensures |r| <= |s| && r == s[|s| - |r|..]
    ensures r == [] || !IsSpace(r[0])
    ensures IsBlank(s[..|s| - |r|])
  {
    if s != [] && IsSpace(s[0]) then
      var r := TrimStart(s[1..]);
      assert s[..|s| - |r|] == [s[0]] + s[1..][..|s| - 1 - |r|];
      r
    else
      s
  }

  /** `s.trimEnd()`: drops the trailing run of whitespace. */
  function TrimEnd(s: string): (r: string)
    ensures |r| <= |s| && r == s[..|r|]
    ensures r == [] || !IsSpace(r[|r| - 1])
    ensures IsBlank(s[|r|..])
  {
    if s != [] && IsSpace(s[|s| - 1]) then
      var r := TrimEnd(s[..|s| - 1]);
      assert s[|r|..] == s[..|s| - 1][|r|..] + [s[|s| - 1]];
      r
    else
      s
  }

  /** `s.trim()`. */
  function Trim(s: string): string {
    TrimEnd(TrimStart(s))
  }

  /** `!s.trim()` holds exactly when every character of `s` is whitespace. */
  lemma TrimIsEmptyIffBlank(s: string)
    ensures Trim(s) == [] <==> IsBlank(s)
  {
    var t := TrimStart(s);
    var r := TrimEnd(t);
    assert t != [] ==> t[0] == s[|s| - |t|];
    assert s[..|s|] == s;
    assert t[0..] == t;
  }

  predicate EndsWith(s: string, suffix: string) {
    |suffix| <= |s| && s[|s| - |suffix|..] == suffix
  }

  predicate StartsWith(s: string, prefix: string) {
    |prefix| <= |s| && s[..|prefix|] == prefix
  }

  /** `s` contains `part` somewhere. */
  ghost predicate IsInfix(part: string, s: string) {
    exists i: nat :: OccursAt(part, s, i)
  }

  predicate OccursAt(part: string, s: string, i: nat) {
    i + |part| <= |s| && s[i..i + |part|] == part
  }

  /** `b` occurs in `a + b` right after `a`. */
  lemma OccursAtEnd(a: string, b: string)
    ensures OccursAt(b, a + b, |a|)
  {
    assert (a + b)[|a|..|a| + |b|] == b;
  }

  /** An occurrence stays where it is when text is appended. */
  lemma OccursInLonger(part: string, s: string, i: nat, c: string)
    requires OccursAt(part, s, i)
    ensures OccursAt(part, s + c, i)
  {
    assert (s + c)[i..i + |part|] == s[i..i + |part|];
  }

  /** Lower-cases the ASCII letters; every other character is kept. */
  function LowerChar(c: char): (r: char)
    ensures 'A' <= c <= 'Z' ==> 'a' <= r <= 'z' && r as int == c as int + 32
    ensures !('A' <= c <= 'Z') ==> r == c
  {
    if 'A' <= c <= 'Z' then (c as int + 32) as char else c
  }

  function ToLower(s: string): (r: string)
    ensures |r| == |s|
    ensures forall i :: 0 <= i < |s| ==> r[i] == LowerChar(s[i])
  {
    seq(|s|, i requires 0 <= i < |s| => LowerChar(s[i]))
  }

  /** `u` spells `lower` with any of its ASCII letters written in upper case. */
  predicate CaseVariant(u: string, lower: string) {
    && |u| == |lower|
    && forall k :: 0 <= k < |u| ==>
         u[k] == lower[k] || ('a' <= lower[k] <= 'z' && u[k] as int == lower[k] as int - 32)
  }

  /** Lower-casing a case variant of a text without upper-case letters gives back that text. */
  lemma LowerOfCaseVariant(u: string, lower: string)
    requires CaseVariant(u, lower)
    requires forall k :: 0 <= k < |lower| ==> !('A' <= lower[k] <= 'Z')
    ensures ToLower(u) == lower
  {
    forall k | 0 <= k < |u|
      ensures ToLower(u)[k] == lower[k]
    {
      if u[k] != lower[k] {
        assert 'A' <= u[k] <= 'Z';
      }
    }
  }

  /** Lower-casing works character by character, so it commutes with taking a suffix. */
  lemma ToLowerSuffix(s: string, n: nat)
    requires n <= |s|
    ensures ToLower(s)[|s| - n..] == ToLower(s[|s| - n..])
  {
  }

  /** Position of the first occurrence of `c` in `s`. */
  function FirstIndex(s: string, c: char): (i: nat)
    requires c in s
    ensures i < |s| && s[i] == c
    ensures forall k :: 0 <= k < i ==> s[k] != c
  {
    if s[0] == c then 0 else 1 + FirstIndex(s[1..], c)
  }

  /** Position of the last occurrence of `c` in `s`. */
  function LastIndex(s: string, c: char): (i: nat)
    requires c in s
    ensures i < |s| && s[i] == c
    ensures forall k :: i < k < |s| ==> s[k] != c
  {
    if s[|s| - 1] == c then |s| - 1 else LastIndex(s[..|s| - 1], c)
  }

  /** `s.split(sep)` for a one-character separator. */
  function Split(s: string, sep: char): (parts: seq<string>)
    ensures |parts| >= 1
    ensures forall i :: 0 <= i < |parts| ==> sep !in parts[i]
    decreases |s|
  {
    if sep in s then
      var i := FirstIndex(s, sep);
      [s[..i]] + Split(s[i + 1..], sep)
    else
      [s]
  }

  /** `parts.join(sep)`. */
  function Join(parts: seq<string>, sep: char): string
    requires |parts| >= 1
  {
    if |parts| == 1 then parts[0] else parts[0] + [sep] + Join(parts[1..], sep)
  }

  lemma JoinCons(head: string, rest: seq<string>, sep: char)
    requires |rest| >= 1
    ensures Join([head] + rest, sep) == head + [sep] + Join(rest, sep)
  {
    assert ([head] + rest)[1..] == rest;
  }

  /** Splitting loses nothing: joining the parts back gives the original text. */
  lemma {:induction false} JoinSplit(s: string, sep: char)
    ensures Join(Split(s, sep), sep) == s
    decreases |s|
  {
    if sep in s {
      var i := FirstIndex(s, sep);
      var tail := s[i + 1..];
      var rest := Split(tail, sep);
      assert Split(s, sep) == [s[..i]] + rest;
      JoinCons(s[..i], rest, sep);
      JoinSplit(tail, sep);
      assert s == s[..i] + [sep] + tail;
    }
  }

  /** The first part is the text before the first separator; the rest starts after it. */
  lemma SplitAtSeparator(head: string, sep: char, tail: string)
    requires sep !in head
    ensures Split(head + [sep] + tail, sep) == [head] + Split(tail, sep)
  {
    var s := head + [sep] + tail;
    assert s[|head|] == sep;
    var i := FirstIndex(s, sep);
    assert forall k :: 0 <= k < |head| ==> s[k] == head[k];
    assert s[..i] == head;
    assert s[i + 1..] == tail;
  }

  lemma SplitWithoutSeparator(s: string, sep: char)
    requires sep !in s
    ensures Split(s, sep) == [s]
  {
  }

  function DigitChar(d: nat): (c: char)
    requires d < 10
    ensures '0' <= c <= '9'
  {
    ('0' as int + d) as char
  }

  /** Decimal digits of `n`, most significant first, without leading zeros. */
  function DecimalDigits(n: nat): (s: string)
    ensures |s| >= 1
    ensures forall i :: 0 <= i < |s| ==> '0' <= s[i] <= '9'
    ensures n >= 10 ==> |s| >= 2
    decreases n
  {
    if n < 10 then [DigitChar(n)] else DecimalDigits(n / 10) + [DigitChar(n % 10)]
  }

  /** `n.toString()` for an integer-valued JavaScript number. */
  function NumberToString(n: int): string {
    if n < 0 then "-" + DecimalDigits(-n) else DecimalDigits(n)
  }

  lemma {:induction false} DecimalDigitsInjective(a: nat, b: nat)
    requires DecimalDigits(a) == DecimalDigits(b)
    ensures a == b
    decreases a
  {
    var sa, sb := DecimalDigits(a), DecimalDigits(b);
    if a < 10 || b < 10 {
      if a < 10 && b < 10 {
        assert sa[0] == sb[0];
      }
    } else {
      assert sa[|sa| - 1] == sb[|sb| - 1];
      assert (a % 10) == (b % 10);
      assert sa[..|sa| - 1] == DecimalDigits(a / 10);
      assert sb[..|sb| - 1] == DecimalDigits(b / 10);
      DecimalDigitsInjective(a / 10, b / 10);
    }
  }

  /** Two different numbers never render to the same text. */
  lemma NumberToStringInjective(a: int, b: int)
    requires NumberToString(a) == NumberToString(b)
    ensures a == b
  {
    var sa, sb := NumberToString(a), NumberToString(b);
    assert (sa[0] == '-') == (a < 0);
    assert (sb[0] == '-') == (b < 0);
    if a < 0 {
      assert sa[1..] == DecimalDigits(-a) && sb[1..] == DecimalDigits(-b);
      DecimalDigitsInjective(-a, -b);
    } else {
      DecimalDigitsInjective(a, b);
    }
  }
}
