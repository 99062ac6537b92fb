/** JavaScript string operations the playground uses: `trim`, `startsWith`,
    number-to-decimal conversion in a template literal, and `join("\n")`;
    plus `split("\n")`, which the program never calls but which, as the
    inverse of the join, states what the copied colour text contains.
    Strings are sequences of characters. */
module JsText {

  /** The characters `String.prototype.trim` removes: the ECMAScript WhiteSpace
      set (tab, vertical tab, form feed, space, no-break space, byte order mark
      and the Unicode space separators) and the LineTerminator set. */
  predicate IsWhitespace(c: char) {
    || c == '\t' || c == '\n' || c == '\U{B}' || c == '\U{C}' || c == '\r'
    || c == ' ' || c == '\U{A0}' || c == '\U{1680}'
    || ('\U{2000}' <= c <= '\U{200A}')
    || c == '\U{2028}' || c == '\U{2029}' || c == '\U{202F}' || c == '\U{205F}'
    || c == '\U{3000}' || c == '\U{FEFF}'
  }

  predicate AllWhitespace(s: string) {
    forall k :: 0 <= k < |s| ==> IsWhitespace(s[k])
  }

  /** Neither the first nor the last character is whitespace. */
  predicate IsTrimmed(s: string) {
    s == [] || (!IsWhitespace(s[0]) && !IsWhitespace(s[|s| - 1]))
  }

  /** Drops leading whitespace. */
  function TrimStart(s: string): (r: string)
    ensures |r| <= |s|
    ensures r == [] || !IsWhitespace(r[0])
    decreases |s|
  {
    if |s| > 0 && IsWhitespace(s[0]) then TrimStart(s[1..]) else s
  }

  /** Drops trailing whitespace. */
  function TrimEnd(s: string): (r: string)
    ensures |r| <= |s|
    ensures r == [] || !IsWhitespace(r[|r| - 1])
    decreases |s|
  {
    if |s| > 0 && IsWhitespace(s[|s| - 1]) then TrimEnd(s[..|s| - 1]) else s
  }

  /** What `TrimStart` keeps is a suffix, and what it drops is whitespace. */
  lemma {:induction false} TrimStartSuffix(s: string)
    ensures TrimStart(s) == s[|s| - |TrimStart(s)|..]
    ensures AllWhitespace(s[..|s| - |TrimStart(s)|])
    decreases |s|
  {
    if |s| > 0 && IsWhitespace(s[0]) {
      TrimStartSuffix(s[1..]);
      var n := |s| - |TrimStart(s)|;
      assert s[1..][..n - 1] == s[1..n];
      assert forall k :: 1 <= k < n ==> s[k] == s[1..][..n - 1][k - 1];
    }
  }

  /** What `TrimEnd` keeps is a prefix, and what it drops is whitespace. */
  lemma {:induction false} TrimEndPrefix(s: string)
    ensures TrimEnd(s) == s[..|TrimEnd(s)|]
    ensures AllWhitespace(s[|TrimEnd(s)|..])
    decreases |s|
  {
    if |s| > 0 && IsWhitespace(s[|s| - 1]) {
      var u := s[..|s| - 1];
      TrimEndPrefix(u);
      var n := |TrimEnd(s)|;
      assert s[n..] == u[n..] + [s[|s| - 1]];
    }
  }

  /** How many leading whitespace characters `trim` cuts off. */
  function LeadingWhitespace(s: string): (n: nat)
    ensures n <= |s|
  {
    |s| - |TrimStart(s)|
  }

  /** `String.prototype.trim`: leading, then trailing whitespace cut off. */
  function Trim(s: string): (r: string)
    ensures IsTrimmed(r)
    ensures |r| <= |s|
  {
    var u := TrimStart(s);
    TrimEndPrefix(u);
    TrimEnd(u)
  }

  /** `trim` cuts whitespace from both ends and nothing else: the result is
      the slice of the input after the leading whitespace, and what lies
      before and after it is whitespace. */
  lemma TrimCutsWhitespace(s: string)
    ensures var a, r := LeadingWhitespace(s), Trim(s);
      && a + |r| <= |s|
      && r == s[a..a + |r|]
      && AllWhitespace(s[..a])
      && AllWhitespace(s[a + |r|..])
  {
    var u := TrimStart(s);
    var r := Trim(s);
    var a := |s| - |u|;
    TrimStartSuffix(s);
    TrimEndPrefix(u);
    assert r == u[..|r|];
    assert u[..|r|] == s[a..a + |r|];
    assert s[a + |r|..] == u[|r|..];
  }

  /** Trimming a string that has no whitespace at either end changes nothing,
      so `trim` is idempotent. */
  lemma TrimOfTrimmed(s: string)
    requires IsTrimmed(s)
    ensures Trim(s) == s
  {
    assert TrimStart(s) == s;
    assert TrimEnd(s) == s;
  }

  lemma TrimIdempotent(s: string)
    ensures Trim(Trim(s)) == Trim(s)
  {
    TrimOfTrimmed(Trim(s));
  }

  /** `trim` yields the empty string exactly for whitespace-only input. */
  lemma TrimEmptyIff(s: string)
    ensures Trim(s) == [] <==> AllWhitespace(s)
  {
    var r := Trim(s);
    var a := LeadingWhitespace(s);
    TrimCutsWhitespace(s);
    if r == [] {
      assert s == s[..a] + s[a..];
      assert forall k :: a <= k < |s| ==> s[k] == s[a..][k - a];
    } else {
      assert r[0] == s[a] && !IsWhitespace(s[a]);
    }
  }

  /** `String.prototype.startsWith` */
  predicate StartsWith(s: string, prefix: string) {
    prefix <= s
  }

  // ---------------------------------------------------------------------
  // Decimal digits, as a template literal prints a non-negative integer.

  function DigitChar(d: nat): (c: char)
    requires d < 10
    ensures '0' <= c <= '9'
  {
    "0123456789"[d]
  }

  predicate IsDigit(c: char) {
    '0' <= c <= '9'
  }

  function DigitValue(c: char): (d: nat)
    requires IsDigit(c)
    ensures d < 10
  {
    (c as int) - ('0' as int)
  }

  lemma DigitValueOfChar(d: nat)
    requires d < 10
    ensures DigitValue(DigitChar(d)) == d
  {
  }

  /** The decimal representation of `n`, most significant digit first. */
  function NatToString(n: nat): (s: string)
    ensures |s| >= 1
    ensures forall k :: 0 <= k < |s| ==> IsDigit(s[k])
    decreases n
  {
    if n < 10 then [DigitChar(n)] else NatToString(n / 10) + [DigitChar(n % 10)]
  }

  /** Reads a string of decimal digits back into a number. */
  function ParseNat(s: string): nat
    requires forall k :: 0 <= k < |s| ==> IsDigit(s[k])
    decreases |s|
  {
    if s == [] then 0 else 10 * ParseNat(s[..|s| - 1]) + DigitValue(s[|s| - 1])
  }

  /** Printing a number and reading it back gives the number. */
  lemma {:induction false} ParseNatToString(n: nat)
    ensures ParseNat(NatToString(n)) == n
    decreases n
  {
    var s := NatToString(n);
    if n < 10 {
      DigitValueOfChar(n);
    } else {
      ParseNatToString(n / 10);
      DigitValueOfChar(n % 10);
      assert s[..|s| - 1] == NatToString(n / 10);
    }
  }

  // ---------------------------------------------------------------------
  // `join("\n")` and `split("\n")`

  /** `Array.prototype.join("\n")` */
  function JoinLines(lines: seq<string>): string {
    if |lines| == 0 then ""
    else if |lines| == 1 then lines[0]
    else lines[0] + "\n" + JoinLines(lines[1..])
  }

  /** Appending one more line appends a newline and that line. */
  lemma {:induction false} JoinLinesAppend(lines: seq<string>, last: string)
    requires |lines| >= 1
    ensures JoinLines(lines + [last]) == JoinLines(lines) + "\n" + last
    decreases |lines|
  {
    if |lines| > 1 {
      assert (lines + [last])[1..] == lines[1..] + [last];
      JoinLinesAppend(lines[1..], last);
    }
  }

  /** The index of the first occurrence of `c` in `s`. */
  function IndexOf(s: string, c: char): (k: nat)
    requires c in s
    ensures k < |s| && s[k] == c && c !in s[..k]
  {
    if s[0] == c then 0 else 1 + IndexOf(s[1..], c)
  }

  /** `String.prototype.split("\n")`: the pieces between newlines; a string
      with n newlines splits into n + 1 pieces. */
  function SplitLines(s: string): (r: seq<string>)
    ensures |r| >= 1
    decreases |s|
  {
    if '\n' !in s then [s]
    else
      var k := IndexOf(s, '\n');
      [s[..k]] + SplitLines(s[k + 1..])
  }

  predicate NoNewline(s: string) {
    '\n' !in s
  }

  lemma ConcatNoNewline(a: string, b: string)
    requires NoNewline(a) && NoNewline(b)
    ensures NoNewline(a + b)
  {
  }

  /** Splitting at a newline that follows a newline-free piece separates that
      piece from the rest. */
  lemma SplitAfterFirstLine(a: string, b: string)
    requires NoNewline(a)
    ensures SplitLines(a + "\n" + b) == [a] + SplitLines(b)
  {
    var s := a + "\n" + b;
    assert s[|a|] == '\n';
    assert forall j :: 0 <= j < |a| ==> s[j] == a[j];
    var k := IndexOf(s, '\n');
    assert k == |a|;
    assert s[..k] == a;
    assert s[k + 1..] == b;
  }

  lemma ConsAppend<T>(xs: seq<T>, ys: seq<T>)
    requires |xs| >= 1
    ensures [xs[0]] + (xs[1..] + ys) == xs + ys
  {
    assert xs == [xs[0]] + xs[1..];
  }

  /** Joining newline-free lines and splitting the result gives the lines back,
      with whatever follows the last of them split as usual. */
  lemma {:induction false} SplitJoinLines(lines: seq<string>, rest: string)
    requires |lines| >= 1
    requires forall k :: 0 <= k < |lines| ==> NoNewline(lines[k])
    ensures SplitLines(JoinLines(lines) + "\n" + rest) == lines + SplitLines(rest)
    decreases |lines|
  {
    if |lines| == 1 {
      SplitAfterFirstLine(lines[0], rest);
    } else {
      var tail := JoinLines(lines[1..]);
      var more := tail + "\n" + rest;
      assert JoinLines(lines) + "\n" + rest == lines[0] + "\n" + more;
      SplitAfterFirstLine(lines[0], more);
      assert forall k :: 0 <= k < |lines[1..]| ==> NoNewline(lines[1..][k]);
      SplitJoinLines(lines[1..], rest);
      ConsAppend(lines, SplitLines(rest));
    }
  }
}
