/**
 * The JavaScript string primitives the application relies on: white space as
 * `String.prototype.trim` and the regular-expression class `\s` see it, `trim`,
 * `startsWith`, `includes`, `join`, decimal and hexadecimal `toString`, and
 * `replace` with a global regular expression that matches one literal pattern.
 * Strings are sequences of Unicode scalar values.
 */
module Text {

  /** ECMAScript WhiteSpace and LineTerminator code points. */
  predicate IsWhitespace(c: char) {
    || c == '\t' || c == '\n' || c == '\U{000B}' || c == '\U{000C}' || c == '\r' || c == ' '
    || c == '\U{00A0}' || c == '\U{1680}' || ('\U{2000}' <= c <= '\U{200A}')
    || c == '\U{2028}' || c == '\U{2029}' || c == '\U{202F}' || c == '\U{205F}'
    || c == '\U{3000}' || c == '\U{FEFF}'
  }

  predicate AllWhitespace(s: string) {
    forall i :: 0 <= i < |s| ==> IsWhitespace(s[i])
  }

  predicate NoWhitespace(s: string) {
    forall i :: 0 <= i < |s| ==> !IsWhitespace(s[i])
  }

  function TrimStart(s: string): (r: string)
    ensures |r| <= |s|
    decreases |s|
  {
    if |s| > 0 && IsWhitespace(s[0]) then TrimStart(s[1..]) else s
  }

  function TrimEnd(s: string): string
    decreases |s|
  {
    if |s| > 0 && IsWhitespace(s[|s| - 1]) then TrimEnd(s[..|s| - 1]) else s
  }

  /** `s.trim()` */
  function Trim(s: string): string {
    TrimEnd(TrimStart(s))
  }

  /** `!s.trim()`: the text is empty or white space only. */
  predicate IsBlank(s: string) {
    Trim(s) == ""
  }

  /** How many leading characters `trim` drops. */
  function TrimOffset(s: string): nat {
    |s| - |TrimStart(s)|
  }

  lemma {:induction false} TrimStartDropsLeadingWhitespace(s: string)
    ensures var t := TrimStart(s);
      && |t| <= |s| && t == s[|s| - |t|..]
      && AllWhitespace(s[..|s| - |t|])
      && (t == "" || !IsWhitespace(t[0]))
    decreases |s|
  {
    if |s| > 0 && IsWhitespace(s[0]) {
      TrimStartDropsLeadingWhitespace(s[1..]);
      var t := TrimStart(s[1..]);
      assert s[1..][|s| - 1 - |t|..] == s[|s| - |t|..];
      assert s[..|s| - |t|] == [s[0]] + s[1..][..|s| - 1 - |t|];
    } else {
      assert s[..0] == "";
    }
  }

  lemma {:induction false} TrimEndDropsTrailingWhitespace(s: string)
    ensures var t := TrimEnd(s);
      && |t| <= |s| && t == s[..|t|]
      && AllWhitespace(s[|t|..])
      && (t == "" || !IsWhitespace(t[|t| - 1]))
    decreases |s|
  {
    if |s| > 0 && IsWhitespace(s[|s| - 1]) {
      TrimEndDropsTrailingWhitespace(s[..|s| - 1]);
      var t := TrimEnd(s[..|s| - 1]);
      assert s[..|s| - 1][..|t|] == s[..|t|];
      assert s[|t|..] == s[..|s| - 1][|t|..] + [s[|s| - 1]];
    } else {
      assert s[|s|..] == "";
    }
  }

  /**
   * `trim` keeps exactly the slice between the leading and the trailing white
   * space: what it drops is white space, and what it keeps neither starts nor
   * ends with white space.
   */
  lemma TrimIsCore(s: string)
    ensures var t, i := Trim(s), TrimOffset(s);
      && i + |t| <= |s| && t == s[i..i + |t|]
      && AllWhitespace(s[..i]) && AllWhitespace(s[i + |t|..])
      && (t == "" || (!IsWhitespace(t[0]) && !IsWhitespace(t[|t| - 1])))
  {
    TrimStartDropsLeadingWhitespace(s);
    var u := TrimStart(s);
    TrimEndDropsTrailingWhitespace(u);
    var t, i := Trim(s), TrimOffset(s);
    assert u == s[i..];
    assert t == u[..|t|];
    assert u[..|t|] == s[i..i + |t|];
    assert u[|t|..] == s[i + |t|..];
  }

  /** A text is blank exactly when every character of it is white space. */
  lemma BlankIffAllWhitespace(s: string)
    ensures IsBlank(s) <==> AllWhitespace(s)
  {
    TrimIsCore(s);
    var t, i := Trim(s), TrimOffset(s);
    if t != "" {
      assert t[0] == s[i];
      assert !IsWhitespace(s[i]);
    }
    if t == "" {
      assert s == s[..i] + s[i..];
    }
  }

  /** `s.startsWith(p)` */
  predicate StartsWith(s: string, p: string) {
    |p| <= |s| && s[..|p|] == p
  }

  /** Appending to a text keeps its prefixes. */
  lemma StartsWithExtend(s: string, p: string, q: string)
    requires StartsWith(s, p)
    ensures StartsWith(s + q, p)
  {
    assert (s + q)[..|p|] == s[..|p|];
  }

  /** `p` occurs in `s` starting at index `i`. */
  predicate OccursAt(s: string, p: string, i: int) {
    0 <= i && i + |p| <= |s| && s[i..i + |p|] == p
  }

  /** `s.includes(p)` */
  predicate Contains(s: string, p: string) {
    exists i | 0 <= i <= |s| - |p| :: OccursAt(s, p, i)
  }

  /** Lower-cases the letters A to Z and leaves every other character alone. */
  function ToLowerAscii(s: string): (r: string)
    ensures |r| == |s|
    ensures forall i :: 0 <= i < |s| ==> r[i] == (if 'A' <= s[i] <= 'Z' then (s[i] as int + 32) as char else s[i])
  {
    seq(|s|, i requires 0 <= i < |s| => if 'A' <= s[i] <= 'Z' then (s[i] as int + 32) as char else s[i])
  }

  /** Upper-cases the letters a to z and leaves every other character alone. */
  function ToUpperAscii(s: string): (r: string)
    ensures |r| == |s|
    ensures forall i :: 0 <= i < |s| ==> r[i] == (if 'a' <= s[i] <= 'z' then (s[i] as int - 32) as char else s[i])
  {
    seq(|s|, i requires 0 <= i < |s| => if 'a' <= s[i] <= 'z' then (s[i] as int - 32) as char else s[i])
  }

  /**
   * Trimming never changes whether a text contains a non-empty pattern that
   * itself holds no white space.
   */
  lemma ContainsIgnoresTrim(s: string, m: string)
    requires |m| > 0 && NoWhitespace(m)
    ensures Contains(Trim(s), m) <==> Contains(s, m)
  {
    TrimIsCore(s);
    var t, i := Trim(s), TrimOffset(s);
    if Contains(s, m) {
      var k :| OccursAt(s, m, k);
      OccurrenceInsideTrim(s, m, k);
      SliceOfSlice(s, i, i + |t|, k - i, k - i + |m|);
      assert OccursAt(t, m, k - i);
    }
    if Contains(t, m) {
      var k :| OccursAt(t, m, k);
      assert OccursAt(t, m, k);
      SliceOfSlice(s, i, i + |t|, k, k + |m|);
      assert OccursAt(s, m, i + k);
    }
  }

  lemma SliceOfSlice(s: string, a: int, b: int, c: int, d: int)
    requires 0 <= a <= b <= |s| && 0 <= c <= d <= b - a
    ensures s[a..b][c..d] == s[a + c..a + d]
  {
    forall j | 0 <= j < d - c ensures s[a..b][c..d][j] == s[a + c..a + d][j] {
      assert s[a..b][c..d][j] == s[a..b][c + j] == s[a + c + j];
    }
  }

  /** An occurrence of a pattern without white space lies inside the trimmed text. */
  lemma OccurrenceInsideTrim(s: string, m: string, k: int)
    requires |m| > 0 && NoWhitespace(m) && OccursAt(s, m, k)
    ensures TrimOffset(s) <= k && k + |m| <= TrimOffset(s) + |Trim(s)|
  {
    TrimIsCore(s);
    var t, i := Trim(s), TrimOffset(s);
    var w := s[k..k + |m|];
    assert w == m;
    assert w[0] == s[k] && w[|m| - 1] == s[k + |m| - 1];
    assert !IsWhitespace(m[0]) && !IsWhitespace(m[|m| - 1]);
    forall j | 0 <= j < i ensures IsWhitespace(s[j]) {
      assert s[..i][j] == s[j];
    }
    forall j | i + |t| <= j < |s| ensures IsWhitespace(s[j]) {
      assert s[i + |t|..][j - (i + |t|)] == s[j];
    }
  }

  lemma {:induction false} ToLowerTrimStart(s: string)
    ensures ToLowerAscii(TrimStart(s)) == TrimStart(ToLowerAscii(s))
    decreases |s|
  {
    if |s| > 0 {
      assert ToLowerAscii(s)[1..] == ToLowerAscii(s[1..]);
      if IsWhitespace(s[0]) {
        ToLowerTrimStart(s[1..]);
      }
    }
  }

  lemma {:induction false} ToLowerTrimEnd(s: string)
    ensures ToLowerAscii(TrimEnd(s)) == TrimEnd(ToLowerAscii(s))
    decreases |s|
  {
    if |s| > 0 {
      assert ToLowerAscii(s)[..|s| - 1] == ToLowerAscii(s[..|s| - 1]);
      if IsWhitespace(s[|s| - 1]) {
        ToLowerTrimEnd(s[..|s| - 1]);
      }
    }
  }

  /** Lower-casing maps white space to white space and nothing else to it, so it commutes with `trim`. */
  lemma ToLowerTrim(s: string)
    ensures ToLowerAscii(Trim(s)) == Trim(ToLowerAscii(s))
  {
    ToLowerTrimStart(s);
    ToLowerTrimEnd(TrimStart(s));
  }

  /** `parts.join(sep)` */
  function Join(parts: seq<string>, sep: string): string {
    if |parts| == 0 then ""
    else if |parts| == 1 then parts[0]
    else parts[0] + sep + Join(parts[1..], sep)
  }

  /** `s.split(sep)` for a one-character separator: the pieces between separators, empty ones included. */
  function Split(s: string, sep: char): (parts: seq<string>)
    ensures |parts| >= 1
    decreases |s|
  {
    if |s| == 0 then [""]
    else if s[0] == sep then [""] + Split(s[1..], sep)
    else
      var rest := Split(s[1..], sep);
      [[s[0]] + rest[0]] + rest[1..]
  }

  /** Splitting and joining with the separator give the text back, and no piece holds a separator. */
  lemma {:induction false} SplitJoin(s: string, sep: char)
    ensures Join(Split(s, sep), [sep]) == s
    ensures forall i :: 0 <= i < |Split(s, sep)| ==> sep !in Split(s, sep)[i]
    decreases |s|
  {
    if |s| > 0 {
      var rest := Split(s[1..], sep);
      SplitJoin(s[1..], sep);
      if s[0] == sep {
        assert Split(s, sep)[1..] == rest;
      } else {
        var parts := Split(s, sep);
        assert parts[1..] == rest[1..];
        if |rest| == 1 {
          assert Join(parts, [sep]) == [s[0]] + rest[0];
        } else {
          assert Join(parts, [sep]) == [s[0]] + rest[0] + [sep] + Join(rest[1..], [sep]);
        }
        assert s == [s[0]] + s[1..];
      }
    }
  }

  /** A text without the separator splits into itself alone. */
  lemma {:induction false} SplitWithoutSeparator(s: string, sep: char)
    requires sep !in s
    ensures Split(s, sep) == [s]
    decreases |s|
  {
    if |s| > 0 {
      SplitWithoutSeparator(s[1..], sep);
      assert [s[0]] + s[1..] == s;
    }
  }

  /** Splitting stops at the first separator. */
  lemma {:induction false} SplitAtFirst(a: string, sep: char, rest: string)
    requires sep !in a
    ensures Split(a + [sep] + rest, sep) == [a] + Split(rest, sep)
    decreases |a|
  {
    var s := a + [sep] + rest;
    if |a| == 0 {
      assert s == [sep] + rest;
      assert s[1..] == rest;
    } else {
      SplitAtFirst(a[1..], sep, rest);
      assert s[0] == a[0] && s[1..] == a[1..] + [sep] + rest;
      assert [a[0]] + a[1..] == a;
    }
  }

  /** Joining pieces without the separator and splitting again gives the pieces back. */
  lemma {:induction false} JoinSplit(parts: seq<string>, sep: char)
    requires |parts| >= 1
    requires forall i :: 0 <= i < |parts| ==> sep !in parts[i]
    ensures Split(Join(parts, [sep]), sep) == parts
    decreases |parts|
  {
    if |parts| == 1 {
      SplitWithoutSeparator(parts[0], sep);
    } else {
      JoinSplit(parts[1..], sep);
      SplitAtFirst(parts[0], sep, Join(parts[1..], [sep]));
      assert [parts[0]] + parts[1..] == parts;
    }
  }

  /** The strings of `parts` appended one after another, as repeated `+=` builds them. */
  function Concat(parts: seq<string>): string {
    if parts == [] then "" else Concat(parts[..|parts| - 1]) + parts[|parts| - 1]
  }

  function DigitChar(d: nat): char
    requires d < 10
  {
    ('0' as int + d) as char
  }

  /** `String(n)` for a non-negative integer: its decimal digits, no leading zero. */
  function NatToString(n: nat): (r: string)
    ensures 1 <= |r|
    ensures forall i :: 0 <= i < |r| ==> '0' <= r[i] <= '9'
    decreases n
  {
    if n < 10 then [DigitChar(n)] else NatToString(n / 10) + [DigitChar(n % 10)]
  }

  /** `String(n)` for any integer: a minus sign before the digits of a negative number. */
  function IntToString(n: int): string {
    if n < 0 then "-" + NatToString(-n) else NatToString(n)
  }

  /** The number a string of decimal digits denotes. */
  function DecimalValue(s: string): int
    requires forall i :: 0 <= i < |s| ==> '0' <= s[i] <= '9'
  {
    if s == "" then 0 else 10 * DecimalValue(s[..|s| - 1]) + (s[|s| - 1] as int - '0' as int)
  }

  /** Reading back the decimal text of a number gives the number. */
  lemma {:induction false} NatToStringRoundTrip(n: nat)
    ensures DecimalValue(NatToString(n)) == n
    decreases n
  {
    if n >= 10 {
      NatToStringRoundTrip(n / 10);
      var r := NatToString(n);
      assert r[..|r| - 1] == NatToString(n / 10);
    }
  }

  function HexDigit(d: nat): char
    requires d < 16
  {
    if d < 10 then ('0' as int + d) as char else ('a' as int + d - 10) as char
  }

  predicate IsLowerHexDigit(c: char) {
    ('0' <= c <= '9') || ('a' <= c <= 'f')
  }

  /** `n.toString(16)` for a non-negative integer. */
  function ToHex(n: nat): (r: string)
    ensures 1 <= |r|
    ensures forall i :: 0 <= i < |r| ==> IsLowerHexDigit(r[i])
    decreases n
  {
    if n < 16 then [HexDigit(n)] else ToHex(n / 16) + [HexDigit(n % 16)]
  }

  function Pow16(k: nat): nat {
    if k == 0 then 1 else 16 * Pow16(k - 1)
  }

  /** A number below 16^k has at most k hexadecimal digits; zero is written "0". */
  lemma {:induction false} ToHexLength(n: nat, k: nat)
    requires 1 <= k && n < Pow16(k)
    ensures |ToHex(n)| <= k
    ensures ToHex(n) == "0" <==> n == 0
    decreases k
  {
    if n >= 16 {
      assert k > 1;
      ToHexLength(n / 16, k - 1);
    }
  }

  /**
   * `s.replace(re, r)` for a global regular expression `re` that matches the
   * literal `p`: the leftmost occurrence is replaced, scanning resumes after
   * it, and the inserted text is never scanned again.
   */
  function ReplaceAll(s: string, p: string, r: string): string
    requires |p| > 0
    decreases |s|
  {
    if |s| < |p| then s
    else if s[..|p|] == p then r + ReplaceAll(s[|p|..], p, r)
    else [s[0]] + ReplaceAll(s[1..], p, r)
  }

  /** An occurrence at the front is replaced and the scan resumes right after it. */
  lemma ReplaceAllAtFront(p: string, r: string, rest: string)
    requires |p| > 0
    ensures ReplaceAll(p + rest, p, r) == r + ReplaceAll(rest, p, r)
  {
    assert (p + rest)[..|p|] == p;
    assert (p + rest)[|p|..] == rest;
  }

  /** A character that does not start an occurrence is kept and the scan moves one step on. */
  lemma ReplaceAllSkipsFront(s: string, p: string, r: string)
    requires |p| > 0 && |s| >= |p| && s[..|p|] != p
    ensures ReplaceAll(s, p, r) == [s[0]] + ReplaceAll(s[1..], p, r)
  {
  }

  /** Text without the pattern comes back unchanged. */
  lemma {:induction false} ReplaceAllWithoutOccurrence(s: string, p: string, r: string)
    requires |p| > 0 && !Contains(s, p)
    ensures ReplaceAll(s, p, r) == s
    decreases |s|
  {
    if |s| >= |p| {
      assert !OccursAt(s, p, 0);
      assert !Contains(s[1..], p) by {
        forall i | OccursAt(s[1..], p, i) ensures OccursAt(s, p, i + 1) {
          assert s[1..][i..i + |p|] == s[i + 1..i + 1 + |p|];
        }
      }
      ReplaceAllWithoutOccurrence(s[1..], p, r);
      assert s == [s[0]] + s[1..];
    }
  }

  /** No proper prefix of `p` is also a suffix of it, so two occurrences of `p` never overlap. */
  predicate Unbordered(p: string) {
    forall j :: 0 < j < |p| ==> p[..j] != p[|p| - j..]
  }

  /** Dropping the first character of a text cannot create an occurrence. */
  lemma NotContainsTail(a: string, p: string)
    requires |a| > 0 && !Contains(a, p)
    ensures !Contains(a[1..], p)
  {
    forall i | OccursAt(a[1..], p, i) ensures OccursAt(a, p, i + 1) {
      assert a[1..][i..i + |p|] == a[i + 1..i + 1 + |p|];
    }
  }

  /** A non-empty prefix free of an unbordered pattern does not start an occurrence, even one reaching into the pattern after it. */
  lemma FreePrefixDoesNotMatch(a: string, p: string, rest: string)
    requires |p| > 0 && Unbordered(p) && !Contains(a, p) && |a| > 0
    ensures (a + p + rest)[..|p|] != p
  {
    var s := a + p + rest;
    if |a| >= |p| {
      assert !OccursAt(a, p, 0);
      assert s[..|p|] == a[..|p|];
    } else {
      var j := |p| - |a|;
      assert p[..j] != p[|p| - j..];
      assert s[..|p|] == a + p[..j];
      assert (a + p[..j])[|a|..] == p[..j];
    }
  }

  /** The scan passes over a prefix free of an unbordered pattern and replaces the occurrence after it. */
  lemma {:induction false} ReplaceAllAfterFreePrefix(a: string, p: string, r: string, rest: string)
    requires |p| > 0 && Unbordered(p) && !Contains(a, p)
    ensures ReplaceAll(a + p + rest, p, r) == a + r + ReplaceAll(rest, p, r)
    decreases |a|
  {
    var s := a + p + rest;
    if |a| == 0 {
      assert s == p + rest;
      ReplaceAllAtFront(p, r, rest);
    } else {
      FreePrefixDoesNotMatch(a, p, rest);
      NotContainsTail(a, p);
      ReplaceAllAfterFreePrefix(a[1..], p, r, rest);
      ReplaceAllSkipsFront(s, p, r);
      assert s[0] == a[0] && s[1..] == a[1..] + p + rest;
      assert a + r + ReplaceAll(rest, p, r) == [a[0]] + (a[1..] + r + ReplaceAll(rest, p, r));
    }
  }

  /**
   * Global replacement: when a text is pieces without the (unbordered) pattern
   * joined by the pattern, every one of those occurrences is replaced and
   * nothing else changes.
   */
  lemma {:induction false} ReplaceAllJoin(parts: seq<string>, p: string, r: string)
    requires |p| > 0 && Unbordered(p)
    requires forall i :: 0 <= i < |parts| ==> !Contains(parts[i], p)
    ensures ReplaceAll(Join(parts, p), p, r) == Join(parts, r)
    decreases |parts|
  {
    if |parts| == 0 {
      assert !OccursAt("", p, 0);
      ReplaceAllWithoutOccurrence("", p, r);
    } else if |parts| == 1 {
      ReplaceAllWithoutOccurrence(parts[0], p, r);
    } else {
      ReplaceAllJoin(parts[1..], p, r);
      ReplaceAllAfterFreePrefix(parts[0], p, r, Join(parts[1..], p));
    }
  }
}
