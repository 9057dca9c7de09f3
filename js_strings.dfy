/**
  The JavaScript string operations the directive layer relies on
  (`startsWith`, `endsWith`, `includes`, `indexOf`, `substring`, `trim`,
  `split`, `join` and the decimal rendering of a number), stated over
  `seq<char>`.
 */
module JsStrings {

  /** `s.startsWith(prefix)` */
  predicate StartsWith(s: string, prefix: string) {
    |prefix| <= |s| && s[..|prefix|] == prefix
  }

  /** `s.endsWith(suffix)` */
  predicate EndsWith(s: string, suffix: string) {
    |suffix| <= |s| && s[|s| - |suffix|..] == suffix
  }

  /** `m` occurs in `s` at index `i`. */
  predicate OccursAt(s: string, m: string, i: int) {
    0 <= i && i + |m| <= |s| && s[i..i + |m|] == m
  }

  /** `s.indexOf(m)`: the first index at which `m` occurs, or -1. */
  function IndexOf(s: string, m: string): (r: int)
    ensures r == -1 || OccursAt(s, m, r)
    ensures r == -1 ==> forall j :: !OccursAt(s, m, j)
    ensures forall j :: 0 <= j < r ==> !OccursAt(s, m, j)
  {
    IndexFrom(s, m, 0)
  }

  function IndexFrom(s: string, m: string, from: nat): (r: int)
    ensures r == -1 || (from <= r && OccursAt(s, m, r))
    ensures r == -1 ==> forall j :: from <= j ==> !OccursAt(s, m, j)
    ensures forall j :: from <= j < r ==> !OccursAt(s, m, j)
    decreases |s| - from
  {
    if from + |m| > |s| then -1
    else if s[from..from + |m|] == m then from
    else IndexFrom(s, m, from + 1)
  }

  /** `s.includes(m)` */
  predicate Contains(s: string, m: string) {
    IndexOf(s, m) != -1
  }

  lemma OccursThenContains(s: string, m: string, i: int)
    requires OccursAt(s, m, i)
    ensures Contains(s, m) && IndexOf(s, m) <= i
  {
  }

  /** A string contains every infix of itself. */
  lemma {:induction false} ContainsInfix(a: string, m: string, b: string)
    ensures Contains(a + m + b, m)
  {
    var s := a + m + b;
    assert s[|a|..|a| + |m|] == m;
    OccursThenContains(s, m, |a|);
  }

  /** Containment is transitive. */
  lemma {:induction false} ContainsTransitive(s: string, t: string, m: string)
    requires Contains(s, t) && Contains(t, m)
    ensures Contains(s, m)
  {
    var i, j := IndexOf(s, t), IndexOf(t, m);
    forall k | 0 <= k < |m|
      ensures s[i + j + k] == m[k]
    {
      assert s[i + j + k] == t[j + k];
    }
    assert s[i + j..i + j + |m|] == m;
    OccursThenContains(s, m, i + j);
  }

  /** A marker at the very start of a string is its first occurrence. */
  lemma LeadingOccurrence(m: string, rest: string)
    ensures IndexOf(m + rest, m) == 0
  {
    assert (m + rest)[..|m|] == m;
    OccursThenContains(m + rest, m, 0);
  }

  /** A marker that neither straddles nor lies inside a prefix, and is absent from the rest, is absent from the whole. */
  lemma {:induction false} NotContainedAfterPrefix(d: string, s: string, m: string)
    requires forall j :: 0 <= j < |d| ==> !OccursAt(d + s, m, j)
    requires !Contains(s, m)
    ensures !Contains(d + s, m)
  {
    var line := d + s;
    var j := IndexOf(line, m);
    if j >= |d| {
      assert s[j - |d|..j - |d| + |m|] == line[j..j + |m|];
      OccursThenContains(s, m, j - |d|);
    }
  }

  /** `s.substring(start)`: `start` is clamped into `[0, |s|]`. */
  function Substring(s: string, start: int): string {
    if start <= 0 then s else if start >= |s| then "" else s[start..]
  }

  /** The characters `String.prototype.trim` removes: ECMAScript WhiteSpace and LineTerminator. */
  predicate IsWhitespace(c: char) {
    c == ' ' || c == '\t' || c == '\n' || c == '\r' || c == '\U{B}' || c == '\U{C}'
    || c == '\U{A0}' || c == '\U{1680}' || ('\U{2000}' <= c <= '\U{200A}')
    || c == '\U{2028}' || c == '\U{2029}' || c == '\U{202F}' || c == '\U{205F}'
    || c == '\U{3000}' || c == '\U{FEFF}'
  }

  predicate AllWhitespace(s: string) {
    forall i :: 0 <= i < |s| ==> IsWhitespace(s[i])
  }

  /** Neither end of `s` is whitespace. */
  predicate IsTrimmed(s: string) {
    s == [] || (!IsWhitespace(s[0]) && !IsWhitespace(s[|s| - 1]))
  }

  /** Drops the leading whitespace of `s`. */
  function TrimStart(s: string): (r: string)
    ensures |r| <= |s|
    ensures r == [] || !IsWhitespace(r[0])
    decreases |s|
  {
    if |s| > 0 && IsWhitespace(s[0]) then TrimStart(s[1..]) else s
  }

  /** What `TrimStart` leaves is a suffix of its input. */
  lemma {:induction false} TrimStartIsSuffix(s: string)
    ensures TrimStart(s) == s[|s| - |TrimStart(s)|..]
    decreases |s|
  {
    if |s| > 0 && IsWhitespace(s[0]) {
      TrimStartIsSuffix(s[1..]);
    }
  }

  /** Drops the trailing whitespace of `s`. */
  function TrimEnd(s: string): (r: string)
    ensures |r| <= |s| && r == s[..|r|]
    ensures r == [] || !IsWhitespace(r[|r| - 1])
    decreases |s|
  {
    if |s| > 0 && IsWhitespace(s[|s| - 1]) then TrimEnd(s[..|s| - 1]) else s
  }

  /** `s.trim()`: the infix of `s` left once whitespace is dropped at both ends. */
  function Trim(s: string): (r: string)
    ensures IsTrimmed(r)
    ensures |r| <= |s|
    ensures forall c :: c in r ==> c in s
  {
    TrimStartIsSuffix(s);
    var t := TrimStart(s);
    var r := TrimEnd(t);
    assert r != [] ==> r[0] == t[0];
    r
  }

  lemma {:induction false} TrimStartSkips(w: string, t: string)
    requires AllWhitespace(w)
    requires t == [] || !IsWhitespace(t[0])
    ensures TrimStart(w + t) == t
    decreases |w|
  {
    if w != [] {
      assert (w + t)[1..] == w[1..] + t;
      TrimStartSkips(w[1..], t);
    }
  }

  lemma {:induction false} TrimEndSkips(t: string, w: string)
    requires AllWhitespace(w)
    requires t == [] || !IsWhitespace(t[|t| - 1])
    ensures TrimEnd(t + w) == t
    decreases |w|
  {
    if w != [] {
      assert (t + w)[..|t + w| - 1] == t + w[..|w| - 1];
      TrimEndSkips(t, w[..|w| - 1]);
    }
  }

  /** `trim` gives back exactly the trimmed text between two runs of whitespace. */
  lemma {:induction false} TrimPadded(w1: string, p: string, w2: string)
    requires AllWhitespace(w1) && AllWhitespace(w2) && IsTrimmed(p)
    ensures Trim(w1 + p + w2) == p
  {
    if p == [] {
      assert w1 + p + w2 == w1 + w2;
      TrimStartSkips(w1 + w2, []);
      assert w1 + w2 + [] == w1 + w2;
    } else {
      assert w1 + p + w2 == w1 + (p + w2);
      TrimStartSkips(w1, p + w2);
      TrimEndSkips(p, w2);
    }
  }

  /** `s.split(sep)` for a one-character separator. */
  function Split(s: string, sep: char): (r: seq<string>)
    ensures |r| >= 1
    decreases |s|
  {
    if s == [] then [[]]
    else
      var rest := Split(s[1..], sep);
      if s[0] == sep then [[]] + rest else [[s[0]] + rest[0]] + rest[1..]
  }

  /** `parts.join(sep)` */
  /** No field of a split holds the separator. */
  lemma {:induction false} SplitFieldsLackSeparator(s: string, sep: char)
    ensures forall k :: 0 <= k < |Split(s, sep)| ==> sep !in Split(s, sep)[k]
    decreases |s|
  {
    if s != [] {
      SplitFieldsLackSeparator(s[1..], sep);
    }
  }

  function Join(parts: seq<string>, sep: char): string
    decreases |parts|
  {
    if |parts| == 0 then []
    else if |parts| == 1 then parts[0]
    else parts[0] + [sep] + Join(parts[1..], sep)
  }

  /** `text.split("\n")` */
  function SplitLines(text: string): (lines: seq<string>)
    ensures |lines| >= 1
  {
    Split(text, '\n')
  }

  /** `lines.join("\n")` */
  function JoinLines(lines: seq<string>): string {
    Join(lines, '\n')
  }

  /** Joining the pieces of a split restores the string. */
  lemma {:induction false} JoinSplit(s: string, sep: char)
    ensures Join(Split(s, sep), sep) == s
    decreases |s|
  {
    if s != [] {
      var rest := Split(s[1..], sep);
      JoinSplit(s[1..], sep);
      if s[0] == sep {
        assert Join(Split(s, sep), sep) == [] + [sep] + Join(rest, sep);
      } else if |rest| == 1 {
        assert Join(Split(s, sep), sep) == [s[0]] + rest[0];
      } else {
        assert Join(rest, sep) == rest[0] + [sep] + Join(rest[1..], sep);
        assert Join(Split(s, sep), sep) == ([s[0]] + rest[0]) + [sep] + Join(rest[1..], sep);
      }
    }
  }

  /** Splitting a piece free of the separator glues it to the first field of the rest. */
  lemma {:induction false} SplitPrefix(p: string, t: string, sep: char)
    requires sep !in p
    ensures Split(p + t, sep) == [p + Split(t, sep)[0]] + Split(t, sep)[1..]
    decreases |p|
  {
    if p == [] {
      assert p + t == t;
      assert p + Split(t, sep)[0] == Split(t, sep)[0];
      assert Split(t, sep) == [Split(t, sep)[0]] + Split(t, sep)[1..];
    } else {
      assert (p + t)[1..] == p[1..] + t;
      SplitPrefix(p[1..], t, sep);
      assert [p[0]] + (p[1..] + Split(t, sep)[0]) == p + Split(t, sep)[0];
    }
  }

  /** Splitting a join of separator-free pieces gives back the pieces. */
  lemma {:induction false} SplitJoin(parts: seq<string>, sep: char)
    requires |parts| >= 1
    requires forall k :: 0 <= k < |parts| ==> sep !in parts[k]
    ensures Split(Join(parts, sep), sep) == parts
    decreases |parts|
  {
    if |parts| == 1 {
      SplitPrefix(parts[0], [], sep);
      assert parts[0] + [] == parts[0];
    } else {
      var tail := Join(parts[1..], sep);
      SplitJoin(parts[1..], sep);
      assert parts[0] + [sep] + tail == parts[0] + ([sep] + tail);
      SplitPrefix(parts[0], [sep] + tail, sep);
      assert ([sep] + tail)[1..] == tail;
      assert parts[0] + [] == parts[0];
      assert [parts[0]] + parts[1..] == parts;
    }
  }

  /** `split(sep)[1]` is defined exactly when the separator occurs. */
  lemma {:induction false} SplitHasSecondField(s: string, sep: char)
    ensures |Split(s, sep)| >= 2 <==> sep in s
    decreases |s|
  {
    if s != [] {
      SplitHasSecondField(s[1..], sep);
      assert sep in s <==> s[0] == sep || sep in s[1..];
    }
  }

  function DigitChar(d: nat): char
    requires d < 10
  {
    (48 + d) as char
  }

  /** The decimal numeral of `n`, as `n.toString()` writes it. */
  function NatToString(n: nat): (r: string)
    ensures |r| >= 1
    ensures forall i :: 0 <= i < |r| ==> '0' <= r[i] <= '9'
    decreases n
  {
    if n < 10 then [DigitChar(n)] else NatToString(n / 10) + [DigitChar(n % 10)]
  }

  /** `i.toString()` for an integer: a minus sign, then the numeral of the magnitude. */
  function IntToString(i: int): string {
    if i < 0 then "-" + NatToString(-i) else NatToString(i)
  }

  /** The value of a string of decimal digits. */
  function ParseDigits(s: string): nat
    requires forall i :: 0 <= i < |s| ==> '0' <= s[i] <= '9'
    decreases |s|
  {
    if s == [] then 0 else 10 * ParseDigits(s[..|s| - 1]) + (s[|s| - 1] as int - 48)
  }

  /** The value of an optionally signed decimal numeral. */
  function ParseInt(s: string): int
    requires s != [] && s[0] == '-' ==> forall i :: 1 <= i < |s| ==> '0' <= s[i] <= '9'
    requires s == [] || s[0] != '-' ==> forall i :: 0 <= i < |s| ==> '0' <= s[i] <= '9'
  {
    if s != [] && s[0] == '-' then -(ParseDigits(s[1..]) as int) else ParseDigits(s)
  }

  lemma {:induction false} NatToStringRoundTrip(n: nat)
    ensures ParseDigits(NatToString(n)) == n
    decreases n
  {
    if n >= 10 {
      var r := NatToString(n);
      NatToStringRoundTrip(n / 10);
      assert r[..|r| - 1] == NatToString(n / 10);
    }
  }

  /** Reading back the numeral of an integer gives the integer. */
  lemma {:induction false} IntToStringRoundTrip(i: int)
    ensures var s := IntToString(i);
      (s != [] && s[0] == '-' ==> forall k :: 1 <= k < |s| ==> '0' <= s[k] <= '9') &&
      (s == [] || s[0] != '-' ==> forall k :: 0 <= k < |s| ==> '0' <= s[k] <= '9') &&
      ParseInt(s) == i
  {
    if i < 0 {
      NatToStringRoundTrip(-i);
      assert IntToString(i)[1..] == NatToString(-i);
    } else {
      NatToStringRoundTrip(i);
    }
  }
}
