/** The parts of Python's `str` behaviour that the scanner relies on:
    whitespace stripping, `startswith`, `in`, slicing, `join`,
    `splitlines`, `replace`, `lower` and integer formatting. */
module PyText {

  /** The characters for which Python's `str.isspace` is true. */
  predicate IsSpace(c: char) {
    c == ' ' || ('\t' <= c <= '\r') || ('\U{1C}' <= c <= '\U{1F}') ||
    c == '\U{85}' || c == '\U{A0}' || c == '\U{1680}' ||
    ('\U{2000}' <= c <= '\U{200A}') || c == '\U{2028}' || c == '\U{2029}' ||
    c == '\U{202F}' || c == '\U{205F}' || c == '\U{3000}'
  }

  /** The characters at which Python's `str.splitlines` breaks a line
      (a "\r\n" pair counts as one break). */
  predicate IsLineBreak(c: char) {
    c == '\n' || c == '\r' || c == '\U{0B}' || c == '\U{0C}' ||
    ('\U{1C}' <= c <= '\U{1E}') || c == '\U{85}' || c == '\U{2028}' || c == '\U{2029}'
  }

  /** `s.startswith(p)` */
  predicate StartsWith(s: string, p: string) {
    |p| <= |s| && s[..|p|] == p
  }

  lemma StartsWithAppend(p: string, t: string)
    ensures StartsWith(p + t, p)
  {
    assert (p + t)[..|p|] == p;
  }

  /** `sub in s` */
  predicate Contains(s: string, sub: string)
    decreases |s|
  {
    StartsWith(s, sub) || (s != [] && Contains(s[1..], sub))
  }

  lemma {:induction false} ContainsAppend(a: string, b: string, sub: string)
    requires Contains(a, sub)
    ensures Contains(a + b, sub)
  {
    if StartsWith(a, sub) {
      assert (a + b)[..|sub|] == a[..|sub|];
    } else {
      assert (a + b)[1..] == a[1..] + b;
      ContainsAppend(a[1..], b, sub);
    }
  }

  lemma {:induction false} ContainsPrepend(a: string, b: string, sub: string)
    requires Contains(b, sub)
    ensures Contains(a + b, sub)
  {
    if a == [] {
      assert a + b == b;
    } else {
      assert (a + b)[1..] == a[1..] + b;
      ContainsPrepend(a[1..], b, sub);
    }
  }

  function StripLeft(s: string): (r: string)
    ensures r == [] || !IsSpace(r[0])
    ensures |r| <= |s|
  {
    if s != [] && IsSpace(s[0]) then StripLeft(s[1..]) else s
  }

  function StripRight(s: string): (r: string)
    ensures r == [] || !IsSpace(r[|r| - 1])
    ensures |r| <= |s| && r == s[..|r|]
  {
    if s != [] && IsSpace(s[|s| - 1]) then StripRight(s[..|s| - 1]) else s
  }

  /** `s.strip()` */
  function Strip(s: string): string {
    StripRight(StripLeft(s))
  }

  /** Stripping cannot remove a leading character that is not whitespace. */
  lemma {:induction false} StripKeepsLead(s: string)
    requires s != [] && !IsSpace(s[0])
    ensures Strip(s) != [] && Strip(s)[0] == s[0]
  {
    StripRightKeepsLead(s);
  }

  lemma {:induction false} StripRightKeepsLead(s: string)
    requires s != [] && !IsSpace(s[0])
    ensures StripRight(s) != [] && StripRight(s)[0] == s[0]
  {
    if IsSpace(s[|s| - 1]) {
      StripRightKeepsLead(s[..|s| - 1]);
    }
  }

  /** `s[:n]` for a non-negative `n` */
  function Take(s: string, n: nat): (r: string)
    ensures |r| <= n && StartsWith(s, r)
    ensures |s| <= n ==> r == s
    ensures n <= |s| ==> |r| == n
  {
    if |s| <= n then s else s[..n]
  }

  /** `s[-n:]` for a positive `n` */
  function LastN(s: string, n: nat): (r: string)
    requires n > 0
    ensures |r| <= n && |r| <= |s| && r == s[|s| - |r|..]
    ensures |r| == if |s| <= n then |s| else n
  {
    if |s| <= n then s else s[|s| - n..]
  }

  /** `sep.join(parts)` */
  function Join(sep: string, parts: seq<string>): string
    decreases |parts|
  {
    if |parts| == 0 then ""
    else if |parts| == 1 then parts[0]
    else Join(sep, parts[..|parts| - 1]) + sep + parts[|parts| - 1]
  }

  /** `"".join(parts)` */
  function Concat(parts: seq<string>): string {
    Join("", parts)
  }

  /** Splits off the first line of a non-empty string: the line without its
      break, and what follows the break. */
  function FirstLine(s: string): (r: (string, string))
    requires s != []
    ensures |r.1| < |s|
    ensures forall k :: 0 <= k < |r.0| ==> !IsLineBreak(r.0[k])
    decreases |s|
  {
    if IsLineBreak(s[0]) then
      if s[0] == '\r' && |s| > 1 && s[1] == '\n' then ("", s[2..]) else ("", s[1..])
    else if |s| == 1 then (s, "")
    else
      var (line, rest) := FirstLine(s[1..]);
      ([s[0]] + line, rest)
  }

  /** `s.splitlines()`: the lines of `s` without their breaks; a final line
      break does not start an empty last line. */
  function SplitLines(s: string): (r: seq<string>)
    ensures s == [] <==> r == []
    decreases |s|
  {
    if s == [] then [] else
      var (line, rest) := FirstLine(s);
      [line] + SplitLines(rest)
  }

  /** No line of `s.splitlines()` holds a line break. */
  lemma {:induction false} SplitLinesNoBreaks(s: string)
    ensures var r := SplitLines(s);
      forall i, k :: 0 <= i < |r| && 0 <= k < |r[i]| ==> !IsLineBreak(r[i][k])
    decreases |s|
  {
    if s != [] {
      var (line, rest) := FirstLine(s);
      SplitLinesNoBreaks(rest);
      var r := SplitLines(s);
      assert r == [line] + SplitLines(rest);
      forall i, k | 0 <= i < |r| && 0 <= k < |r[i]| ensures !IsLineBreak(r[i][k]) {
        if i > 0 {
          assert r[i] == SplitLines(rest)[i - 1];
        }
      }
    }
  }

  /** `s.replace(pat, rep)`: every non-overlapping occurrence of `pat`, found
      left to right, is replaced by `rep`. */
  function ReplaceAll(s: string, pat: string, rep: string): string
    requires pat != []
    decreases |s|
  {
    if |s| < |pat| then s
    else if s[..|pat|] == pat then rep + ReplaceAll(s[|pat|..], pat, rep)
    else [s[0]] + ReplaceAll(s[1..], pat, rep)
  }

  /** A string without an occurrence of `pat` is left as it is. */
  lemma {:induction false} ReplaceAbsent(s: string, pat: string, rep: string)
    requires pat != [] && !Contains(s, pat)
    ensures ReplaceAll(s, pat, rep) == s
  {
    if |s| >= |pat| {
      assert s[..|pat|] != pat;
      ReplaceAbsent(s[1..], pat, rep);
    }
  }

  /** The lower case of one character, for the characters whose lower case
      is an ASCII letter: A to Z, and the KELVIN SIGN U+212A, which Python
      lowers to 'k'. */
  function LowerChar(c: char): char {
    if 'A' <= c <= 'Z' then (c as int + 32) as char
    else if c == '\U{212A}' then 'k'
    else c
  }

  /** `s.lower()`, character by character */
  function Lower(s: string): (r: string)
    ensures |r| == |s|
    ensures forall k :: 0 <= k < |s| ==> r[k] == LowerChar(s[k])
  {
    seq(|s|, k requires 0 <= k < |s| => LowerChar(s[k]))
  }

  /** The last index of `c` in `s`, or -1 (Python's `str.rfind`). */
  function RFind(s: string, c: char): int
    decreases |s|
  {
    if s == [] then -1
    else if s[|s| - 1] == c then |s| - 1
    else RFind(s[..|s| - 1], c)
  }

  /** `RFind` finds the last occurrence, or reports that there is none. */
  lemma {:induction false} RFindLast(s: string, c: char)
    ensures -1 <= RFind(s, c) < |s|
    ensures RFind(s, c) >= 0 ==> s[RFind(s, c)] == c
    ensures forall k :: RFind(s, c) < k < |s| ==> s[k] != c
    decreases |s|
  {
    if s != [] && s[|s| - 1] != c {
      RFindLast(s[..|s| - 1], c);
    }
  }

  /** `PurePath(name).suffix`: from the last dot on, unless that dot starts
      or ends the name. */
  function Suffix(name: string): (r: string)
    ensures r == [] || (r[0] == '.' && |r| >= 2)
  {
    RFindLast(name, '.');
    var i := RFind(name, '.');
    if 0 < i < |name| - 1 then name[i..] else ""
  }

  /** `PurePath(name).suffix.lower()`, scanning back from index `j` for the
      last dot. */
  function ExtensionFrom(name: string, j: int): string
    requires j < |name|
    decreases j
  {
    if j < 0 then ""
    else if name[j] == '.' then ExtAt(name, j)
    else ExtensionFrom(name, j - 1)
  }

  /** The lower-cased suffix starting at the dot at index `i`, unless that
      dot starts or ends the name. */
  function ExtAt(name: string, i: int): string {
    if 0 < i < |name| - 1 then Lower(name[i..]) else ""
  }

  function Extension(name: string): string {
    ExtensionFrom(name, |name| - 1)
  }

  lemma {:induction false} ExtensionFromRFind(name: string, j: int)
    requires -1 <= j < |name|
    ensures ExtensionFrom(name, j) == ExtAt(name, RFind(name[..j + 1], '.'))
    decreases j + 1
  {
    if j >= 0 {
      var s := name[..j + 1];
      assert s[|s| - 1] == name[j];
      if name[j] != '.' {
        ExtensionFromRFind(name, j - 1);
        assert s[..|s| - 1] == name[..j];
      }
    }
  }

  /** The extension is the lower-cased suffix. */
  lemma ExtensionIsLowerSuffix(name: string)
    ensures Extension(name) == Lower(Suffix(name))
  {
    ExtensionFromRFind(name, |name| - 1);
    assert name[..|name|] == name;
  }

  function DigitChar(d: nat): char
    requires d < 10
  {
    "0123456789"[d]
  }

  /** `str(n)` for a natural number */
  function NatToString(n: nat): (r: string)
    ensures r != []
  {
    if n < 10 then [DigitChar(n)] else NatToString(n / 10) + [DigitChar(n % 10)]
  }

  /** `str(n)` for an integer */
  function IntToString(n: int): string {
    if n < 0 then "-" + NatToString(-n) else NatToString(n)
  }

  /** `s.split(pat)`: the pieces between the occurrences of `pat` found
      left to right without overlap. */
  function Split(s: string, pat: string): (r: seq<string>)
    requires pat != []
    ensures |r| >= 1 && StartsWith(s, r[0])
    decreases |s|
  {
    if |s| < |pat| then [s]
    else if s[..|pat|] == pat then [""] + Split(s[|pat|..], pat)
    else
      var t := Split(s[1..], pat);
      assert s[1..][..|t[0]|] == t[0];
      assert s[..1 + |t[0]|] == [s[0]] + t[0];
      [[s[0]] + t[0]] + t[1..]
  }

  lemma {:induction false} ContainsNeedsRoom(s: string, sub: string)
    requires Contains(s, sub)
    ensures |sub| <= |s|
    decreases |s|
  {
    if !StartsWith(s, sub) {
      ContainsNeedsRoom(s[1..], sub);
    }
  }

  /** No piece of a split contains the separator. */
  lemma {:induction false} SplitPartsFree(s: string, pat: string)
    requires pat != []
    ensures forall k :: 0 <= k < |Split(s, pat)| ==> !Contains(Split(s, pat)[k], pat)
    decreases |s|
  {
    if |s| < |pat| {
      if Contains(s, pat) {
        ContainsNeedsRoom(s, pat);
      }
    } else if s[..|pat|] == pat {
      SplitPartsFree(s[|pat|..], pat);
      if Contains("", pat) {
        ContainsNeedsRoom("", pat);
      }
    } else {
      var t := Split(s[1..], pat);
      SplitPartsFree(s[1..], pat);
      var head := [s[0]] + t[0];
      assert head[1..] == t[0];
      assert !Contains(head, pat);
      assert Split(s, pat) == [head] + t[1..];
    }
  }

  lemma {:induction false} JoinCons(sep: string, a: string, rest: seq<string>)
    requires rest != []
    ensures Join(sep, [a] + rest) == a + sep + Join(sep, rest)
    decreases |rest|
  {
    var parts := [a] + rest;
    if |rest| == 1 {
      assert parts[..1] == [a];
    } else {
      assert parts[..|parts| - 1] == [a] + rest[..|rest| - 1];
      JoinCons(sep, a, rest[..|rest| - 1]);
    }
  }

  lemma JoinHead(sep: string, c: char, x: string, rest: seq<string>)
    ensures Join(sep, [[c] + x] + rest) == [c] + Join(sep, [x] + rest)
  {
    if rest != [] {
      JoinCons(sep, [c] + x, rest);
      JoinCons(sep, x, rest);
    }
  }

  /** `s.replace(pat, rep) == rep.join(s.split(pat))` */
  lemma {:induction false} ReplaceIsJoinSplit(s: string, pat: string, rep: string)
    requires pat != []
    ensures ReplaceAll(s, pat, rep) == Join(rep, Split(s, pat))
    decreases |s|
  {
    if |s| < |pat| {
    } else if s[..|pat|] == pat {
      var t := Split(s[|pat|..], pat);
      ReplaceIsJoinSplit(s[|pat|..], pat, rep);
      JoinCons(rep, "", t);
      calc {
        ReplaceAll(s, pat, rep);
        rep + ReplaceAll(s[|pat|..], pat, rep);
        rep + Join(rep, t);
        { assert "" + rep == rep; }
        "" + rep + Join(rep, t);
        Join(rep, [""] + t);
        Join(rep, Split(s, pat));
      }
    } else {
      var t := Split(s[1..], pat);
      ReplaceIsJoinSplit(s[1..], pat, rep);
      JoinHead(rep, s[0], t[0], t[1..]);
      assert [t[0]] + t[1..] == t;
      calc {
        ReplaceAll(s, pat, rep);
        [s[0]] + ReplaceAll(s[1..], pat, rep);
        [s[0]] + Join(rep, t);
        Join(rep, [[s[0]] + t[0]] + t[1..]);
        Join(rep, Split(s, pat));
      }
    }
  }
}
