/** Python `str` operations the chat pipeline relies on, over `string` (= `seq<char>`, one
    element per Unicode code point, as a Python `str` is). Character classes that Python takes
    from the Unicode database are restricted as documented on each predicate. */
module Text {

  /** `str.isspace()` for one character: the whitespace that `strip()`, `split()` and the
      regex class `\s` remove or match (the Unicode White_Space characters together with the
      separators U+001C..U+001F that Python also counts). */
  predicate IsSpace(c: char) {
    || c == ' ' || ('\t' <= c <= '\r') || ('\U{1C}' <= c <= '\U{1F}') || c == '\U{85}'
    || c == '\U{A0}' || c == '\U{1680}' || ('\U{2000}' <= c <= '\U{200A}')
    || ('\U{2028}' <= c <= '\U{2029}') || c == '\U{202F}' || c == '\U{205F}' || c == '\U{3000}'
  }

  /** A decimal digit; only ASCII digits are modelled (Python also accepts other Unicode digits). */
  predicate IsDigit(c: char) {
    '0' <= c <= '9'
  }

  /** The regex class `\w`: ASCII letters and digits, `_`, and the CJK ideograph blocks. */
  predicate IsWordChar(c: char) {
    ('a' <= c <= 'z') || ('A' <= c <= 'Z') || IsDigit(c) || c == '_'
    || ('\U{3400}' <= c <= '\U{4DBF}') || ('\U{4E00}' <= c <= '\U{9FFF}')
  }

  /** `str.isdigit()`: non-empty and made of digits only. */
  predicate IsDigits(s: string) {
    |s| > 0 && forall k :: 0 <= k < |s| ==> IsDigit(s[k])
  }

  /** The character classes used by the hand-written regular-expression matchers. */
  datatype CharClass = DigitClass | WordClass | SpaceClass | DigitDashClass | DigitColonClass | LineClass

  /** `\d`, `\w`, `\s`, `[\d-]`, `[\d:]`, and `.` without `re.DOTALL` (anything but a newline). */
  predicate InClass(cls: CharClass, c: char) {
    match cls
    case DigitClass => IsDigit(c)
    case WordClass => IsWordChar(c)
    case SpaceClass => IsSpace(c)
    case DigitDashClass => IsDigit(c) || c == '-'
    case DigitColonClass => IsDigit(c) || c == ':'
    case LineClass => c != '\n'
  }

  /** Length of the longest run of `cls` characters starting at `k` (what a greedy `\d+`,
      `\w+` or `\s+` consumes). */
  function Run(s: string, k: nat, cls: CharClass): (n: nat)
    requires k <= |s|
    ensures k + n <= |s|
    decreases |s| - k
  {
    if k < |s| && InClass(cls, s[k]) then 1 + Run(s, k + 1, cls) else 0
  }

  /** The run is made of `cls` characters and is maximal. */
  lemma {:induction false} RunSpans(s: string, k: nat, cls: CharClass)
    requires k <= |s|
    ensures forall j :: k <= j < k + Run(s, k, cls) ==> InClass(cls, s[j])
    ensures k + Run(s, k, cls) == |s| || !InClass(cls, s[k + Run(s, k, cls)])
    decreases |s| - k
  {
    if k < |s| && InClass(cls, s[k]) {
      RunSpans(s, k + 1, cls);
    }
  }

  /** The text of the longest run of `cls` characters starting at `a`. */
  function Span(s: string, a: nat, cls: CharClass): (g: string)
    requires a <= |s|
    ensures |g| == Run(s, a, cls) && g == s[a..a + |g|]
    ensures forall j :: 0 <= j < |g| ==> InClass(cls, g[j])
  {
    RunSpans(s, a, cls);
    s[a..a + Run(s, a, cls)]
  }

  /** The run at `k` is exactly `n` long when the `n` characters are in the class and the
      next one is not (or the string ends). */
  lemma {:induction false} RunExact(s: string, k: nat, n: nat, cls: CharClass)
    requires k + n <= |s|
    requires forall j :: k <= j < k + n ==> InClass(cls, s[j])
    requires k + n == |s| || !InClass(cls, s[k + n])
    ensures Run(s, k, cls) == n
    decreases n
  {
    if n > 0 {
      RunExact(s, k + 1, n - 1, cls);
    }
  }

  /** Length of the longest run of digits that ends the string. */
  function TrailingDigits(s: string): (n: nat)
    ensures n <= |s|
    ensures forall j :: |s| - n <= j < |s| ==> IsDigit(s[j])
    ensures n == |s| || !IsDigit(s[|s| - n - 1])
  {
    if s != [] && IsDigit(s[|s| - 1]) then 1 + TrailingDigits(s[..|s| - 1]) else 0
  }

  /** `str.rstrip()`. */
  function TrimEnd(s: string): (r: string)
    ensures |r| <= |s|
    decreases |s|
  {
    if s != [] && IsSpace(s[|s| - 1]) then TrimEnd(s[..|s| - 1]) else s
  }

  /** `str.strip()`. */
  function Strip(s: string): (r: string)
    ensures |r| <= |s|
    decreases |s|
  {
    if s != [] && IsSpace(s[0]) then Strip(s[1..])
    else if s != [] && IsSpace(s[|s| - 1]) then Strip(s[..|s| - 1])
    else s
  }

  /** The result of `strip()` neither starts nor ends with whitespace. */
  lemma {:induction false} StripEnds(s: string)
    ensures Strip(s) != [] ==> !IsSpace(Strip(s)[0]) && !IsSpace(Strip(s)[|Strip(s)| - 1])
    decreases |s|
  {
    if s != [] && IsSpace(s[0]) {
      StripEnds(s[1..]);
    } else if s != [] && IsSpace(s[|s| - 1]) {
      StripEnds(s[..|s| - 1]);
    }
  }

  /** `strip()` removes whitespace from both ends and nothing else: the result is the slice
      `s[a..b]` of the input with only whitespace before `a` and from `b` on. */
  lemma {:induction false} StripSlice(s: string) returns (a: nat, b: nat)
    ensures a <= b <= |s| && Strip(s) == s[a..b]
    ensures forall k :: 0 <= k < a ==> IsSpace(s[k])
    ensures forall k :: b <= k < |s| ==> IsSpace(s[k])
    decreases |s|
  {
    if s != [] && IsSpace(s[0]) {
      var t := s[1..];
      var a', b' := StripSlice(t);
      a, b := a' + 1, b' + 1;
      assert t[a'..b'] == s[a..b];
      forall k | 0 <= k < a ensures IsSpace(s[k]) {
        if k > 0 { assert s[k] == t[k - 1]; }
      }
      forall k | b <= k < |s| ensures IsSpace(s[k]) {
        assert s[k] == t[k - 1];
      }
    } else if s != [] && IsSpace(s[|s| - 1]) {
      var t := s[..|s| - 1];
      a, b := StripSlice(t);
      assert t[a..b] == s[a..b];
      forall k | b <= k < |s| ensures IsSpace(s[k]) {
        if k < |t| { assert s[k] == t[k]; }
      }
    } else {
      a, b := 0, |s|;
      assert s[a..b] == s;
    }
  }

  /** No ASCII digit is whitespace. */
  lemma DigitNotSpace(c: char)
    requires IsDigit(c)
    ensures !IsSpace(c)
  {
  }

  /** Printable ASCII other than the space, and everything above U+3000 (the CJK blocks
      among it), is not whitespace. */
  lemma NonSpace(c: char)
    requires ('!' <= c <= '~') || '\U{3000}' < c
    ensures !IsSpace(c)
  {
  }

  /** `strip()` of a line that starts with the non-blank lead `p` only trims the tail. */
  lemma {:induction false} StripKeepsLead(p: string, t: string)
    requires p != [] && !IsSpace(p[0]) && !IsSpace(p[|p| - 1])
    ensures Strip(p + t) == p + TrimEnd(t)
    decreases |t|
  {
    var s := p + t;
    assert s[0] == p[0];
    if t != [] && IsSpace(t[|t| - 1]) {
      assert s[|s| - 1] == t[|t| - 1];
      assert s[..|s| - 1] == p + t[..|t| - 1];
      StripKeepsLead(p, t[..|t| - 1]);
    } else {
      assert s[|s| - 1] == (if t == [] then p[|p| - 1] else t[|t| - 1]);
    }
  }

  /** `s[a..]` is `s[a..b]` followed by `s[b..]`. */
  lemma SuffixSplit<T>(s: seq<T>, a: nat, b: nat)
    requires a <= b <= |s|
    ensures s[a..] == s[a..b] + s[b..]
  {
  }

  /** A slice of `a + b` that lies inside `a`. */
  lemma LeftSlice<T>(a: seq<T>, b: seq<T>, i: nat, j: nat)
    requires i <= j <= |a|
    ensures (a + b)[i..j] == a[i..j]
  {
    var x, y := (a + b)[i..j], a[i..j];
    forall k | 0 <= k < j - i ensures x[k] == y[k] {
      assert x[k] == (a + b)[i + k];
    }
  }

  /** A slice of `a + b` that lies inside `b`. */
  lemma RightSlice<T>(a: seq<T>, b: seq<T>, i: nat, j: nat)
    requires i <= j <= |b|
    ensures (a + b)[|a| + i..|a| + j] == b[i..j]
  {
    var x, y := (a + b)[|a| + i..|a| + j], b[i..j];
    forall k | 0 <= k < j - i ensures x[k] == y[k] {
      assert x[k] == (a + b)[|a| + i + k];
    }
  }

  /** A slice of a slice is a slice of the original. */
  lemma SliceOfSlice<T>(s: seq<T>, p: nat, q: nat, j: nat, n: nat)
    requires p <= q <= |s| && j + n <= q - p
    ensures s[p..q][j..j + n] == s[p + j..p + j + n]
  {
    var x, y := s[p..q][j..j + n], s[p + j..p + j + n];
    forall i | 0 <= i < n ensures x[i] == y[i] {
      assert s[p..q][j + i] == s[p + j + i];
    }
  }

  predicate StartsWith(s: string, p: string) {
    |p| <= |s| && s[..|p|] == p
  }

  /** The substring test `t in s`. */
  predicate Contains(s: string, t: string)
    decreases |s|
  {
    StartsWith(s, t) || (s != [] && Contains(s[1..], t))
  }

  lemma {:induction false} ContainsAt(s: string, t: string, k: nat)
    requires k + |t| <= |s| && s[k..k + |t|] == t
    ensures Contains(s, t)
    decreases k
  {
    if k > 0 {
      assert s[1..][k - 1..k - 1 + |t|] == s[k..k + |t|];
      ContainsAt(s[1..], t, k - 1);
    }
  }

  /** `sep.join(parts)`. */
  function JoinWith(parts: seq<string>, sep: string): string
  {
    if parts == [] then "" else if |parts| == 1 then parts[0] else parts[0] + sep + JoinWith(parts[1..], sep)
  }

  function IndexOf(s: string, c: char): (k: nat)
    ensures k <= |s| && (k < |s| ==> s[k] == c)
    ensures forall j :: 0 <= j < k ==> s[j] != c
  {
    if s == [] then 0 else if s[0] == c then 0 else 1 + IndexOf(s[1..], c)
  }

  /** `s.split(c)` for a one-character separator: always at least one piece, and no piece
      contains the separator. */
  function Split(s: string, c: char): (r: seq<string>)
    ensures |r| >= 1
    ensures forall i :: 0 <= i < |r| ==> c !in r[i]
    decreases |s|
  {
    var k := IndexOf(s, c);
    if k == |s| then [s] else [s[..k]] + Split(s[k + 1..], c)
  }

  /** Splitting a join on the same separator recovers the pieces, provided none of them
      contains the separator. */
  lemma {:induction false} SplitJoin(parts: seq<string>, c: char)
    requires |parts| >= 1
    requires forall i :: 0 <= i < |parts| ==> c !in parts[i]
    ensures Split(JoinWith(parts, [c]), c) == parts
  {
    var s := JoinWith(parts, [c]);
    if |parts| == 1 {
      assert IndexOf(s, c) == |s|;
    } else {
      var rest := JoinWith(parts[1..], [c]);
      assert s == parts[0] + [c] + rest;
      var p := parts[0];
      assert s[|p|] == c;
      assert IndexOf(s, c) == |p| by {
        assert forall j :: 0 <= j < |p| ==> s[j] == p[j];
      }
      assert s[..|p|] == p;
      assert s[|p| + 1..] == rest;
      SplitJoin(parts[1..], c);
    }
  }

  /** Length of the longest prefix without whitespace. */
  function FirstSpace(s: string): (k: nat)
    ensures k <= |s|
    ensures k == 0 <==> s == [] || IsSpace(s[0])
  {
    if s == [] || IsSpace(s[0]) then 0 else 1 + FirstSpace(s[1..])
  }

  lemma {:induction false} FirstSpaceSpans(s: string)
    ensures FirstSpace(s) < |s| ==> IsSpace(s[FirstSpace(s)])
    ensures forall j :: 0 <= j < FirstSpace(s) ==> !IsSpace(s[j])
  {
    if s != [] && !IsSpace(s[0]) {
      FirstSpaceSpans(s[1..]);
      forall j | 0 <= j < FirstSpace(s) ensures !IsSpace(s[j]) {
        if j > 0 { assert s[j] == s[1..][j - 1]; }
      }
    }
  }

  /** A non-empty run of non-whitespace characters. */
  predicate IsWord(w: string) {
    w != [] && forall j :: 0 <= j < |w| ==> !IsSpace(w[j])
  }

  /** `s.split()`: the maximal runs of non-whitespace characters, in order. */
  function Words(s: string): seq<string>
    decreases |s|
  {
    if s == [] then []
    else if IsSpace(s[0]) then Words(s[1..])
    else
      var k := FirstSpace(s);
      [s[..k]] + Words(s[k..])
  }

  /** Every piece of `split()` is a word. */
  lemma {:induction false} WordsAreWords(s: string)
    ensures forall i :: 0 <= i < |Words(s)| ==> IsWord(Words(s)[i])
    decreases |s|
  {
    if s != [] {
      if IsSpace(s[0]) {
        WordsAreWords(s[1..]);
      } else {
        var k := FirstSpace(s);
        FirstSpaceSpans(s);
        WordsAreWords(s[k..]);
        assert IsWord(s[..k]);
      }
    }
  }

  /** The line boundaries of `str.splitlines()`. */
  predicate IsLineBreak(c: char) {
    c == '\n' || c == '\r' || c == '\U{0B}' || c == '\U{0C}' || ('\U{1C}' <= c <= '\U{1E}')
    || c == '\U{85}' || c == '\U{2028}' || c == '\U{2029}'
  }

  /** Length of the longest prefix without a line boundary. */
  function FirstBreak(s: string): (k: nat)
    ensures k <= |s|
  {
    if s == [] || IsLineBreak(s[0]) then 0 else 1 + FirstBreak(s[1..])
  }

  lemma {:induction false} FirstBreakSpans(s: string)
    ensures FirstBreak(s) < |s| ==> IsLineBreak(s[FirstBreak(s)])
    ensures forall j :: 0 <= j < FirstBreak(s) ==> !IsLineBreak(s[j])
  {
    if s != [] && !IsLineBreak(s[0]) {
      FirstBreakSpans(s[1..]);
      forall j | 0 <= j < FirstBreak(s) ensures !IsLineBreak(s[j]) {
        if j > 0 { assert s[j] == s[1..][j - 1]; }
      }
    }
  }

  /** `s.splitlines()`: `"\r\n"` is one boundary, and a boundary at the very end does not
      start a further, empty line. */
  function SplitLines(s: string): seq<string>
    decreases |s|
  {
    if s == [] then []
    else
      var k := FirstBreak(s);
      if k == |s| then [s]
      else
        var w := if s[k] == '\r' && k + 1 < |s| && s[k + 1] == '\n' then 2 else 1;
        [s[..k]] + SplitLines(s[k + w..])
  }

  /** No line of `ls` contains a boundary character. */
  predicate NoBreaks(ls: seq<string>) {
    forall i, j :: 0 <= i < |ls| && 0 <= j < |ls[i]| ==> !IsLineBreak(ls[i][j])
  }

  /** No line of `splitlines()` contains a boundary character. */
  lemma {:induction false} SplitLinesNoBreak(s: string)
    ensures NoBreaks(SplitLines(s))
    decreases |s|
  {
    if s != [] {
      var k := FirstBreak(s);
      FirstBreakSpans(s);
      if k < |s| {
        var w := if s[k] == '\r' && k + 1 < |s| && s[k + 1] == '\n' then 2 else 1;
        SplitLinesNoBreak(s[k + w..]);
        assert SplitLines(s) == [s[..k]] + SplitLines(s[k + w..]);
        ConsNoBreaks(s[..k], SplitLines(s[k + w..]));
      } else {
        assert SplitLines(s) == [s];
        ConsNoBreaks(s, []);
        assert [s] + [] == [s];
      }
    }
  }

  /** A line without a boundary character in front of such lines. */
  lemma ConsNoBreaks(line: string, rest: seq<string>)
    requires forall j :: 0 <= j < |line| ==> !IsLineBreak(line[j])
    requires NoBreaks(rest)
    ensures NoBreaks([line] + rest)
  {
    var all := [line] + rest;
    forall i, j | 0 <= i < |all| && 0 <= j < |all[i]| ensures !IsLineBreak(all[i][j]) {
      if i > 0 {
        assert all[i] == rest[i - 1];
      }
    }
  }

  function DigitChar(d: nat): (c: char)
    requires d < 10
    ensures IsDigit(c) && c as int - '0' as int == d
  {
    ('0' as int + d) as char
  }

  /** `str(n)` for a non-negative integer. */
  function NatToString(n: nat): (r: string)
    ensures IsDigits(r)
    decreases n
  {
    if n < 10 then [DigitChar(n)] else NatToString(n / 10) + [DigitChar(n % 10)]
  }

  /** `int(s)` for a string of ASCII digits. */
  function ParseNat(s: string): nat
    requires forall k :: 0 <= k < |s| ==> IsDigit(s[k])
  {
    if s == [] then 0
    else
      assert IsDigit(s[|s| - 1]);
      10 * ParseNat(s[..|s| - 1]) + (s[|s| - 1] as int - '0' as int)
  }

  /** `int(str(n)) == n`. */
  lemma {:induction false} ParseNatToString(n: nat)
    ensures ParseNat(NatToString(n)) == n
    decreases n
  {
    var s := NatToString(n);
    if n >= 10 {
      assert s[..|s| - 1] == NatToString(n / 10);
      ParseNatToString(n / 10);
    }
  }
}
