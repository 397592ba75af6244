/** The chat-window parser of train/create_pretrain.py (`ChatParser`): cutting a windowed chat
    log into window blocks, reading each block's header fields and numbered message lines, and
    collecting one user's messages, each with the messages before it as context. */
module Windows {
  import opened Wrappers
  import opened Text
  import opened Clock

  /** `c * n`. */
  function Repeat(c: char, n: nat): (r: string)
    ensures |r| == n && forall j :: 0 <= j < n ==> r[j] == c
  {
    if n == 0 then [] else Repeat(c, n - 1) + [c]
  }

  /** The rule of fifty `=` that opens every window. */
  const Rule: string := Repeat('=', 50)
  /** A rule at the start of a later line: where a window stops. */
  const NextRule: string := "\n" + Rule
  const IdLabel: string := "窗口 #"
  /** What every window block starts with; its number follows. */
  const Opening: string := Rule + "\n" + IdLabel
  const TimeLabel: string := "# 窗口起始时间: "
  const RangeLabel: string := "# 行范围: "
  const ReasonLabel: string := "# 分割原因: "
  const PictureTag: string := "[图片]"
  const GapTag: string := "[间隔"

  datatype ChatMessage = ChatMessage(position: nat, username: string, userId: string, content: string)

  datatype Window = Window(windowId: nat, startTime: string, lineRange: (nat, nat),
                           splitReason: string, messages: seq<ChatMessage>)

  /** One message of the chosen user, with the window's earlier messages as context. */
  datatype Entry = Entry(windowId: nat, position: nat, content: string, context: string)

  // ---------------------------------------------------------------------------------------
  // Searching

  /** The literal `lit` occurs in `s` at `k`. */
  predicate LitAt(s: string, k: nat, lit: string) {
    k + |lit| <= |s| && s[k..k + |lit|] == lit
  }

  /** `[\d-]+ [\d:]+` at `a`. Both classes are greedy and the separator is in neither, so the
      match, when there is one, is unique. */
  predicate DateTimeAt(s: string, a: nat) {
    a <= |s| && var n := Run(s, a, DigitDashClass);
    n >= 1 && a + n < |s| && s[a + n] == ' ' && Run(s, a + n + 1, DigitColonClass) >= 1
  }

  /** `\d+-\d+` at `a`. */
  predicate RangeAt(s: string, a: nat) {
    a <= |s| && var n := Run(s, a, DigitClass);
    n >= 1 && a + n < |s| && s[a + n] == '-' && Run(s, a + n + 1, DigitClass) >= 1
  }

  /** The patterns the parser looks for in a chat log or a window block. */
  datatype Pattern =
    | OpeningPat  // `={50}\n窗口 #\d`, the start of a window
    | IdPat       // `窗口 #(\d+)`
    | TimePat     // `# 窗口起始时间: ([\d-]+ [\d:]+)`
    | RangePat    // `# 行范围: (\d+)-(\d+)`
    | ReasonPat   // `# 分割原因: (.+)`

  /** Pattern `p` matches at position `k` of `s`. */
  predicate MatchesAt(p: Pattern, s: string, k: nat) {
    match p
    case OpeningPat => LitAt(s, k, Opening) && k + |Opening| < |s| && IsDigit(s[k + |Opening|])
    case IdPat => LitAt(s, k, IdLabel) && k + |IdLabel| < |s| && IsDigit(s[k + |IdLabel|])
    case TimePat => LitAt(s, k, TimeLabel) && DateTimeAt(s, k + |TimeLabel|)
    case RangePat => LitAt(s, k, RangeLabel) && RangeAt(s, k + |RangeLabel|)
    case ReasonPat => LitAt(s, k, ReasonLabel) && k + |ReasonLabel| < |s| && s[k + |ReasonLabel|] != '\n'
  }

  /** `re.search` from `k`: the first position where `p` matches. */
  function Search(p: Pattern, s: string, k: nat): (r: Option<nat>)
    requires k <= |s|
    ensures r.Some? ==> k <= r.value <= |s|
    decreases |s| - k
  {
    if MatchesAt(p, s, k) then Some(k) else if k == |s| then None else Search(p, s, k + 1)
  }

  /** The search finds a match, and the first one from `k` on; it finds none only when there
      is none. */
  lemma {:induction false} SearchSpec(p: Pattern, s: string, k: nat)
    requires k <= |s|
    ensures Search(p, s, k).Some? ==> MatchesAt(p, s, Search(p, s, k).value)
    ensures forall j :: k <= j <= |s| && (Search(p, s, k).None? || j < Search(p, s, k).value) ==> !MatchesAt(p, s, j)
    decreases |s| - k
  {
    if !MatchesAt(p, s, k) && k < |s| {
      SearchSpec(p, s, k + 1);
    }
  }

  // ---------------------------------------------------------------------------------------
  // Window blocks

  /** Where the lazy `.*?` of a window stops: at the first position from `q` on that is
      followed by a rule on a new line, or at the end of the text (`\Z`). */
  function BlockEnd(s: string, q: nat): (r: nat)
    requires q <= |s|
    ensures q <= r <= |s| && (r == |s| || LitAt(s, r, NextRule))
    ensures forall j :: q <= j < r ==> !LitAt(s, j, NextRule)
    decreases |s| - q
  {
    if q == |s| || LitAt(s, q, NextRule) then q else BlockEnd(s, q + 1)
  }

  /** `re.findall(window_pattern, s[from..], re.DOTALL)`: each window runs from its opening
      rule, past its number, to the next rule on a new line or the end; the search resumes
      where the last window stopped. */
  function FindWindows(s: string, from: nat): seq<string>
    requires from <= |s|
    decreases |s| - from
  {
    match Search(OpeningPat, s, from)
    case None => []
    case Some(p) =>
      SearchSpec(OpeningPat, s, from);
      var m := p + |Opening| + Run(s, p + |Opening|, DigitClass);
      var q := BlockEnd(s, m);
      [s[p..q]] + FindWindows(s, q)
  }

  /** The shape every found window has: the opening, then a digit. */
  predicate IsBlock(b: string) {
    |Opening| < |b| && b[..|Opening|] == Opening && IsDigit(b[|Opening|])
  }

  /** No rule on a new line occurs inside `b`. */
  predicate NoNextRule(b: string) {
    forall j :: 0 <= j <= |b| ==> !LitAt(b, j, NextRule)
  }

  /** Every window of `ws` starts with the opening and a digit and holds no later rule. */
  predicate AllBlocks(ws: seq<string>) {
    forall k :: 0 <= k < |ws| ==> IsBlock(ws[k]) && NoNextRule(ws[k])
  }

  /** Every found window starts with the opening and a digit and holds no later rule. */
  lemma {:induction false} FindWindowsBlocks(s: string, from: nat)
    requires from <= |s|
    ensures AllBlocks(FindWindows(s, from))
    decreases |s| - from
  {
    match Search(OpeningPat, s, from)
    case None =>
    case Some(p) =>
      SearchSpec(OpeningPat, s, from);
      var m := p + |Opening| + Run(s, p + |Opening|, DigitClass);
      var q := BlockEnd(s, m);
      FindWindowsStep(s, from, p, m, q);
      FoundBlock(s, p, m, q);
      FindWindowsBlocks(s, q);
      ConsBlocks(s[p..q], FindWindows(s, q));
  }

  /** One step of the search: the window found at `p`, then the windows from `q` on. */
  lemma FindWindowsStep(s: string, from: nat, p: nat, m: nat, q: nat)
    requires from <= |s| && Search(OpeningPat, s, from) == Some(p)
    requires p + |Opening| <= |s|
    requires m == p + |Opening| + Run(s, p + |Opening|, DigitClass) && q == BlockEnd(s, m)
    ensures from < q <= |s| && FindWindows(s, from) == [s[p..q]] + FindWindows(s, q)
  {
    SearchSpec(OpeningPat, s, from);
  }

  /** A block in front of blocks. */
  lemma ConsBlocks(b: string, rest: seq<string>)
    requires IsBlock(b) && NoNextRule(b) && AllBlocks(rest)
    ensures AllBlocks([b] + rest)
  {
    var all := [b] + rest;
    forall k | 0 <= k < |all| ensures IsBlock(all[k]) && NoNextRule(all[k]) {
      if k > 0 {
        assert all[k] == rest[k - 1];
      }
    }
  }

  /** The characters of the opening: rule characters, one newline at 50, then the label. */
  lemma OpeningChars()
    ensures |Rule| == 50 && |NextRule| == 51 && |IdLabel| == 4 && |Opening| == 55
    ensures forall j :: 0 <= j < 55 && j != 50 ==> Opening[j] != '\n'
    ensures Opening[50] == '\n' && NextRule[0] == '\n' && Opening[51] != NextRule[1]
    ensures forall j :: 0 <= j <= 50 ==> Opening[j] != IdLabel[0]
    ensures Opening[51..] == IdLabel
  {
    assert forall j :: 0 <= j < 50 ==> Opening[j] == Rule[j];
    assert forall j :: 51 <= j < 55 ==> Opening[j] == IdLabel[j - 51];
  }

  /** The window found at `p`, its number ending at `m`, stopping at `q`. */
  lemma FoundBlock(s: string, p: nat, m: nat, q: nat)
    requires MatchesAt(OpeningPat, s, p)
    requires m == p + |Opening| + Run(s, p + |Opening|, DigitClass) && q == BlockEnd(s, m)
    ensures IsBlock(s[p..q]) && NoNextRule(s[p..q])
  {
    OpeningChars();
    RunSpans(s, p + |Opening|, DigitClass);
    var b := s[p..q];
    assert b[..55] == s[p..p + 55] == Opening;
    forall j | 0 <= j <= |b| ensures !LitAt(b, j, NextRule) {
      if p + j < m {
        NoRuleInOpening(s, b, p, m, j);
      } else {
        NoRuleAfterNumber(s, b, p, m, q, j);
      }
    }
  }

  /** Past the number, the block stops before any rule on a new line. */
  lemma NoRuleAfterNumber(s: string, b: string, p: nat, m: nat, q: nat, j: nat)
    requires m <= q <= |s| && forall k :: m <= k < q ==> !LitAt(s, k, NextRule)
    requires p <= q && b == s[p..q] && m <= p + j && j <= |b|
    ensures !LitAt(b, j, NextRule)
  {
    if LitAt(b, j, NextRule) {
      SliceOfSlice(s, p, q, j, |NextRule|);
      assert LitAt(s, p + j, NextRule);
    }
  }

  /** A rule on a new line cannot start inside the opening or the window number. */
  lemma NoRuleInOpening(s: string, b: string, p: nat, m: nat, j: nat)
    requires |Opening| == 55 && |NextRule| == 51
    requires forall j :: 0 <= j < 55 && j != 50 ==> Opening[j] != '\n'
    requires NextRule[0] == '\n' && Opening[51] != NextRule[1]
    requires 55 < |b| && b[..55] == Opening
    requires p + 55 <= m <= p + |b| <= |s| && b == s[p..p + |b|]
    requires forall k :: p + 55 <= k < m ==> IsDigit(s[k])
    requires p + j < m
    ensures !LitAt(b, j, NextRule)
  {
    LitAtHead(b, j, NextRule);
    var o := b[..55];
    if j == 50 {
      assert b[51] == o[51] == Opening[51];
    } else if j < 55 {
      assert b[j] == o[j] == Opening[j];
    } else {
      assert b[j] == s[p + j];
    }
  }

  /** The first two characters of a literal found at `k`. */
  lemma LitAtHead(s: string, k: nat, lit: string)
    ensures LitAt(s, k, lit) && |lit| >= 2 ==> s[k] == lit[0] && s[k + 1] == lit[1]
  {
    if LitAt(s, k, lit) && |lit| >= 2 {
      var w := s[k..k + |lit|];
      assert s[k] == w[0] && s[k + 1] == w[1];
    }
  }

  // ---------------------------------------------------------------------------------------
  // Window header fields

  /** `window_id`: the number after the first `窗口 #`, or 0. */
  function IdOf(b: string): (r: nat)
    ensures Search(IdPat, b, 0).None? ==> r == 0
  {
    match Search(IdPat, b, 0)
    case None => 0
    case Some(k) =>
      SearchSpec(IdPat, b, 0);
      ParseNat(Span(b, k + |IdLabel|, DigitClass))
  }

  /** `start_time`: the date and time after the first time label, or "". */
  function TimeOf(b: string): (r: string)
    ensures r == [] <==> Search(TimePat, b, 0).None?
  {
    match Search(TimePat, b, 0)
    case None => ""
    case Some(k) =>
      SearchSpec(TimePat, b, 0);
      TimeAt(b, k + |TimeLabel|)
  }

  /** The `[\d-]+ [\d:]+` that starts at `a`. */
  function TimeAt(b: string, a: nat): (r: string)
    requires DateTimeAt(b, a)
    ensures r != []
  {
    var n := Run(b, a, DigitDashClass);
    b[a..a + n + 1 + Run(b, a + n + 1, DigitColonClass)]
  }

  /** `line_range`: the two numbers after the first range label, or (0, 0). */
  function RangeOf(b: string): (r: (nat, nat))
    ensures Search(RangePat, b, 0).None? ==> r == (0, 0)
  {
    match Search(RangePat, b, 0)
    case None => (0, 0)
    case Some(k) =>
      SearchSpec(RangePat, b, 0);
      RangeFields(b, k + |RangeLabel|)
  }

  /** The two numbers of the `\d+-\d+` that starts at `a`. */
  function RangeFields(b: string, a: nat): (nat, nat)
    requires RangeAt(b, a)
  {
    var n := Run(b, a, DigitClass);
    (ParseNat(Span(b, a, DigitClass)), ParseNat(Span(b, a + n + 1, DigitClass)))
  }

  /** `split_reason`: the rest of the line after the first reason label, stripped, or "". */
  function ReasonOf(b: string): (r: string)
    ensures Search(ReasonPat, b, 0).None? ==> r == []
  {
    match Search(ReasonPat, b, 0)
    case None => ""
    case Some(k) =>
      SearchSpec(ReasonPat, b, 0);
      Strip(Span(b, k + |ReasonLabel|, LineClass))
  }

  /** `p` first matches `s` at `k`, searching from `from`. */
  predicate FirstMatch(p: Pattern, s: string, from: nat, k: nat) {
    from <= k <= |s| && MatchesAt(p, s, k) && forall j :: from <= j < k ==> !MatchesAt(p, s, j)
  }

  /** `g` is the longest run of `cls` characters at `a` in `s`. */
  predicate MaxRunAt(s: string, a: nat, g: string, cls: CharClass) {
    && a + |g| <= |s| && s[a..a + |g|] == g
    && (forall j :: 0 <= j < |g| ==> InClass(cls, g[j]))
    && (a + |g| == |s| || !InClass(cls, s[a + |g|]))
  }

  /** The search stops at the first match. */
  lemma {:induction false} SearchFirst(p: Pattern, s: string, from: nat, k: nat)
    requires FirstMatch(p, s, from, k)
    ensures Search(p, s, from) == Some(k)
    decreases k - from
  {
    if from < k {
      SearchFirst(p, s, from + 1, k);
    }
  }

  /** The search finds nothing where nothing matches. */
  lemma {:induction false} SearchNone(p: Pattern, s: string, from: nat)
    requires from <= |s| && forall j :: from <= j <= |s| ==> !MatchesAt(p, s, j)
    ensures Search(p, s, from).None?
    decreases |s| - from
  {
    if from < |s| {
      SearchNone(p, s, from + 1);
    }
  }

  /** The longest run is the one the greedy matcher takes. */
  lemma MaxRunIsSpan(s: string, a: nat, g: string, cls: CharClass)
    requires MaxRunAt(s, a, g, cls)
    ensures Run(s, a, cls) == |g| && Span(s, a, cls) == g
  {
    forall j | a <= j < a + |g| ensures InClass(cls, s[j]) {
      assert s[j] == g[j - a];
    }
    RunExact(s, a, |g|, cls);
  }

  /** `window_id` is the number of the first `窗口 #` followed by a digit: the whole run of
      digits there. */
  lemma IdOfFound(b: string, k: nat, digits: string)
    requires FirstMatch(IdPat, b, 0, k) && MaxRunAt(b, k + |IdLabel|, digits, DigitClass)
    ensures IsDigits(digits) && IdOf(b) == ParseNat(digits)
  {
    SearchFirst(IdPat, b, 0, k);
    MaxRunIsSpan(b, k + |IdLabel|, digits, DigitClass);
  }

  /** Each field whose pattern matches nowhere in the block takes its default: `window_id`
      0, `start_time` "", `line_range` (0, 0) and `split_reason` "". */
  lemma FieldDefaults(b: string)
    ensures (forall j :: 0 <= j <= |b| ==> !MatchesAt(IdPat, b, j)) ==> IdOf(b) == 0
    ensures (forall j :: 0 <= j <= |b| ==> !MatchesAt(TimePat, b, j)) ==> TimeOf(b) == ""
    ensures (forall j :: 0 <= j <= |b| ==> !MatchesAt(RangePat, b, j)) ==> RangeOf(b) == (0, 0)
    ensures (forall j :: 0 <= j <= |b| ==> !MatchesAt(ReasonPat, b, j)) ==> ReasonOf(b) == ""
  {
    if forall j :: 0 <= j <= |b| ==> !MatchesAt(IdPat, b, j) {
      SearchNone(IdPat, b, 0);
    }
    if forall j :: 0 <= j <= |b| ==> !MatchesAt(TimePat, b, j) {
      SearchNone(TimePat, b, 0);
    }
    if forall j :: 0 <= j <= |b| ==> !MatchesAt(RangePat, b, j) {
      SearchNone(RangePat, b, 0);
    }
    if forall j :: 0 <= j <= |b| ==> !MatchesAt(ReasonPat, b, j) {
      SearchNone(ReasonPat, b, 0);
    }
  }

  /** `date`, a space and `clock` at `a`: the longest run of digits and dashes, and the
      longest run of digits and colons after the space. */
  predicate DateAndClockAt(b: string, a: nat, date: string, clock: string) {
    && MaxRunAt(b, a, date, DigitDashClass)
    && a + |date| < |b| && b[a + |date|] == ' '
    && MaxRunAt(b, a + |date| + 1, clock, DigitColonClass)
  }

  /** `start_time` is the date and the time after the first time label that has both: the
      whole run of digits and dashes, a space, and the whole run of digits and colons. */
  lemma TimeOfFound(b: string, k: nat, date: string, clock: string)
    requires FirstMatch(TimePat, b, 0, k) && DateAndClockAt(b, k + |TimeLabel|, date, clock)
    ensures date != [] && clock != [] && TimeOf(b) == date + " " + clock
  {
    TimeOfFirst(b, k);
    TimeAtRuns(b, k + |TimeLabel|, date, clock);
  }

  /** `start_time` read at the first match of the time pattern. */
  lemma TimeOfFirst(b: string, k: nat)
    requires FirstMatch(TimePat, b, 0, k)
    ensures DateTimeAt(b, k + |TimeLabel|) && TimeOf(b) == TimeAt(b, k + |TimeLabel|)
  {
    SearchFirst(TimePat, b, 0, k);
  }

  /** The date and time at `a` are the two longest runs around the space. */
  lemma TimeAtRuns(b: string, a: nat, date: string, clock: string)
    requires DateTimeAt(b, a) && DateAndClockAt(b, a, date, clock)
    ensures date != [] && clock != [] && TimeAt(b, a) == date + " " + clock
  {
    MaxRunIsSpan(b, a, date, DigitDashClass);
    MaxRunIsSpan(b, a + |date| + 1, clock, DigitColonClass);
    SpacedPair(b, a, date, clock);
  }

  /** Two pieces with a space between them, read back in one slice. */
  lemma SpacedPair(b: string, a: nat, x: string, y: string)
    requires a + |x| + 1 + |y| <= |b| && b[a..a + |x|] == x && b[a + |x|] == ' '
    requires b[a + |x| + 1..a + |x| + 1 + |y|] == y
    ensures b[a..a + |x| + 1 + |y|] == x + " " + y
  {
    assert b[a..a + |x| + 1 + |y|] == b[a..a + |x|] + [b[a + |x|]] + b[a + |x| + 1..a + |x| + 1 + |y|];
  }

  /** `first`, a dash and `last` at `a`, each the longest run of digits there. */
  predicate NumbersAt(b: string, a: nat, first: string, last: string) {
    && MaxRunAt(b, a, first, DigitClass)
    && a + |first| < |b| && b[a + |first|] == '-'
    && MaxRunAt(b, a + |first| + 1, last, DigitClass)
  }

  /** `line_range` is the two numbers after the first range label that has both. */
  lemma RangeOfFound(b: string, k: nat, first: string, last: string)
    requires FirstMatch(RangePat, b, 0, k) && NumbersAt(b, k + |RangeLabel|, first, last)
    ensures IsDigits(first) && IsDigits(last) && RangeOf(b) == (ParseNat(first), ParseNat(last))
  {
    RangeOfFirst(b, k);
    RangeFieldsRuns(b, k + |RangeLabel|, first, last);
  }

  /** `line_range` read at the first match of the range pattern. */
  lemma RangeOfFirst(b: string, k: nat)
    requires FirstMatch(RangePat, b, 0, k)
    ensures RangeAt(b, k + |RangeLabel|) && RangeOf(b) == RangeFields(b, k + |RangeLabel|)
  {
    SearchFirst(RangePat, b, 0, k);
  }

  /** The two numbers at `a` are the two longest digit runs around the dash. */
  lemma RangeFieldsRuns(b: string, a: nat, first: string, last: string)
    requires RangeAt(b, a) && NumbersAt(b, a, first, last)
    ensures IsDigits(first) && IsDigits(last) && RangeFields(b, a) == (ParseNat(first), ParseNat(last))
  {
    MaxRunIsSpan(b, a, first, DigitClass);
    MaxRunIsSpan(b, a + |first| + 1, last, DigitClass);
  }

  /** `split_reason` is the rest of the line after the first reason label that is followed by
      some text, stripped. */
  lemma ReasonOfFound(b: string, k: nat, rest: string)
    requires FirstMatch(ReasonPat, b, 0, k) && MaxRunAt(b, k + |ReasonLabel|, rest, LineClass)
    ensures rest != [] && '\n' !in rest && ReasonOf(b) == Strip(rest)
  {
    SearchFirst(ReasonPat, b, 0, k);
    MaxRunIsSpan(b, k + |ReasonLabel|, rest, LineClass);
  }

  /** A found window's number is the one written in its opening. */
  lemma FoundBlockId(b: string)
    requires IsBlock(b)
    ensures IdOf(b) == ParseNat(Span(b, |Opening|, DigitClass))
  {
    OpeningChars();
    SearchSpec(IdPat, b, 0);
    assert b[51..55] == Opening[51..] == IdLabel;
    assert MatchesAt(IdPat, b, 51);
    forall j | 0 <= j < 51 ensures !MatchesAt(IdPat, b, j) {
      assert b[j] == Opening[j] != IdLabel[0];
    }
  }

  // ---------------------------------------------------------------------------------------
  // Message lines

  /** The two characters `说:` at `k`. */
  predicate SaidAt(s: string, k: nat) {
    k + 2 <= |s| && s[k] == '说' && s[k + 1] == ':'
  }

  /** The two characters `. ` at `k`, after a message number. */
  predicate DotSpaceAt(s: string, k: nat) {
    k + 2 <= |s| && s[k] == '.' && s[k + 1] == ' '
  }

  /** The lines the list comprehension keeps: not a `#` comment, not a `===` rule, not blank. */
  predicate KeepLine(line: string) {
    !StartsWith(line, "#") && !StartsWith(line, "===") && Strip(line) != []
  }

  /** `[line for line in lines if ...]` with the filter above. */
  function MessageLines(lines: seq<string>): seq<string> {
    if lines == [] then []
    else
      var last := lines[|lines| - 1];
      MessageLines(lines[..|lines| - 1]) + (if KeepLine(last) then [last] else [])
  }

  /** The rest `(\d+)\s+说:` of the message pattern at `t`. Both runs are greedy and the
      character after each is outside its class, so no backtracking applies. */
  predicate TailAt(s: string, t: nat) {
    t <= |s| && var n := Run(s, t, DigitClass);
    n >= 1 && var w := Run(s, t + n, SpaceClass);
    w >= 1 && SaidAt(s, t + n + w)
  }

  /** No newline in `s[a..b]`. */
  predicate NoBreakIn(s: string, a: nat, b: nat) {
    forall j :: a <= j < b && j < |s| ==> s[j] != '\n'
  }

  /** The end of the lazy group `(.+?)` that starts at `u`, tried at `e` and on: the first `/`
      after which the rest of the pattern matches. The group takes one character more at each
      try, and stops trying at a newline, which `.` does not match. */
  function UserEnd(s: string, u: nat, e: nat): (r: Option<nat>)
    requires u < e && NoBreakIn(s, u, e - 1)
    ensures r.Some? ==> e <= r.value < |s|
    decreases |s| - e
  {
    if e >= |s| || s[e - 1] == '\n' then None
    else if s[e] == '/' && TailAt(s, e + 1) then Some(e)
    else UserEnd(s, u, e + 1)
  }

  /** The user group ends at the first `/` from `e` on after which the rest of the pattern
      matches, and holds no newline; when there is none, every candidate `/` before the next
      newline fails. */
  lemma UserEndSpec(s: string, u: nat, e: nat)
    requires u < e && NoBreakIn(s, u, e - 1)
    ensures UserEnd(s, u, e).Some? ==>
      var r := UserEnd(s, u, e).value;
      && s[r] == '/' && TailAt(s, r + 1) && NoBreakIn(s, u, r)
      && forall j :: e <= j < r ==> !(s[j] == '/' && TailAt(s, j + 1))
    ensures UserEnd(s, u, e).None? ==>
      forall j :: e <= j < |s| && NoBreakIn(s, u, j) ==> !(s[j] == '/' && TailAt(s, j + 1))
  {
    UserEndFound(s, u, e);
    UserEndFirst(s, u, e);
    UserEndNone(s, u, e);
  }

  /** Where the user group ends there is a `/` followed by the rest of the pattern, and the
      group holds no newline. */
  lemma {:induction false} UserEndFound(s: string, u: nat, e: nat)
    requires u < e && NoBreakIn(s, u, e - 1)
    ensures UserEnd(s, u, e).Some? ==>
      var r := UserEnd(s, u, e).value;
      s[r] == '/' && TailAt(s, r + 1) && NoBreakIn(s, u, r)
    decreases |s| - e
  {
    if e >= |s| || s[e - 1] == '\n' {
    } else if s[e] == '/' && TailAt(s, e + 1) {
    } else {
      UserEndFound(s, u, e + 1);
    }
  }

  /** Where the user group ends the rest of the pattern matches. */
  lemma {:induction false} UserEndTail(s: string, u: nat, e: nat)
    requires u < e && NoBreakIn(s, u, e - 1)
    ensures UserEnd(s, u, e).Some? ==> TailAt(s, UserEnd(s, u, e).value + 1)
    decreases |s| - e
  {
    if e >= |s| || s[e - 1] == '\n' {
    } else if s[e] == '/' && TailAt(s, e + 1) {
    } else {
      UserEndTail(s, u, e + 1);
    }
  }

  /** No earlier `/` from `e` on is followed by the rest of the pattern. */
  lemma {:induction false} UserEndFirst(s: string, u: nat, e: nat)
    requires u < e && NoBreakIn(s, u, e - 1)
    ensures UserEnd(s, u, e).Some? ==>
      forall j :: e <= j < UserEnd(s, u, e).value ==> !(s[j] == '/' && TailAt(s, j + 1))
    decreases |s| - e
  {
    if e >= |s| || s[e - 1] == '\n' {
    } else if s[e] == '/' && TailAt(s, e + 1) {
    } else {
      UserEndFirst(s, u, e + 1);
    }
  }

  /** When the group fails, no `/` before the next newline is followed by the rest. */
  lemma {:induction false} UserEndNone(s: string, u: nat, e: nat)
    requires u < e && NoBreakIn(s, u, e - 1)
    ensures UserEnd(s, u, e).None? ==>
      forall j :: e <= j < |s| && NoBreakIn(s, u, j) ==> !(s[j] == '/' && TailAt(s, j + 1))
    decreases |s| - e
  {
    if e >= |s| || s[e - 1] == '\n' {
    } else if s[e] == '/' && TailAt(s, e + 1) {
    } else {
      UserEndNone(s, u, e + 1);
    }
  }

  /** The four groups of `(\d+)\. (.+?)/(\d+)\s+说:(.*)`. */
  datatype Groups = Groups(position: string, user: string, uid: string, said: string)

  /** Where the text group starts once the rest of the pattern matched at `t`. */
  function TextStart(s: string, t: nat): (c: nat)
    requires TailAt(s, t)
    ensures t < c <= |s|
  {
    var n := Run(s, t, DigitClass);
    t + n + Run(s, t + n, SpaceClass) + 2
  }

  /** `message_pattern.match(line)`: digits, `. `, the shortest user name followed by `/`,
      digits, whitespace and `说:`, and the rest of the line. */
  function MatchLine(line: string): (r: Option<Groups>)
    ensures r.Some? ==> IsDigits(r.value.position) && IsDigits(r.value.uid) && |line| > 0 && IsDigit(line[0])
  {
    var d := Run(line, 0, DigitClass);
    if d == 0 || !DotSpaceAt(line, d) then None
    else
      match UserEnd(line, d + 2, d + 3)
      case None => None
      case Some(e) =>
        UserEndTail(line, d + 2, d + 3);
        Some(GroupsAt(line, d, e))
  }

  /** The four groups once the number ends at `d` and the user at `e`. */
  function GroupsAt(line: string, d: nat, e: nat): (g: Groups)
    requires d >= 1 && Run(line, 0, DigitClass) == d
    requires d + 2 <= e < |line| && TailAt(line, e + 1)
    ensures IsDigits(g.position) && IsDigits(g.uid) && IsDigit(line[0])
  {
    Groups(Span(line, 0, DigitClass), line[d + 2..e], Span(line, e + 1, DigitClass),
           Span(line, TextStart(line, e + 1), LineClass))
  }

  /** One message line: its groups stripped; an empty text becomes `[图片]` when the line
      holds that tag; only a message with text is kept. */
  function ParseLine(line: string): (r: Option<ChatMessage>)
    ensures r.Some? ==> MatchLine(line).Some? && r.value.content != []
  {
    match MatchLine(line)
    case None => None
    case Some(g) =>
      var said := Strip(g.said);
      var content := if said == [] && Contains(line, PictureTag) then PictureTag else said;
      if content == [] then None
      else Some(ChatMessage(ParseNat(g.position), Strip(g.user), Strip(g.uid), content))
  }

  /** A message line as the parser expects it: `{n}. {user}/{uid} 说:{text}`. */
  function MessageLine(n: nat, user: string, uid: string, text: string): string {
    NatToString(n) + ". " + user + "/" + uid + " 说:" + text
  }

  /** The parts of a message line, where they sit. */
  predicate LaidOut(line: string, num: string, user: string, uid: string, text: string) {
    var d := |num|;
    var e := d + 2 + |user|;
    var sp := e + 1 + |uid|;
    && |line| == sp + 3 + |text|
    && line[..d] == num
    && line[d] == '.' && line[d + 1] == ' '
    && line[d + 2..e] == user
    && line[e] == '/'
    && line[e + 1..sp] == uid
    && line[sp] == ' ' && line[sp + 1] == '说' && line[sp + 2] == ':'
    && line[sp + 3..] == text
  }

  /** A message line is laid out as its parts. */
  lemma MessageLineParts(n: nat, user: string, uid: string, text: string)
    ensures LaidOut(MessageLine(n, user, uid, text), NatToString(n), user, uid, text)
  {
    NumberInLine(n, user, uid, text);
    UserInLine(n, user, uid, text);
    UidInLine(n, user, uid, text);
    TextInLine(n, user, uid, text);
  }

  /** The number leads a message line. */
  lemma NumberInLine(n: nat, user: string, uid: string, text: string)
    ensures var line := MessageLine(n, user, uid, text);
      var d := |NatToString(n)|;
      d + 2 <= |line| && line[..d] == NatToString(n) && line[d] == '.' && line[d + 1] == ' '
  {
    var num := NatToString(n);
    var p1 := num + ". ";
    var p2 := p1 + user;
    var p3 := p2 + "/";
    var p4 := p3 + uid;
    var p5 := p4 + " 说:";
    var line := p5 + text;
    var d := |num|;
    LeftSlice(p5, text, 0, d);
    LeftSlice(p4, " 说:", 0, d);
    LeftSlice(p3, uid, 0, d);
    LeftSlice(p2, "/", 0, d);
    LeftSlice(p1, user, 0, d);
    LeftSlice(num, ". ", 0, d);
    assert line[0..d] == num;
    assert line[d] == p1[d] && line[d + 1] == p1[d + 1];
  }

  /** The user name follows the number's `. ` and is followed by `/`. */
  lemma UserInLine(n: nat, user: string, uid: string, text: string)
    ensures var line := MessageLine(n, user, uid, text);
      var d := |NatToString(n)|;
      var e := d + 2 + |user|;
      e < |line| && line[d + 2..e] == user && line[e] == '/'
  {
    var num := NatToString(n);
    var p1 := num + ". ";
    var p2 := p1 + user;
    var p3 := p2 + "/";
    var p4 := p3 + uid;
    var p5 := p4 + " 说:";
    var line := p5 + text;
    var d, e := |num|, |p2|;
    RightSlice(p1, user, 0, |user|);
    LeftSlice(p2, "/", d + 2, e);
    LeftSlice(p3, uid, d + 2, e);
    LeftSlice(p4, " 说:", d + 2, e);
    LeftSlice(p5, text, d + 2, e);
    assert line[e] == p3[e];
  }

  /** The user id follows the `/` and is followed by ` 说:`. */
  lemma UidInLine(n: nat, user: string, uid: string, text: string)
    ensures var line := MessageLine(n, user, uid, text);
      var e := |NatToString(n)| + 2 + |user|;
      var sp := e + 1 + |uid|;
      sp + 3 <= |line| && line[e + 1..sp] == uid
      && line[sp] == ' ' && line[sp + 1] == '说' && line[sp + 2] == ':'
  {
    var num := NatToString(n);
    var p1 := num + ". ";
    var p2 := p1 + user;
    var p3 := p2 + "/";
    var p4 := p3 + uid;
    var p5 := p4 + " 说:";
    var line := p5 + text;
    var e, sp := |p2|, |p4|;
    RightSlice(p3, uid, 0, |uid|);
    LeftSlice(p4, " 说:", e + 1, sp);
    LeftSlice(p5, text, e + 1, sp);
    assert line[sp] == p5[sp] && line[sp + 1] == p5[sp + 1] && line[sp + 2] == p5[sp + 2];
  }

  /** The text ends a message line. */
  lemma TextInLine(n: nat, user: string, uid: string, text: string)
    ensures var line := MessageLine(n, user, uid, text);
      var sp := |NatToString(n)| + 2 + |user| + 1 + |uid|;
      |line| == sp + 3 + |text| && line[sp + 3..] == text
  {
    var num := NatToString(n);
    var p5 := num + ". " + user + "/" + uid + " 说:";
    var line := p5 + text;
    RightSlice(p5, text, 0, |text|);
    assert line[|p5|..] == text;
  }


  /** The lazy user group stops at the `/` at `r` when no `/` comes before it and the rest
      of the pattern matches after it. */
  lemma {:induction false} UserEndAt(s: string, u: nat, e: nat, r: nat)
    requires u < e <= r < |s| && NoBreakIn(s, u, r)
    requires forall j :: e <= j < r ==> s[j] != '/'
    requires s[r] == '/' && TailAt(s, r + 1)
    ensures UserEnd(s, u, e) == Some(r)
    decreases r - e
  {
    assert s[e - 1] != '\n';
    if e < r {
      assert s[e] != '/';
      assert UserEnd(s, u, e) == UserEnd(s, u, e + 1);
      UserEndAt(s, u, e + 1, r);
    }
  }

  /** After the user name, the rest of the pattern matches: the id, one space and `说:`. */
  lemma TailOfLaidOut(line: string, num: string, user: string, uid: string, text: string)
    requires LaidOut(line, num, user, uid, text) && IsDigits(uid)
    ensures TailAt(line, |num| + 2 + |user| + 1)
    ensures Span(line, |num| + 2 + |user| + 1, DigitClass) == uid
    ensures TextStart(line, |num| + 2 + |user| + 1) == |num| + 2 + |user| + 1 + |uid| + 3
  {
    var t := |num| + 2 + |user| + 1;
    var sp := t + |uid|;
    forall j | t <= j < sp ensures InClass(DigitClass, line[j]) {
      assert line[j] == uid[j - t];
    }
    RunExact(line, t, |uid|, DigitClass);
    NonSpace('说');
    RunExact(line, sp, 1, SpaceClass);
  }

  /** The number of a laid-out line, and the `. ` after it. */
  lemma NumberOfLaidOut(line: string, num: string, user: string, uid: string, text: string)
    requires LaidOut(line, num, user, uid, text) && IsDigits(num)
    ensures Run(line, 0, DigitClass) == |num| && Span(line, 0, DigitClass) == num
    ensures DotSpaceAt(line, |num|)
  {
    var d := |num|;
    forall j | 0 <= j < d ensures InClass(DigitClass, line[j]) {
      assert line[j] == num[j];
    }
    RunExact(line, 0, d, DigitClass);
  }

  /** The user name of a laid-out line is the shortest group the rest of the pattern
      matches after. */
  lemma UserOfLaidOut(line: string, num: string, user: string, uid: string, text: string)
    requires LaidOut(line, num, user, uid, text) && IsDigits(uid)
    requires user != [] && '/' !in user && '\n' !in user
    ensures UserEnd(line, |num| + 2, |num| + 3) == Some(|num| + 2 + |user|)
    ensures line[|num| + 2..|num| + 2 + |user|] == user
  {
    var u := |num| + 2;
    var e := u + |user|;
    TailOfLaidOut(line, num, user, uid, text);
    forall j | u <= j < e ensures line[j] != '/' && line[j] != '\n' {
      assert line[j] == user[j - u];
    }
    UserEndAt(line, u, u + 1, e);
  }

  /** The text of a laid-out line is the rest of it. */
  lemma TextOfLaidOut(line: string, num: string, user: string, uid: string, text: string)
    requires LaidOut(line, num, user, uid, text) && '\n' !in text
    ensures Span(line, |num| + 2 + |user| + 1 + |uid| + 3, LineClass) == text
  {
    var c := |num| + 2 + |user| + 1 + |uid| + 3;
    forall j | c <= j < |line| ensures InClass(LineClass, line[j]) {
      assert line[j] == line[c..][j - c];
    }
    RunExact(line, c, |text|, LineClass);
  }

  /** The groups the pattern yields, from what each of its parts matches: the number ends
      at `d`, the user name at `e`, and the text starts at `c`. */
  lemma MatchFromParts(line: string, d: nat, e: nat, c: nat, num: string, user: string, uid: string, text: string)
    requires d >= 1 && Run(line, 0, DigitClass) == d && Span(line, 0, DigitClass) == num
    requires DotSpaceAt(line, d)
    requires UserEnd(line, d + 2, d + 3) == Some(e) && line[d + 2..e] == user
    requires Span(line, e + 1, DigitClass) == uid
    requires TailAt(line, e + 1) && TextStart(line, e + 1) == c && Span(line, c, LineClass) == text
    ensures MatchLine(line) == Some(Groups(num, user, uid, text))
  {
    MatchAt(line, d, e);
  }

  /** The pattern matches once the number, its `. ` and the user's end are found. */
  lemma MatchAt(line: string, d: nat, e: nat)
    requires d >= 1 && Run(line, 0, DigitClass) == d && DotSpaceAt(line, d)
    requires UserEnd(line, d + 2, d + 3) == Some(e)
    ensures d + 2 <= e < |line| && TailAt(line, e + 1) && MatchLine(line) == Some(GroupsAt(line, d, e))
  {
    UserEndTail(line, d + 2, d + 3);
  }

  /** The pattern takes a laid-out line apart into its parts. */
  lemma MatchLaidOut(line: string, num: string, user: string, uid: string, text: string)
    requires LaidOut(line, num, user, uid, text) && IsDigits(num) && IsDigits(uid)
    requires user != [] && '/' !in user && '\n' !in user && '\n' !in text
    ensures MatchLine(line) == Some(Groups(num, user, uid, text))
  {
    NumberOfLaidOut(line, num, user, uid, text);
    UserOfLaidOut(line, num, user, uid, text);
    TailOfLaidOut(line, num, user, uid, text);
    TextOfLaidOut(line, num, user, uid, text);
    MatchFromParts(line, |num|, |num| + 2 + |user|, |num| + 2 + |user| + 1 + |uid| + 3, num, user, uid, text);
  }

  /** The pattern takes a message line apart into the parts it was made of, provided the user
      name holds no `/` and no part holds a newline. */
  lemma MatchMessageLine(n: nat, user: string, uid: string, text: string)
    requires user != [] && '/' !in user && '\n' !in user
    requires IsDigits(uid) && '\n' !in text
    ensures MatchLine(MessageLine(n, user, uid, text)) == Some(Groups(NatToString(n), user, uid, text))
  {
    MessageLineParts(n, user, uid, text);
    MatchLaidOut(MessageLine(n, user, uid, text), NatToString(n), user, uid, text);
  }

  /** Reading back a message line gives its number, its user name stripped and its user id;
      its text stripped is the content, and a blank text reads as `[图片]` when the line holds
      that tag and as no message otherwise. */
  lemma ReadMessageLine(n: nat, user: string, uid: string, text: string)
    requires user != [] && '/' !in user && '\n' !in user
    requires IsDigits(uid) && '\n' !in text
    ensures
      var line := MessageLine(n, user, uid, text);
      ParseLine(line) ==
        if Strip(text) != [] then Some(ChatMessage(n, Strip(user), uid, Strip(text)))
        else if Contains(line, PictureTag) then Some(ChatMessage(n, Strip(user), uid, PictureTag))
        else None
  {
    MatchMessageLine(n, user, uid, text);
    ParseNatToString(n);
    DigitNotSpace(uid[0]);
    DigitNotSpace(uid[|uid| - 1]);
    StripKeepsLead(uid, []);
    assert uid + [] == uid;
  }

  /** The loop body: gap markers are skipped before the pattern is tried. */
  function MessageOfLine(line: string): Option<ChatMessage> {
    if StartsWith(line, GapTag) then None else ParseLine(line)
  }

  /** A string that starts with a non-empty `p` starts with `p`'s first character. */
  lemma StartsWithHead(s: string, p: string)
    requires p != []
    ensures StartsWith(s, p) ==> |s| > 0 && s[0] == p[0]
  {
    if StartsWith(s, p) {
      assert s[..|p|][0] == s[0];
    }
  }

  /** A line the message pattern matches starts with a digit, so the comprehension keeps it
      and it is no gap marker: neither filter ever drops a message line. */
  lemma MatchedLineKept(line: string)
    requires MatchLine(line).Some?
    ensures KeepLine(line) && !StartsWith(line, GapTag)
  {
    StartsWithHead(line, "#");
    StartsWithHead(line, "===");
    StartsWithHead(line, GapTag);
    DigitNotSpace(line[0]);
    var a, b := StripSlice(line);
    assert a == 0;
    assert b > 0;
  }

  /** The messages of the lines, in order. */
  function MessagesOf(lines: seq<string>): seq<ChatMessage> {
    if lines == [] then []
    else
      var m := MessageOfLine(lines[|lines| - 1]);
      MessagesOf(lines[..|lines| - 1]) + (if m.Some? then [m.value] else [])
  }

  /** A block's window: its header fields and its messages; none when it has no message. */
  function ParseWindow(block: string): Option<Window> {
    var messages := MessagesOf(MessageLines(Split(block, '\n')));
    if messages == [] then None
    else Some(Window(IdOf(block), TimeOf(block), RangeOf(block), ReasonOf(block), messages))
  }

  /** The windows of the blocks that have messages, in order. */
  function WindowsOf(blocks: seq<string>): seq<Window> {
    if blocks == [] then []
    else
      var w := ParseWindow(blocks[|blocks| - 1]);
      WindowsOf(blocks[..|blocks| - 1]) + (if w.Some? then [w.value] else [])
  }

  /** `parse_chat_windows(chat_text)`. */
  function ParsedChat(text: string): seq<Window> {
    WindowsOf(FindWindows(text, 0))
  }

  /** Neither filter in front of the pattern changes which lines give messages: a line the
      comprehension drops, or a gap marker, gives none anyway. */
  lemma LineMessage(line: string)
    ensures MessageOfLine(line) == ParseLine(line)
    ensures !KeepLine(line) ==> ParseLine(line).None?
  {
    if MatchLine(line).Some? {
      MatchedLineKept(line);
    }
  }

  /** Filtering the lines first gives the same messages as reading every line. */
  lemma {:induction false} FiltersRedundant(lines: seq<string>)
    ensures MessagesOf(MessageLines(lines)) == MessagesOf(lines)
  {
    if lines != [] {
      var init, last := lines[..|lines| - 1], lines[|lines| - 1];
      FiltersRedundant(init);
      LineMessage(last);
      var kept := MessageLines(init);
      if KeepLine(last) {
        var ks := kept + [last];
        assert MessageLines(lines) == ks;
        assert ks[..|ks| - 1] == kept && ks[|ks| - 1] == last;
        var m := MessageOfLine(last);
        assert MessagesOf(ks) == MessagesOf(kept) + (if m.Some? then [m.value] else []);
      } else {
        assert MessageLines(lines) == kept;
        assert MessagesOf(lines) == MessagesOf(init);
      }
    }
  }

  /** What every parsed message satisfies: a non-empty content, a user id of digits, and no
      newline in the user name or the content. */
  predicate CleanMessage(m: ChatMessage) {
    m.content != [] && IsDigits(m.userId) && '\n' !in m.username && '\n' !in m.content
  }

  /** No newline in any character of `s`. */
  lemma NoNewline(s: string)
    requires forall j :: 0 <= j < |s| ==> s[j] != '\n'
    ensures '\n' !in s
  {
  }

  /** Stripping keeps a string free of newlines. */
  lemma StripNoNewline(s: string)
    requires '\n' !in s
    ensures '\n' !in Strip(s)
  {
    var a, b := StripSlice(s);
    forall j | 0 <= j < b - a ensures Strip(s)[j] != '\n' {
      assert Strip(s)[j] == s[a + j];
    }
  }

  /** A string of digits is its own strip. */
  lemma StripDigits(s: string)
    requires IsDigits(s)
    ensures Strip(s) == s
  {
    DigitNotSpace(s[0]);
    DigitNotSpace(s[|s| - 1]);
    StripKeepsLead(s, []);
    assert s + [] == s;
  }

  /** A message the parser reads from a line is clean. */
  lemma MessageShape(line: string)
    requires ParseLine(line).Some?
    ensures CleanMessage(ParseLine(line).value)
  {
    var g := MatchLine(line).value;
    var d := Run(line, 0, DigitClass);
    UserEndFound(line, d + 2, d + 3);
    var e := UserEnd(line, d + 2, d + 3).value;
    assert g.user == line[d + 2..e];
    forall j | 0 <= j < |g.user| ensures g.user[j] != '\n' {
      assert g.user[j] == line[d + 2 + j];
    }
    NoNewline(g.user);
    StripNoNewline(g.user);
    StripDigits(g.uid);
    NoNewline(g.said);
    StripNoNewline(g.said);
    assert '\n' !in PictureTag;
  }

  /** Every message read from the lines is clean. */
  lemma {:induction false} MessagesClean(lines: seq<string>)
    ensures forall i :: 0 <= i < |MessagesOf(lines)| ==> CleanMessage(MessagesOf(lines)[i])
  {
    if lines != [] {
      var init, last := lines[..|lines| - 1], lines[|lines| - 1];
      MessagesClean(init);
      if ParseLine(last).Some? {
        MessageShape(last);
      }
      LineMessage(last);
    }
  }

  /** What every parsed window satisfies: it has messages, and they are clean. */
  predicate CleanWindow(w: Window) {
    w.messages != [] && forall i :: 0 <= i < |w.messages| ==> CleanMessage(w.messages[i])
  }

  /** Every window read from the blocks is clean. */
  lemma {:induction false} WindowsClean(blocks: seq<string>)
    ensures forall k :: 0 <= k < |WindowsOf(blocks)| ==> CleanWindow(WindowsOf(blocks)[k])
  {
    if blocks != [] {
      var init, last := blocks[..|blocks| - 1], blocks[|blocks| - 1];
      WindowsClean(init);
      MessagesClean(MessageLines(Split(last, '\n')));
    }
  }

  /** Every window of a parsed chat has messages, every message a content and a numeric user
      id, and no user name or content holds a newline. */
  lemma ParsedClean(text: string)
    ensures forall k :: 0 <= k < |ParsedChat(text)| ==> CleanWindow(ParsedChat(text)[k])
  {
    WindowsClean(FindWindows(text, 0));
  }

  // ---------------------------------------------------------------------------------------
  // Parsing, statement by statement

  /** The loop over a block's message lines. */
  method CollectMessages(lines: seq<string>) returns (messages: seq<ChatMessage>)
    ensures messages == MessagesOf(lines)
  {
    messages := [];
    for j := 0 to |lines|
      invariant messages == MessagesOf(lines[..j])
    {
      assert lines[..j + 1][..j] == lines[..j];
      var line := lines[j];
      if StartsWith(line, GapTag) {
        continue;
      }
      var found := MatchLine(line);
      if found.Some? {
        var g := found.value;
        var position := ParseNat(g.position);
        var username := Strip(g.user);
        var userId := Strip(g.uid);
        var content := Strip(g.said);
        if content == [] && Contains(line, PictureTag) {
          content := PictureTag;
        }
        if content != [] {
          messages := messages + [ChatMessage(position, username, userId, content)];
        }
        assert MessageOfLine(line) == if content != [] then Some(ChatMessage(position, username, userId, content)) else None;
      }
    }
    assert lines[..|lines|] == lines;
  }

  /** The body of the loop over window blocks: the header fields, the message lines, and the
      window when it has messages. */
  method ParseBlock(block: string) returns (w: Option<Window>)
    ensures w == ParseWindow(block)
  {
    var windowId := IdOf(block);
    var startTime := TimeOf(block);
    var lineRange := RangeOf(block);
    var splitReason := ReasonOf(block);
    var lines := Split(block, '\n');
    var messageLines := MessageLines(lines);
    var messages := CollectMessages(messageLines);
    if messages != [] {
      w := Some(Window(windowId, startTime, lineRange, splitReason, messages));
    } else {
      w := None;
    }
  }

  /** One more block adds its window, if it has one. */
  lemma WindowsStep(blocks: seq<string>, k: nat)
    requires k < |blocks|
    ensures
      var w := ParseWindow(blocks[k]);
      WindowsOf(blocks[..k + 1]) == WindowsOf(blocks[..k]) + (if w.Some? then [w.value] else [])
  {
    assert blocks[..k + 1][..k] == blocks[..k];
  }

  /** `ChatParser.parse_chat_windows(chat_text)`. */
  method ParseChatWindows(chatText: string) returns (parsed: seq<Window>)
    ensures parsed == ParsedChat(chatText)
  {
    var windows := FindWindows(chatText, 0);
    parsed := [];
    for k := 0 to |windows|
      invariant parsed == WindowsOf(windows[..k])
    {
      var w := ParseBlock(windows[k]);
      WindowsStep(windows, k);
      if w.Some? {
        parsed := parsed + [w.value];
      }
    }
    assert windows[..|windows|] == windows;
  }

  // ---------------------------------------------------------------------------------------
  // One user's messages with their context

  /** A context line, `"{username}: {content}"`. */
  function Render(m: ChatMessage): string {
    m.username + ": " + m.content
  }

  /** The context lines of some messages, in order. */
  function Rendered(msgs: seq<ChatMessage>): (r: seq<string>)
    ensures |r| == |msgs|
    ensures forall i :: 0 <= i < |msgs| ==> r[i] == Render(msgs[i])
  {
    if msgs == [] then [] else Rendered(msgs[..|msgs| - 1]) + [Render(msgs[|msgs| - 1])]
  }

  /** The context of a message: the lines of the messages before it, joined by newlines. */
  function Context(msgs: seq<ChatMessage>): string {
    JoinWith(Rendered(msgs), "\n")
  }

  /** The entry for the `i`-th message of a window: the window's id, the message's position
      and content, and everything said before it in the window as context. Only the first
      message of a window has an empty context. */
  function EntryFor(w: Window, i: nat): (e: Entry)
    requires i < |w.messages|
    ensures e.windowId == w.windowId
    ensures e.position == w.messages[i].position && e.content == w.messages[i].content
    ensures e.context == [] <==> i == 0
  {
    Entry(w.windowId, w.messages[i].position, w.messages[i].content, Context(w.messages[..i]))
  }

  /** The entries for the messages of `username` among the first `n` of a window. */
  function EntriesIn(w: Window, username: string, n: nat): seq<Entry>
    requires n <= |w.messages|
  {
    if n == 0 then []
    else EntriesIn(w, username, n - 1) + (if w.messages[n - 1].username == username then [EntryFor(w, n - 1)] else [])
  }

  /** The entries for the messages of `username` in all the windows, window by window. */
  function UserEntries(windows: seq<Window>, username: string): seq<Entry> {
    if windows == [] then []
    else
      var w := windows[|windows| - 1];
      UserEntries(windows[..|windows| - 1], username) + EntriesIn(w, username, |w.messages|)
  }

  /** One more window adds its entries after those of the windows before it. */
  lemma UserEntriesStep(windows: seq<Window>, k: nat, username: string)
    requires k < |windows|
    ensures UserEntries(windows[..k + 1], username)
      == UserEntries(windows[..k], username) + EntriesIn(windows[k], username, |windows[k].messages|)
  {
    assert windows[..k + 1][..k] == windows[..k];
  }

  /** `ChatParser.extract_user_messages(windows, username)`. */
  method ExtractUserMessages(windows: seq<Window>, username: string) returns (entries: seq<Entry>)
    ensures entries == UserEntries(windows, username)
  {
    entries := [];
    for k := 0 to |windows|
      invariant entries == UserEntries(windows[..k], username)
    {
      UserEntriesStep(windows, k, username);
      var messagesInWindow := windows[k].messages;
      for i := 0 to |messagesInWindow|
        invariant entries == UserEntries(windows[..k], username) + EntriesIn(windows[k], username, i)
      {
        var msg := messagesInWindow[i];
        if msg.username == username {
          var contextStr := Context(messagesInWindow[..i]);
          assert Entry(windows[k].windowId, msg.position, msg.content, contextStr) == EntryFor(windows[k], i);
          entries := entries + [Entry(windows[k].windowId, msg.position, msg.content, contextStr)];
        }
      }
    }
    assert windows[..|windows|] == windows;
  }

  /** `e` is the entry of the `i`-th message of `w`, which `username` wrote. */
  predicate EntryOf(w: Window, username: string, i: int, e: Entry) {
    0 <= i < |w.messages| && w.messages[i].username == username && e == EntryFor(w, i)
  }

  /** `e` is the entry of one of the first `n` messages of `w`, which `username` wrote. */
  predicate EntryAmong(w: Window, username: string, n: int, e: Entry) {
    exists i :: 0 <= i < n && EntryOf(w, username, i, e)
  }

  /** Every entry among the first `n` messages of a window belongs to one of them that
      `username` wrote. */
  lemma {:induction false} EntriesInSound(w: Window, username: string, n: nat)
    requires n <= |w.messages|
    ensures forall j :: 0 <= j < |EntriesIn(w, username, n)| ==> EntryAmong(w, username, n, EntriesIn(w, username, n)[j])
  {
    if n > 0 {
      EntriesInSound(w, username, n - 1);
      var prev := EntriesIn(w, username, n - 1);
      var all := EntriesIn(w, username, n);
      forall j | 0 <= j < |all| ensures EntryAmong(w, username, n, all[j]) {
        if j < |prev| {
          assert all[j] == prev[j];
          assert EntryAmong(w, username, n - 1, prev[j]);
          var i :| 0 <= i < n - 1 && EntryOf(w, username, i, prev[j]);
          assert EntryOf(w, username, i, all[j]);
        } else {
          assert EntryOf(w, username, n - 1, all[j]);
        }
      }
    }
  }

  /** Every message of `username` among the first `n` of a window has its entry. */
  lemma {:induction false} EntriesInComplete(w: Window, username: string, n: nat)
    requires n <= |w.messages|
    ensures forall i, e: Entry :: 0 <= i < n && EntryOf(w, username, i, e) ==> e in EntriesIn(w, username, n)
  {
    if n > 0 {
      EntriesInComplete(w, username, n - 1);
    }
  }

  /** `e` is the entry of a message in one of `windows`, which `username` wrote. */
  predicate EntryIn(windows: seq<Window>, username: string, e: Entry) {
    exists k, i :: 0 <= k < |windows| && 0 <= i < |windows[k].messages| && EntryOf(windows[k], username, i, e)
  }

  /** Every extracted entry belongs to a message that `username` wrote. */
  lemma {:induction false} UserEntriesSound(windows: seq<Window>, username: string)
    ensures forall j :: 0 <= j < |UserEntries(windows, username)| ==> EntryIn(windows, username, UserEntries(windows, username)[j])
  {
    if windows != [] {
      var init, last := windows[..|windows| - 1], windows[|windows| - 1];
      UserEntriesSound(init, username);
      EntriesInSound(last, username, |last.messages|);
      var prev := UserEntries(init, username);
      var here := EntriesIn(last, username, |last.messages|);
      var all := UserEntries(windows, username);
      assert all == prev + here;
      forall j | 0 <= j < |all| ensures EntryIn(windows, username, all[j]) {
        if j < |prev| {
          assert all[j] == prev[j];
          assert EntryIn(init, username, prev[j]);
          var k, i :| 0 <= k < |init| && 0 <= i < |init[k].messages| && EntryOf(init[k], username, i, prev[j]);
          assert windows[k] == init[k];
          assert EntryOf(windows[k], username, i, all[j]);
        } else {
          assert all[j] == here[j - |prev|];
          assert EntryAmong(last, username, |last.messages|, here[j - |prev|]);
          var i :| 0 <= i < |last.messages| && EntryOf(last, username, i, here[j - |prev|]);
          assert EntryOf(windows[|windows| - 1], username, i, all[j]);
        }
      }
    }
  }

  /** Every message that `username` wrote has its entry. */
  lemma {:induction false} UserEntriesComplete(windows: seq<Window>, username: string)
    ensures forall k, i, e: Entry :: 0 <= k < |windows| && EntryOf(windows[k], username, i, e) ==> e in UserEntries(windows, username)
  {
    if windows != [] {
      var init, last := windows[..|windows| - 1], windows[|windows| - 1];
      UserEntriesComplete(init, username);
      EntriesInComplete(last, username, |last.messages|);
      var prev := UserEntries(init, username);
      var here := EntriesIn(last, username, |last.messages|);
      assert UserEntries(windows, username) == prev + here;
      forall k, i, e: Entry | 0 <= k < |windows| && EntryOf(windows[k], username, i, e)
        ensures e in prev + here
      {
        if k < |init| {
          assert windows[k] == init[k];
          assert e in prev;
        } else {
          assert windows[k] == last;
          assert e in here;
        }
      }
    }
  }

  /** The extracted entries are exactly those of the messages `username` wrote. */
  lemma UserEntriesExact(windows: seq<Window>, username: string)
    ensures forall e :: e in UserEntries(windows, username) <==> EntryIn(windows, username, e)
  {
    UserEntriesSound(windows, username);
    UserEntriesComplete(windows, username);
  }

  // ---------------------------------------------------------------------------------------
  // Where the entries come from: one per message of the user, in window and message order

  /** The place `(k, i)` of the `i`-th message of the `k`-th window. */
  type Place = (nat, nat)

  /** The message at `p` exists and `username` wrote it. */
  predicate WroteAt(windows: seq<Window>, username: string, p: Place) {
    p.0 < |windows| && p.1 < |windows[p.0].messages| && windows[p.0].messages[p.1].username == username
  }

  /** `p` comes before `q`: in an earlier window, or earlier in the same window. */
  predicate Before(p: Place, q: Place) {
    p.0 < q.0 || (p.0 == q.0 && p.1 < q.1)
  }

  /** The places of the messages of `username` among the first `n` of `w`, the `k`-th window. */
  function PlacesIn(w: Window, k: nat, username: string, n: nat): seq<Place>
    requires n <= |w.messages|
  {
    if n == 0 then []
    else PlacesIn(w, k, username, n - 1) + (if w.messages[n - 1].username == username then [(k, n - 1)] else [])
  }

  /** The places of the messages of `username` in all the windows, window by window. */
  function Places(windows: seq<Window>, username: string): seq<Place> {
    if windows == [] then []
    else
      var w := windows[|windows| - 1];
      Places(windows[..|windows| - 1], username) + PlacesIn(w, |windows| - 1, username, |w.messages|)
  }

  /** How many of `msgs` `username` wrote. */
  function WrittenBy(msgs: seq<ChatMessage>, username: string): nat {
    if msgs == [] then 0
    else WrittenBy(msgs[..|msgs| - 1], username) + (if msgs[|msgs| - 1].username == username then 1 else 0)
  }

  /** How many messages of all the windows `username` wrote. */
  function TotalWrittenBy(windows: seq<Window>, username: string): nat {
    if windows == [] then 0
    else TotalWrittenBy(windows[..|windows| - 1], username) + WrittenBy(windows[|windows| - 1].messages, username)
  }

  /** `entries[j]` is the entry of the message at `places[j]`, which `username` wrote. */
  predicate Placed(windows: seq<Window>, username: string, places: seq<Place>, entries: seq<Entry>) {
    && |entries| == |places|
    && forall j :: 0 <= j < |places| ==>
         WroteAt(windows, username, places[j]) && entries[j] == EntryFor(windows[places[j].0], places[j].1)
  }

  /** Each place comes before every later one. */
  predicate Ascending(places: seq<Place>) {
    forall j1, j2 :: 0 <= j1 < j2 < |places| ==> Before(places[j1], places[j2])
  }

  /** Within a window the entries sit at the places of the user's messages, one per message. */
  lemma {:induction false} PlacesInPlaced(w: Window, k: nat, username: string, n: nat)
    requires n <= |w.messages|
    ensures |EntriesIn(w, username, n)| == |PlacesIn(w, k, username, n)| == WrittenBy(w.messages[..n], username)
    ensures forall j :: 0 <= j < |PlacesIn(w, k, username, n)| ==>
      && PlacesIn(w, k, username, n)[j].0 == k && PlacesIn(w, k, username, n)[j].1 < n
      && w.messages[PlacesIn(w, k, username, n)[j].1].username == username
      && EntriesIn(w, username, n)[j] == EntryFor(w, PlacesIn(w, k, username, n)[j].1)
  {
    if n > 0 {
      PlacesInPlaced(w, k, username, n - 1);
      assert w.messages[..n][..n - 1] == w.messages[..n - 1];
    }
  }

  /** Within a window the places rise with the message index. */
  lemma {:induction false} PlacesInAscending(w: Window, k: nat, username: string, n: nat)
    requires n <= |w.messages|
    ensures Ascending(PlacesIn(w, k, username, n))
  {
    if n > 0 {
      PlacesInAscending(w, k, username, n - 1);
      PlacesInPlaced(w, k, username, n - 1);
    }
  }

  /** Within a window every message of the user has its place. */
  lemma {:induction false} PlacesInComplete(w: Window, k: nat, username: string, n: nat)
    requires n <= |w.messages|
    ensures forall i :: 0 <= i < n && w.messages[i].username == username ==> (k, i) in PlacesIn(w, k, username, n)
  {
    if n > 0 {
      PlacesInComplete(w, k, username, n - 1);
    }
  }

  /** The places of the last window follow those of the windows before it. */
  lemma PlacesSplit(windows: seq<Window>, username: string)
    requires windows != []
    ensures var last := windows[|windows| - 1];
      && Places(windows, username)
         == Places(windows[..|windows| - 1], username) + PlacesIn(last, |windows| - 1, username, |last.messages|)
      && UserEntries(windows, username)
         == UserEntries(windows[..|windows| - 1], username) + EntriesIn(last, username, |last.messages|)
  {
  }

  /** One more window keeps the entries placed. */
  lemma PlacedStep(windows: seq<Window>, username: string)
    requires windows != []
    requires var init := windows[..|windows| - 1];
      Placed(init, username, Places(init, username), UserEntries(init, username))
    ensures Placed(windows, username, Places(windows, username), UserEntries(windows, username))
  {
    var init, last, k := windows[..|windows| - 1], windows[|windows| - 1], |windows| - 1;
    PlacesInPlaced(last, k, username, |last.messages|);
    PlacesSplit(windows, username);
    var prev, here := Places(init, username), PlacesIn(last, k, username, |last.messages|);
    var entries := UserEntries(windows, username);
    forall j | 0 <= j < |prev + here|
      ensures WroteAt(windows, username, (prev + here)[j])
      ensures entries[j] == EntryFor(windows[(prev + here)[j].0], (prev + here)[j].1)
    {
      if j < |prev| {
        assert (prev + here)[j] == prev[j] && WroteAt(init, username, prev[j]);
        assert windows[prev[j].0] == init[prev[j].0];
      } else {
        assert (prev + here)[j] == here[j - |prev|];
      }
    }
  }

  /** One more window keeps the places rising: its own come after all earlier ones. */
  lemma AscendingStep(windows: seq<Window>, username: string)
    requires windows != []
    requires var init := windows[..|windows| - 1];
      && Ascending(Places(init, username))
      && forall j :: 0 <= j < |Places(init, username)| ==> Places(init, username)[j].0 < |init|
    ensures Ascending(Places(windows, username))
  {
    var init, last, k := windows[..|windows| - 1], windows[|windows| - 1], |windows| - 1;
    PlacesInPlaced(last, k, username, |last.messages|);
    PlacesInAscending(last, k, username, |last.messages|);
    PlacesSplit(windows, username);
    var prev, here := Places(init, username), PlacesIn(last, k, username, |last.messages|);
    forall j1, j2 | 0 <= j1 < j2 < |prev + here| ensures Before((prev + here)[j1], (prev + here)[j2]) {
      if j2 < |prev| {
        assert (prev + here)[j1] == prev[j1] && (prev + here)[j2] == prev[j2];
      } else if j1 < |prev| {
        assert (prev + here)[j1] == prev[j1] && (prev + here)[j2] == here[j2 - |prev|];
      } else {
        assert (prev + here)[j1] == here[j1 - |prev|] && (prev + here)[j2] == here[j2 - |prev|];
      }
    }
  }

  /** Placed places lie inside the windows. */
  lemma PlacedInside(windows: seq<Window>, username: string)
    requires Placed(windows, username, Places(windows, username), UserEntries(windows, username))
    ensures forall j :: 0 <= j < |Places(windows, username)| ==> Places(windows, username)[j].0 < |windows|
  {
  }

  /** One more window adds as many entries as it has messages of the user. */
  lemma CountStep(windows: seq<Window>, username: string)
    requires windows != []
    requires var init := windows[..|windows| - 1];
      |UserEntries(init, username)| == TotalWrittenBy(init, username)
    ensures |UserEntries(windows, username)| == TotalWrittenBy(windows, username)
  {
    var last := windows[|windows| - 1];
    PlacesInPlaced(last, |windows| - 1, username, |last.messages|);
    PlacesSplit(windows, username);
    assert last.messages[..|last.messages|] == last.messages;
  }

  /** Entry `j` is the entry of the message at `Places(windows, username)[j]`, the places
      strictly rise in window order and then in message order, and there are as many entries
      as messages `username` wrote: no entry is repeated, none is reordered. */
  lemma {:induction false} UserEntriesPlaced(windows: seq<Window>, username: string)
    ensures Placed(windows, username, Places(windows, username), UserEntries(windows, username))
    ensures Ascending(Places(windows, username))
    ensures |UserEntries(windows, username)| == TotalWrittenBy(windows, username)
  {
    if windows != [] {
      var init := windows[..|windows| - 1];
      UserEntriesPlaced(init, username);
      PlacedInside(init, username);
      PlacedStep(windows, username);
      AscendingStep(windows, username);
      CountStep(windows, username);
    }
  }

  /** Every message `username` wrote has its place among the places of the entries. */
  lemma {:induction false} PlacesComplete(windows: seq<Window>, username: string)
    ensures forall p: Place :: WroteAt(windows, username, p) ==> p in Places(windows, username)
  {
    if windows != [] {
      var init, last, k := windows[..|windows| - 1], windows[|windows| - 1], |windows| - 1;
      PlacesComplete(init, username);
      PlacesInComplete(last, k, username, |last.messages|);
      PlacesSplit(windows, username);
      forall p: Place | WroteAt(windows, username, p) ensures p in Places(windows, username) {
        if p.0 < k {
          assert windows[p.0] == init[p.0] && WroteAt(init, username, p);
        } else {
          assert (k, p.1) == p;
        }
      }
    }
  }

  /** When no user name or content before the `i`-th message holds a newline, its context
      splits back into exactly one `"{username}: {content}"` line per earlier message. */
  lemma ContextLines(w: Window, i: nat)
    requires 0 < i < |w.messages|
    requires forall j :: 0 <= j < i ==> '\n' !in w.messages[j].username && '\n' !in w.messages[j].content
    ensures Split(EntryFor(w, i).context, '\n') == Rendered(w.messages[..i])
  {
    var parts := Rendered(w.messages[..i]);
    forall j | 0 <= j < |parts| ensures '\n' !in parts[j] {
      var m := w.messages[j];
      assert parts[j] == m.username + ": " + m.content;
      assert '\n' !in ": ";
    }
    SplitJoin(parts, '\n');
    assert "\n" == ['\n'];
  }

  /** In a parsed chat, every context splits back into the lines of the earlier messages. */
  lemma ParsedContexts(text: string, k: nat, i: nat)
    requires k < |ParsedChat(text)| && 0 < i < |ParsedChat(text)[k].messages|
    ensures Split(EntryFor(ParsedChat(text)[k], i).context, '\n') == Rendered(ParsedChat(text)[k].messages[..i])
  {
    ParsedClean(text);
    ContextLines(ParsedChat(text)[k], i);
  }
}
