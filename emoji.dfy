/** The emoji normaliser (train/emoji.py): a table of emoji ids and meanings, and a pass over
    the lines of a chat export that collapses each two-line `[表情]` marker into one canonical
    `[meaning-id]` token. */
module Emoji {
  import opened Wrappers
  import opened Text

  /** The line that announces an emoji. */
  const Marker: string := "[表情]"
  /** The meaning written for an id the table does not know. */
  const UnknownMeaning: string := "未知表情"

  // ---------------------------------------------------------------------------------------
  // parse_emoji_table

  /** One row of the table, `type id meaning...`: the id and the meaning (fields three onward,
      joined by single spaces) when the row has at least three fields and a digit-only second
      field; header and malformed rows give None. */
  function ParseRow(line: string): Option<(string, string)>
  {
    var parts := Words(line);
    if |parts| >= 3 && IsDigits(parts[1]) then Some((parts[1], JoinWith(parts[2..], " "))) else None
  }

  predicate RowDefines(line: string, id: string) {
    ParseRow(line).Some? && ParseRow(line).value.0 == id
  }

  /** The table built from `rows` in order, a later row overwriting an earlier one. */
  function TableOf(rows: seq<string>): map<string, string>
  {
    if rows == [] then map[]
    else
      var m := TableOf(rows[..|rows| - 1]);
      var row := ParseRow(rows[|rows| - 1]);
      if row.Some? then m[row.value.0 := row.value.1] else m
  }

  /** `TableOf` on a prefix one row longer. */
  lemma TableOfPrefix(rows: seq<string>, k: nat)
    requires k < |rows|
    ensures TableOf(rows[..k + 1]) ==
      if ParseRow(rows[k]).Some? then TableOf(rows[..k])[ParseRow(rows[k]).value.0 := ParseRow(rows[k]).value.1]
      else TableOf(rows[..k])
  {
    assert rows[..k + 1][..k] == rows[..k];
  }

  /** A header row or a malformed row (fewer than three fields, or a second field that is
      not all digits) leaves the table as it was. */
  lemma MalformedRowIgnored(rows: seq<string>, row: string)
    requires |Words(row)| < 3 || !IsDigits(Words(row)[1])
    ensures TableOf(rows + [row]) == TableOf(rows)
  {
    assert (rows + [row])[..|rows|] == rows;
  }

  /** The rows of the table text: stripped, then cut at every newline. */
  function TableRows(table: string): seq<string> {
    Split(Strip(table), '\n')
  }

  method ParseEmojiTable(table: string) returns (emojiMap: map<string, string>)
    ensures emojiMap == TableOf(TableRows(table))
  {
    emojiMap := map[];
    var lines := Split(Strip(table), '\n');
    for k := 0 to |lines|
      invariant emojiMap == TableOf(lines[..k])
    {
      TableOfPrefix(lines, k);
      var parts := Words(lines[k]);
      if |parts| >= 3 && IsDigits(parts[1]) {
        var emojiId := parts[1];
        var meaning := JoinWith(parts[2..], " ");
        emojiMap := emojiMap[emojiId := meaning];
      }
    }
    assert lines[..|lines|] == lines;
  }

  /** An id is in the table exactly when some row defines it; rows that do not parse
      contribute nothing. */
  lemma {:induction false} TableKeys(rows: seq<string>, id: string)
    ensures id in TableOf(rows) <==> exists j :: 0 <= j < |rows| && RowDefines(rows[j], id)
  {
    if rows != [] {
      var init := rows[..|rows| - 1];
      TableKeys(init, id);
      if exists j :: 0 <= j < |init| && RowDefines(init[j], id) {
        var j :| 0 <= j < |init| && RowDefines(init[j], id);
        assert rows[j] == init[j];
      }
      if exists j :: 0 <= j < |rows| && RowDefines(rows[j], id) {
        var j :| 0 <= j < |rows| && RowDefines(rows[j], id);
        if j < |init| {
          assert init[j] == rows[j];
        }
      }
    }
  }

  /** The meaning of an id is the one on the last row that defines it. */
  lemma {:induction false} TableLastRowWins(rows: seq<string>, j: nat)
    requires j < |rows| && ParseRow(rows[j]).Some?
    requires forall k :: j < k < |rows| ==> !RowDefines(rows[k], ParseRow(rows[j]).value.0)
    ensures ParseRow(rows[j]).value.0 in TableOf(rows)
    ensures TableOf(rows)[ParseRow(rows[j]).value.0] == ParseRow(rows[j]).value.1
  {
    var init := rows[..|rows| - 1];
    if j < |rows| - 1 {
      assert init[j] == rows[j];
      forall k | j < k < |init|
        ensures !RowDefines(init[k], ParseRow(init[j]).value.0)
      {
        assert init[k] == rows[k];
      }
      TableLastRowWins(init, j);
      assert !RowDefines(rows[|rows| - 1], ParseRow(rows[j]).value.0);
    }
  }

  // ---------------------------------------------------------------------------------------
  // process_chat_log

  /** The canonical emoji token. */
  function Token(meaning: string, id: string): string {
    "[" + meaning + "-" + id + "]"
  }

  /** A dash at `p` that the pattern `(.+)-(\d+)` can split on: text before it, a digit after it. */
  predicate DashDigitAt(s: string, p: nat) {
    1 <= p && p + 1 < |s| && s[p] == '-' && IsDigit(s[p + 1])
  }

  /** The largest split point not beyond `hi` (what the greedy `.+` backtracks to). */
  function LastDashDigit(s: string, hi: nat): (r: Option<nat>)
    ensures r.Some? ==> r.value <= hi && DashDigitAt(s, r.value)
    ensures r.Some? ==> forall p :: r.value < p <= hi ==> !DashDigitAt(s, p)
    ensures r.None? ==> forall p :: 0 <= p <= hi ==> !DashDigitAt(s, p)
    decreases hi
  {
    if hi == 0 then None
    else if DashDigitAt(s, hi) then Some(hi)
    else LastDashDigit(s, hi - 1)
  }

  /** The regular expression `(.+)-(\d+)` matched at the start of `s`: the meaning is
      everything before the last dash that is followed by a digit and preceded only by
      non-newline characters, the id is the full run of digits after that dash. */
  function MeaningId(s: string): (r: Option<(string, string)>)
    ensures r.None? <==> forall p :: 0 <= p <= IndexOf(s, '\n') ==> !DashDigitAt(s, p)
    ensures r.Some? ==> r.value.0 != [] && IsDigits(r.value.1) && StartsWith(s, r.value.0 + "-" + r.value.1)
    ensures r.Some? ==> LastDashDigit(s, IndexOf(s, '\n')) == Some(|r.value.0|)
    ensures r.Some? ==> var e := |r.value.0| + 1 + |r.value.1|; e == |s| || !IsDigit(s[e])
  {
    match LastDashDigit(s, IndexOf(s, '\n'))
    case None => None
    case Some(p) =>
      var d := Run(s, p + 1, DigitClass);
      RunSpans(s, p + 1, DigitClass);
      assert StartsWith(s, s[..p] + "-" + s[p + 1..p + 1 + d]) by {
        assert s[..p + 1 + d] == s[..p] + "-" + s[p + 1..p + 1 + d];
      }
      Some((s[..p], s[p + 1..p + 1 + d]))
  }

  /** What one turn of the loop does at cursor `i`: the lines it appends and how far it moves. */
  datatype Step = Step(emit: seq<string>, advance: nat)

  /** A line that strips to the marker. */
  predicate IsMarkerLine(line: string) {
    Strip(line) == Marker
  }

  /** A canonical emoji token with a numeric id. */
  ghost predicate IsToken(line: string) {
    exists meaning, id :: IsDigits(id) && line == Token(meaning, id)
  }

  /** A turn at cursor `i` moves one or two lines, stays inside the input, and appends at
      least one and at most as many lines as it moves. */
  ghost predicate StepSized(lines: seq<string>, i: nat, r: Step)
    requires i < |lines|
  {
    1 <= |r.emit| <= r.advance <= 2 && i + r.advance <= |lines|
  }

  /** A turn that moves one line passes it through; a turn that moves two starts at a marker
      line and appends either both lines unchanged or a single token. */
  ghost predicate StepFaithful(lines: seq<string>, i: nat, r: Step)
    requires i < |lines| && StepSized(lines, i, r)
  {
    && (r.advance == 1 ==> r.emit == [lines[i]])
    && (r.advance == 2 ==> IsMarkerLine(lines[i]))
    && (r.advance == 2 && |r.emit| == 2 ==> r.emit == [lines[i], lines[i + 1]])
    && (r.advance == 2 && |r.emit| == 1 ==> IsToken(r.emit[0]))
  }

  /** One turn of the loop, branch for branch. */
  function StepAt(lines: seq<string>, emojiMap: map<string, string>, i: nat): (r: Step)
    requires i < |lines|
    ensures StepSized(lines, i, r) && StepFaithful(lines, i, r)
  {
    var current := lines[i];
    if Strip(current) == Marker && i + 1 < |lines| then
      var next := lines[i + 1];
      var follow := Strip(next);
      if StartsWith(follow, "-") && IsDigits(follow[1..]) then
        var id := follow[1..];
        Step([Token(if id in emojiMap then emojiMap[id] else UnknownMeaning, id)], 2)
      else if StartsWith(follow, "/") then
        match MeaningId(follow[1..])
        case Some((meaning, id)) => Step([Token(meaning, id)], 2)
        case None => Step([current, next], 2)
      else
        match MeaningId(follow)
        case Some((meaning, id)) => Step([Token(meaning, id)], 2)
        case None => Step([current], 1)
    else
      Step([current], 1)
  }

  /** A step function all of whose turns are sized. */
  ghost predicate Sized(step: (seq<string>, nat) --> Step) {
    forall lines: seq<string>, i: nat :: i < |lines| ==> step.requires(lines, i) && StepSized(lines, i, step(lines, i))
  }

  /** A step function all of whose turns are faithful. */
  ghost predicate Faithful(step: (seq<string>, nat) --> Step)
    requires Sized(step)
  {
    forall lines: seq<string>, i: nat :: i < |lines| ==> StepFaithful(lines, i, step(lines, i))
  }

  /** The normaliser's turn, for a fixed table. */
  function StepFn(emojiMap: map<string, string>): (f: (seq<string>, nat) --> Step)
    ensures Sized(f) && Faithful(f)
  {
    (lines: seq<string>, i: nat) requires i < |lines| => StepAt(lines, emojiMap, i)
  }

  /** The loop run from cursor `i` to the end, each turn taken by `step`. */
  function Pass(lines: seq<string>, step: (seq<string>, nat) --> Step, i: nat): seq<string>
    requires i <= |lines| && Sized(step)
    decreases |lines| - i
  {
    if i == |lines| then []
    else
      var s := step(lines, i);
      s.emit + Pass(lines, step, i + s.advance)
  }

  /** One turn of the loop, unfolded. */
  lemma PassUnfold(lines: seq<string>, step: (seq<string>, nat) --> Step, i: nat)
    requires i < |lines| && Sized(step)
    ensures Pass(lines, step, i) == step(lines, i).emit + Pass(lines, step, i + step(lines, i).advance)
  {
  }

  /** The normaliser's output lines for the input lines. */
  function Normalize(lines: seq<string>, emojiMap: map<string, string>): seq<string> {
    Pass(lines, StepFn(emojiMap), 0)
  }

  /** The source's `while` loop over the lines, for any well-shaped turn: each turn appends
      what `step` decides at the cursor and moves the cursor on by as many lines as that turn
      consumed. */
  method PassLoop(lines: seq<string>, step: (seq<string>, nat) --> Step) returns (processed: seq<string>)
    requires Sized(step)
    ensures processed == Pass(lines, step, 0)
  {
    processed := [];
    var i := 0;
    while i < |lines|
      invariant i <= |lines|
      invariant processed + Pass(lines, step, i) == Pass(lines, step, 0)
      decreases |lines| - i
    {
      var s := step(lines, i);
      PassAfter(lines, step, i, processed, s, Pass(lines, step, 0));
      processed := processed + s.emit;
      i := i + s.advance;
    }
    assert processed + Pass(lines, step, i) == processed;
  }

  /** `process_chat_log`: the lines of the chat log, normalised turn by turn, joined back with
      newlines. */
  method ProcessChatLog(chatLog: string, emojiMap: map<string, string>) returns (r: string)
    ensures r == JoinWith(Normalize(SplitLines(chatLog), emojiMap), "\n")
  {
    var lines := SplitLines(chatLog);
    var processed := PassLoop(lines, StepFn(emojiMap));
    r := JoinWith(processed, "\n");
  }

  /** One turn of the loop after the lines `done` are already produced. */
  lemma PassAfter(lines: seq<string>, step: (seq<string>, nat) --> Step, i: nat, done: seq<string>, s: Step,
                  target: seq<string>)
    requires i < |lines| && Sized(step) && s == step(lines, i)
    requires done + Pass(lines, step, i) == target
    ensures done + s.emit + Pass(lines, step, i + s.advance) == target
  {
    PassUnfold(lines, step, i);
  }

  // ---------------------------------------------------------------------------------------
  // Properties of the normaliser. The structural ones hold for every well-shaped turn.

  /** A faithful turn at a line that is not a marker line passes that line through. */
  lemma StepPassThrough(lines: seq<string>, step: (seq<string>, nat) --> Step, i: nat)
    requires i < |lines| && Sized(step) && Faithful(step)
    requires !IsMarkerLine(lines[i])
    ensures step(lines, i) == Step([lines[i]], 1)
  {
    assert StepSized(lines, i, step(lines, i));
    assert StepFaithful(lines, i, step(lines, i));
  }

  /** Without a marker line, every line is passed through verbatim. */
  lemma {:induction false} PassNoMarker(lines: seq<string>, step: (seq<string>, nat) --> Step, i: nat)
    requires i <= |lines| && Sized(step) && Faithful(step)
    requires forall k :: i <= k < |lines| ==> !IsMarkerLine(lines[k])
    ensures Pass(lines, step, i) == lines[i..]
    decreases |lines| - i
  {
    if i < |lines| {
      StepPassThrough(lines, step, i);
      PassUnfold(lines, step, i);
      PassNoMarker(lines, step, i + 1);
      assert lines[i..] == [lines[i]] + lines[i + 1..];
    }
  }

  /** A chat log in which no line strips to the marker comes out as its own lines, joined
      by newlines. */
  lemma NoMarkerUnchanged(chatLog: string, emojiMap: map<string, string>)
    requires forall k :: 0 <= k < |SplitLines(chatLog)| ==> !IsMarkerLine(SplitLines(chatLog)[k])
    ensures Normalize(SplitLines(chatLog), emojiMap) == SplitLines(chatLog)
    ensures JoinWith(Normalize(SplitLines(chatLog), emojiMap), "\n") == JoinWith(SplitLines(chatLog), "\n")
  {
    var lines := SplitLines(chatLog);
    PassNoMarker(lines, StepFn(emojiMap), 0);
    assert lines[0..] == lines;
  }

  /** The output never has more lines than the input. */
  lemma {:induction false} PassNoLonger(lines: seq<string>, step: (seq<string>, nat) --> Step, i: nat)
    requires i <= |lines| && Sized(step)
    ensures |Pass(lines, step, i)| <= |lines| - i
    decreases |lines| - i
  {
    if i < |lines| {
      PassUnfold(lines, step, i);
      assert StepSized(lines, i, step(lines, i));
      PassNoLonger(lines, step, i + step(lines, i).advance);
    }
  }

  /** For each output line, the input line it comes from (for a token, its marker line). */
  ghost function Sources(lines: seq<string>, step: (seq<string>, nat) --> Step, i: nat): seq<nat>
    requires i <= |lines| && Sized(step)
    decreases |lines| - i
  {
    if i == |lines| then []
    else
      var s := step(lines, i);
      (if |s.emit| == 2 then [i, i + 1] else [i]) + Sources(lines, step, i + s.advance)
  }

  /** Output line `k` is input line `src[k]`, verbatim, or the token for the marker at
      `src[k]`, whose follow-up line `src[k] + 1` is then not emitted again. */
  ghost predicate Traced(lines: seq<string>, out: seq<string>, src: seq<nat>, k: nat) {
    && k < |out| && k < |src| && src[k] < |lines|
    && (|| out[k] == lines[src[k]]
        || (IsMarkerLine(lines[src[k]]) && src[k] + 1 < |lines| && IsToken(out[k])
            && (k + 1 < |src| ==> src[k + 1] >= src[k] + 2)))
  }

  lemma SourcesUnfold(lines: seq<string>, step: (seq<string>, nat) --> Step, i: nat)
    requires i < |lines| && Sized(step)
    ensures Sources(lines, step, i)
      == (if |step(lines, i).emit| == 2 then [i, i + 1] else [i]) + Sources(lines, step, i + step(lines, i).advance)
  {
  }

  /** Every output line has a source line among the lines the loop still has to read. */
  lemma {:induction false} PassSourcesBounded(lines: seq<string>, step: (seq<string>, nat) --> Step, i: nat)
    requires i <= |lines| && Sized(step)
    ensures |Sources(lines, step, i)| == |Pass(lines, step, i)|
    ensures forall k :: 0 <= k < |Sources(lines, step, i)| ==> i <= Sources(lines, step, i)[k] < |lines|
    decreases |lines| - i
  {
    if i < |lines| {
      var s := step(lines, i);
      assert StepSized(lines, i, s);
      var j := i + s.advance;
      PassSourcesBounded(lines, step, j);
      PassUnfold(lines, step, i);
      SourcesUnfold(lines, step, i);
      var here := if |s.emit| == 2 then [i, i + 1] else [i];
      var src := Sources(lines, step, i);
      var rest := Sources(lines, step, j);
      assert src == here + rest;
      forall k | 0 <= k < |src|
        ensures i <= src[k] < |lines|
      {
        if k >= |here| {
          assert src[k] == rest[k - |here|];
        }
      }
    }
  }

  /** The sources of the output lines strictly increase: no input line is emitted twice and
      the order of the input is kept. */
  lemma {:induction false} PassSourcesIncrease(lines: seq<string>, step: (seq<string>, nat) --> Step, i: nat)
    requires i <= |lines| && Sized(step)
    ensures forall k1, k2 :: 0 <= k1 < k2 < |Sources(lines, step, i)| ==>
      Sources(lines, step, i)[k1] < Sources(lines, step, i)[k2]
    decreases |lines| - i
  {
    if i < |lines| {
      var s := step(lines, i);
      assert StepSized(lines, i, s);
      var j := i + s.advance;
      PassSourcesIncrease(lines, step, j);
      PassSourcesBounded(lines, step, j);
      SourcesUnfold(lines, step, i);
      var here := if |s.emit| == 2 then [i, i + 1] else [i];
      var src := Sources(lines, step, i);
      var rest := Sources(lines, step, j);
      assert src == here + rest;
      forall k1, k2 | 0 <= k1 < k2 < |src|
        ensures src[k1] < src[k2]
      {
        if k2 >= |here| {
          assert src[k2] == rest[k2 - |here|];
          if k1 >= |here| {
            assert src[k1] == rest[k1 - |here|];
          }
        }
      }
    }
  }

  /** Every output line from `src` is traced to its source line. */
  ghost predicate AllTraced(lines: seq<string>, out: seq<string>, src: seq<nat>) {
    forall k :: 0 <= k < |src| ==> Traced(lines, out, src, k)
  }

  /** Every output line is its source line verbatim, or the token for the marker line it
      comes from, in which case the follow-up line after that marker is not emitted. */
  lemma {:induction false} PassTraced(lines: seq<string>, step: (seq<string>, nat) --> Step, i: nat)
    requires i <= |lines| && Sized(step) && Faithful(step)
    ensures AllTraced(lines, Pass(lines, step, i), Sources(lines, step, i))
    decreases |lines| - i
  {
    if i < |lines| {
      var s := step(lines, i);
      assert StepSized(lines, i, s);
      var j := i + s.advance;
      PassTraced(lines, step, j);
      PassTracedStep(lines, step, i, j);
    }
  }

  /** One turn of the pass keeps every output line traced. */
  lemma PassTracedStep(lines: seq<string>, step: (seq<string>, nat) --> Step, i: nat, j: nat)
    requires i < |lines| && Sized(step) && Faithful(step)
    requires j == i + step(lines, i).advance && i < j <= |lines|
    requires AllTraced(lines, Pass(lines, step, j), Sources(lines, step, j))
    ensures AllTraced(lines, Pass(lines, step, i), Sources(lines, step, i))
  {
    var s := step(lines, i);
    assert StepSized(lines, i, s);
    PassSourcesBounded(lines, step, j);
    if j < |lines| {
      SourcesUnfold(lines, step, j);
    }
    PassUnfold(lines, step, i);
    SourcesUnfold(lines, step, i);
    var out := Pass(lines, step, i);
    var src := Sources(lines, step, i);
    var restOut := Pass(lines, step, j);
    var restSrc := Sources(lines, step, j);
    var n := |s.emit|;
    assert out == s.emit + restOut && out[n..] == restOut;
    assert src == (if n == 2 then [i, i + 1] else [i]) + restSrc && src[n..] == restSrc;
    forall k | 0 <= k < |src|
      ensures Traced(lines, out, src, k)
    {
      if k >= n {
        TracedShift(lines, out, src, n, restOut, restSrc, k);
      } else {
        TracedHead(lines, step, i, out, src, restSrc, k);
      }
    }
  }

  /** The lines one faithful turn appends are traced to the cursor (and the line after it). */
  lemma TracedHead(lines: seq<string>, step: (seq<string>, nat) --> Step, i: nat,
                   out: seq<string>, src: seq<nat>, restSrc: seq<nat>, k: nat)
    requires i < |lines| && Sized(step) && Faithful(step)
    requires k < |step(lines, i).emit| <= |out| == |src|
    requires out[..|step(lines, i).emit|] == step(lines, i).emit
    requires src == (if |step(lines, i).emit| == 2 then [i, i + 1] else [i]) + restSrc
    requires |restSrc| > 0 ==> i + step(lines, i).advance <= restSrc[0]
    ensures Traced(lines, out, src, k)
  {
    var s := step(lines, i);
    assert StepSized(lines, i, s) && StepFaithful(lines, i, s);
    assert out[k] == s.emit[k];
    if k + 1 < |src| && |s.emit| == 1 {
      assert src[k + 1] == restSrc[0];
    }
  }

  /** Tracing survives putting `n` further output lines, with their sources, in front. */
  lemma TracedShift(lines: seq<string>, out: seq<string>, src: seq<nat>, n: nat,
                    restOut: seq<string>, restSrc: seq<nat>, k: nat)
    requires |out| == |src| && n <= k < |out| && out[n..] == restOut && src[n..] == restSrc
    requires Traced(lines, restOut, restSrc, k - n)
    ensures Traced(lines, out, src, k)
  {
    assert out[k] == restOut[k - n] && src[k] == restSrc[k - n];
    if k + 1 < |src| {
      assert src[k + 1] == restSrc[k + 1 - n];
    }
  }

  /** A follow-up line `-<digits>` becomes `[meaning-id]` with the table's meaning, or the
      unknown-emoji token when the table lacks the id; both lines are consumed. */
  lemma DashIdCollapses(lines: seq<string>, emojiMap: map<string, string>, i: nat, id: string)
    requires i + 1 < |lines| && Strip(lines[i]) == Marker
    requires Strip(lines[i + 1]) == "-" + id && IsDigits(id)
    ensures Pass(lines, StepFn(emojiMap), i)
      == [Token(if id in emojiMap then emojiMap[id] else UnknownMeaning, id)] + Pass(lines, StepFn(emojiMap), i + 2)
  {
    PassUnfold(lines, StepFn(emojiMap), i);
    assert Strip(lines[i + 1])[1..] == id;
  }

  /** A follow-up line starting with `/` always consumes both lines: the token when it has
      the `/meaning-id` shape, otherwise both lines unchanged. */
  lemma SlashConsumesTwo(lines: seq<string>, emojiMap: map<string, string>, i: nat)
    requires i + 1 < |lines| && Strip(lines[i]) == Marker
    requires StartsWith(Strip(lines[i + 1]), "/")
    ensures MeaningId(Strip(lines[i + 1])[1..]).Some? ==>
      Pass(lines, StepFn(emojiMap), i)
      == [Token(MeaningId(Strip(lines[i + 1])[1..]).value.0, MeaningId(Strip(lines[i + 1])[1..]).value.1)]
         + Pass(lines, StepFn(emojiMap), i + 2)
    ensures MeaningId(Strip(lines[i + 1])[1..]).None? ==>
      Pass(lines, StepFn(emojiMap), i) == [lines[i], lines[i + 1]] + Pass(lines, StepFn(emojiMap), i + 2)
  {
    PassUnfold(lines, StepFn(emojiMap), i);
    assert Strip(lines[i + 1])[0] == '/';
  }

  /** A follow-up line of the bare `meaning-id` shape (neither `-<digits>` nor starting with
      `/`) collapses with its marker into one token. */
  lemma BareIdCollapses(lines: seq<string>, emojiMap: map<string, string>, i: nat)
    requires i + 1 < |lines| && Strip(lines[i]) == Marker
    requires var follow := Strip(lines[i + 1]);
      !(StartsWith(follow, "-") && IsDigits(follow[1..])) && !StartsWith(follow, "/") && MeaningId(follow).Some?
    ensures var m := MeaningId(Strip(lines[i + 1])).value;
      Pass(lines, StepFn(emojiMap), i) == [Token(m.0, m.1)] + Pass(lines, StepFn(emojiMap), i + 2)
  {
    PassUnfold(lines, StepFn(emojiMap), i);
  }

  /** A marker on the last line, or followed by a line of no known shape, is passed through
      alone and its follow-up line is handled by the next turn of the loop. */
  lemma LoneMarkerPassesThrough(lines: seq<string>, emojiMap: map<string, string>, i: nat)
    requires i < |lines| && Strip(lines[i]) == Marker
    requires i + 1 < |lines| ==>
      var follow := Strip(lines[i + 1]);
      !(StartsWith(follow, "-") && IsDigits(follow[1..])) && !StartsWith(follow, "/") && MeaningId(follow).None?
    ensures Pass(lines, StepFn(emojiMap), i) == [lines[i]] + Pass(lines, StepFn(emojiMap), i + 1)
  {
    PassUnfold(lines, StepFn(emojiMap), i);
  }
}
