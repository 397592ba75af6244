/** `process_chat` (train/formalize.py): the loop over a chat log that turns each header and
    its content block into numbered lines, with gap lines between messages written ten or
    more minutes apart. */
module Formalize {
  import opened Wrappers
  import opened Text
  import opened Clock
  import opened Header
  import opened Dispatch

  /** A gap line is written when at least this many seconds (ten minutes) separate a header
      from the last emitted message. */
  const GapSeconds: int := 600

  /** The loop's variables: `result`, `msg_idx`, `last_time` (in seconds) and
      `nickname_to_uid`. */
  datatype State = State(result: seq<string>, msgIdx: nat, lastTime: Option<int>, nicks: map<string, string>)

  const Start: State := State([], 1, None, map[])

  // ---------------------------------------------------------------------------------------
  // What a header contributes

  /** The group nickname where the source's `if group_nick:` holds. */
  function GroupNick(h: Header): Option<string> {
    if h.group.Some? && h.group.value != [] then h.group else None
  }

  /** The names a header records for its uid. */
  function Names(h: Header): set<string> {
    {h.user} + (if GroupNick(h).Some? then {GroupNick(h).value} else {})
  }

  /** `nickname_to_uid` after a header: the user name, then the group nickname, map to the
      header's uid. */
  function Remember(nicks: map<string, string>, h: Header): map<string, string> {
    var m := nicks[h.user := h.uid];
    if GroupNick(h).Some? then m[GroupNick(h).value := h.uid] else m
  }

  /** The newest header wins for each of its names, and every other name keeps its uid. */
  lemma RememberSpec(nicks: map<string, string>, h: Header)
    ensures Remember(nicks, h).Keys == nicks.Keys + Names(h)
    ensures forall n :: n in Names(h) ==> Remember(nicks, h)[n] == h.uid
    ensures forall n :: n in nicks && n !in Names(h) ==> Remember(nicks, h)[n] == nicks[n]
  {
  }

  /** The name shown for a header: the standard name of its uid when the table has one,
      else the user name, followed by ` / ` and the group nickname when there is one. */
  function Display(h: Header, uid2name: map<string, string>): string {
    var user := if h.uid in uid2name then uid2name[h.uid] else h.user;
    if GroupNick(h).Some? then user + " / " + GroupNick(h).value else user
  }

  /** The three cases of the shown name: a uid the table knows shows its standard name, an
      unknown uid falls back to the header's user name, and a non-empty group nickname is
      appended after ` / `; a missing or empty group nickname adds nothing. */
  lemma DisplayCases(h: Header, uid2name: map<string, string>)
    ensures (h.group.None? || h.group == Some("")) && h.uid in uid2name ==> Display(h, uid2name) == uid2name[h.uid]
    ensures (h.group.None? || h.group == Some("")) && h.uid !in uid2name ==> Display(h, uid2name) == h.user
    ensures h.group.Some? && h.group.value != "" && h.uid in uid2name ==>
      Display(h, uid2name) == uid2name[h.uid] + " / " + h.group.value
    ensures h.group.Some? && h.group.value != "" && h.uid !in uid2name ==>
      Display(h, uid2name) == h.user + " / " + h.group.value
  {
  }

  /** Once the table knows a uid, the user name written in the header no longer matters:
      headers with the same uid and group nickname show the same name. */
  lemma DisplayByUid(h1: Header, h2: Header, uid2name: map<string, string>)
    requires h1.uid == h2.uid && h1.uid in uid2name && h1.group == h2.group
    ensures Display(h1, uid2name) == Display(h2, uid2name)
  {
  }

  /** `{n}. [间隔{m}分钟]`. */
  function GapLine(idx: nat, minutes: nat): string {
    Numbered(idx, "[间隔" + NatToString(minutes) + "分钟]")
  }

  /** The gap line due before a header at `cur` seconds, numbered `idx`: only after an
      emitted message and at least ten minutes later, counting whole minutes (the source's
      `int()` of a positive number of minutes). */
  function Gap(lastTime: Option<int>, cur: int, idx: nat): Option<string> {
    if lastTime.Some? && cur - lastTime.value >= GapSeconds then
      Some(GapLine(idx, (cur - lastTime.value) / 60))
    else None
  }

  /** A line appended and numbered, when there is one. */
  function Push(st: State, line: Option<string>): State {
    if line.Some? then st.(result := st.result + [line.value], msgIdx := st.msgIdx + 1) else st
  }

  /** The state once a header's names are recorded and its gap line, if due, is written. */
  function Noted(st: State, h: Header, cur: int): State {
    Push(st.(nicks := Remember(st.nicks, h)), Gap(st.lastTime, cur, st.msgIdx))
  }

  /** The message line a content block renders to, numbered after the gap line; none for an
      empty block. */
  function BlockMessage(noted: State, h: Header, content: seq<string>, uid2name: map<string, string>): Option<string> {
    if content == [] then None else Message(content, h, Display(h, uid2name), noted.nicks, uid2name, noted.msgIdx)
  }

  /** A message line, when there is one, appended and numbered, with `last_time` moved to
      the header's time. */
  function Emit(noted: State, cur: int, msg: Option<string>): State {
    if msg.Some? then Push(noted, msg).(lastTime := Some(cur)) else noted
  }

  /** The state after a header at `cur` seconds with content block `content`. */
  function AfterHeader(st: State, h: Header, cur: int, content: seq<string>, uid2name: map<string, string>): State {
    var noted := Noted(st, h, cur);
    Emit(noted, cur, BlockMessage(noted, h, content, uid2name))
  }

  /** One turn of the loop at line `i`: a line that is no header is skipped; a header takes
      its content block with it. */
  function Turn(lines: seq<string>, uid2name: map<string, string>, i: nat, st: State): (r: Result<(State, nat), string>)
    requires i < |lines|
    ensures r.Ok? ==> i < r.value.1 <= |lines|
  {
    match ParseHeader(Strip(lines[i]))
    case None => Ok((st, i + 1))
    case Some(h) => HeaderTurn(lines, uid2name, i, st, h)
  }

  /** The turn of a header `h` read at line `i`. Its timestamp failing `strptime` is the
      error, carrying the timestamp text. */
  function HeaderTurn(lines: seq<string>, uid2name: map<string, string>, i: nat, st: State, h: Header)
    : (r: Result<(State, nat), string>)
    requires i < |lines| && TimestampShape(h.time)
    ensures r.Ok? ==> i < r.value.1 <= |lines|
  {
    match ParseTime(h.time)
    case None => Err(h.time)
    case Some(cur) =>
      var e := ContentEnd(lines, i + 1);
      Ok((AfterHeader(st, h, cur, Strips(lines[i + 1..e]), uid2name), e))
  }

  // ---------------------------------------------------------------------------------------
  // The loop

  /** A turn function that moves forward and stays inside the lines. */
  ghost predicate Progresses(turn: (seq<string>, nat, State) --> Result<(State, nat), string>) {
    forall lines: seq<string>, i: nat, st: State :: i < |lines| ==>
      && turn.requires(lines, i, st)
      && (turn(lines, i, st).Ok? ==> i < turn(lines, i, st).value.1 <= |lines|)
  }

  /** The loop run from line `i` with state `st`, each turn taken by `turn`; the first
      error ends it. */
  function Loop(lines: seq<string>, turn: (seq<string>, nat, State) --> Result<(State, nat), string>, i: nat, st: State): Result<State, string>
    requires i <= |lines| && Progresses(turn)
    decreases |lines| - i
  {
    if i == |lines| then Ok(st)
    else
      match turn(lines, i, st)
      case Err(e) => Err(e)
      case Ok((next, j)) => Loop(lines, turn, j, next)
  }

  /** The source's turn, for a fixed uid table. */
  function TurnFn(uid2name: map<string, string>): (f: (seq<string>, nat, State) --> Result<(State, nat), string>)
    ensures Progresses(f)
    ensures forall lines: seq<string>, i: nat, st: State :: i < |lines| ==> f(lines, i, st) == Turn(lines, uid2name, i, st)
  {
    (lines: seq<string>, i: nat, st: State) requires i < |lines| => Turn(lines, uid2name, i, st)
  }

  /** `process_chat(lines)`: the numbered lines, or the timestamp `strptime` rejects. */
  function Formalized(lines: seq<string>, uid2name: map<string, string>): Result<seq<string>, string> {
    match Loop(lines, TurnFn(uid2name), 0, Start)
    case Ok(st) => Ok(st.result)
    case Err(e) => Err(e)
  }

  /** A header's turn, once its time and block are known. */
  lemma HeaderTurnAt(lines: seq<string>, uid2name: map<string, string>, i: nat, st: State, h: Header, cur: int,
                     content: seq<string>, e: nat)
    requires i < |lines| && TimestampShape(h.time) && ParseTime(h.time) == Some(cur)
    requires e == ContentEnd(lines, i + 1) && content == Strips(lines[i + 1..e])
    ensures HeaderTurn(lines, uid2name, i, st, h) == Ok((AfterHeader(st, h, cur, content, uid2name), e))
  {
  }

  /** The state after a header, once the gap line is settled and the block rendered. */
  lemma AfterHeaderAt(st: State, h: Header, cur: int, content: seq<string>, uid2name: map<string, string>,
                      noted: State, msg: Option<string>)
    requires noted == Noted(st, h, cur) && msg == BlockMessage(noted, h, content, uid2name)
    ensures AfterHeader(st, h, cur, content, uid2name) == Emit(noted, cur, msg)
  {
  }

  /** One turn of the source's loop, statement by statement. */
  method HandleLine(lines: seq<string>, uid2name: map<string, string>, i: nat, st: State)
    returns (r: Result<(State, nat), string>)
    requires i < |lines|
    ensures r == Turn(lines, uid2name, i, st)
  {
    var m := ParseHeader(Strip(lines[i]));
    if m.None? {
      return Ok((st, i + 1));
    }
    r := HandleHeader(lines, uid2name, i, st, m.value);
  }

  // ---------------------------------------------------------------------------------------
  // What one turn does

  /** A header's names are recorded, and its gap line, if due, is appended and numbered. */
  lemma NotedSpec(st: State, h: Header, cur: int)
    ensures
      var noted := Noted(st, h, cur);
      var gap := Gap(st.lastTime, cur, st.msgIdx);
      var g := if gap.Some? then [gap.value] else [];
      && noted == State(st.result + g, st.msgIdx + |g|, st.lastTime, Remember(st.nicks, h))
  {
  }

  /** A message line, when there is one, is appended and numbered and moves `last_time`. */
  lemma EmitSpec(noted: State, cur: int, msg: Option<string>)
    ensures
      var m := if msg.Some? then [msg.value] else [];
      && Emit(noted, cur, msg)
        == State(noted.result + m, noted.msgIdx + |m|, if msg.Some? then Some(cur) else noted.lastTime, noted.nicks)
  {
  }

  /** The ways a turn ends: a line that is no header is skipped and changes nothing; a header
      whose timestamp `strptime` rejects is the error; any other header moves the cursor to
      the end of its content block. */
  lemma TurnCases(lines: seq<string>, uid2name: map<string, string>, i: nat, st: State)
    requires i < |lines|
    ensures ParseHeader(Strip(lines[i])).None? ==> Turn(lines, uid2name, i, st) == Ok((st, i + 1))
    ensures ParseHeader(Strip(lines[i])).Some? ==>
      var h := ParseHeader(Strip(lines[i])).value;
      && (ParseTime(h.time).None? <==> Turn(lines, uid2name, i, st) == Err(h.time))
      && (ParseTime(h.time).Some? ==>
            Turn(lines, uid2name, i, st).Ok? && Turn(lines, uid2name, i, st).value.1 == ContentEnd(lines, i + 1))
  {
  }

  /** The number, `{n}. `, that a line of the result starts with. */
  predicate NumberedAs(line: string, n: nat) {
    StartsWith(line, NatToString(n) + ". ")
  }

  /** The numbering the loop keeps: `msg_idx` is one past the number of lines, and the line
      at position `k` is numbered `k + 1`. */
  ghost predicate Dense(st: State) {
    && st.msgIdx == |st.result| + 1
    && forall k :: 0 <= k < |st.result| ==> NumberedAs(st.result[k], k + 1)
  }

  /** The text of a result line after its number and `. `. */
  function AfterNumber(line: string): string {
    var d := Run(line, 0, DigitClass);
    if d + 2 <= |line| then line[d + 2..] else []
  }

  /** A gap line, told apart from a message line by the text after its number. */
  predicate IsGapLine(line: string) {
    StartsWith(AfterNumber(line), "[间隔")
  }

  /** The number of a numbered line is exactly its leading digits. */
  lemma AfterNumbered(n: nat, x: string)
    ensures AfterNumber(Numbered(n, x)) == x
  {
    var s := Numbered(n, x);
    var p := NatToString(n);
    var d := Run(s, 0, DigitClass);
    RunSpans(s, 0, DigitClass);
    assert s[|p|] == '.';
    assert s[d + 2..] == x;
  }

  /** A gap line is numbered and reads as one. */
  lemma GapLineIsGap(n: nat, minutes: nat)
    ensures NumberedAs(GapLine(n, minutes), n) && IsGapLine(GapLine(n, minutes))
  {
    AfterNumbered(n, "[间隔" + NatToString(minutes) + "分钟]");
  }

  /** A gap line is due exactly after an emitted message at least ten minutes earlier; it
      is then numbered `idx` and reads as a gap line. */
  lemma GapSpec(lastTime: Option<int>, cur: int, idx: nat)
    ensures Gap(lastTime, cur, idx).Some? <==> lastTime.Some? && cur - lastTime.value >= GapSeconds
    ensures Gap(lastTime, cur, idx).Some? ==>
      && Gap(lastTime, cur, idx).value == GapLine(idx, (cur - lastTime.value) / 60)
      && NumberedAs(Gap(lastTime, cur, idx).value, idx) && IsGapLine(Gap(lastTime, cur, idx).value)
  {
    if lastTime.Some? && cur - lastTime.value >= GapSeconds {
      var minutes := (cur - lastTime.value) / 60;
      assert Gap(lastTime, cur, idx) == Some(GapLine(idx, minutes));
      GapLineIsGap(idx, minutes);
    }
  }

  /** A message line is numbered and, since a timestamp follows its number, is no gap line. */
  lemma MessageIsNoGap(content: seq<string>, h: Header, user: string, nicks: map<string, string>,
                       uid2name: map<string, string>, idx: nat)
    requires content != [] && TimestampShape(h.time)
    requires Message(content, h, user, nicks, uid2name, idx).Some?
    ensures NumberedAs(Message(content, h, user, nicks, uid2name, idx).value, idx)
    ensures StartsWith(AfterNumber(Message(content, h, user, nicks, uid2name, idx).value), h.time)
    ensures !IsGapLine(Message(content, h, user, nicks, uid2name, idx).value)
  {
    MessageLead(content, h, user, nicks, uid2name, idx);
    LeadIsNoGap(Message(content, h, user, nicks, uid2name, idx).value, idx, h.time);
  }

  /** A line led by its number and a timestamp is numbered and is no gap line. */
  lemma LeadIsNoGap(v: string, idx: nat, time: string)
    requires TimestampShape(time) && StartsWith(v, Numbered(idx, time))
    ensures NumberedAs(v, idx) && StartsWith(AfterNumber(v), time) && !IsGapLine(v)
  {
    var lead := Numbered(idx, time);
    var rest := v[|lead|..];
    assert v == lead + rest;
    LeadOf(idx, time, rest);
    AfterNumbered(idx, time + rest);
    assert AfterNumber(v)[0] == time[0];
  }

  /** The turn of a header with a valid timestamp, in terms of what it adds to the result:
      its gap line, if due, then its message line, if the block renders to one, rendered
      with the updated nicknames and numbered after the gap line; the nickname map is
      updated whatever the block holds. */
  lemma HeaderTurnAdds(lines: seq<string>, uid2name: map<string, string>, i: nat, st: State, h: Header, cur: int)
    requires i < |lines| && ParseHeader(Strip(lines[i])) == Some(h) && ParseTime(h.time) == Some(cur)
    ensures Turn(lines, uid2name, i, st).Ok?
    ensures
      var (after, e) := Turn(lines, uid2name, i, st).value;
      var gap := Gap(st.lastTime, cur, st.msgIdx);
      var g := if gap.Some? then [gap.value] else [];
      var noted := Noted(st, h, cur);
      var msg := BlockMessage(noted, h, Strips(lines[i + 1..e]), uid2name);
      && e == ContentEnd(lines, i + 1)
      && noted.nicks == Remember(st.nicks, h) && noted.msgIdx == st.msgIdx + |g|
      && after.nicks == Remember(st.nicks, h)
      && after.result == st.result + g + (if msg.Some? then [msg.value] else [])
      && after.msgIdx == st.msgIdx + |g| + (if msg.Some? then 1 else 0)
      && after.lastTime == (if msg.Some? then Some(cur) else st.lastTime)
  {
    var e := ContentEnd(lines, i + 1);
    var content := Strips(lines[i + 1..e]);
    var noted := Noted(st, h, cur);
    var msg := BlockMessage(noted, h, content, uid2name);
    HeaderTurnAt(lines, uid2name, i, st, h, cur, content, e);
    AfterHeaderAt(st, h, cur, content, uid2name, noted, msg);
    AddedMessage(st, h, cur, noted, msg, Emit(noted, cur, msg));
  }

  /** The parts of a header's turn, over the state once the gap is noted and the message
      line rendered. */
  lemma AddedMessage(st: State, h: Header, cur: int, noted: State, msg: Option<string>, after: State)
    requires noted == Noted(st, h, cur) && after == Emit(noted, cur, msg)
    ensures
      var gap := Gap(st.lastTime, cur, st.msgIdx);
      var g := if gap.Some? then [gap.value] else [];
      && noted.nicks == Remember(st.nicks, h) && noted.msgIdx == st.msgIdx + |g|
      && after.nicks == Remember(st.nicks, h)
      && after.result == st.result + g + (if msg.Some? then [msg.value] else [])
      && after.msgIdx == st.msgIdx + |g| + (if msg.Some? then 1 else 0)
      && after.lastTime == (if msg.Some? then Some(cur) else st.lastTime)
  {
    NotedSpec(st, h, cur);
    EmitSpec(noted, cur, msg);
  }

  /** The message line a block renders to carries the number after the gap line and is no
      gap line; an empty block renders to none. */
  lemma BlockMessageShape(noted: State, h: Header, content: seq<string>, uid2name: map<string, string>)
    requires TimestampShape(h.time)
    ensures content == [] ==> BlockMessage(noted, h, content, uid2name).None?
    ensures BlockMessage(noted, h, content, uid2name).Some? ==>
      && NumberedAs(BlockMessage(noted, h, content, uid2name).value, noted.msgIdx)
      && !IsGapLine(BlockMessage(noted, h, content, uid2name).value)
  {
    if content != [] && BlockMessage(noted, h, content, uid2name).Some? {
      MessageIsNoGap(content, h, Display(h, uid2name), noted.nicks, uid2name, noted.msgIdx);
    }
  }

  /** Appending a line numbered `msg_idx` keeps the numbering dense. */
  lemma PushDense(st: State, line: Option<string>)
    requires Dense(st) && (line.Some? ==> NumberedAs(line.value, st.msgIdx))
    ensures Dense(Push(st, line))
  {
    if line.Some? {
      var rs := st.result + [line.value];
      forall k | 0 <= k < |rs| ensures NumberedAs(rs[k], k + 1) {
        if k < |st.result| {
          assert rs[k] == st.result[k];
        }
      }
    }
  }

  /** Recording a header and its gap line keeps the numbering dense. */
  lemma NotedDense(st: State, h: Header, cur: int)
    requires Dense(st)
    ensures Dense(Noted(st, h, cur))
  {
    GapSpec(st.lastTime, cur, st.msgIdx);
    PushDense(st.(nicks := Remember(st.nicks, h)), Gap(st.lastTime, cur, st.msgIdx));
  }

  /** Appending a message line numbered `msg_idx` keeps the numbering dense. */
  lemma EmitDense(noted: State, cur: int, msg: Option<string>)
    requires Dense(noted) && (msg.Some? ==> NumberedAs(msg.value, noted.msgIdx))
    ensures Dense(Emit(noted, cur, msg))
  {
    PushDense(noted, msg);
  }

  /** A header keeps the numbering dense: each line it appends carries the next number. */
  lemma AfterHeaderDense(st: State, h: Header, cur: int, content: seq<string>, uid2name: map<string, string>)
    requires TimestampShape(h.time) && Dense(st)
    ensures Dense(AfterHeader(st, h, cur, content, uid2name))
  {
    var noted := Noted(st, h, cur);
    var msg := BlockMessage(noted, h, content, uid2name);
    AfterHeaderAt(st, h, cur, content, uid2name, noted, msg);
    NotedDense(st, h, cur);
    BlockMessageShape(noted, h, content, uid2name);
    EmitDense(noted, cur, msg);
  }

  /** A header's gap line: the first line a header adds is a gap line exactly when a
      message was emitted before and at least ten minutes separate the two; it then counts
      the whole minutes. Lines already written are kept. */
  lemma AfterHeaderGap(st: State, h: Header, cur: int, content: seq<string>, uid2name: map<string, string>)
    requires TimestampShape(h.time)
    ensures
      var after := AfterHeader(st, h, cur, content, uid2name);
      var due := st.lastTime.Some? && cur - st.lastTime.value >= GapSeconds;
      && |st.result| <= |after.result| && after.result[..|st.result|] == st.result
      && (|after.result| > |st.result| && IsGapLine(after.result[|st.result|]) <==> due)
      && (due ==> after.result[|st.result|] == GapLine(st.msgIdx, (cur - st.lastTime.value) / 60))
  {
    var noted := Noted(st, h, cur);
    var msg := BlockMessage(noted, h, content, uid2name);
    AfterHeaderAt(st, h, cur, content, uid2name, noted, msg);
    BlockMessageShape(noted, h, content, uid2name);
    AddedGap(st, h, cur, noted, msg, Emit(noted, cur, msg));
  }

  /** The gap part of a header's turn, over the state once the gap is noted and the message
      line rendered. */
  lemma AddedGap(st: State, h: Header, cur: int, noted: State, msg: Option<string>, after: State)
    requires noted == Noted(st, h, cur) && after == Emit(noted, cur, msg) && (msg.Some? ==> !IsGapLine(msg.value))
    ensures
      var due := st.lastTime.Some? && cur - st.lastTime.value >= GapSeconds;
      && |st.result| <= |after.result| && after.result[..|st.result|] == st.result
      && (|after.result| > |st.result| && IsGapLine(after.result[|st.result|]) <==> due)
      && (due ==> after.result[|st.result|] == GapLine(st.msgIdx, (cur - st.lastTime.value) / 60))
  {
    NotedSpec(st, h, cur);
    EmitSpec(noted, cur, msg);
    GapSpec(st.lastTime, cur, st.msgIdx);
    var gap := Gap(st.lastTime, cur, st.msgIdx);
    var g := if gap.Some? then [gap.value] else [];
    var m := if msg.Some? then [msg.value] else [];
    var added := g + m;
    assert after.result == st.result + added;
    assert after.result[..|st.result|] == st.result;
    assert |after.result| > |st.result| ==> after.result[|st.result|] == added[0];
  }

  /** `last_time` moves to a header's time exactly when the header adds a message line (the
      last line it adds, after any gap line); otherwise it keeps the time of the last emitted
      message. An empty block adds at most the gap line. The nickname map is updated
      whatever the block holds. */
  lemma AfterHeaderLastTime(st: State, h: Header, cur: int, content: seq<string>, uid2name: map<string, string>)
    requires TimestampShape(h.time)
    ensures
      var after := AfterHeader(st, h, cur, content, uid2name);
      var added := after.result[|st.result|..];
      var emitted := added != [] && !IsGapLine(added[|added| - 1]);
      && |st.result| <= |after.result| <= |st.result| + 2
      && (forall k :: 0 <= k < |added| - 1 ==> IsGapLine(added[k]))
      && after.lastTime == (if emitted then Some(cur) else st.lastTime)
      && (content == [] ==> !emitted)
      && after.nicks == Remember(st.nicks, h)
  {
    var noted := Noted(st, h, cur);
    var msg := BlockMessage(noted, h, content, uid2name);
    AfterHeaderAt(st, h, cur, content, uid2name, noted, msg);
    BlockMessageShape(noted, h, content, uid2name);
    AddedLast(st, h, cur, noted, msg, Emit(noted, cur, msg));
  }

  /** The `last_time` part of a header's turn, over the state once the gap is noted and the
      message line rendered. */
  lemma AddedLast(st: State, h: Header, cur: int, noted: State, msg: Option<string>, after: State)
    requires noted == Noted(st, h, cur) && after == Emit(noted, cur, msg) && (msg.Some? ==> !IsGapLine(msg.value))
    ensures
      var added := after.result[|st.result|..];
      var emitted := added != [] && !IsGapLine(added[|added| - 1]);
      && |st.result| <= |after.result| <= |st.result| + 2
      && (forall k :: 0 <= k < |added| - 1 ==> IsGapLine(added[k]))
      && after.lastTime == (if emitted then Some(cur) else st.lastTime)
      && (msg.None? ==> !emitted)
      && after.nicks == Remember(st.nicks, h)
  {
    NotedSpec(st, h, cur);
    EmitSpec(noted, cur, msg);
    GapSpec(st.lastTime, cur, st.msgIdx);
    var gap := Gap(st.lastTime, cur, st.msgIdx);
    var g := if gap.Some? then [gap.value] else [];
    var m := if msg.Some? then [msg.value] else [];
    var added := after.result[|st.result|..];
    assert added == g + m;
  }

  /** A turn keeps the numbering dense. */
  lemma TurnDense(lines: seq<string>, uid2name: map<string, string>, i: nat, st: State)
    requires i < |lines| && Dense(st) && Turn(lines, uid2name, i, st).Ok?
    ensures Dense(Turn(lines, uid2name, i, st).value.0)
  {
    TurnCases(lines, uid2name, i, st);
    var m := ParseHeader(Strip(lines[i]));
    if m.Some? {
      var h := m.value;
      var cur := ParseTime(h.time).value;
      var e := ContentEnd(lines, i + 1);
      HeaderTurnAt(lines, uid2name, i, st, h, cur, Strips(lines[i + 1..e]), e);
      AfterHeaderDense(st, h, cur, Strips(lines[i + 1..e]), uid2name);
    }
  }

  // ---------------------------------------------------------------------------------------
  // What the whole loop does

  /** A turn function that keeps the numbering dense. */
  ghost predicate KeepsDense(turn: (seq<string>, nat, State) --> Result<(State, nat), string>)
    requires Progresses(turn)
  {
    forall lines: seq<string>, i: nat, st: State :: i < |lines| && Dense(st) && turn(lines, i, st).Ok? ==>
      Dense(turn(lines, i, st).value.0)
  }

  /** A turn function that skips every line that is no header, changing nothing. */
  ghost predicate SkipsOtherLines(turn: (seq<string>, nat, State) --> Result<(State, nat), string>)
    requires Progresses(turn)
  {
    forall lines: seq<string>, i: nat, st: State :: i < |lines| && ParseHeader(Strip(lines[i])).None? ==>
      turn(lines, i, st) == Ok((st, i + 1))
  }

  /** A turn function whose only error is a header line's timestamp that `strptime` rejects. */
  ghost predicate FailsOnlyOnTime(turn: (seq<string>, nat, State) --> Result<(State, nat), string>)
    requires Progresses(turn)
  {
    forall lines: seq<string>, i: nat, st: State :: i < |lines| && turn(lines, i, st).Err? ==>
      BadTimeAt(lines, i, turn(lines, i, st).error)
  }

  /** Line `i` is a header whose timestamp, `time`, `strptime` rejects. */
  predicate BadTimeAt(lines: seq<string>, i: nat, time: string)
    requires i < |lines|
  {
    && ParseHeader(Strip(lines[i])).Some?
    && ParseHeader(Strip(lines[i])).value.time == time
    && ParseTime(time).None?
  }

  /** The source's turn has all three shapes. */
  lemma TurnFnShapes(uid2name: map<string, string>)
    ensures KeepsDense(TurnFn(uid2name)) && SkipsOtherLines(TurnFn(uid2name)) && FailsOnlyOnTime(TurnFn(uid2name))
  {
    var turn := TurnFn(uid2name);
    forall lines: seq<string>, i: nat, st: State | i < |lines| && Dense(st) && turn(lines, i, st).Ok?
      ensures Dense(turn(lines, i, st).value.0)
    {
      TurnDense(lines, uid2name, i, st);
    }
    forall lines: seq<string>, i: nat, st: State | i < |lines|
      ensures ParseHeader(Strip(lines[i])).None? ==> turn(lines, i, st) == Ok((st, i + 1))
      ensures turn(lines, i, st).Err? ==> BadTimeAt(lines, i, turn(lines, i, st).error)
    {
      TurnCases(lines, uid2name, i, st);
    }
  }

  /** Dense numbering holds through the whole loop. */
  lemma {:induction false} LoopDense(lines: seq<string>, turn: (seq<string>, nat, State) --> Result<(State, nat), string>,
                                     i: nat, st: State)
    requires i <= |lines| && Progresses(turn) && KeepsDense(turn) && Dense(st)
    ensures Loop(lines, turn, i, st).Ok? ==> Dense(Loop(lines, turn, i, st).value)
    decreases |lines| - i
  {
    if i < |lines| && turn(lines, i, st).Ok? {
      LoopDense(lines, turn, turn(lines, i, st).value.1, turn(lines, i, st).value.0);
    }
  }

  /** Lines that are no headers never reach the result: from a run of them the loop ends
      with the state it started with. */
  lemma {:induction false} LoopSkips(lines: seq<string>, turn: (seq<string>, nat, State) --> Result<(State, nat), string>,
                                     i: nat, st: State)
    requires i <= |lines| && Progresses(turn) && SkipsOtherLines(turn)
    requires forall k :: i <= k < |lines| ==> ParseHeader(Strip(lines[k])).None?
    ensures Loop(lines, turn, i, st) == Ok(st)
    decreases |lines| - i
  {
    if i < |lines| {
      LoopSkips(lines, turn, i + 1, st);
    }
  }

  /** An error of the loop names the timestamp of a header line at or after `i` that
      `strptime` rejects. */
  lemma {:induction false} LoopError(lines: seq<string>, turn: (seq<string>, nat, State) --> Result<(State, nat), string>,
                                     i: nat, st: State)
    requires i <= |lines| && Progresses(turn) && FailsOnlyOnTime(turn)
    ensures Loop(lines, turn, i, st).Err? ==>
      exists k :: i <= k < |lines| && BadTimeAt(lines, k, Loop(lines, turn, i, st).error)
    decreases |lines| - i
  {
    if i < |lines| && turn(lines, i, st).Ok? {
      LoopError(lines, turn, turn(lines, i, st).value.1, turn(lines, i, st).value.0);
    }
  }

  /** Dense numbering: line `k` of the result starts with `{k+1}. `. */
  lemma FormalizedNumbered(lines: seq<string>, uid2name: map<string, string>)
    ensures Formalized(lines, uid2name).Ok? ==>
      forall k :: 0 <= k < |Formalized(lines, uid2name).value| ==>
        NumberedAs(Formalized(lines, uid2name).value[k], k + 1)
  {
    TurnFnShapes(uid2name);
    LoopDense(lines, TurnFn(uid2name), 0, Start);
  }

  /** A log without a header line formalises to nothing. */
  lemma FormalizedNoHeader(lines: seq<string>, uid2name: map<string, string>)
    requires forall k :: 0 <= k < |lines| ==> ParseHeader(Strip(lines[k])).None?
    ensures Formalized(lines, uid2name) == Ok([])
  {
    TurnFnShapes(uid2name);
    LoopSkips(lines, TurnFn(uid2name), 0, Start);
  }

  /** The only failure is a header line whose timestamp `strptime` rejects. */
  lemma FormalizedError(lines: seq<string>, uid2name: map<string, string>)
    ensures Formalized(lines, uid2name).Err? ==>
      exists k :: 0 <= k < |lines| && BadTimeAt(lines, k, Formalized(lines, uid2name).error)
  {
    TurnFnShapes(uid2name);
    LoopError(lines, TurnFn(uid2name), 0, Start);
  }

  /** The source's check for a gap of ten minutes or more since the last emitted message,
      appending the numbered gap line. */
  method NoteGap(result: seq<string>, msgIdx: nat, lastTime: Option<int>, cur: int)
    returns (result': seq<string>, msgIdx': nat)
    ensures Gap(lastTime, cur, msgIdx).Some? ==>
      result' == result + [Gap(lastTime, cur, msgIdx).value] && msgIdx' == msgIdx + 1
    ensures Gap(lastTime, cur, msgIdx).None? ==> result' == result && msgIdx' == msgIdx
  {
    result', msgIdx' := result, msgIdx;
    if lastTime.Some? {
      var diff := cur - lastTime.value;
      if diff >= GapSeconds {
        result' := result' + [GapLine(msgIdx', diff / 60)];
        msgIdx' := msgIdx' + 1;
      }
    }
  }

  /** The source's `if m:` branch: a header line at `i` and its content block. */
  method HandleHeader(lines: seq<string>, uid2name: map<string, string>, i: nat, st: State, h: Header)
    returns (r: Result<(State, nat), string>)
    requires i < |lines| && TimestampShape(h.time)
    ensures r == HeaderTurn(lines, uid2name, i, st, h)
  {
    var nicks := st.nicks[h.user := h.uid];
    if h.group.Some? && h.group.value != [] {
      nicks := nicks[h.group.value := h.uid];
    }
    var parsed := ParseTime(h.time);
    if parsed.None? {
      return Err(h.time);
    }
    var cur := parsed.value;
    assert nicks == Remember(st.nicks, h);
    var result, msgIdx := NoteGap(st.result, st.msgIdx, st.lastTime, cur);
    var lastTime := st.lastTime;
    ghost var noted := State(result, msgIdx, lastTime, nicks);
    assert noted == Noted(st, h, cur);
    var user := if h.uid in uid2name then uid2name[h.uid] else h.user;
    if h.group.Some? && h.group.value != [] {
      user := user + " / " + h.group.value;
    }
    assert user == Display(h, uid2name);
    var content, e := CollectContent(lines, i + 1);
    HeaderTurnAt(lines, uid2name, i, st, h, cur, content, e);
    var after := EmitBlock(State(result, msgIdx, lastTime, nicks), h, cur, content, user, uid2name);
    AfterHeaderAt(st, h, cur, content, uid2name, noted, BlockMessage(noted, h, content, uid2name));
    r := Ok((after, e));
  }

  /** The branch chain over a non-empty content block, and the append of the message line
      it renders to, numbered `msg_idx`, which moves `last_time`. */
  method EmitBlock(noted: State, h: Header, cur: int, content: seq<string>, user: string, uid2name: map<string, string>)
    returns (after: State)
    requires user == Display(h, uid2name)
    ensures after == Emit(noted, cur, BlockMessage(noted, h, content, uid2name))
  {
    after := noted;
    if content != [] {
      var msg := RenderMessage(content, h, user, noted.nicks, uid2name, noted.msgIdx);
      if msg.Some? {
        after := State(noted.result + [msg.value], noted.msgIdx + 1, Some(cur), noted.nicks);
      }
    }
  }

  /** `process_chat`: the outer loop. */
  method ProcessChat(lines: seq<string>, uid2name: map<string, string>) returns (r: Result<seq<string>, string>)
    ensures r == Formalized(lines, uid2name)
  {
    var turn := TurnFn(uid2name);
    var st := Start;
    var i := 0;
    while i < |lines|
      invariant i <= |lines|
      invariant Loop(lines, turn, i, st) == Loop(lines, turn, 0, Start)
      decreases |lines| - i
    {
      var step := HandleLine(lines, uid2name, i, st);
      if step.Err? {
        return Err(step.error);
      }
      st, i := step.value.0, step.value.1;
    }
    r := Ok(st.result);
  }
}
