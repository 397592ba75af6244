/** The content of one message in train/formalize.py: the block of lines after a header, the
    kind the block is dispatched to (first match among quote reply, emoji tokens, `[表情]`
    sticker, image and `[文本]` text), and the numbered line each kind renders. */
module Dispatch {
  import opened Wrappers
  import opened Text
  import opened Clock
  import opened Header

  const QuoteTag: string := "[被引用的消息][文本]"
  const TextTag: string := "[文本]"
  const StickerTag: string := "[表情]"
  /** Reply and text contents are cut to this many characters. */
  const MaxText: nat := 150

  // ---------------------------------------------------------------------------------------
  // The content block

  /** Where the content block that starts at `j` ends: at the first line that starts with a
      timestamp (tested on the line as read, before stripping), or at the end. */
  function ContentEnd(lines: seq<string>, j: nat): (e: nat)
    requires j <= |lines|
    ensures j <= e <= |lines|
    decreases |lines| - j
  {
    if j == |lines| || TimestampPrefix(lines[j]) then j else ContentEnd(lines, j + 1)
  }

  /** The block holds every line before the next timestamp line, and stops there. */
  lemma {:induction false} ContentEndIsNextTimestamp(lines: seq<string>, j: nat)
    requires j <= |lines|
    ensures ContentEnd(lines, j) < |lines| ==> TimestampPrefix(lines[ContentEnd(lines, j)])
    ensures forall k :: j <= k < ContentEnd(lines, j) ==> !TimestampPrefix(lines[k])
    decreases |lines| - j
  {
    if j < |lines| && !TimestampPrefix(lines[j]) {
      ContentEndIsNextTimestamp(lines, j + 1);
    }
  }

  /** Every line stripped, in order. */
  function Strips(ls: seq<string>): (r: seq<string>)
    ensures |r| == |ls|
  {
    if ls == [] then [] else Strips(ls[..|ls| - 1]) + [Strip(ls[|ls| - 1])]
  }

  lemma {:induction false} StripsAt(ls: seq<string>, k: nat)
    requires k < |ls|
    ensures Strips(ls)[k] == Strip(ls[k])
  {
    if k < |ls| - 1 {
      StripsAt(ls[..|ls| - 1], k);
    }
  }

  /** One more line of the block, stripped. */
  lemma StripsStep(lines: seq<string>, j: nat, e: nat)
    requires j <= e < |lines|
    ensures Strips(lines[j..e + 1]) == Strips(lines[j..e]) + [Strip(lines[e])]
  {
    assert lines[j..e + 1][..e - j] == lines[j..e];
  }

  /** The source's loop gathering the block: stripped lines until the next timestamp line. */
  method CollectContent(lines: seq<string>, j: nat) returns (content: seq<string>, e: nat)
    requires j <= |lines|
    ensures e == ContentEnd(lines, j) && content == Strips(lines[j..e])
  {
    content := [];
    e := j;
    while e < |lines| && !TimestampPrefix(lines[e])
      invariant j <= e <= |lines|
      invariant ContentEnd(lines, e) == ContentEnd(lines, j)
      invariant content == Strips(lines[j..e])
      decreases |lines| - e
    {
      StripsStep(lines, j, e);
      content := content + [Strip(lines[e])];
      e := e + 1;
    }
  }

  // ---------------------------------------------------------------------------------------
  // Mentions

  /** The uid a nickname is mapped to, when the mapping gives a non-empty uid (the source's
      `if at_uid:`). */
  function KnownUid(nick: string, nicks: map<string, string>): Option<string> {
    if nick in nicks && nicks[nick] != [] then Some(nicks[nick]) else None
  }

  /** `@nick` rendered through the nickname map and the uid table. */
  function Mention(nick: string, nicks: map<string, string>, uid2name: map<string, string>): string {
    match KnownUid(nick, nicks)
    case Some(uid) => "[@" + (if uid in uid2name then uid2name[uid] else nick) + "]"
    case None => "[@" + nick + "]"
  }

  /** The three ways a mention renders: the standard name of a mapped nickname whose uid the
      table knows, and otherwise the nickname itself. */
  lemma MentionCases(nick: string, nicks: map<string, string>, uid2name: map<string, string>)
    ensures nick in nicks && nicks[nick] != [] && nicks[nick] in uid2name ==>
      Mention(nick, nicks, uid2name) == "[@" + uid2name[nicks[nick]] + "]"
    ensures nick in nicks && nicks[nick] != [] && nicks[nick] !in uid2name ==>
      Mention(nick, nicks, uid2name) == "[@" + nick + "]"
    ensures nick !in nicks ==> Mention(nick, nicks, uid2name) == "[@" + nick + "]"
  {
  }

  /** A line the reply and text branches read as a mention. */
  predicate IsMentionLine(line: string) {
    !Contains(line, TextTag) && StartsWith(line, "@")
  }

  // ---------------------------------------------------------------------------------------
  // Quote replies

  /** The first index from `idx` on whose line has no `[文本]` tag. */
  function SkipTagged(content: seq<string>, idx: nat): (k: nat)
    requires idx <= |content|
    ensures idx <= k <= |content|
    ensures forall q :: idx <= q < k ==> Contains(content[q], TextTag)
    ensures k < |content| ==> !Contains(content[k], TextTag)
    decreases |content| - idx
  {
    if idx < |content| && Contains(content[idx], TextTag) then SkipTagged(content, idx + 1) else idx
  }

  /** The quoted line (the first untagged line after the quote marker, stripped, or none)
      and the index the reply lines start at. */
  function Quote(content: seq<string>): (r: (string, nat))
    requires |content| >= 1
    ensures 1 <= r.1 <= |content|
  {
    var q := SkipTagged(content, 1);
    if q < |content| then (Strip(content[q]), q + 1) else ("", q)
  }

  /** Python's `s[1:]`: the text without its first character, empty for empty text. */
  function Tail(s: string): string {
    if s == [] then [] else s[1..]
  }

  /** The nickname a reply's mention line names: `line.strip()[1:].strip()`. */
  function MentionNick(line: string): string {
    Strip(Tail(Strip(line)))
  }

  /** What one reply line adds to the reply text: nothing for tagged and mention lines,
      the stripped line otherwise. */
  function ReplyPiece(line: string): string {
    if Contains(line, TextTag) || StartsWith(line, "@") then "" else Strip(line)
  }

  /** The reply text: the pieces of the reply lines, concatenated. */
  function ReplyText(ls: seq<string>): string {
    if ls == [] then "" else ReplyText(ls[..|ls| - 1]) + ReplyPiece(ls[|ls| - 1])
  }

  /** The reply's mention: each mention line overwrites the one before. */
  function ReplyAt(ls: seq<string>, nicks: map<string, string>, uid2name: map<string, string>): string {
    if ls == [] then ""
    else if IsMentionLine(ls[|ls| - 1]) then Mention(MentionNick(ls[|ls| - 1]), nicks, uid2name)
    else ReplyAt(ls[..|ls| - 1], nicks, uid2name)
  }

  /** One more reply line, `ls[e]`: its piece is appended, and a mention line replaces the
      mention. */
  lemma ReplyStep(ls: seq<string>, k: nat, nicks: map<string, string>, uid2name: map<string, string>)
    requires k < |ls|
    ensures ReplyText(ls[..k + 1]) == ReplyText(ls[..k]) + ReplyPiece(ls[k])
    ensures ReplyAt(ls[..k + 1], nicks, uid2name)
      == if IsMentionLine(ls[k]) then Mention(MentionNick(ls[k]), nicks, uid2name) else ReplyAt(ls[..k], nicks, uid2name)
  {
    assert ls[..k + 1][..k] == ls[..k];
  }

  /** Without a mention line the reply carries no mention. */
  lemma {:induction false} ReplyAtNone(ls: seq<string>, nicks: map<string, string>, uid2name: map<string, string>)
    requires forall k :: 0 <= k < |ls| ==> !IsMentionLine(ls[k])
    ensures ReplyAt(ls, nicks, uid2name) == ""
  {
    if ls != [] {
      ReplyAtNone(ls[..|ls| - 1], nicks, uid2name);
    }
  }

  /** Only the last mention line of a reply counts: the ones before it are overwritten. */
  lemma {:induction false} ReplyAtLast(ls: seq<string>, j: nat, nicks: map<string, string>, uid2name: map<string, string>)
    requires j < |ls| && IsMentionLine(ls[j])
    requires forall k :: j < k < |ls| ==> !IsMentionLine(ls[k])
    ensures ReplyAt(ls, nicks, uid2name) == Mention(MentionNick(ls[j]), nicks, uid2name)
  {
    if j < |ls| - 1 {
      var init := ls[..|ls| - 1];
      assert init[j] == ls[j];
      forall k | j < k < |init| ensures !IsMentionLine(init[k]) {
        assert init[k] == ls[k];
      }
      ReplyAtLast(init, j, nicks, uid2name);
    }
  }

  /** The source's two loops over a quote reply: skip the tagged lines, take the quoted
      line, then gather reply text and the last mention. */
  method ReplyParts(content: seq<string>, nicks: map<string, string>, uid2name: map<string, string>)
    returns (quoted: string, at: string, reply: string)
    requires |content| >= 1
    ensures quoted == Quote(content).0
    ensures reply == ReplyText(content[Quote(content).1..])
    ensures at == ReplyAt(content[Quote(content).1..], nicks, uid2name)
  {
    quoted := "";
    var idx := 1;
    while idx < |content| && Contains(content[idx], TextTag)
      invariant 1 <= idx <= |content|
      invariant SkipTagged(content, idx) == SkipTagged(content, 1)
      decreases |content| - idx
    {
      idx := idx + 1;
    }
    if idx < |content| {
      quoted := Strip(content[idx]);
      idx := idx + 1;
    }
    assert idx == Quote(content).1;
    at, reply := GatherReply(content, idx, nicks, uid2name);
  }

  /** The second loop of a quote reply, from the first reply line `start` on. */
  method GatherReply(content: seq<string>, start: nat, nicks: map<string, string>, uid2name: map<string, string>)
    returns (at: string, reply: string)
    requires start <= |content|
    ensures reply == ReplyText(content[start..])
    ensures at == ReplyAt(content[start..], nicks, uid2name)
  {
    reply := "";
    at := "";
    var lines := content[start..];
    var idx := 0;
    while idx < |lines|
      invariant idx <= |lines|
      invariant reply == ReplyText(lines[..idx])
      invariant at == ReplyAt(lines[..idx], nicks, uid2name)
      decreases |lines| - idx
    {
      ReplyStep(lines, idx, nicks, uid2name);
      var line := lines[idx];
      if Contains(line, TextTag) {
        assert reply + ReplyPiece(line) == reply;
        idx := idx + 1;
        continue;
      }
      if StartsWith(line, "@") {
        var nick := Strip(Tail(Strip(line)));
        at := Mention(nick, nicks, uid2name);
        assert reply + ReplyPiece(line) == reply;
      } else {
        reply := reply + Strip(line);
      }
      idx := idx + 1;
    }
    assert lines[..idx] == lines;
  }

  // ---------------------------------------------------------------------------------------
  // Emoji tokens

  /** `re.match(r'\[\w+-\d+\]', line)`: a bracket, a word, a dash, digits and a closing
      bracket at the start of the line. `\w` cannot match the dash and `\d` cannot match the
      bracket, so the greedy runs never need to give anything back. */
  predicate IsTokenLine(line: string) {
    && 2 <= |line| && line[0] == '['
    && var w := Run(line, 1, WordClass);
    && w >= 1 && 1 + w < |line| && line[1 + w] == '-'
    && var d := Run(line, 2 + w, DigitClass);
    && d >= 1 && 2 + w + d < |line| && line[2 + w + d] == ']'
  }

  /** A non-empty run of `\w` characters. */
  predicate IsWordRun(s: string) {
    |s| > 0 && forall k :: 0 <= k < |s| ==> IsWordChar(s[k])
  }

  /** The shape `[` word `-` digits `]` followed by anything. */
  predicate TokenShape(line: string, w: string, d: string, rest: string) {
    IsWordRun(w) && IsDigits(d) && line == "[" + w + "-" + d + "]" + rest
  }

  /** A token line splits into the bracket, the word, the dash, the digits, the bracket and
      the rest of the line. */
  lemma TokenLineParts(line: string) returns (w: string, d: string, rest: string)
    requires IsTokenLine(line)
    ensures TokenShape(line, w, d, rest)
  {
    w := Span(line, 1, WordClass);
    d := Span(line, 2 + |w|, DigitClass);
    var a, b := 1 + |w|, 2 + |w| + |d|;
    rest := line[b + 1..];
    assert line[..1] == "[";
    assert line[a..a + 1] == "-";
    assert line[b..b + 1] == "]";
    assert line == line[..1] + line[1..a] + line[a..a + 1] + line[a + 1..b] + line[b..b + 1] + rest;
  }

  /** Every line of that shape is a token line. */
  lemma TokenShapeMatches(line: string, w: string, d: string, rest: string)
    requires TokenShape(line, w, d, rest)
    ensures IsTokenLine(line)
  {
    var n := |w|;
    assert line[0] == '[';
    assert forall j :: 1 <= j < 1 + n ==> line[j] == w[j - 1];
    assert line[1 + n] == '-';
    RunExact(line, 1, n, WordClass);
    assert forall j :: 2 + n <= j < 2 + n + |d| ==> line[j] == d[j - 2 - n];
    assert line[2 + n + |d|] == ']';
    RunExact(line, 2 + n, |d|, DigitClass);
  }

  /** `re.match(r'\[\w+-\d+\]', line)` succeeds exactly on the lines of that shape. */
  lemma TokenLineShape(line: string)
    ensures IsTokenLine(line) <==> exists w, d, rest :: TokenShape(line, w, d, rest)
  {
    if IsTokenLine(line) {
      var w, d, rest := TokenLineParts(line);
    }
    if exists w, d, rest :: TokenShape(line, w, d, rest) {
      var w, d, rest :| TokenShape(line, w, d, rest);
      TokenShapeMatches(line, w, d, rest);
    }
  }

  /** `any(re.match(...) for line in content_lines)`. */
  function HasTokenLine(ls: seq<string>): bool {
    ls != [] && (HasTokenLine(ls[..|ls| - 1]) || IsTokenLine(ls[|ls| - 1]))
  }

  /** The token lines, in order. */
  function TokenLines(ls: seq<string>): (r: seq<string>)
    ensures forall k :: 0 <= k < |r| ==> IsTokenLine(r[k])
  {
    if ls == [] then []
    else TokenLines(ls[..|ls| - 1]) + (if IsTokenLine(ls[|ls| - 1]) then [ls[|ls| - 1]] else [])
  }

  /** A block with a token line has a non-empty list of tokens, so that branch always emits. */
  lemma {:induction false} TokenLinesNonEmpty(ls: seq<string>)
    ensures HasTokenLine(ls) <==> TokenLines(ls) != []
  {
    if ls != [] {
      TokenLinesNonEmpty(ls[..|ls| - 1]);
    }
  }

  /** The source's `any` test, a loop over the block. */
  method AnyTokenLine(content: seq<string>) returns (found: bool)
    ensures found == HasTokenLine(content)
  {
    found := false;
    var k := 0;
    while k < |content| && !found
      invariant 0 <= k <= |content|
      invariant found == HasTokenLine(content[..k])
      decreases |content| - k
    {
      assert content[..k + 1][..k] == content[..k];
      found := IsTokenLine(content[k]);
      k := k + 1;
    }
    if found {
      HasTokenLineMonotone(content, k);
    } else {
      assert content[..k] == content;
    }
  }

  /** A token line in a prefix is a token line of the whole block. */
  lemma {:induction false} HasTokenLineMonotone(ls: seq<string>, k: nat)
    requires k <= |ls| && HasTokenLine(ls[..k])
    ensures HasTokenLine(ls)
    decreases |ls| - k
  {
    if k < |ls| {
      assert ls[..k + 1][..k] == ls[..k];
      HasTokenLineMonotone(ls, k + 1);
    } else {
      assert ls[..k] == ls;
    }
  }

  /** The source's loop collecting the token lines. */
  method CollectTokens(content: seq<string>) returns (emojis: seq<string>)
    ensures emojis == TokenLines(content)
  {
    emojis := [];
    for k := 0 to |content|
      invariant emojis == TokenLines(content[..k])
    {
      assert content[..k + 1][..k] == content[..k];
      if IsTokenLine(content[k]) {
        emojis := emojis + [content[k]];
      }
    }
    assert content[..|content|] == content;
  }

  // ---------------------------------------------------------------------------------------
  // Plain text

  /** The text of a `[文本]` message: tagged lines dropped, mention lines rendered, other
      lines kept as they are, all concatenated. */
  function PlainText(ls: seq<string>, nicks: map<string, string>, uid2name: map<string, string>): string {
    if ls == [] then ""
    else
      var last := ls[|ls| - 1];
      PlainText(ls[..|ls| - 1], nicks, uid2name)
      + (if Contains(last, TextTag) then ""
         else if StartsWith(last, "@") then Mention(Strip(Tail(last)), nicks, uid2name)
         else last)
  }

  /** The source's loop assembling the text of a `[文本]` message. */
  method PlainContent(content: seq<string>, nicks: map<string, string>, uid2name: map<string, string>)
    returns (text: string)
    ensures text == PlainText(content, nicks, uid2name)
  {
    text := "";
    for k := 0 to |content|
      invariant text == PlainText(content[..k], nicks, uid2name)
    {
      assert content[..k + 1][..k] == content[..k];
      var cl := content[k];
      if Contains(cl, TextTag) {
        continue;
      }
      if StartsWith(cl, "@") {
        text := text + Mention(Strip(Tail(cl)), nicks, uid2name);
      } else {
        text := text + cl;
      }
    }
    assert content[..|content|] == content;
  }

  /** `s[:150]` applied only when the text is longer than 150 characters. */
  function Truncate(s: string): (t: string)
    ensures |t| <= MaxText && |t| <= |s| && t == s[..|t|]
    ensures |s| <= MaxText ==> t == s
    ensures |s| > MaxText ==> t == s[..MaxText]
  {
    if |s| > MaxText then s[..MaxText] else s
  }

  // ---------------------------------------------------------------------------------------
  // Dispatch and rendering

  datatype Kind = Reply | Tokens | Sticker | Picture | Plain | Other

  /** The first test of the source's `if`/`elif` chain that the block passes. */
  function KindOf(content: seq<string>): Kind
    requires content != []
  {
    if Contains(content[0], QuoteTag) then Reply
    else if HasTokenLine(content) then Tokens
    else if Contains(content[0], StickerTag) then Sticker
    else if content[0] == "[" && |content| > 1 && StartsWith(content[1], "图") then Picture
    else if Contains(content[0], TextTag) then Plain
    else Other
  }

  /** `{msg_idx}. ` in front of a message. */
  function Numbered(idx: nat, text: string): string {
    NatToString(idx) + ". " + text
  }

  /** `{time} {user}/{uid}`: who wrote the message, and when. */
  function Speaker(h: Header, user: string): string {
    h.time + (" " + (user + ("/" + h.uid)))
  }

  /** The picture's caption: the lines after the `图` line joined by spaces, stripped. */
  function Caption(content: seq<string>): string {
    if |content| > 2 then Strip(JoinWith(content[2..], " ")) else ""
  }

  /** What a block says, written after the speaker: None when that kind's branch emits
      nothing. Mentions resolve through `nicks` and `uid2name`. */
  function Said(content: seq<string>, nicks: map<string, string>, uid2name: map<string, string>): Option<string>
    requires content != []
  {
    match KindOf(content)
    case Reply =>
      var (quoted, start) := Quote(content);
      var reply := ReplyText(content[start..]);
      var at := ReplyAt(content[start..], nicks, uid2name);
      if quoted != [] || reply != [] || at != [] then
        Some(" 说:[回复:" + quoted + "];" + at + ";" + Truncate(reply))
      else None
    case Tokens =>
      var emojis := TokenLines(content);
      if emojis != [] then Some(" 说:" + JoinWith(emojis, ";")) else None
    case Sticker =>
      if |content| > 1 then Some(" 说:[" + content[1] + "]") else None
    case Picture =>
      var caption := Caption(content);
      if caption != [] then Some("说:[图片] " + caption) else Some("说:[图片]")
    case Plain =>
      var text := Truncate(PlainText(content, nicks, uid2name));
      if text != [] then Some(" 说:" + text) else None
    case Other => None
  }

  /** The line a block renders to with number `idx`, written by `user` (the display name):
      `{idx}. {time} {user}/{uid}` and what the block says; the reply branch strips the
      whole line. */
  function Message(content: seq<string>, h: Header, user: string, nicks: map<string, string>,
                   uid2name: map<string, string>, idx: nat): Option<string>
    requires content != []
  {
    match Said(content, nicks, uid2name)
    case None => None
    case Some(text) =>
      var line := Numbered(idx, Speaker(h, user) + text);
      Some(if KindOf(content) == Reply then Strip(line) else line)
  }

  /** When each branch emits: a reply with a quote, text or mention; always for tokens and
      pictures; a sticker with a following line; a text message whose text is not empty;
      never for a block no test accepts. A branch that emits nothing does not fall through. */
  lemma MessageEmits(content: seq<string>, h: Header, user: string, nicks: map<string, string>,
                     uid2name: map<string, string>, idx: nat)
    requires content != []
    ensures Message(content, h, user, nicks, uid2name, idx).Some? <==> Said(content, nicks, uid2name).Some?
    ensures KindOf(content) == Reply ==>
      (Message(content, h, user, nicks, uid2name, idx).Some? <==>
        Quote(content).0 != [] || ReplyText(content[Quote(content).1..]) != []
        || ReplyAt(content[Quote(content).1..], nicks, uid2name) != [])
    ensures KindOf(content) in {Tokens, Picture} ==> Message(content, h, user, nicks, uid2name, idx).Some?
    ensures KindOf(content) == Sticker ==> (Message(content, h, user, nicks, uid2name, idx).Some? <==> |content| > 1)
    ensures KindOf(content) == Plain ==>
      (Message(content, h, user, nicks, uid2name, idx).Some? <==> PlainText(content, nicks, uid2name) != [])
    ensures KindOf(content) == Other ==> Message(content, h, user, nicks, uid2name, idx).None?
  {
    var m := Message(content, h, user, nicks, uid2name, idx);
    match KindOf(content)
    case Tokens =>
      TokenLinesNonEmpty(content);
      assert m.Some?;
    case Picture => assert m.Some?;
    case Other => assert m.None?;
    case _ =>
  }

  /** Text after a numbered lead stays after it. */
  lemma LeadOf(idx: nat, t: string, rest: string)
    ensures Numbered(idx, t + rest) == Numbered(idx, t) + rest
  {
  }

  /** A message line starts with its number and the header's timestamp, `{idx}. {time}`;
      the reply branch's final `strip()` cannot remove that lead. */
  lemma MessageLead(content: seq<string>, h: Header, user: string, nicks: map<string, string>,
                    uid2name: map<string, string>, idx: nat)
    requires content != [] && TimestampShape(h.time)
    ensures Message(content, h, user, nicks, uid2name, idx).Some? ==>
      StartsWith(Message(content, h, user, nicks, uid2name, idx).value, Numbered(idx, h.time))
  {
    var said := Said(content, nicks, uid2name);
    if said.Some? {
      var text := said.value;
      var tail := " " + (user + ("/" + h.uid));
      assert Speaker(h, user) + text == h.time + (tail + text);
      LeadOf(idx, h.time, tail + text);
      NumberedLead(idx, h.time, tail + text);
    }
  }

  /** A numbered timestamp leads the line, before and after `strip()`. */
  lemma NumberedLead(idx: nat, time: string, rest: string)
    requires TimestampShape(time)
    ensures StartsWith(Numbered(idx, time) + rest, Numbered(idx, time))
    ensures StartsWith(Strip(Numbered(idx, time) + rest), Numbered(idx, time))
  {
    var lead := Numbered(idx, time);
    var n := NatToString(idx);
    assert lead[0] == n[0] && lead[|lead| - 1] == time[18];
    DigitNotSpace(n[0]);
    DigitNotSpace(time[18]);
    StripKeepsLead(lead, rest);
    assert (lead + rest)[..|lead|] == lead;
    assert (lead + TrimEnd(rest))[..|lead|] == lead;
  }

  /** The source's `if`/`elif` chain over a non-empty block. */
  method RenderMessage(content: seq<string>, h: Header, user: string, nicks: map<string, string>,
                       uid2name: map<string, string>, idx: nat) returns (msg: Option<string>)
    requires content != []
    ensures msg == Message(content, h, user, nicks, uid2name, idx)
  {
    var who := Speaker(h, user);
    msg := None;
    if Contains(content[0], QuoteTag) {
      assert KindOf(content) == Reply;
      var quoted, at, reply := ReplyParts(content, nicks, uid2name);
      if quoted != [] || reply != [] || at != [] {
        reply := Truncate(reply);
        var said := " 说:[回复:" + quoted + "];" + at + ";" + reply;
        msg := Some(Strip(Numbered(idx, who + said)));
      }
      return;
    }
    var anyToken := AnyTokenLine(content);
    if anyToken {
      assert KindOf(content) == Tokens;
      var emojis := CollectTokens(content);
      if emojis != [] {
        var said := " 说:" + JoinWith(emojis, ";");
        msg := Some(Numbered(idx, who + said));
      }
    } else if Contains(content[0], StickerTag) {
      assert KindOf(content) == Sticker;
      if |content| > 1 {
        var said := " 说:[" + content[1] + "]";
        msg := Some(Numbered(idx, who + said));
      }
    } else if content[0] == "[" && |content| > 1 && StartsWith(content[1], "图") {
      assert KindOf(content) == Picture;
      var caption := "";
      if |content| > 2 {
        caption := Strip(JoinWith(content[2..], " "));
      }
      if caption != [] {
        var said := "说:[图片] " + caption;
        msg := Some(Numbered(idx, who + said));
      } else {
        msg := Some(Numbered(idx, who + "说:[图片]"));
      }
    } else if Contains(content[0], TextTag) {
      assert KindOf(content) == Plain;
      var text := PlainContent(content, nicks, uid2name);
      text := Truncate(text);
      if text != [] {
        var said := " 说:" + text;
        msg := Some(Numbered(idx, who + said));
      }
    }
  }
}
