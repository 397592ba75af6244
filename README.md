# Chat-log preprocessing of PersonaForge, modelled in Dafny

PersonaForge turns an exported group-chat log into training examples. Before any example is
generated, the log passes three text stages. This project models each stage as the Python
code writes it and proves what each stage promises.

1. **Emoji normaliser** (`train/emoji.py`, module `Emoji`).
   - `parse_emoji_table` reads a table of `type id meaning...` rows into a map from id to meaning.
   - `process_chat_log` walks the lines of an export. It collapses each two-line emoji, a
     `[表情]` marker followed by `-id`, `/meaning-id` or `meaning-id`, into one canonical
     `[meaning-id]` token.
2. **Transcript formaliser** (`train/formalize.py`, modules `Header`, `Dispatch`, `Formalize`).
   - `process_chat` reads message headers of the form `<timestamp> <user>[ / <group nick>] / <uid>`
     and the content block after each header.
   - It writes numbered lines: `{n}. {time} {user}/{uid} 说:...`, plus `{n}. [间隔{m}分钟]`
     gap lines between messages ten or more minutes apart.
   - Content is dispatched to reply, emoji-token, sticker, picture or text rendering. Mentions
     are resolved through the nickname map the loop builds and the `uid2name` table.
3. **Window parser and context extractor** (`train/create_pretrain.py`, `ChatParser`, module `Windows`).
   - `parse_chat_windows` cuts a windowed transcript into blocks opened by a rule of fifty `=`
     and `窗口 #<n>`. From each block it reads the header fields (id, start time, line range,
     split reason) and the message lines `{n}. {user}/{uid} 说:{text}`.
   - `extract_user_messages` gives, for every message of one user, the window id, position,
     content and the window's earlier messages as context.

Supporting modules:
- `Text` models the Python `str` operations the stages use: `strip`, `split(c)`, `split()`,
  `splitlines`, `join`, `startswith`, `in`, `isdigit`, `int` and `str` of a natural number.
  Strings are sequences of code points, as a Python `str` is.
- `Clock` models `datetime.strptime(t, "%Y-%m-%d %H:%M:%S")` as whole seconds since 0001-01-01
  on the proleptic Gregorian calendar. A date or time `strptime` rejects gives `None`.
- `Wrappers` holds `Option` and `Result`.

How the source is modelled:
- Every `for` and `while` loop of the source is a `method` with a `while` or `for` loop. Each
  method is proved equal to a recursive specification function, and the properties are lemmas
  about those functions. The list comprehension of `train/create_pretrain.py:75` and the
  generator inside the `join` of `train/create_pretrain.py:126-129` hold no loop variables of
  their own; they are the functions `Windows.MessageLines` and `Windows.Context`.
- The regular expressions are hand-written matchers: `Windows.Search` for `re.search`,
  `Header.ParseHeader`, `Windows.MatchLine`, `Emoji.MeaningId` and `Dispatch.IsTokenLine`.
  Each is tied to the match Python's engine finds by these members: `Windows.SearchSpec` and
  `Windows.SearchFirst`; `Header.UserEnd` and `Header.ParseHeaderText`; `Windows.UserEndSpec`
  and `Windows.MatchMessageLine`; the contract of `Emoji.MeaningId` together with
  `Emoji.LastDashDigit`; and `Dispatch.TokenLineShape`.

In these places the code does something a reader might not expect, and the model follows the code:
- Numbering is dense. `msg_idx` grows only when a line is appended, so the `k`-th output line
  carries number `k` (`Formalize.FormalizedNumbered`).
- A header whose content block is empty emits nothing. It still records its names in the
  nickname map and still writes a gap line when one is due (`Formalize.HeaderTurnAdds`).
- The formaliser's sticker test is a substring test on the first content line. The
  normaliser's marker test is an equality on the stripped line.
- The normaliser is not an identity on text without emoji. `splitlines` drops the final line
  break and turns `\r\n` and other line boundaries into `\n`. `Emoji.NoMarkerUnchanged` states
  exactly what is kept: the joined `splitlines` of the input.
- A timestamp that passes the header pattern but not `strptime` (month 13, say) makes
  `process_chat` raise. `Formalize.ProcessChat` returns `Err` with that timestamp.

## Model

| member | source | states |
|---|---|---|
| Text.StripSlice | train/emoji.py:30 | `strip()` returns a contiguous slice of its argument; everything cut from either end is whitespace |
| Text.StripEnds | train/emoji.py:30 | a non-empty stripped string starts and ends with a non-whitespace character |
| Text.SplitJoin | train/create_pretrain.py:74 | splitting on `c` a `c`-join of parts that contain no `c` gives back exactly those parts |
| Text.Split | train/emoji.py:10 | `split(c)` yields at least one part, and no part contains `c` |
| Text.WordsAreWords | train/emoji.py:12 | every field of `split()` is non-empty and free of whitespace |
| Text.SplitLinesNoBreak | train/emoji.py:25 | no line of `splitlines()` contains a line-boundary character |
| Text.ParseNatToString | train/create_pretrain.py:84 | `int()` of the decimal text of `n` (as `f"{msg_idx}"` writes it) is `n` again |
| Clock.ParseTime | train/formalize.py:33 | `strptime` succeeds exactly when the fields form a real date and time of day, and then gives its seconds |
| Clock.NextDateOrdinal | train/formalize.py:33-35 | the day after a valid date is valid, its day count is one more and its seconds are 86400 more, so the count numbers the calendar days consecutively |
| Clock.NewYear | train/formalize.py:33-35 | 1 January follows 31 December with a day count one higher |
| Clock.YearStep | train/formalize.py:33-35 | the days before year `y + 1` are those before `y` plus 366 for a leap year `y` and 365 otherwise (its helpers `Fours`, `Hundreds` and `FourHundreds` count the multiples of 4, 100 and 400 that year `y` adds) |
| Clock.YearLength | train/formalize.py:33 | the months of a year add up to 366 days in a leap year and 365 otherwise |
| Clock.LeapCount | train/formalize.py:33 | a year is leap exactly when it counts once among the multiples of 4, less those of 100, plus those of 400 (its helpers `HundredIsFour` and `FourHundredIsHundred` give the divisibility steps) |
| Clock.FirstOrdinal | train/formalize.py:33 | 0001-01-01 is day 1, as `date.toordinal()` counts |
| Clock.EpochOrdinal | train/formalize.py:33 | 1970-01-01 is day 719163 |
| Clock.MillenniumOrdinal | train/formalize.py:33 | 2000-01-01 is day 730120 |
| Clock.LeapYears | train/formalize.py:33 | February has 29 days in 2024 and 2000 and 28 in 2023 and 1900 |
| Clock.NextDay | train/formalize.py:33-35 | a time of day on an earlier date always has fewer seconds than one on a later date |
| Clock.SameDay | train/formalize.py:35 | on one day the difference in seconds is the difference of the clock readings |
| Header.UserEnd | train/formalize.py:20 | the lazy user group ends at the first ` / ` that leaves a non-empty group nick or is the uid separator, and at no earlier one |
| Header.ParseHeader | train/formalize.py:19-25 | a matched header has a timestamp-shaped time, a non-empty user, a digit-only uid and, when present, a non-empty group nick |
| Header.Chomp | train/formalize.py:20 | `$` matches at the end or before one final newline |
| Header.ParseHeaderSound | train/formalize.py:19-25 | a matched line is exactly its groups written back as a header, with at most one final newline |
| Header.ParseRestText | train/formalize.py:20 | the text after the timestamp, written from a user, optional group nick and uid, parses back to those three |
| Header.ParseHeaderText | train/formalize.py:19-25 | every well-formed header written out parses back to itself |
| Dispatch.ContentEndIsNextTimestamp | train/formalize.py:48 | the content block stops at the first line that starts with a timestamp, and no line inside it does |
| Dispatch.CollectContent | train/formalize.py:45-50 | the content lines are the stripped lines from the header to the next timestamp line, and the cursor ends there |
| Dispatch.SkipTagged | train/formalize.py:58-60 | the quote search skips exactly the `[文本]` lines and stops at the first other one |
| Dispatch.ReplyParts | train/formalize.py:56-81 | the quote, reply text and mention of a reply block equal their specifications `Quote`, `ReplyText` and `ReplyAt` |
| Dispatch.GatherReply | train/formalize.py:64-81 | the reply loop concatenates the plain lines and keeps the mention of the mention lines |
| Dispatch.ReplyStep | train/formalize.py:66-81 | one more reply line appends its piece to the text, and a mention line replaces the mention |
| Dispatch.ReplyAtLast | train/formalize.py:70-78 | the reply's mention is the one of its last `@` line |
| Dispatch.ReplyAtNone | train/formalize.py:65 | a reply without `@` lines has an empty mention |
| Dispatch.MentionCases | train/formalize.py:72-78 | `@nick` renders as the standard name of a nickname mapped to a uid the table knows, and otherwise as the nickname |
| Dispatch.TokenLineParts | train/formalize.py:91 | a token line is `[`, a non-empty `\w` run, `-`, a non-empty digit run, `]` and the rest of the line |
| Dispatch.TokenShapeMatches | train/formalize.py:91 | every line of that shape is a token line |
| Dispatch.TokenLineShape | train/formalize.py:91 | `re.match(r'\[\w+-\d+\]', line)` succeeds exactly on the lines of that shape |
| Dispatch.AnyTokenLine | train/formalize.py:91 | `any(...)` is true exactly when some content line starts with an emoji token |
| Dispatch.CollectTokens | train/formalize.py:93-96 | the emoji list is the token lines in order |
| Dispatch.TokenLines | train/formalize.py:95-96 | every collected line is a token line |
| Dispatch.TokenLinesNonEmpty | train/formalize.py:91-98 | some line is a token line exactly when the emoji list is non-empty, so `if emojis:` always holds in that branch |
| Dispatch.PlainContent | train/formalize.py:129-144 | the text of a `[文本]` message is its specification `PlainText`: tagged lines dropped, mentions rendered, other lines kept |
| Dispatch.Truncate | train/formalize.py:84-85 | text of at most 150 characters is unchanged, and longer text keeps exactly its first 150 characters |
| Dispatch.MessageEmits | train/formalize.py:82-152 | when each branch emits a line: a reply with a quote, text or mention; always for tokens and pictures; a sticker with a second line; text that is not empty; never for any other block |
| Dispatch.MessageLead | train/formalize.py:86-149 | every rendered message starts with `{n}. {time}`; the final `strip()` of a reply cannot cut into it |
| Dispatch.RenderMessage | train/formalize.py:56-152 | the dispatch chain renders the block to its specification `Message` |
| Formalize.RememberSpec | train/formalize.py:27-30 | after a header its user and group nick map to its uid, and every other nickname keeps its uid |
| Formalize.DisplayCases | train/formalize.py:42-44 | the shown name is the table's name for a known uid, else the header's user name, followed by ` / ` and the group nickname when that is non-empty |
| Formalize.DisplayByUid | train/formalize.py:42 | for a uid the table knows, the header's user name does not change the shown name |
| Formalize.GapSpec | train/formalize.py:34-39 | a gap line is due exactly after an emitted message and 600 or more seconds later; it carries the current number and the whole minutes |
| Formalize.NoteGap | train/formalize.py:34-39 | the gap line, when due, is appended and the counter advanced, and nothing changes otherwise |
| Formalize.HandleLine | train/formalize.py:16-21 | one turn of the loop is its specification `Turn` |
| Formalize.TurnCases | train/formalize.py:17-21 | a line that is no header is skipped; a header with a bad timestamp is an error; otherwise the cursor moves past the content block |
| Formalize.HandleHeader | train/formalize.py:21-152 | a header turn is its specification `HeaderTurn` |
| Formalize.EmitBlock | train/formalize.py:52-152 | the message of the block, if any, is appended and numbered, and `last_time` moves to the header's time |
| Formalize.HeaderTurnAdds | train/formalize.py:21-152 | a header turn appends the due gap line and then the block's message, sets the counter past both, moves `last_time` only on a message, and updates the nickname map |
| Formalize.BlockMessageShape | train/formalize.py:52-53 | an empty block emits nothing; an emitted message carries the current number and is no gap line |
| Formalize.AfterHeaderGap | train/formalize.py:34-39 | a header keeps the earlier lines, and the first line it adds is a gap line exactly when one is due |
| Formalize.AfterHeaderLastTime | train/formalize.py:89 | a header adds at most two lines, only the last of which can be a message; `last_time` moves exactly when a message is added |
| Formalize.AfterHeaderDense | train/formalize.py:38-39 | a header turn keeps the numbering dense: the counter is one past the line count and line `k` is numbered `k` |
| Formalize.FormalizedNumbered | train/formalize.py:12 | the output line at position `k` is numbered `k + 1` |
| Formalize.FormalizedNoHeader | train/formalize.py:153-154 | input with no header line gives no output |
| Formalize.FormalizedError | train/formalize.py:33 | the run fails only on a header whose timestamp `strptime` rejects, and reports that timestamp |
| Formalize.ProcessChat | train/formalize.py:9-155 | the loop computes its specification `Formalized` |
| Windows.SearchSpec | train/create_pretrain.py:52 | a search result is a match, and no position before it matches |
| Windows.SearchFirst | train/create_pretrain.py:56 | the search finds the first match |
| Windows.BlockEnd | train/create_pretrain.py:46 | the lazy `.*?` stops at the first rule that begins a later line, or at the end of the text |
| Windows.FindWindowsBlocks | train/create_pretrain.py:46-47 | every block `findall` returns opens with the rule, `窗口 #` and a digit, and holds no later rule |
| Windows.FoundBlockId | train/create_pretrain.py:52-53 | the id of a found block is the number right after its opening |
| Windows.IdOfFound | train/create_pretrain.py:52-53 | `window_id` is the whole digit run after the first `窗口 #` |
| Windows.TimeOfFound | train/create_pretrain.py:56-57 | `start_time` is the date and the clock after the first complete time label, joined by one space |
| Windows.RangeOfFound | train/create_pretrain.py:60-62 | `line_range` is the two numbers after the first complete range label |
| Windows.ReasonOfFound | train/create_pretrain.py:65-66 | `split_reason` is the rest of the line after the first reason label, stripped |
| Windows.FieldDefaults | train/create_pretrain.py:52-66 | a missing label gives id 0, start time `""`, range `(0, 0)` or reason `""` |
| Windows.UserEndSpec | train/create_pretrain.py:70 | the lazy user group ends at the first `/` that the rest of the pattern follows, within one line; when there is none, no such `/` exists |
| Windows.MatchLine | train/create_pretrain.py:70 | a matched line starts with a digit, and its position and uid groups are digits |
| Windows.MatchMessageLine | train/create_pretrain.py:70 | a line written as `{n}. {user}/{uid} 说:{text}`, with no `/` in the user, matches with exactly those groups |
| Windows.ReadMessageLine | train/create_pretrain.py:82-98 | such a line gives the message with number `n`, stripped user, uid and stripped text, `[图片]` for an empty text of a picture line, and nothing otherwise |
| Windows.ParseLine | train/create_pretrain.py:82-93 | a kept message comes from a matching line and has content |
| Windows.LineMessage | train/create_pretrain.py:74-80 | a line the comprehension drops, or a gap marker, gives no message anyway |
| Windows.FiltersRedundant | train/create_pretrain.py:75-80 | the comprehension and the gap test do not change which messages a block yields |
| Windows.MessageShape | train/create_pretrain.py:84-93 | every kept message has content, a digit uid, and no newline in its user name or content |
| Windows.ParsedClean | train/create_pretrain.py:93-101 | every parsed window has at least one message, and each message is clean as above |
| Windows.CollectMessages | train/create_pretrain.py:77-99 | the message loop computes `MessagesOf` over the block's lines |
| Windows.ParseBlock | train/create_pretrain.py:50-108 | one block's window is its specification `ParseWindow` |
| Windows.WindowsStep | train/create_pretrain.py:101-108 | one more block appends its window after the earlier ones when it has messages |
| Windows.ParseChatWindows | train/create_pretrain.py:43-110 | the parser computes `ParsedChat`: the windows of the found blocks that have messages, in order |
| Windows.Rendered | train/create_pretrain.py:126-129 | the context has one line `{username}: {content}` per earlier message, in order |
| Windows.EntryFor | train/create_pretrain.py:123-136 | an entry carries the window's id and the message's position and content; its context is empty exactly for a window's first message |
| Windows.ExtractUserMessages | train/create_pretrain.py:113-138 | the extractor computes `UserEntries` |
| Windows.UserEntriesSound | train/create_pretrain.py:117-120 | every extracted entry belongs to a message the chosen user wrote |
| Windows.UserEntriesComplete | train/create_pretrain.py:117-136 | every message the chosen user wrote gives an extracted entry |
| Windows.UserEntriesExact | train/create_pretrain.py:113-138 | an entry is extracted exactly when it belongs to a message of the chosen user |
| Windows.UserEntriesPlaced | train/create_pretrain.py:117-136 | entry `j` is the entry of the `j`-th message of the chosen user; those places rise strictly, window by window and message by message; and there are exactly as many entries as messages the user wrote |
| Windows.PlacesComplete | train/create_pretrain.py:117-120 | every message of the chosen user has its place in that list |
| Windows.ContextLines | train/create_pretrain.py:123-129 | splitting a context on newlines gives back the rendered earlier messages |
| Windows.ParsedContexts | train/create_pretrain.py:123-129 | the same holds for every message of every parsed window |
| Emoji.ParseEmojiTable | train/emoji.py:9-19 | the loop builds `TableOf` the rows of the stripped table |
| Emoji.TableOfPrefix | train/emoji.py:11-18 | one more row overwrites its id's meaning when it is well formed and changes nothing otherwise |
| Emoji.MalformedRowIgnored | train/emoji.py:15 | a row with fewer than three fields, or a second field that is not digits, leaves the table unchanged |
| Emoji.TableKeys | train/emoji.py:11-18 | an id is in the table exactly when some well-formed row defines it |
| Emoji.TableLastRowWins | train/emoji.py:18 | an id maps to the meaning of the last row that defines it |
| Emoji.LastDashDigit | train/emoji.py:47 | the greedy `(.+)` backtracks to the last dash that a digit follows |
| Emoji.MeaningId | train/emoji.py:57-60 | `(.+)-(\d+)` fails exactly when no dash with text before it and a digit after it precedes a newline; a match gives a non-empty meaning ending at the last such dash before the first newline, and an id that is the whole digit run after it |
| Emoji.StepAt | train/emoji.py:29-70 | a turn moves one or two lines; a one-line turn passes its line through; a two-line turn starts at a marker line and emits both lines verbatim or a single token |
| Emoji.PassLoop | train/emoji.py:27-70 | the `while` loop computes `Pass` for any turn of that shape |
| Emoji.ProcessChatLog | train/emoji.py:25-72 | the result is the normalised lines of `splitlines()`, joined by newlines |
| Emoji.NoMarkerUnchanged | train/emoji.py:68-72 | a log without marker lines comes back as its lines joined by newlines |
| Emoji.PassNoLonger | train/emoji.py:43-70 | the output has no more lines than the input |
| Emoji.PassSourcesIncrease | train/emoji.py:43-70 | output lines come from strictly increasing input positions, so order is kept |
| Emoji.PassTraced | train/emoji.py:29-70 | each output line is its source line verbatim, or a token for a marker line whose follow-up line is consumed |
| Emoji.DashIdCollapses | train/emoji.py:37-43 | a marker followed by `-id` becomes `[meaning-id]`, with `未知表情` for an unknown id, and two lines are consumed |
| Emoji.SlashConsumesTwo | train/emoji.py:46-54 | a marker followed by `/...` becomes one token when `/meaning-id` matches, and otherwise both lines are kept verbatim |
| Emoji.BareIdCollapses | train/emoji.py:57-64 | a marker followed by `meaning-id` becomes `[meaning-id]`, and two lines are consumed |
| Emoji.LoneMarkerPassesThrough | train/emoji.py:65-70 | a marker with no follow-up, or with one no branch accepts, passes through alone |

## Left out

- File I/O and the scripts' own entry points are not modelled. This covers the table literal
  and the read and write of the export in `train/emoji.py`, and the `__main__` block of
  `train/formalize.py`. The `name.json` load becomes the `uid2name` parameter of
  `Formalize.ProcessChat`.
- `CreateThink` and `main` in `train/create_pretrain.py` are not modelled. They call a remote
  language model, sleep between calls, and read and write JSON files.
- `Clock.ParseTime`: `datetime` objects and the float division by 60 are replaced by whole
  seconds. The `>= 10` minute test becomes a difference of at least 600 seconds. The `int()`
  of the minutes becomes Euclidean division, which agrees with truncation for the
  non-negative differences that reach it.
- Text.IsDigit: only ASCII digits count. Python's `\d`, `isdigit()` and `int()` also accept
  other Unicode digits.
- Text.IsWordChar: the regex class `\w` is approximated by ASCII letters and digits, `_`, and
  the CJK ideograph blocks.
- Python's regular-expression engine is not modelled. Each pattern the core uses has its own
  matcher, tied to the engine's match by the members listed in the introduction.
- The `else` branch of `train/emoji.py:62-63` cannot be reached, because the same pattern was
  matched on the line before. `Emoji.StepAt` leaves it out.
- Header.ParseHeader is applied to the already stripped line, as the source does. `Header.Chomp`
  models `$` accepting one final newline, which a stripped line never has.
- Formalize.HeaderTurnAdds states the message a header adds through `BlockMessage`, which is
  `Dispatch.Message` of the block. The contents of each kind of message are stated by the
  `Dispatch` lemmas, not repeated there.
- The formaliser writes lines that the window parser later reads. No property of the two stages
  together is stated, because the windowing step between them is not part of this model.
