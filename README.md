# Sign-up list bot: a Dafny model of the session core

The bot runs one sign-up session ("list") in a Telegram chat. An admin
opens it with `/startlist [title]`. Members join by writing
`addlist <name>`. Admins tick entries one by one with an inline button
that always targets the first unticked entry. An admin closes the session
with `/endlist`, which sends the owner a plain-text report, edits the list
message one last time and clears the list. Every command and message
older than 30 seconds is ignored. A change to the list does not edit the
list message at once: it schedules one refresh, and several changes made
close together share that refresh.

The model has seven modules:

- `Base`: `Option`.
- `Strings`: the JavaScript string operations the handlers use. These are
  `split` on one character, `join` (after `slice(1)`), `startsWith` and
  lower-casing. `IndexOf` is the search for the separator inside `split`.
- `Numbers`: the decimal printing of integers in template literals, and
  `parseInt` with no radix. `parseInt` skips white space, reads a sign,
  switches to radix 16 after `0x`, reads the longest run of digits, and
  gives `NaN` (here `None`) when there is no digit.
- `Html`: `escapeHtml` as the chain of five global replacements it is. It
  also holds a per-character reference definition, and an entity decoder
  used to state the round trip.
- `Render`: the list message (`generateListText`), the keyboard
  (`generateKeyboard`) and the `tick_<userId>_<timestamp>` button payload
  with the press handler's parsing of it. The `forEach` that builds a text
  line by line is the function `Lines` over a range of entries.
- `Report`: the `/endlist` report text.
- `Listing`: the admin set, the freshness test, and the pure list
  transitions for `addlist` and for a tick press. It also holds the class
  `Session`. Its fields are the module-level variables of the source:
  open flag, entries, title, chat id and list message id, plus a
  `pushPending` flag for the scheduled refresh. Its methods are the four
  handlers and the firing of the refresh timer.

The text builders `GenerateListText` and `BuildReport` are methods with
the source's loops. Each is proved equal to a function (`ListText`,
`ReportText`), and the properties are proved about those functions. The
handlers are methods on `Session`. Each one states its whole outcome and
its new state for every branch, and keeps the invariant `Valid()`. Under
`Valid()`, no two entries share a non-admin user id, and a closed
session has an empty list and no pending refresh.

Where the code and its design description differ, the model follows the
code:

- A non-admin is refused when any entry of theirs exists, ticked or not.
  The design describes refusal only while an unticked entry exists.
- There is no tick or removal by position, and no group allow-list.

The press handler finds an entry by its (userId, timestamp) pair and
takes the first match. An admin who signs up twice within one
millisecond gets two entries with the same pair. When the first is
ticked, the button targets the second, but a press finds the first again
and changes nothing, so the button stays stuck.
`Listing.TwinEntriesLeaveButtonStuck` states this behaviour for any
list, and `Listing.ButtonTicksIffNoTwin` shows that a press advances the
button exactly when there is no such twin. For non-admin entries it
cannot happen (`Listing.NonAdminEntryHasNoTwin`).

## Model

| member | source | states |
|---|---|---|
| Strings.SplitPieces | server.js:175-176 | `split` gives one piece exactly when the separator does not occur, and no piece contains the separator |
| Strings.JoinSplit | server.js:175-178 | joining the pieces of a split with the same separator gives the original string back |
| Strings.SplitAtFirst | server.js:175-178 | when the separator occurs, joining all pieces but the first gives exactly the text after the first separator |
| Strings.SplitTail | server.js:175-176 | when the separator occurs there are at least two pieces, the first is the text before the first separator, and the rest is the split of the text after it |
| Strings.SplitPrefixed | server.js:202 | splitting `x + d + y`, where `x` has no `d`, gives `x` followed by the pieces of `y` |
| Strings.IndexOf | server.js:175 | the separator search inside `split`: the position found holds the separator, and no earlier position does |
| Strings.Split | server.js:175-176 | `split` on one character: the pieces between occurrences of the separator, at least one; its meaning is stated by `SplitPieces`, `SplitTail` and `JoinSplit` |
| Strings.Join | server.js:178 | `join` with one character between consecutive pieces; `JoinSplit` proves it undoes `Split` |
| Numbers.NatToString | server.js:88 | the decimal text of a natural number is non-empty, made only of digits, and starts with `0` only for zero |
| Numbers.IntToString | server.js:97 | `${i}` for an integer: non-empty, digits with an optional leading `-`; `IntToStringRoundTrip` proves `parseInt` reads it back |
| Numbers.ParseInt | server.js:203-204 | `parseInt(s)` without radix: skip white space, read a sign, radix 16 after `0x`, the longest digit run, none when there is no digit; its round trip with `IntToString` is `IntToStringRoundTrip` |
| Numbers.NatToStringValue | server.js:88 | reading the digits of a printed natural number gives the number back |
| Numbers.DigitPrefixAll | server.js:203-204 | `parseInt` reads every character of a run of digits |
| Numbers.ParseIntNatToString | server.js:203-204 | `parseInt` of the printed form of a natural number is that number |
| Numbers.ParseIntNegative | server.js:203-204 | `parseInt` of the printed form of a negative integer (`-` and digits) is that integer |
| Numbers.IntToStringRoundTrip | server.js:203-204 | `parseInt` of `${i}` is `i` for every integer |
| Html.ReplaceAllConcat | server.js:58 | a global replacement of one character distributes over concatenation |
| Html.ReplaceAllAbsent | server.js:58 | a global replacement changes nothing in text without that character |
| Html.EscapeHtml | server.js:57-59 | `escapeHtml` as the chain of five global replacements in the source's order; `EscapeHtmlIsPerChar`, `EscapeHtmlNoMarkup` and `UnescapeEscapeHtml` state what it achieves |
| Html.EscapeHtmlConcat | server.js:57-59 | escaping a concatenation is concatenating the escapes |
| Html.EscapeHtmlChar | server.js:57-59 | on one character the chain of replacements gives exactly that character's entity or the character itself; the `&` in later entities is never escaped again |
| Html.EscapeHtmlIsPerChar | server.js:57-59 | `escapeHtml` equals escaping each input character, in order, on its own |
| Html.EscapeHtmlNoMarkup | server.js:57-59 | escaped text contains no raw `<`, `>`, `"` or `'` |
| Html.UnescapeEscapeHtml | server.js:57-59 | decoding the five entities of an escaped text gives the original text back |
| Render.LinesSplit | server.js:85-89 | the lines accumulated over a range are those of its first part followed by those of its second part |
| Render.LinesAt | server.js:85-89 | entry `k` contributes exactly its own line, after the lines of the earlier entries and before those of the later ones |
| Render.LinesAgree | server.js:85-89 | the lines of a range depend only on the entries inside it |
| Render.ListLine | server.js:85-89 | the line of entry `i`: `${i+1}. `, the escaped name, ` ✅` when ticked, a blank line; `ListLinesNoMarkup` proves it is free of markup |
| Render.ListText | server.js:81-92 | the bold escaped title header, then the placeholder for an empty list or every entry's line in order; `GenerateListText` is proved equal to it and `ListTextEntry`/`ListTextAppend` state its shape |
| Render.GenerateListText | server.js:81-92 | the loop builds the header with the escaped title, then the placeholder for an empty list or one line per entry in order (`ListText`) |
| Render.ListTextEntry | server.js:81-92 | in a non-empty list, the text is the header, then the lines before entry `k`, then `${k+1}. <escaped name>` with ` ✅` exactly when ticked and a blank line, then the lines after it |
| Render.ListTextAppend | server.js:81-92 | appending an entry to a non-empty list appends its line to the text and leaves the text before it unchanged |
| Render.ListLinesNoMarkup | server.js:85-89 | the entry lines contain no markup characters, whatever the names |
| Render.ListTextMarkupOnlyAroundTitle | server.js:81-92 | in a non-empty list the only markup is the fixed `<b>`…`</b>` around the title; the escaped title and all entry lines are free of it |
| Render.FirstUnticked | server.js:96 | finds the earliest unticked entry, or none when every entry is ticked |
| Render.ListKeyboard | server.js:94-98 | `generateKeyboard`: no button when closed or all ticked, else one button for the first unticked entry; stated by `ListKeyboardSpec` |
| Render.TickPayload | server.js:97 | the `tick_<userId>_<timestamp>` payload; `TickPayloadRoundTrip` proves the press handler parses it back |
| Render.ParseTickPayload | server.js:202-204 | `split('_')` then `parseInt` of the second and third pieces, none for a missing piece; inverse of `TickPayload` by `TickPayloadRoundTrip` |
| Render.ListKeyboardSpec | server.js:94-98 | the keyboard is empty exactly when the session is inactive or every entry is ticked; otherwise it is one button `Tick <name>` for the earliest unticked entry |
| Render.IntToStringPlain | server.js:97 | the printed form of an integer contains no `_` |
| Render.TickPayloadSplit | server.js:201-202 | a payload built around two `_`-free parts starts with `tick_` and splits on `_` into `tick` and the two parts |
| Render.TickPayloadRoundTrip | server.js:201-204 | the payload `tick_<userId>_<timestamp>` of the button is recognised as a tick and parses back to the same pair |
| Report.BuildReport | server.js:131-141 | the loop builds the report header with the time and title, then `No participants.` or one line per entry in order (`ReportText`) |
| Report.ReportLine | server.js:138-139 | the report line of entry `i`: its 1-based number, the raw name, `@username` or `null`, and the user id. `ReportLineParts` proves only when the label is `null` and that the line ends with ` \| ID: <userId>`; the number, the raw name and the `@username` form are fixed by the function's body alone |
| Report.ReportText | server.js:131-141 | the report header with time and title, then `No participants.` or every entry's line in order; `BuildReport` is proved equal to it and `ReportEntry` states its shape |
| Report.ReportEntry | server.js:133-141 | in a non-empty list, the report is the header, then the lines before entry `k`, then entry `k`'s line, then the lines after it |
| Report.ReportLineParts | server.js:138-139 | the username column is `null` exactly when the entry has no non-empty username, and every line ends with ` \| ID: <userId>` |
| Listing.IsAdmin | server.js:56 | membership of the user id in the fixed admin list |
| Listing.IsStale | server.js:104 | the message is older than 30 seconds, on integer milliseconds; `IsStaleInSeconds` proves it agrees with the source's division by 1000 |
| Listing.IsStaleInSeconds | server.js:104 | the integer freshness test on milliseconds agrees exactly with `Date.now() / 1000 - msg.date > 30` |
| Listing.AddCommandName | server.js:172-178 | the name an `addlist` message signs up, or none; stated by `AddCommandNameSpec` |
| Listing.AddCommandNameSpec | server.js:172-178 | a message signs up a name exactly when its lower-cased text starts with `addlist` and it contains a space; the name is everything after the first space, and that space comes after the command word |
| Listing.CommandWordHasNoSpace | server.js:172-173 | a text whose lower-cased form starts with `addlist` has no space among its first seven characters |
| Listing.AddEntry | server.js:182-189 | the `addlist` list transition: refusal of a non-admin already present, else the new unticked entry appended; stated by `AddEntrySpec` |
| Listing.AddEntrySpec | server.js:180-189 | an add is refused exactly when a non-admin already has an entry; otherwise one unticked entry with the given name, user id, timestamp and username (an empty one stored as none) is appended at the end, and the earlier entries are unchanged |
| Listing.AddEntryKeepsNonAdminUnique | server.js:182-189 | adds keep every non-admin user id on at most one entry |
| Listing.FindEntry | server.js:205 | finds the first entry matching both the user id and the timestamp, or none; a `NaN` matches nothing |
| Listing.TickTarget | server.js:205-206 | the index a press ticks: the first entry matching the pair when it is unticked, none otherwise; `PressTickSpec` states its effect |
| Listing.PressTick | server.js:205-209 | the press transition on the entries; `PressTickSpec`, `PressTickIdempotent` and `PressTickKeepsNonAdminUnique` state its properties |
| Listing.PressTickSpec | server.js:205-209 | a press keeps length, order and every field but `ticked`; an entry is ticked afterwards exactly when it was before or it is the first entry matching the pair |
| Listing.PressTickIdempotent | server.js:205-209 | pressing the same button twice has the effect of pressing it once |
| Listing.PressTickKeepsNonAdminUnique | server.js:205-209 | a press keeps every non-admin user id on at most one entry |
| Listing.ButtonTicksFirstUnticked | server.js:201-209 | the keyboard's button carries a `tick_` payload, and pressing it ticks the earliest unticked entry and nothing else, when no earlier entry has the same pair |
| Listing.NonAdminEntryHasNoTwin | server.js:182-189 | in a list that keeps the uniqueness rule, no earlier entry shares a non-admin entry's pair |
| Listing.TwinEntriesLeaveButtonStuck | server.js:205-206 | when an earlier entry shares the pair of the first unticked entry, the button targets the unticked entry but a press finds the earlier, ticked twin and changes nothing |
| Listing.ButtonTicksIffNoTwin | server.js:201-209 | pressing the button ticks the first unticked entry exactly when no earlier entry shares its pair |
| Listing.TitleFrom | server.js:113 | the title is the command argument when present and non-empty, `New List` otherwise, and never empty |
| Listing.Session.constructor | server.js:48-53 | a fresh session is closed, with no entries, title `Event List`, no chat or message bound and no refresh pending |
| Listing.Session.StartList | server.js:103-121 | a stale or non-admin command changes nothing; with a session open it only replies that one is ongoing; otherwise the session opens with no entries, the argument or `New List` as title, the chat and message bound, and the message shows the empty list with no button |
| Listing.Session.EndList | server.js:126-163 | a stale or non-admin command changes nothing; with no session open it only replies `No active session to stop.`; otherwise the owner gets the report of the list as it was, the list message is edited to the list text plus `Session Closed` with no buttons, and the session is closed with an empty list and no refresh pending |
| Listing.Session.AddList | server.js:168-192 | a message is ignored when the session is closed, it has no text, it is stale or it is not a valid `addlist`; a duplicate non-admin gets the `already in the queue` reply and nothing changes; otherwise the entry is appended and a refresh is scheduled |
| Listing.Session.PressButton | server.js:197-212 | a closed session or a non-admin presser gets an alert and nothing changes; a payload not starting with `tick_` is not answered; otherwise the entries become the result of the tick, a refresh is scheduled exactly when an entry was ticked, and the press is answered |
| Listing.Session.FirePush | server.js:62-79 | the scheduled refresh clears the pending flag and, when one was pending and the session is still open, edits the list message to the current list text and keyboard; nothing else changes |

## Left out

- The Express keep-alive server, the token check and `process.exit` (server.js:1-23) are process setup with no session logic.
- Telegram API calls are represented only by the texts, keyboards and replies the handlers produce. This covers sending, editing, pinning and unpinning messages and answering callback queries. Their failures and `.catch` handlers are not modelled, and neither is the `polling_error` handler. The final edit of `/endlist` carries no `reply_markup`; the model records it as an empty keyboard.
- The `setTimeout`/`clearTimeout` debounce is the `pushPending` flag. `FirePush` is the timer firing; the 800 ms delay itself is not modelled.
- `Date.now()` is the `nowMs` parameter. It is read once per handler, so the freshness test and the new entry's timestamp in `addlist` use the same value; the source reads the clock twice.
- The `toLocaleString` date of the report is the opaque `time` parameter.
- The suspension at `await bot.sendMessage` in `/startlist` is not modelled. In the source, other events can run before the list message id is stored; the model treats the handler as atomic, and the sent message's id is the `sentMessageId` parameter.
- The `/startlist(?:\s+(.+))?` and `/endlist` regular expressions are not modelled. The title argument is an optional string parameter, and a handler is called only for the events it reacts to.
- Strings.Lower: lower-cases ASCII letters only, where `toLowerCase` follows Unicode. For the `addlist` prefix test the two agree. Only two non-ASCII characters lower-case to ASCII letters: the Kelvin sign becomes `k`, which is not in `addlist`, and `İ` (U+0130) becomes `i` followed by a combining dot, which stands where `addlist` needs `s`. So a text with a non-ASCII character among its first seven fails the test both ways.
- Numbers.ParseInt: reads integers exactly, without the rounding of JavaScript numbers beyond 2^53; `-0` is read as `0`.
- Listing.IsStaleInSeconds: compares with exact real division, where JavaScript divides in IEEE doubles. Both agree for millisecond clocks and second dates of realistic size, which are far below 2^53.
- Numbers.IntToString: prints every integer in plain decimal, where JavaScript switches to exponent notation (`1e+21`) from 10^21 on. Telegram user ids and millisecond timestamps are far below that bound, so the payloads agree.
- `isAdmin`'s `Number(id)` conversion is the identity here, because user ids are integers in the model.
