# cadrspace_bot, modelled in Dafny

cadrspace_bot is a Telegram bot. It keeps one message in one chat up to date: whether the
hackerspace is open and what its calendar holds for the coming week. At start-up it loads the
chat and message IDs it saved earlier. If either ID is still zero, it waits for a `/register`
command, takes the chat from it and posts a placeholder message whose ID it saves. Every 30
seconds it then fetches the open flag and the week's Google Calendar events and edits the
message with a freshly rendered text.

This project models the deterministic core of that loop:

- `schedule.dfy` (module `Schedule`): calendar items, and `sort.Slice` as an in-place
  insertion sort on an `array`. Lemmas show that the displayed order of start times does not
  depend on the order the calendar delivers the items in.
- `render.dfy` (module `Render`): `changeMsg`. It picks a banner, sorts the items, appends one
  bullet line per item in a loop or uses the fallback line, sends the edit, and classifies the
  edit error. Lemmas cover the exact layout, the line count, and the fallback case. Another
  lemma shows that a repeated refresh logs no failure. It holds provided items with equal
  starts share their end, and provided Telegram answers an unchanged edit with its "message is
  not modified" error.
- `cal_request.dfy` (module `CalRequest`): `genCalRequest`. It covers the one-week window and
  the rewrite of `+` as `%2B` in both RFC 3339 bounds. Lemmas prove the round trip and that no
  `+` is left.
- `registration.dfy` (module `Registration`): the start-up part of `main`. This is the check on
  the stored IDs and the scan of the update stream for the first exact `/register`.
- `storage.dfy` (module `Storage`): the `db` record, `load`'s choice between the stored record
  and the zero record, and `createMsg` as a method of a `Db` class whose fields it updates.
- `decimal.dfy` (module `Decimal`): Go's `%d` on integers. `createMsg` uses it for the
  placeholder text. The module includes a parse-back lemma.
- `text.dfy` (module `Text`): `Option` and character counting.

Time is an integer instant in nanoseconds. The clock and the three formatters are parameters:
RFC 3339 in the Europe/Moscow zone, the layout "2 Jan, Mon 15:04", and the layout "15:04".
Each formatter is a function from instant to string. The Telegram transport is also a
parameter: a function that answers a send with a message ID or an error text, and an edit with
an optional error text.

Some behaviour of the code differs from what one might expect. The model follows the code:

- The items are ordered with `sort.Slice`, which is not stable (cadrspace_bot.go:198). So
  nothing is promised about the order of items with equal starts. The payload is proved
  independent of the input order only when such items also share their end.
- The window's upper bound comes from a second reading of the clock
  (cadrspace_bot.go:163-164). It is "second reading + 7 days", not "first reading + 7 days".
  The two bounds are seven days apart only when both readings agree.
- The command must be the whole text of the message. Go's `$` without the multi-line flag
  matches only at the end of the text, so `/register` followed by a newline does not register.

## Model

| member | source | states |
|---|---|---|
| Schedule.SortByStart | cadrspace_bot.go:196-198 | afterwards the array is non-decreasing by start instant and is a permutation of its old contents |
| Schedule.SortedStartsAgree | cadrspace_bot.go:198 | any two sorted orderings of the same items show the same start instant at every position, so the displayed order of starts does not depend on the input order |
| Schedule.SortedSlotsAgree | cadrspace_bot.go:198 | if items that start together also end together, any two sorted orderings agree on start and end at every position |
| Render.Header | cadrspace_bot.go:188-191 | the banner ends in a blank line and begins with the open emoji exactly when the space is open |
| Render.Bullet | cadrspace_bot.go:201-203 | an item's line starts with "• " and ends with a newline |
| Render.Lines | cadrspace_bot.go:200-204 | the appended lines of a non-empty schedule end with a newline |
| Render.Body | cadrspace_bot.go:193-209 | the schedule part is never empty and ends with a newline exactly when there are items, so the fallback line has none |
| Render.Payload | cadrspace_bot.go:211 | the payload begins with the banner chosen by the open flag and has a non-empty remainder |
| Render.AppendBullets | cadrspace_bot.go:200-204 | the loop appends exactly the lines of the items, in array order |
| Render.ChangeMsg | cadrspace_bot.go:186-216 | the items end up sorted by start and permuted. The payload is the banner plus the schedule of the sorted items. The edit goes to the stored chat and message. A failure is logged exactly when the edit error exists and is not the "message is not modified" error |
| Render.LineAt | cadrspace_bot.go:200-204 | the k-th line of the schedule is the bullet of the k-th sorted item, placed right after the lines of the items before it |
| Render.LinesNewlines | cadrspace_bot.go:200-204 | with one-line formatted times, the lines hold exactly one newline per item |
| Render.BodyNewlines | cadrspace_bot.go:194-209 | zero items give exactly the fallback line, which has no newline; n items give n + 1 newlines (the heading's and one per line) |
| Render.EmptyScheduleDistinct | cadrspace_bot.go:194-208 | the fallback line differs from the schedule of any non-empty list of items |
| Render.OpenFlagRecoverable | cadrspace_bot.go:188-191 | equal payloads come from equal open flags |
| Render.LinesShowOnlyTimes | cadrspace_bot.go:200-204 | item summaries never reach the text: lists that agree on starts and ends produce the same lines |
| Render.PayloadIndependentOfInputOrder | cadrspace_bot.go:196-211 | whatever sorted order the sort leaves, the payload is the same for the same open flag and the same items, provided tied starts share their end |
| Render.RepeatedRefreshNotLogged | cadrspace_bot.go:211-215 | re-rendering the same status and events, in any order, sends the text the message already has, provided tied starts share their end. If Telegram answers that edit with "not modified", no failure is logged |
| Render.OpenOneEventExample | cadrspace_bot.go:188-204 | open status with one event formatted "1 Jan, Mon 10:00" and "12:00" renders as the open banner, the schedule heading and "• 1 Jan, Mon 10:00~12:00" plus a newline |
| CalRequest.EscapePlus | cadrspace_bot.go:166-168 | no `+` is left, the length grows by two for each `+`, and only characters of the input or of `%2B` appear |
| CalRequest.UnescapeEscape | cadrspace_bot.go:166-168 | for text without `%`, turning `%2B` back into `+` restores the original exactly |
| CalRequest.PercentBreaksRoundTrip | cadrspace_bot.go:166-168 | the round trip needs the no-`%` condition: a literal `%2B` comes back as `+` |
| CalRequest.GenCalRequest | cadrspace_bot.go:161-171 | the URL begins with the events endpoint of the calendar account followed by `timeMin=` |
| CalRequest.WindowBoundsRoundTrip | cadrspace_bot.go:163-170 | the URL is the endpoint, `timeMin`, `timeMax` and `key`. Both bound values are free of `&` and `+`. They unescape to the RFC 3339 text of the first clock reading and of the second reading plus 7×24 hours |
| Render.EditFailure | cadrspace_bot.go:213 | an edit reply counts as a failure only when there is an error; the "message is not modified" error is never a failure, and every other error text is |
| Registration.IsRegister | cadrspace_bot.go:227-228 | an update matches only when it has a message whose whole text is `/register`; no message, a trailing newline or an argument after the command does not match |
| Storage.Unregistered | cadrspace_bot.go:223 | a record needs registration unless both its chat ID and its message ID are non-zero; the zero record always needs it |
| Storage.Db.NeedsRegistration | cadrspace_bot.go:223 | the in-memory record needs the handshake unless both of its IDs are non-zero |
| Registration.FirstRegister | cadrspace_bot.go:225-228 | it finds the first update whose message text is exactly `/register`, with none before it, or reports that no update has it |
| Registration.NoiseIsSkipped | cadrspace_bot.go:225-235 | updates without the exact command in front of the stream only shift where the command is found |
| Registration.AwaitRegister | cadrspace_bot.go:225-236 | the loop stops at the first exact `/register` and skips everything before it |
| Registration.RegisterIfNeeded | cadrspace_bot.go:223-237 | the handshake runs only if either ID is zero. It stores the chat of the first command. On a successful send it stores the returned message ID and yields the saved record and the rest of the stream. On a send error it stores nothing more. Afterwards registration is still needed only if one of the two IDs is zero |
| Registration.Bind | cadrspace_bot.go:230-231 | the command's chat is stored. A successful send stores the returned message ID and yields the saved record and the rest of the stream; a send error leaves the message ID as it was and yields the error |
| Registration.Startup | cadrspace_bot.go:220-237 | the handshake is skipped exactly when the loaded record has both IDs non-zero, and then the record is kept. With nothing stored, or with a stored record that has a zero ID, it runs. It keeps waiting when no `/register` arrives. Otherwise it stores the chat of the first `/register`. If the send succeeds, it stores the returned message ID and yields that record and the rest of the stream; if the send fails, it keeps the loaded message ID and yields the send error |
| Storage.Load | cadrspace_bot.go:95-111 | `load` yields the stored record, or the zero record (which needs registration) when nothing can be read |
| Storage.PlaceholderText | cadrspace_bot.go:175 | the placeholder text starts with its fixed lead, and the chat ID can be read back from it |
| Storage.Db.CreateMsg | cadrspace_bot.go:173-184 | it sends the placeholder to the stored chat and keeps the chat ID. On success it stores the returned message ID and saves the record; on a send error the message ID is unchanged |
| Decimal.Format | cadrspace_bot.go:175 | the `%d` text is non-empty and starts with `-` exactly for negative numbers |
| Decimal.ParseFormat | cadrspace_bot.go:175 | the `%d` text of an integer reads back to that integer |

## Left out

- Telegram and HTTP I/O (`getBot`, `getJSON`, the HTTP client; cadrspace_bot.go:62-79, 113-141) are not modelled. Transport results are parameters.
- `getJSON` and the parsers panic or exit on a network error, a non-200 status or a malformed payload (cadrspace_bot.go:117-159). So a failed fetch ends the process instead of skipping one refresh. This path is not modelled.
- `parseStatus` and `parseCal` (cadrspace_bot.go:143-159) are not modelled: their outputs are the renderer's inputs, an open flag and an array of items. Each event's `timeZone` field is never read by the bot and is left out.
- `save` and the gob file (cadrspace_bot.go:81-111) are not modelled: the saved record is returned instead of being written. A failure to write it ends the process and is also not modelled.
- `time.Now`, `time.LoadLocation` and Go's layout formatting are parameters. Zone tables and locale formatting are not modelled.
- The inline-query goroutine (cadrspace_bot.go:240-262) is left out because it is concurrent and only builds a Telegram API struct. `Registration.RegisterIfNeeded` returns the part of the update stream it would read.
- The 30-second ticker loop (cadrspace_bot.go:265-274) is left out because it is timing only. Each tick is one call of `Render.ChangeMsg`.
- logrus logging (cadrspace_bot.go:31-35 and the log calls) is left out. The only modelled trace of it is whether an edit failure is logged.
- Registration.AwaitRegister: works on a finite prefix of the update stream. Reaching its end stands for the bot still waiting, because the Go loop blocks on the channel.
- Render.PayloadIndependentOfInputOrder: requires items with equal starts to have equal ends, because `sort.Slice`'s order among ties is unspecified. The model does not pin down the exact permutation Go's pattern-defeating quicksort would pick.
- Render.RepeatedRefreshNotLogged: requires items with equal starts to have equal ends, for the same reason. The model does not capture that Go's sort, given the same items in the same order, deterministically leaves the same tie order.
- IDs: Go's `int` for `MessageID` is modelled as 64 bits. No arithmetic is done on IDs, so wrap-around does not arise.
