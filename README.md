# homework_bot: the poll-and-notify loop in Dafny

The bot asks the homework-review API for status changes since a watermark
time. It turns each changed homework into a chat notification and sends it to
Telegram. When a cycle fails, it sends an error text, but only if that text
differs from the last error it reported. This project models the bot's logic
from `homework.py`:

- the status catalog and `parse_status`;
- the response validator `check_response`;
- the decisions inside `get_api_answer`: the `from_date` fallback and the
  rejection of any HTTP status other than 200;
- the start-up credential check `check_tokens`;
- the loop in `main`, with its two variables `current_timestamp` (the
  watermark) and `last_error`.

Files and modules:

- `wrappers.dfy` (`Wrappers`): `Option` and `Result`.
- `errors.dfy` (`Errors`): every exception `main` can catch, and the text
  Python prints for it. `str(KeyError(x))` is the repr of `x`. The
  non-list branch of `check_response` raises a `str`, which Python turns into
  a `TypeError` that reads "exceptions must derive from BaseException". The
  non-200 `ValueError` text does not mention the status code.
- `api.dfy` (`Api`): the reply, response and homework-record shapes, with a
  missing key as `None`, plus `FromDate`, `GetApiAnswer` and `CheckResponse`.
- `status.dfy` (`Status`): `HomeworkStatuses`, `ParseStatus`, and a reader
  `ReadNotification` that recovers the name and status from a notification.
- `tokens.dfy` (`Tokens`): `CheckTokens`, a loop over the three credentials
  in their fixed order that stops at the first absent or empty one.
- `poll_loop.dfy` (`PollLoop`): the pure specification of one cycle (`Step`)
  and of a run of cycles (`Run`). It also holds the class `Bot`, whose
  `watermark`, `lastError` and `halted` fields are updated in place by
  `Cycle` and `Serve`. `Launch` is the start of `main`.
- `poll_props.dfy` (`PollLoopProps`): lemmas about notification order,
  watermark movement and error deduplication.

The outside world is passed in as parameters. Each cycle gets a `Tick`:

- the current time;
- the reply to its request: a connection failure, or an HTTP code with a
  decoded body or an undecodable one;
- the chat service's answers to the cycle's sends, in the order they are
  attempted. A send past the end of that list is delivered.

The ghost field `Bot.sent` records every message handed to the chat service.

Four points where the code behaves differently from what one might expect.
The model reproduces each one:

- The watermark is not monotonic. The code adopts whatever `current_date` the
  reply carries (`WatermarkCanMoveBack`).
- A failed send inside the loop is reported with the Telegram error's own
  text, wrapped in the usual failure prefix. The record's message is not
  sent again.
- An error notification that fails to send ends `main`. By then
  `last_error` already holds the new text.
- `last_error` is never cleared by a successful cycle
  (`RecoveryKeepsLastError`).

## Model

| member | source | states |
|---|---|---|
| `Api.FromDate` | homework.py:63 | the requested `from_date` is the watermark whenever the watermark is non-zero, and falls back to the current time exactly when the watermark is 0 (Python's `or` treats 0 as false); it is 0 only when the current time is 0 |
| `Api.GetApiAnswer` | homework.py:61-84 | the reply is accepted exactly when it is HTTP 200 with a decodable body, and the decoded response is returned unchanged; a transport failure, any other status and an undecodable body each fail with their own error |
| `Api.CheckResponse` | homework.py:87-109 | succeeds exactly when both `homeworks` and `current_date` are present and `homeworks` is a list, and then returns that list unchanged (an empty list is a success); a missing `homeworks` is reported before a missing `current_date`, and a non-list fails with the raised-string error |
| `Status.ParseStatus` | homework.py:112-137 | succeeds exactly when `homework_name` and `status` are present and the status is one of the three catalog keys; a missing name is reported before a missing status; an unknown status fails with both the status and the name |
| `Status.NotificationRoundTrip` | homework.py:23-27 | a notification built from any name and a catalog status reads back as that name and status; no name can make one verdict pass for another |
| `Status.ParseStatusReadsBack` | homework.py:135-137 | every notification `parse_status` produces identifies its record: reading it back gives the record's name and status |
| `Errors.PyRepr` | homework.py:100-102 | `str` of a `KeyError` is the repr of its argument: the text between matching quotes, single unless the text holds a single quote and no double quote |
| `Errors.EscapeAppend` | homework.py:100-102 | the repr escapes character by character, so escaping a concatenation is the concatenation of the escapes |
| `Errors.PyReprInjective` | homework.py:100-102 | different texts have different reprs, so nothing is lost when a key is printed |
| `Errors.Describe` | homework.py:98-133 | every KeyError prints as a quoted repr, and every non-200 status prints as the one fixed message that omits the code |
| `Errors.MissingKeysPrintApart` | homework.py:100-124 | two missing keys, in the response or in a record, print alike only when they are the same key |
| `Errors.UndocumentedStatusesPrintApart` | homework.py:126-133 | two undocumented statuses of one homework print alike only when they are the same status |
| `Errors.ErrorText` | homework.py:158-177 | every error notification is the fixed failure prefix followed by the failure's printed text, which can be read back from it |
| `Errors.ErrorTextsAgree` | homework.py:173-177 | two failures give the same notification text exactly when they print alike, so deduplication compares printed texts |
| `Tokens.CheckTokens` | homework.py:140-153 | answers true exactly when all three credentials are set and non-empty; otherwise it reports the first absent one in the order PRACTICUM_TOKEN, TELEGRAM_TOKEN, TELEGRAM_CHAT_ID, and every earlier one is present |
| `PollLoop.NotifyFrom` | homework.py:169-171 | the loop over the records never attempts more sends than there are remaining records |
| `PollLoopProps.NotifyInOrder` | homework.py:169-171 | the messages sent are the formatted records in list order; the loop stops exactly at the first record that fails to format or the first failed send, so records before it were sent and none after it; with no failure every record was sent |
| `PollLoop.Step` | homework.py:165-180 | a cycle sends an error notification only when its text differs from `last_error`, and then `last_error` becomes that text; otherwise `last_error` is unchanged; the loop ends only after an error notification |
| `PollLoop.Bot.constructor` | homework.py:162-163 | the loop starts with the watermark at the current time, an empty `last_error`, and nothing sent |
| `PollLoop.Bot.NotifyAll` | homework.py:169-171 | the in-place `for` loop sends exactly what `NotifyFrom` specifies and reports the failure that stopped it |
| `PollLoop.Bot.Cycle` | homework.py:166-180 | one pass updates the watermark, `last_error`, the halted flag and the send log exactly as `Step` specifies, and returns the `from_date` it requested |
| `PollLoop.Bot.Serve` | homework.py:165-180 | repeated cycles leave the state and the send log as `Run` specifies, stopping when an error notification fails to send |
| `PollLoop.Launch` | homework.py:156-163 | the bot starts exactly when every credential is present, with the watermark at the current time and no error recorded |
| `PollLoopProps.SuccessfulCycle` | homework.py:166-180 | a cycle that raises nothing had a 200 reply with both keys and a list, notified every record in order, sent no error, kept `last_error`, and moved the watermark to `current_date` |
| `PollLoopProps.FailedCycle` | homework.py:173-178 | a failed cycle keeps the watermark and leaves `last_error` equal to its text; it sends the text if and only if the text differs from the previous `last_error`; the loop ends if and only if that send fails |
| `PollLoopProps.RepeatedFailureAlertsOnce` | homework.py:175-177 | two consecutive failures with the same text produce one error notification at most, in the first cycle |
| `PollLoopProps.ChangedFailureAlertsAgain` | homework.py:175-177 | a failure whose text differs from the previous one is always reported |
| `PollLoopProps.BadStatusesShareOneText` | homework.py:68-79 | every non-200 status fails with the same text, which does not carry the code, so a 503 followed by a 500 is reported at most once |
| `PollLoopProps.RecoveryKeepsLastError` | homework.py:163-180 | a successful cycle does not clear `last_error`, so the same failure recurring after a recovery is not reported again |
| `PollLoopProps.FailedCycleRepolls` | homework.py:61-64 | a failed cycle keeps the watermark, so the next request asks from that watermark whatever the clock says, and from the same `from_date` as the failed request whenever the watermark is non-zero; a zero watermark re-polls from the new current time |
| `PollLoopProps.FirstFailureReported` | homework.py:163-177 | the first failing cycle after start is always reported, with its own text, because `last_error` starts empty |
| `PollLoopProps.DifferentMissingKeysReported` | homework.py:173-177 | the second of two consecutive cycles that miss different record keys is always reported, because the two keys print differently |
| `PollLoopProps.SuccessfulCycleMovesRequest` | homework.py:179-180 | after a successful cycle the next request asks from the reply's `current_date`, or from the current time when that date is 0 |
| `PollLoopProps.EmptyListAdvancesSilently` | homework.py:107-109 | a valid reply with an empty list sends nothing and still moves the watermark to `current_date` |
| `PollLoopProps.NonListHomeworksRejected` | homework.py:104-106 | a non-list `homeworks` fails before any notification, with Python's raised-string `TypeError` text, and keeps the watermark |
| `PollLoopProps.WatermarkCanMoveBack` | homework.py:179-180 | the watermark adopts an earlier `current_date` too: nothing keeps it monotonic |
| `PollLoopProps.PersistentFailureAlertsOnce` | homework.py:165-178 | over any run of cycles that all fail with one text, that text is reported at most once (at the start, and only if it is new), and the watermark never moves |

## Left out

- The HTTP request, the `Authorization` header and JSON decoding through
  `requests` (homework.py:72-84) are not modelled. Each is an input: a
  connection failure, a status code, or a decoded or undecodable body.
- The texts of `requests`, JSON-decoding and Telegram exceptions come from
  those libraries. Each is an opaque `cause` string.
- The Telegram bot object and `bot.send_message` (homework.py:47-58, 161) are
  external. Each send is a scripted `Delivered` or `SendFailed` outcome.
- Loading the environment and dotenv (homework.py:13-17), the logging setup
  (homework.py:29-44) and every logger call are configuration and I/O. The
  critical log in `check_tokens` becomes the `reported` token name.
- `time.time`, `time.sleep` and `sys.exit` are timing and process control.
  The current time is an input, sleeping is not modelled, and a failed start
  is `Launch` returning `null`.
- `main` loops forever. `Bot.Serve` and `Run` cover any finite run of cycles.
- The decoded body must be a JSON object. A top-level array would make
  `response['homeworks']` raise a different `TypeError`.
- Every element of `homeworks` must be an object. A non-object element would
  fail in `parse_status` with a `TypeError`.
- `homework_name` and `status` must be strings, and `current_date` must be an
  integer. A JSON `null` date, which Python also treats as falsy, is not
  modelled.
- `Errors.PyRepr` escapes only backslashes, the quote, tab, newline and
  carriage return. Python's `\x..` escapes for other non-printable characters
  are not modelled.
- Exceptions that are not `Exception`s, such as a keyboard interrupt, are out
  of scope.
- `PollLoop.NotifyFrom`: its own contract only bounds the number of sends.
  The full order property is stated and proved in
  `PollLoopProps.NotifyInOrder`.
