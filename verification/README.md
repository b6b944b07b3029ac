# homework_bot — a Dafny model of the status relay's decision logic

The bot polls the Practicum homework API, checks the shape of the answer,
turns the status of the most recent homework into a Russian notification and
hands it to a Telegram bot, forever, every ten minutes. This project models
the pure decisions in `homework.py`, lifted out of their HTTP, Telegram,
logging and clock shell:

- `JsonValue.Json` is the decoded JSON answer; Python exceptions are
  `Errors.PyError` values inside `Wrappers.Result`.
- `Catalog` is `HOMEWORK_STATUSES`.
- `Validator.CheckResponse` is `check_response`.
- `Formatter.ParseStatus` is `parse_status`. `Formatter.Decode` reads a
  notification back into the homework name and status, and is proved to be
  the inverse of the message template.
- `Tokens` is `check_tokens`: a loop (`CheckTokens`) and its recursive
  reference (`FirstMissing`).
- `Api` holds the network-free parts of `get_api_answer`. These are the
  `from_date` choice and the handling of a reply. The HTTP reply is an input.
- `PollLoop.PollOnce` is one pass of the loop's try-body. `Cycles` runs many
  passes over the fixed cursor, and `Main` adds the start-up checks. The clock
  readings and the server's replies are inputs, one `Tick` per pass.
- `Decimal` writes integers the way Python's f-strings do, with a parser
  that reads them back. It is used for status codes and numeric names.

Behaviour of the code worth noting, which the model keeps:

- A missing credential ends the program with `exit()`. With no argument this
  exits with status 0, not a failure status. The model records only that the
  run exits, and which token was missing.
- An absent `homework_name` is written into the notification as the text `None`.
- Besides the missing and the unexpected status, `parse_status` fails in two more ways. A record
  that is not a dict has no `.get`, which raises `AttributeError`. A list or
  dict `status` cannot be looked up in a dict, which raises `TypeError`.

## Model

| member | source | states |
|---|---|---|
| Catalog.Lookup | homework.py:22-26 | a key is found exactly when it is one of the three catalog keys, and what is found carries that key |
| Catalog.LookupKey | homework.py:22-26 | each catalog status is found under its own key |
| Catalog.VerdictInjective | homework.py:22-26 | the three verdict texts are pairwise different, so a verdict identifies its status |
| Decimal.IntToStringRoundTrip | homework.py:64 | the decimal text interpolated for a status code reads back as that code |
| Validator.CheckResponse | homework.py:72-84 | succeeds exactly for a dict whose `homeworks` is a list and then returns that list unchanged; a non-dict gives TypeError, a missing key gives KeyError, a non-list gives TypeError, checked in that order |
| Validator.CheckResponseReadsOneKey | homework.py:77-83 | entries of the answer other than `homeworks` never change the outcome |
| Validator.CheckResponseReturnsList | homework.py:83-84 | any list stored under `homeworks`, including `[]`, comes back as is |
| Formatter.ParseStatus | homework.py:87-98 | a non-dict record fails with AttributeError; a missing or null status fails with the "missing status" KeyError; a list or dict status fails with TypeError; any other value outside the catalog fails with the "unexpected status" KeyError; the parse succeeds exactly when the status is a catalog key, and then yields the template filled with the name text and that status's verdict |
| Formatter.TailIdentifiesStatus | homework.py:97-98 | a notification ends with the closing quote and verdict of its own status and of no other |
| Formatter.DecodeCompose | homework.py:98 | reading a notification back recovers the homework name and status it was built from |
| Formatter.ComposeDecode | homework.py:98 | every text the reader accepts is exactly the notification for what it reads |
| Formatter.ParseStatusRecoversRecord | homework.py:89-98 | a successful parse's message reads back as the record's own name text and the status its `status` names |
| Formatter.AbsentAndNullStatusAlike | homework.py:90-93 | an absent `status` and a null one give the same error |
| Formatter.ParseStatusReadsTwoFields | homework.py:89-90 | only the `status` and `homework_name` entries of a record affect the result |
| Formatter.ApprovedExample | homework.py:97-98 | an approved record named HW1 gives the notification for HW1 with the approved verdict |
| Api.FromDate | homework.py:51-52 | the requested `from_date` is the cursor when it is non-zero and the clock reading otherwise |
| Api.StatusCodeError | homework.py:61-64 | the error for a bad status code is an HTTPError whose message starts with the fixed prefix and, after it, reads back as the code |
| Api.GetApiAnswer | homework.py:53-69 | a failed request, a code other than 200 and a non-JSON body fail in that order; otherwise the answer is the decoded body |
| Api.StatusCodeErrorNamesCode | homework.py:64 | the message contains the code's decimal text, and two codes give the same error only if they are equal |
| Tokens.FirstMissing | homework.py:103-112 | nothing is missing exactly when every value is present; otherwise the name reported belongs to a missing value with every earlier value present |
| Tokens.CheckTokens | homework.py:108-112 | the scan returns true exactly when all values are present, and otherwise reports the first missing name |
| Tokens.FirstMissingOrder | homework.py:103-111 | on the configuration the report is the first missing of PRACTICUM_TOKEN, TELEGRAM_TOKEN, TELEGRAM_CHAT_ID, in that order; an empty string counts as present |
| PollLoop.PollOnce | homework.py:129-141 | a pass asks from the chosen date and sends at most one message; a fetch or validation error sends nothing and is the pass's failure; a successful pass sent one status notification; every text sent is a notification or "no updates" |
| PollLoop.PollOnceReportsFirst | homework.py:132-135 | with a non-empty list, the pass sends the first record's notification, or sends nothing and fails with its parse error |
| PollLoop.PollOnceIgnoresLater | homework.py:133-135 | records after the first never influence a pass |
| PollLoop.PollOnceNoUpdates | homework.py:136-139 | an empty list sends "Обновления отсутствуют" and then fails with a ValueError carrying the same text |
| PollLoop.PollOnceSucceedsIff | homework.py:130-135 | a pass succeeds exactly for a 200 reply with a well-shaped answer whose first record is a dict with a catalog status, and its message then reads back as that record's name and status |
| PollLoop.FirstOfTwoExample | homework.py:132-135 | of a rejected X followed by an approved Y only X's rejection is sent |
| PollLoop.Cycles | homework.py:128-143 | each pass is decided by its own clock reading and reply alone, so a failing pass never stops or changes later ones |
| PollLoop.SentKnownTexts | homework.py:128-143 | whatever the server answers, the loop only ever sends status notifications or the "no updates" text |
| PollLoop.CursorNeverAdvances | homework.py:127-130 | every pass of a run started at a non-zero time asks from that same start time |
| PollLoop.Main | homework.py:115-143 | the run exits at start-up exactly when a token is missing or the bot cannot start, naming the first missing token, and reporting a bot failure (not a missing token) when all three are present; otherwise every pass is the single-pass step over the start-up cursor and its own tick, and the messages sent are the start-up message followed by the passes' messages in order, each a status notification or the "no updates" text |

## Left out

- HTTP, Telegram and JSON decoding are not modelled: `requests.get`, the endpoint and `HEADERS`, `telegram.Bot`, `bot.send_message` and `response.json()` (homework.py:19-20, 40-46, 53-60, 65-69, 121-123). A reply is a `HttpReply` input; whether the bot starts is a boolean input. Delivery through `send_message` is modelled as never failing, since it swallows `TelegramError`.
- Logging (homework.py:29-37 and every `logger` call) is a side effect only.
- The environment and dotenv (homework.py:9-16) are not modelled. The three tokens are `Option<string>` inputs.
- The clock, `time.sleep(RETRY_TIME)` and the endless `while True` are not modelled as such. `int(time.time())` readings are inputs. A run is modelled as a finite prefix of passes, one `Tick` each. The 600-second pause between passes is not represented.
- Floating-point JSON numbers are not modelled. `Json` numbers are integers.
- Formatter.ParseStatus: a list- or dict-valued `homework_name` is written with a fixed placeholder instead of Python's `repr`. For a dict the model's `map` keeps no key order to print in; for a list the `repr` quoting and escaping of nested strings is not modelled.
- Api.GetApiAnswer: a failed request gives `TransportError` and a body that is not JSON gives `DecodeError`. The source's re-raise lines are ill-formed: `raise error(...)` (homework.py:57, 60) calls an exception instance and `JSONDecodeError(...)` (homework.py:69) lacks two arguments, so what Python actually raises in both places is a `TypeError`. The loop's handler catches every one of them alike, so only the logged text differs.
- The cursor is never advanced after homework.py:127. The model keeps that behaviour and states it in `PollLoop.CursorNeverAdvances` rather than correcting it.
