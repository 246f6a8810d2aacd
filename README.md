# Life Tracker chat and newsletter core, modelled in Dafny

The Life Tracker demo (repository `gemini_multimodal_demo`) is a chat assistant. It keeps a conversation
history, sends the history and each new text or audio input to a Gemini model, and records the model's
text parts as model turns. A thin HTTP client talks to an agent backend. The client builds the message
parts of a chat request. It picks the last streamed event that carries text. It maps 404 responses of
the metrics and subscription calls to defaults. It refuses to unsubscribe without a secret key. A
newsletter module greets the user, reports how many log entries they have made, checks the SMTP
credentials, and picks implicit TLS or STARTTLS by port. The database schema fixes which columns may
be NULL and which task statuses are allowed.

Modules, one per file:

- `Base` (`base.dfy`): `Option`, `Result`, bytes, the audio MIME type, and Python truthiness of an optional string.
- `PyText` (`pytext.dfy`): the Python string built-ins the core relies on: `isspace`, `split()[0]`,
  `split('@')[0]`, `strip`, `int()`, `str(int)` and `splitlines()`.
- `Json` (`json.dfy`): JSON values and the `key in obj` / `obj[key]` lookup.
- `Models` (`models.dfy`): the SQLAlchemy records of `models.py`, the status validator, and the id order
  of `User.tasks`.
- `Chat` (`chat.dfy`): `utils.py`. The history is the class `ConversationHistory`, whose `turns` the method
  `GetChatResponse` extends in place. That method is proved equal to the function `Respond`, and the
  lemmas state what `Respond` does.
- `ApiClient` (`api_client.dfy`): `api_client.py`. The chat call is a method. Its line scan is proved equal
  to `FinalEvent`, "the event of the last qualifying line".
- `Newsletter` (`newsletter.dfy`): `newsletter.py`, as pure functions.

Python arguments that may be `None` are `Option` values. The newsletter's `user_name` is a string in
which `""` stands for both `None` and the empty name; both are falsy and take the email branch.

A few outside calls become function parameters:

- the Gemini model call (`generate`);
- file reading (`readFile`);
- base64 encoding (`base64`);
- JSON decoding (`decode`);
- SHA-256 hex digests (`sha256Hex`);
- the HTTP transport (`send`);
- the SMTP session (`smtp`).

The uuid of a session, the environment variables and today's date are plain arguments. HTTP status
handling follows current httpx: `raise_for_status` raises for every status outside 200-299.

The code keeps the user turn it has already appended when the model call fails, raises, or returns no
candidates (`Chat.FailureKeepsUserTurn`).

## Model

| member | source | states |
|---|---|---|
| Chat.ConversationHistory.StartNewChat | utils.py:42-44 | a new chat history is empty |
| Chat.AssembleHistoryContents | utils.py:49-56 | the loop yields exactly `HistoryContents`: the contents of the user and model turns, in history order |
| Chat.HistoryContents | utils.py:49-56 | at most one model-input item per history turn, and every item is text |
| Chat.HistoryContentsAppend | utils.py:52-56 | the contents of a concatenated history are the concatenation of the contents |
| Chat.HistoryContentsSkips | utils.py:53-56 | a turn whose role is neither "user" nor "model" contributes nothing |
| Chat.HistoryContentsAllConversational | utils.py:52-56 | a history of user and model turns passes every turn's content, one item per turn, in order |
| Chat.NonEmptyTexts | utils.py:100-103 | at most one kept text per part, and every kept text is non-empty |
| Chat.NonEmptyTextsMembers | utils.py:101-103 | a string is kept as a reply text iff it is non-empty and is the text of some part |
| Chat.EmptyAnswerIffNoText | utils.py:100-106 | the reply is empty iff no part has a non-empty text |
| Chat.ConcatLength | utils.py:100-103 | concatenating non-empty texts gives at least one character per text |
| Chat.Interpret | utils.py:89-110 | an exception gives the error reply, no candidates or an empty/missing part list gives the apology, otherwise the kept texts of the first candidate |
| Chat.FirstCandidateOnly | utils.py:92 | candidates after the first never affect the reply |
| Chat.ModelTurns | utils.py:104 | one model turn per kept text, same order and content |
| Chat.Respond | utils.py:46-110 | the model is called iff the prompt or the audio path is truthy; without a call the reply is the no-input reply and the history is unchanged; with one the old history is a proper prefix of the new |
| Chat.RespondShape | utils.py:46-106 | no input: the no-input reply, no model call and the history unchanged; a truthy prompt wins over audio; the model input is the history contents then the prompt, or then the audio instruction and the audio/wav part; the history gains the user turn then one model turn per kept text, after an unchanged prefix |
| Chat.ReplyCases | utils.py:69-110 | the reply is one of the three fixed strings or the concatenation of the model's kept texts |
| Chat.FailureKeepsUserTurn | utils.py:59-110 | when the model output gives an apology, the reply is the apology or the error reply and the history grew by the user turn alone |
| Chat.TurnKeepsHistoryConversational | utils.py:52-104 | a history of user and model turns stays so after a turn, so the next turn passes every earlier turn's content to the model |
| Chat.GetChatResponse | utils.py:46-110 | on the in-place history: the reply, the model input and the new history are exactly those of `Respond` on the old history |
| Chat.AppendModelTurns | utils.py:100-106 | the loop returns the concatenation of the non-empty texts and appends one model turn for each |
| ApiClient.ReadJson | api_client.py:26-27 | a status outside 2xx raises with that status; otherwise the body decodes or a JSON decode error is raised |
| ApiClient.AudioPartHasNoText | api_client.py:84-89 | the audio part has no "text" key |
| ApiClient.SessionRequest | api_client.py:53-63 | a POST to `/apps/gemini_adk_demo/users/<id>/sessions/<session id>` whose body carries the user's id, email and name |
| ApiClient.RunRequest | api_client.py:92-106 | a POST to `/run_sse` whose payload names the app, the user by `str(user_id)` and the session, carries a user message with exactly the given parts, and turns streaming off |
| ApiClient.RequestParts | api_client.py:74-90 | a text part iff the prompt is truthy, placed first; an audio part carrying the base64 of the file bytes, placed last, iff the path is truthy; some part has text iff the prompt is truthy |
| ApiClient.RunRequestNamesUser | api_client.py:92-101 | for an id that `str` can write, the run payload's `user_id` is a string that `int()` reads back as the id, and it is the user segment of the session URL |
| ApiClient.LineEvent | api_client.py:118-120 | a line starting with "data:" gives the decoding of the rest of the line after that 5-character prefix; any other line gives None |
| ApiClient.CarriesText | api_client.py:121-123 | only an object whose `content` is an object can carry text |
| ApiClient.FinalEvent | api_client.py:111-127 | a found event always has content.parts with a text part; no lines give None |
| ApiClient.FinalEventNoneIff | api_client.py:111-127 | the result is None iff no line is a data line whose decoded event has content.parts with a part holding "text" |
| ApiClient.FinalEventIsLastQualifying | api_client.py:117-127 | the result is the event of the last qualifying line |
| ApiClient.FinalEventHasLastQualifying | api_client.py:117-127 | a non-None result is the event of some last qualifying line |
| ApiClient.FinalEventAppend | api_client.py:117-127 | a qualifying line in a later block of lines overrides everything earlier |
| ApiClient.IrrelevantLine | api_client.py:118-126 | a line that is not data, fails to decode, lacks content or parts, or has no text part never changes the result |
| ApiClient.ScanEvents | api_client.py:116-127 | the nested loops over `splitlines()` and the parts compute `FinalEvent` of the lines |
| ApiClient.ScanOfTerminatedLines | api_client.py:116 | a body of newline-terminated lines is scanned line by line as written |
| ApiClient.GetChatResponse | api_client.py:65-127 | an id too large for `str` raises ValueError before any request; otherwise the session request for `test-session-<uuid>` is sent first; if it fails, nothing else is sent and its error is the result; otherwise the run request with `RequestParts` follows and a non-2xx status raises, else the result is the scan of its body |
| ApiClient.GetRecentMetrics | api_client.py:169-177 | a limit too large for `str` raises ValueError with no request; otherwise one GET with the limit in the query, where 404 gives None and any other status goes through raise-or-decode |
| ApiClient.GetSubscriptionStatus | api_client.py:179-186 | one GET; 404 gives `{"subscribed": false}`, any other status goes through raise-or-decode |
| ApiClient.OnlyNotFoundIsRecovered | api_client.py:169-186 | both calls succeed iff the status is 404 or a 2xx with a JSON body; the metrics call also needs a limit that `str` can write |
| ApiClient.UnsubscribeFromNewsletter | api_client.py:188-199 | a missing or empty secret raises ValueError with no request; otherwise one POST to the URL ending in the SHA-256 hex of email followed by secret |
| Newsletter.GreetingName | newsletter.py:34 | an empty name gives the email up to its first '@' (the whole email without one); a non-empty name gives its first whitespace-separated word, and raises IndexError iff it is all whitespace |
| Newsletter.Insight | newsletter.py:37 | the sentence is the fixed prefix, decimal digits without a leading zero whose value is the count, and the fixed suffix |
| Newsletter.InsightDeterminesCount | newsletter.py:33-37 | the insight sentence determines the number of log entries it reports |
| Newsletter.Page | newsletter.py:39-58 | the fixed head, the greeting name, the fixed middle, the insight and the fixed tail, at their exact positions |
| Newsletter.PageDeterminesInsight | newsletter.py:39-58 | pages with the same greeting are equal only if their insight sentences are |
| Newsletter.HtmlContent | newsletter.py:28-59 | it raises iff the greeting raises; otherwise it is the page with the greeting name and the insight for `len(input_log)` |
| Newsletter.HtmlContentReportsCount | newsletter.py:33-37 | two pages for the same user are equal only if the logs have the same length |
| Newsletter.PlanSend | newsletter.py:66-92 | incomplete iff any of the five settings is missing or empty; a port `int()` rejects fails; otherwise the port, implicit TLS exactly on 465, the host, user, password, sender and recipient, and the From "Life Tracker Newsletter <sender>", To and Subject |
| Newsletter.SendEmail | newsletter.py:61-98 | True iff the settings are complete, the port is an integer and the SMTP session completes; incomplete settings always give False |
| Newsletter.PortChoosesTransport | newsletter.py:83-92 | port 465 selects implicit TLS and every other integer port STARTTLS |
| Newsletter.SeparatorPortIsNotSent | newsletter.py:76-98 | a port led by one of U+001C..U+001F, which `int()` rejects, is never delivered and the send returns False |
| Newsletter.OverlongPortIsNotSent | newsletter.py:76-98 | a port of more than 4300 digits, leading zeros included, is rejected by `int()`, never delivered, and the send returns False |
| Newsletter.Subject | newsletter.py:118 | the subject is the fixed prefix followed by the formatted date |
| Newsletter.SendNewsletterForUser | newsletter.py:100-126 | no sender address gives the error record; otherwise it raises iff the page does; "success" iff the email was sent, and the message names the recipient in both cases |
| Newsletter.MissingSenderSkipsEverything | newsletter.py:114-116 | without a sender address the result depends on neither the name, the log nor the SMTP session, so nothing is generated or sent |
| Models.InvalidStatusMessage | models.py:52-54 | the ValueError text lists the three allowed statuses joined by ", " |
| Models.ValidateStatus | models.py:50-55 | accepts exactly "open", "in_progress" and "completed", returning the status unchanged; otherwise a ValueError with the message |
| Models.DefaultStatusAccepted | models.py:49-52 | the default status "open" passes the validator |
| Models.UpperCaseStatusRejected | models.py:52-54 | any status with an upper-case letter is rejected, so case variants fail |
| Models.NewTask | models.py:43-58 | an absent status defaults to "open"; a given status is accepted iff allowed and is then the stored status; deadline and completed_at stay optional; a created task has a valid status |
| Models.SetStatus | models.py:50-55 | assigning a status validates it and changes nothing else |
| Models.SetStatusKeepsValid | models.py:50-55 | a task after a successful status assignment still has a valid status |
| Models.NewNewsletterLog | models.py:64-70 | a newsletter log is stored iff both user_id and content are given; otherwise a NOT NULL violation |
| Models.OwnedBy | models.py:47-62 | the user's tasks are exactly the rows with that user id |
| Models.InsertById | models.py:62 | inserting into an id-ordered list keeps it ordered and adds exactly that task |
| Models.SortById | models.py:62 | the result is ordered by id and is a permutation of the input |
| Models.TasksOf | models.py:60-62 | `User.tasks`: ordered by ascending id; a permutation of the user's rows, and contains a task iff it is one of them |
| PyText.FirstWord | newsletter.py:34 | None iff the string is all whitespace; otherwise the first maximal non-whitespace run |
| PyText.BeforeFirst | newsletter.py:34 | a prefix with no '@' that stops at the first '@' or the end |
| PyText.NatToString | newsletter.py:37 | non-empty decimal digits with no leading zero whose value is the number |
| PyText.IntToString | api_client.py:94 | a '-' exactly for a negative number, then digits without a leading zero whose value is the magnitude |
| PyText.StrRaisesIffLarge | api_client.py:94 | `str(i)` raises ValueError exactly when the magnitude of `i` is at least 10 ** 4300 |
| PyText.NatToStringLength | api_client.py:94 | a natural number has at most k decimal digits iff it is below 10 ** k |
| PyText.ParseInt | newsletter.py:77 | parses iff what remains after `int()`'s whitespace and an optional sign is a decimal literal of at most 4300 digits, underscores not counted; a negative result has a '-' sign; all-whitespace text fails |
| PyText.ParseSigned | newsletter.py:77 | stripped text parses iff it is an optional sign and a decimal literal of at most 4300 digits; a negative result has a '-' sign |
| PyText.ParseIntSkipsSpace | newsletter.py:77 | digits with any run of `int()` whitespace on either side read as the number they denote when there are at most 4300 of them, leading zeros included, and are rejected when there are more |
| PyText.ParseIntRejectsSeparator | newsletter.py:77 | text led by one of U+001C..U+001F, which `isspace` counts as whitespace, does not parse |
| PyText.ParseIntOfIntToString | api_client.py:94 | `int(str(n)) == n` for every integer that `str` can write |
| PyText.IntToStringInjective | api_client.py:94 | different ids give different decimal strings |
| PyText.SplitLines | api_client.py:116 | no line contains a line break, and there are no lines exactly for the empty text |
| PyText.SplitLinesOfTerminated | api_client.py:116 | `splitlines()` of lines joined and terminated by "\n", "\r\n" or "\r" gives back the lines |

## Left out

- app.py (the Streamlit UI) and database.py (connection and engine set-up) are not part of this model.
- Logging everywhere, and the Gemini generation settings and safety settings, which do not affect the modelled results.
- The network, the model call, file reading, base64, JSON decoding, SHA-256, uuid and SMTP are function parameters or arguments. Exceptions raised by the HTTP transport and by file reading are not modelled. A failed JSON decode is modelled: `decode` returns None, which `ApiClient.ReadJson` turns into the uncaught JSONDecodeError of `response.json()` and the line scan skips as its `except` clause does. A failing model call in `Chat` and a failing SMTP session in `Newsletter` are modelled, as the code catches both.
- Opening an audio file that does not exist raises in both chat calls; the model assumes the file can be read.
- async/await is modelled as sequential calls.
- The `api_client.py` wrappers that only raise for status and decode are covered by `ApiClient.ReadJson`: `get_or_create_user`, `load_*`, `add_*_and_persist`, `update_*_and_persist` and `subscribe_to_newsletter`. Their URLs and bodies are not modelled one by one. `create_session`'s body is modelled inside `ApiClient.SessionRequest`.
- ApiClient.CarriesText: an event that is not a JSON object, or whose `content` is not an object or whose `parts` is not an array, is treated as not qualifying. Python would raise a TypeError or fall back to substring tests on strings for some of these shapes.
- ApiClient.HasText: a part that is not an object counts as having no text. In Python a null, number or boolean part raises an uncaught TypeError, and a string part qualifies when it contains the substring "text".
- JSON numbers are integers; floating-point values are not modelled.
- PyText.ParseInt: accepts ASCII digits, a sign, single underscores between digits and surrounding whitespace. The whitespace is what `int()` skips: " \t\n\v\f\r" and the non-ASCII `isspace` characters, but not U+001C to U+001F. It does not accept the other Unicode decimal digits that Python's `int()` accepts. The digit limit is CPython's default of 4300 (`sys.int_info.default_max_str_digits`); a limit changed with `sys.set_int_max_str_digits` or `PYTHONINTMAXSTRDIGITS` is not modelled.
- PyText.IntToString: it is total; the ValueError that `str()` raises past 4300 digits is the separate predicate `PyText.StrRaises`, which the API calls check before formatting. The limit is the default one, as for `ParseInt`. The message `PyText.StrLimitMessage` is CPython 3.12's wording.
- PyText.IsSpace: covers the ASCII and Latin-1 whitespace and the Unicode separators Python's `str.isspace` treats as space, listed explicitly rather than taken from the Unicode database.
- `_get_email_credentials` reads the environment and logs a warning; the model takes the five settings as a `Newsletter.Credentials` record.
- The subject's date is given as an already formatted string; `strftime('%B %d, %Y')` is not modelled.
- MIME assembly is modelled as the From/To/Subject/body record `Newsletter.Message`, not as its serialized text.
- Newsletter.SendEmail: which SMTP step failed (connect, STARTTLS, login, sendmail) is folded into the one boolean of `smtp`.
- Models: `created_at` server defaults are an argument (`now`). The foreign key to `users` is not enforced. An explicit `status=None` on a task is not distinguished from omitting it.
