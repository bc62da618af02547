# ai-report-bot: bot lifecycle and report pipeline in Dafny

This project models the core of `src/main.py` of a desktop tool. The tool runs a
Telegram bot. When someone presses the bot's "make a report" button, the tool takes a
screenshot, sends it with a saved instruction to Gemini, and replies with the screenshot
captioned by Gemini's report. The model covers four pieces of that file:

- the caption sanitiser: `escape_markdown` and the code-fence strip `replace("```", "")`
  (modules `Markup`, `Fences`);
- the report generator `generate_report_with_gemini`, which accumulates the streamed
  chunks in a loop (module `Report`);
- the report-button handler `handle_report_button`, a chain of checks and steps that
  sends messages to the chat (module `Pipeline`, a method that builds the outbox);
- the bot lifecycle and settings handlers, which update module globals (module
  `Lifecycle`, class `BotController` with one field per global and a record of the
  client calls made).

The foreign calls become parameters. The screenshot is an `Option<Bytes>`. The Gemini
response is a `StreamOutcome`: the chunk texts in arrival order, then a normal end or the
details of an exception. Whether `send_photo` raised is an `Option<string>`. File writes
are booleans, and a start attempt is a `StartOutcome`. The Russian and emoji message
texts are named constants with English wording.

Points where the code may surprise a reader, all modelled as written:
- `start_bot` does not stop a running session before it makes a new client. Only the
  Telegram token handler stops and then restarts.
- `stop_bot` keeps the client. A second stop therefore calls `stop_polling` again; it is
  not a no-op (`Lifecycle.StopTwice`).
- `stop_bot` waits at most five seconds for the worker, and the worker's `finally`
  clears the running flag whenever it runs. If it runs after a restart, the bot is
  reported stopped while the worker for the new token keeps polling
  (`Lifecycle.LateWorkerExit`).
- The handler treats empty screenshot bytes as a failed capture, just like `None`.
- The reserved set of `escape_markdown` does not contain the backslash, although
  Telegram's MarkdownV2 rules make the backslash an escape character (see Findings).

## Model

| member | source | states |
|---|---|---|
| `Fences.StripFences` | src/main.py:195 | the stripped text is never longer than the report, and its length drops by a multiple of three |
| `Fences.StripSplit` | src/main.py:195 | a character other than a backtick is kept and splits the strip: the text before it and the text after it are stripped on their own |
| `Fences.StripTickRun` | src/main.py:195 | a run of n backticks shrinks to n mod 3 backticks; with `StripSplit` this fixes the result of every run in the text |
| `Fences.StripLeadingTicks` | src/main.py:195 | a leading run of n backticks keeps n mod 3 of them, because the left-to-right scan removes non-overlapping fences |
| `Fences.StripLeavesNoFence` | src/main.py:195 | no "```" is left anywhere in the stripped text |
| `Fences.StripFenceFree` | src/main.py:195 | text with no "```" is left exactly as it is |
| `Fences.StripIdempotent` | src/main.py:195 | stripping the stripped text changes nothing |
| `Fences.StripKeepsText` | src/main.py:195 | every character other than a backtick is kept, in order |
| `Markup.EscapeMarkdown` | src/main.py:146-149 | the output is longer by exactly the number of reserved characters, and every reserved character in it has a backslash right before it |
| `Markup.UnescapeEscape` | src/main.py:148-149 | deleting each backslash that directly precedes a reserved character gives back the input exactly |
| `Markup.EscapeConcat` | src/main.py:149 | escaping works one character at a time: the escape of a concatenation is the concatenation of the escapes |
| `Markup.EscapePlain` | src/main.py:146-149 | text with no reserved character, backslashes included, is returned unchanged |
| `Markup.EscapeTwiceUnchangedIffPlain` | src/main.py:146-149 | escaping the escaped text again leaves it unchanged if and only if the input has no reserved character; otherwise it double-escapes |
| `Markup.ReadPlainEscape` | src/main.py:146-149 | for text without backslashes, Telegram's MarkdownV2 reads the escaped caption as exactly that text |
| `Markup.BackslashBreaksCaption` | src/main.py:148 | the report `\.` is escaped to `\\.`, which MarkdownV2 does not read as plain text |
| `Markup.EscapeMarkdownV2` | src/main.py:146-149 | with the backslash added to the reserved set, MarkdownV2 reads the escaped caption back as the input, for every input |
| `Report.ConcatAppend` | src/main.py:133-138 | appending one chunk to the stream appends its text to the report |
| `Report.ConcatSplit` | src/main.py:133-140 | the report of a split stream is the report of the first part followed by the report of the second |
| `Report.GenerateReport` | src/main.py:110-144 | with an empty key: the fixed error text and no request built. Otherwise: the request the code builds (gemini-2.0-flash, the instruction, the image as image/png; not sent if building the client raises) and then either the error prefix plus the exception details, or all chunk texts joined in arrival order |
| `Pipeline.Caption` | src/main.py:194-198 | the caption has no two adjacent backticks and no fence, and removing the inserted backslashes gives the fence-stripped report |
| `Pipeline.CaptionRendersStrippedReport` | src/main.py:194-205 | for a report without backslashes, Telegram reads the caption sent in MarkdownV2 as the fence-stripped report |
| `Pipeline.CaptionEscapesFinalStop` | src/main.py:194-198 | a sentence with no reserved character before its final full stop gets only that full stop escaped |
| `Pipeline.CaptionOfPlainReport` | src/main.py:194-198 | "Report: 50% done." becomes the caption "Report: 50% done\." |
| `Pipeline.HandleReportButton` | src/main.py:166-209 | an empty key gives only the key error, even when the instruction is empty too. Otherwise an empty instruction gives only the instruction error. Neither takes a screenshot. A failed or empty capture gives [progress, capture error] and the generator is not run. Otherwise the outbox is [progress, photo of the captured bytes with the caption of the report, in MarkdownV2], or [progress, send error] if send_photo raised. The generator is run exactly when the capture succeeded, and its request carries the key, the captured bytes and the saved instruction. A photo is only ever sent after the generator ran |
| `Lifecycle.BotController.constructor` | src/main.py:223-227 | the three stored values are loaded, and the bot is not running and has no client |
| `Lifecycle.BotController.AutoStart` | src/main.py:416-417 | the window starts the bot only when a Telegram token was stored |
| `Lifecycle.BotController.Start` | src/main.py:245-265 | with no token, only the status line changes. With a token: a new client and worker for it, and running; or, if the client constructor raised, the old client is kept and the bot is not running; or, if the thread did not start, the new client is kept and the bot is not running. It never stops polling |
| `Lifecycle.BotController.Stop` | src/main.py:267-275 | without a client nothing changes. Otherwise polling of that client is told to stop and the bot is not running; the client is kept |
| `Lifecycle.BotController.Toggle` | src/main.py:277-281 | stops when running, keeping the status line; starts otherwise, with the status line start_bot leaves (the start error when the start failed) |
| `Lifecycle.BotController.WorkerExited` | src/main.py:211-216 | however polling ended, the bot is reported not running, and nothing else changes |
| `Lifecycle.BotController.SaveInstruction` | src/main.py:319-336 | an empty field is refused. Otherwise the instruction in memory is replaced whether or not the write succeeds, and the status reports which |
| `Lifecycle.BotController.ClearInstruction` | src/main.py:371-385 | the instruction is emptied, whatever happens to the file |
| `Lifecycle.BotController.SaveGeminiToken` | src/main.py:356-369 | an empty field is refused. Otherwise the key in memory is replaced whether or not the write succeeds |
| `Lifecycle.BotController.SaveTelegramToken` | src/main.py:338-354 | an empty field is refused. Otherwise the token in memory is replaced before the write. Only when the write succeeds and the bot is running, the old client's polling is stopped and then a client for the new token is started |
| `Lifecycle.RestartWithNewToken` | src/main.py:338-354 | saving a second token while running stops the first client before the second is made, and the bot is reported running with the client for the second token; an unsaved or empty token changes nothing about the bot |
| `Lifecycle.StopTwice` | src/main.py:267-275 | a second stop on a stopped bot calls stop_polling again and the bot stays stopped |
| `Lifecycle.LateWorkerExit` | src/main.py:211-216 | if the old worker's `finally` runs after the restart, the bot is reported stopped although the worker for the new token was started and never told to stop |

Every method of `BotController` keeps the invariant `Valid()`: if the bot is reported
running, a client exists.

## Left out

- The Flet window (widgets, colours, button labels, `update_bot_status_ui`, the
  instruction preview): only the status line is kept, as the `Notice` value.
- Reading and writing the JSON files: each load is a string given to the constructor,
  and each write is a boolean outcome. Deleting the instruction file is not modelled
  because its failure is ignored.
- `take_screenshot_as_bytes` (pyautogui and PNG encoding): the capture is an
  `Option<Bytes>`.
- The genai client, the content objects and the streaming transport: the stream is a
  `StreamOutcome`. A chunk whose text is missing makes `+=` raise in the code; the model
  counts it among the exceptions in `StreamOutcome.raised`.
- `telebot` polling, handler registration and message matching, the `/start` welcome
  reply and its keyboard, `threading.Thread` and `join(timeout=5)`: these are network
  and concurrency code. Only their effects on the shared state are modelled, and worker
  exit is an event.
- `Lifecycle.BotController.Stop`: whether the bounded join finished is not modelled,
  because the code sets the bot to not running either way. `bot_thread` is not a field.
- Locking of the globals shared between the window and the worker: the code has none,
  and the model does not add it.
- `Pipeline.HandleReportButton` reads the key and the instruction once. The code reads
  the globals again when it calls the generator, so a `clear_instruction` between the
  check and the call would send an empty instruction to Gemini. That interleaving needs
  the concurrency that is left out.
- `Pipeline.HandleReportButton` treats only `send_photo` as able to fail. The
  `send_message` calls outside the `try` can raise too and then end the handler early,
  for example before the screenshot when the progress notice fails. That exception
  leaves the handler and is handled by the polling library, which is not modelled.
- The exact Russian and emoji message texts: named constants stand for them.

## Findings

| source | as written | input that shows it | evidently intended | confidence | as-written member | corrected member |
|---|---|---|---|---|---|---|
| src/main.py:148 | the reserved set of `escape_markdown` leaves out the backslash, which MarkdownV2 also requires to be escaped | report text `\.` becomes the caption `\\.`: MarkdownV2 reads an escaped backslash and then an unescaped full stop, so the caption is refused and the handler sends the error text instead of the photo (a Windows path such as `C:\new` would lose its backslash) | the backslash is escaped too, so the caption reads back as the report for every input | not executed | `Markup.BackslashBreaksCaption` | `Markup.EscapeMarkdownV2` |

`Pipeline.HandleReportButton` keeps the escape as the handler calls it, so the caption it
models is the one the code sends. The corrected escape is proved on its own.
