# Appointment scheduler assistant: a verified model of the request pipeline

The assistant takes free-form text or a photo of a written request and asks an external
language model for a normalised appointment (department, date, time, time zone). The
model's answer is passed through a sanitiser and a JSON parse with a fallback. Whatever
text the model returns, the caller gets either the parsed value or the fixed "needs
clarification" record. A failed model call is an error: `processInput` passes it on, and the
handler answers 500 with "Internal error processing request". This project models that pipeline in Dafny and proves what it guarantees:

- `PromptComposer` (prompt_composer.dfy). The Asia/Kolkata timestamp is assembled from the
  formatter's parts by a fold over a map. The system instruction is the fixed sentences
  joined by single spaces, with the timestamp spliced in once.
- `AiService` (ai_service.dfy). The answer sanitiser `cleanJsonText` trims, drops a
  leading ` ```json ` (in any letter case) with the white space after it, then a leading
  ` ``` `, then a trailing ` ``` `, and trims again. A text can lose a tagged fence and then
  a bare one. `parseModelJson` either passes the parsed value through or falls back.
  `processInput` builds the request: it fails on a missing key or a failed file read, and
  it lays out the content parts in order.
- `SchedulerController` (scheduler_controller.dfy). `handleSchedule` validates the input and
  rejects with 400 when there is none. It passes the service's reply through with 200, maps
  a thrown error to 500, and attempts to delete the upload on both paths.
- `SchedulerRoutes` (scheduler_routes.dfy). The stored upload name is the clock reading, a
  "-" and the sanitised original name. The MIME filter is the "image/" prefix test. The size
  limit is 5 MiB.
- `Text` (text.dfy) holds the JavaScript string behaviour the rest relies on: `trim`, the
  white-space set of `trim` and `\s`, and `join`. `Wrappers` (wrappers.dfy) holds `Option`
  and `Result`.

Foreign calls are parameters of the operations that make them:
- `JSON.parse` is `parse: string -> Option<Json>`, where None stands for a thrown SyntaxError.
- The model call is `generate: ModelRequest -> Option<string>`, where None stands for a
  rejected call.
- The base64 file read is `readBase64: string -> Option<string>`.
- The handler's call into the service is `service: ServiceCall -> ServiceOutcome`.
- The environment variables (`GEMINI_API_KEY`, `GEMINI_MODEL`), the formatter's output for
  the current instant, and `Date.now()` are plain inputs.

Three properties of the code that the model keeps as they are:
- `parseModelJson` applies no shape check: any value `JSON.parse` returns is passed
  through, including a number or `null`. `ParseModelJson` passes it through too.
- The model call has no timeout or cancellation, so neither does the model.
- The `finally` in `handleSchedule` covers only the service call, so the 400 path deletes
  nothing. That path is only taken when there is no image path, so nothing is left behind.

## Model

| member | source | states |
|---|---|---|
| `AiService.BuildNeedsClarification` | src/services/aiService.js:6-10 | the record has status "needs clarification", message "Ambiguous date/time or department", and raw_text equal to the given text, or "" when it is absent |
| `PromptComposer.IsoFromParts` | src/services/aiService.js:29 | the line-29 template over the last value of each part type; it has no contract of its own, and `GetKolkataIsoString`, `IsoOfFormatterParts` and `IsoLayout` state what it gives |
| `PromptComposer.GetKolkataIsoString` | src/services/aiService.js:24-29 | folding the parts into an object (a later part of a type overwrites an earlier one), then filling the template, gives exactly `IsoFromParts(parts)`; a type that never occurs prints "undefined" |
| `PromptComposer.LastValueFound` | src/services/aiService.js:24-27 | a part whose type no later part repeats is the one the fold keeps |
| `PromptComposer.IsoOfFormatterParts` | src/services/aiService.js:12-29 | for the en-CA formatter's part list, the "literal" separators never reach the result, which is year-month-dayThour:minute:second+05:30 |
| `PromptComposer.IsoLayout` | src/services/aiService.js:29 | with padded fields the timestamp has 25 characters, in the layout `YYYY-MM-DDTHH:MM:SS+05:30` with each field at its fixed offset |
| `PromptComposer.PromptUnfolds` | src/services/aiService.js:32-45 | `join(" ")` places the role sentence, one space, the timestamp sentence, one space, then the fixed sentences joined by spaces |
| `PromptComposer.BuildSystemPrompt` | src/services/aiService.js:32-45 | joining the sentences with single spaces gives the fixed head, the timestamp verbatim, then the fixed tail |
| `PromptComposer.PromptShape` | src/services/aiService.js:32-45 | the instruction is a fixed 75-character head, the timestamp verbatim, and a fixed tail; it depends on the timestamp only through that one occurrence |
| `PromptComposer.PromptCarriesTimestamp` | src/services/aiService.js:29-34 | for padded fields, characters 75 to 99 of the instruction are exactly the 25-character timestamp |
| `AiService.PromptAgreesWithClarification` | src/services/aiService.js:39-40 | the instruction's ambiguity rule names the same status and message that the fallback record carries |
| `Text.Trim` | src/services/aiService.js:50 | the result of `trim` is empty or begins and ends with a character that is not white space, and is no longer than its argument |
| `Text.TrimShape` | src/services/aiService.js:50 | every string is white space, then its trim, then white space |
| `Text.TrimIdempotent` | src/services/aiService.js:54 | trimming a trimmed string changes nothing |
| `Text.TrimEmptyIff` | src/services/aiService.js:54 | the trim is empty exactly when the string is all white space |
| `AiService.StripJsonFence` | src/services/aiService.js:51 | removing a leading "```json" in any case and the white space after it leaves a suffix of the text |
| `AiService.StripOpeningFence` | src/services/aiService.js:52 | removing a leading "```" leaves a suffix of the text |
| `AiService.StripClosingFence` | src/services/aiService.js:53 | removing a trailing "```" leaves a prefix of the text |
| `AiService.Unfence` | src/services/aiService.js:51-53 | the three replacements applied in source order; it has no contract of its own, and `UnfenceWindow`, `StripsKeep` and the fence lemmas state what it keeps |
| `AiService.UnfenceWindow` | src/services/aiService.js:51-53 | the three replacements together keep a contiguous window of their argument |
| `AiService.StripsKeep` | src/services/aiService.js:51-53 | text that neither begins nor ends with three backticks passes the three replacements unchanged |
| `AiService.CleanJsonText` | src/services/aiService.js:47-55 | an empty answer gives ""; the result never begins or ends with white space and is no longer than the answer |
| `AiService.CleanBlank` | src/services/aiService.js:47-55 | an answer made only of white space cleans to "" |
| `AiService.CleanIsInfix` | src/services/aiService.js:49-54 | cleaning only removes characters: the result is a contiguous piece of the answer |
| `AiService.CleanPlain` | src/services/aiService.js:49-54 | when the trimmed text neither begins nor ends with three backticks, cleaning is just trimming |
| `AiService.CleanBothFences` | src/services/aiService.js:49-54 | "```" or "```json" in any case, white space, the text, white space, "```" cleans to the trim of the text |
| `AiService.CleanOpeningFenceOnly` | src/services/aiService.js:49-54 | an opening fence and white space in front of the text, with no closing fence, clean away to the trim of the text |
| `AiService.CleanClosingFenceOnly` | src/services/aiService.js:49-54 | white space and a closing fence after the text, with no opening fence, clean away to the trim of the text |
| `AiService.ParseModelJson` | src/services/aiService.js:57-65 | the parsed value comes back unchanged, whatever its shape, exactly when the cleaned text is non-empty and parses; otherwise the result is the clarification record with the fallback text; it never throws |
| `AiService.ParseBlank` | src/services/aiService.js:57-59 | an answer of white space only yields exactly the clarification record with raw_text equal to the fallback, whatever the parser would do |
| `AiService.ParseIgnoresFences` | src/services/aiService.js:57-65 | a fenced answer, in each of the three fence forms, gives the same result as the text inside the fences |
| `AiService.ModelName` | src/services/aiService.js:4 | the configured model name when set and non-empty, otherwise "gemini-flash-latest" |
| `AiService.ContentParts` | src/services/aiService.js:80-94 | "Input text: " plus the text comes first exactly when the text is truthy; the image marker and then the inline data come last exactly when an image was read; the MIME type defaults to "image/png"; without an image there is no inline data |
| `AiService.ImageData` | src/services/aiService.js:85-86 | the base64 read of the image path when the path is truthy, and none otherwise; it has no contract of its own, and `CollectParts` and `ProcessInput` state the outcomes of a failed read |
| `AiService.CollectParts` | src/services/aiService.js:80-94 | pushing the parts one by one gives `ContentParts`; a failed file read is an error instead |
| `AiService.ProcessInput` | src/services/aiService.js:67-109 | a missing or empty key fails with "GEMINI_API_KEY is not configured" before any request is built or sent; a failed image read fails before sending; otherwise exactly one request is sent, carrying the instruction for the current timestamp, the content parts, 1024 output tokens and the JSON response type; a rejected call is an error; an answer is parsed with the caller's text, or "", as fallback |
| `AiService.FallbackEchoesText` | src/services/aiService.js:107-108 | a clarification from the service carries the caller's text, or "" when there was none |
| `SchedulerController.BuildNeedsClarification` | src/controllers/schedulerController.js:4-8 | the record has status "needs clarification", the given message, and raw_text equal to the given text, or "" when it is falsy |
| `SchedulerController.SameRecordAsService` | src/controllers/schedulerController.js:4-8 | with the ambiguity message, the controller's record equals the service's record |
| `SchedulerController.RequestText` | src/controllers/schedulerController.js:11 | a string body text is trimmed; an absent or non-string field gives "" |
| `SchedulerController.RequestTextIsTrim` | src/controllers/schedulerController.js:11 | the body text is the request text with white space on either side |
| `SchedulerController.RequestTextStable` | src/controllers/schedulerController.js:11 | normalising the text a second time changes nothing |
| `SchedulerController.HandleSchedule` | src/controllers/schedulerController.js:10-29 | with no text and no image: 400 with "No input provided" and raw_text "", the service not called, nothing deleted; otherwise the service is called once with the trimmed text, the path and the MIME type; a returned value is sent unchanged with 200; a thrown error gives 500 with "Internal error processing request" and the trimmed text; deletion of the upload is attempted, on both paths, exactly when the service was called with an image path |
| `SchedulerController.ImageSuffices` | src/controllers/schedulerController.js:12-17 | a request with an uploaded image is never rejected for missing input |
| `SchedulerController.TextSuffices` | src/controllers/schedulerController.js:11-17 | a request whose text is not all white space is never rejected for missing input |
| `SchedulerRoutes.SafeName` | src/routes/schedulerRoutes.js:13 | same length in UTF-16 code units; every unit of `[a-zA-Z0-9._-]` stays in place and every other unit becomes "_" |
| `SchedulerRoutes.SafeNameIsSafe` | src/routes/schedulerRoutes.js:13 | the sanitised name consists of permitted units only |
| `SchedulerRoutes.SafeNameHasNoSlash` | src/routes/schedulerRoutes.js:13 | the sanitised name contains no "/" |
| `SchedulerRoutes.SafeNameFixedIff` | src/routes/schedulerRoutes.js:13 | a name is left unchanged exactly when all its units are permitted |
| `SchedulerRoutes.SafeNameIdempotent` | src/routes/schedulerRoutes.js:13 | sanitising twice is sanitising once |
| `SchedulerRoutes.Decimal` | src/routes/schedulerRoutes.js:13 | the clock reading is written as decimal digits, at least one, with a leading "0" only for zero, and a single digit below ten (so zero is exactly "0") |
| `SchedulerRoutes.DecimalRoundTrip` | src/routes/schedulerRoutes.js:13 | reading the digits back gives the clock reading |
| `SchedulerRoutes.StoredFilename` | src/routes/schedulerRoutes.js:13 | the clock reading, "-", then the sanitised name; it has no contract of its own, and `StoredFilenameSplits` states its layout |
| `SchedulerRoutes.StoredFilenameSplits` | src/routes/schedulerRoutes.js:13 | the stored name is the clock reading's digits up to the first "-", then the sanitised original name; the reading can be recovered, and every unit is permitted |
| `SchedulerRoutes.FileFilter` | src/routes/schedulerRoutes.js:18-25 | accepts exactly when a MIME type is present and begins with "image/"; otherwise rejects with "Only image uploads are allowed." |
| `SchedulerRoutes.FileSizeLimit` | src/routes/schedulerRoutes.js:30 | the upload limit is 5 * 1024 * 1024 = 5242880 bytes |

## Left out

- `Intl.DateTimeFormat` and its conversion of an instant to Asia/Kolkata civil time. Its
  output, the list of formatted parts, is an input. The `en-CA` part layout is written out
  in `FormatterParts`.
- The internals of `JSON.parse`. It is an uninterpreted partial function with no JSON
  grammar. Numbers are mathematical reals.
- The Gemini SDK (`new GoogleGenerativeAI`, `getGenerativeModel`, `generateContent`,
  `response.text()`) and `async`/`await`. Together they are one oracle from request to
  answer text.
- The floating-point generation settings `temperature: 0.2` and `topP: 0.95`. They are
  constants passed to the foreign call. `ModelRequest` keeps only `maxOutputTokens` and
  `responseMimeType`.
- The `role: "user"` wrapper of `contents: [{ role: "user", parts }]`. It is a constant, so
  `ModelRequest` holds the parts directly.
- File I/O. The model has no file system:
  - `fs.readFileSync` is the `readBase64` parameter;
  - `fs.unlink` is recorded only as the path whose deletion was attempted, and its
    failure is swallowed in the source;
  - multer's disk storage and destination directory are not modelled.
- Environment reads (`process.env`) and `Date.now()`. Their values are inputs.
- multer's callback plumbing, its enforcement of `fileSize`, and the rest of the route
  wiring. `src/app.js` (CORS, body parsers, the health route, error middleware) is not part
  of this model.
- `SchedulerRoutes.Decimal`: `String(n)` switches to exponent notation from 10^21 on. A
  millisecond clock never reaches that, so the model writes plain digits for every
  natural number.
- `SchedulerController.RequestText`: any non-string `req.body.text` is folded into "absent".
  The controller treats both the same way.
- `AiService.CleanJsonText` takes a string, so of the `if (!text)` guard only the empty
  string is modelled. Its only caller passes the string that `response.text()` returns,
  never `undefined` or `null`.
- Strings in the service and the controller are Unicode scalar sequences rather than
  UTF-16. The only characters these steps look at are white space, backticks and ASCII
  letters, and all of them are single code units. A lone surrogate in the text cannot be
  represented.
