# Humata chat server core, modelled in Dafny

This project models `server/groq.ts`, the chat back end of the Humata AI
assistant. That one file does four things:

- **File reading.** `processFileContent` routes an uploaded file by its
  MIME type:
  - PDF goes to pdf-parse.
  - Word goes to mammoth.
  - Plain text and Markdown are decoded as UTF-8.
  - Images go to Tesseract OCR.
  - Anything else becomes a placeholder that names the file.

  The PDF and Word extractors replace a library failure with a localized
  error. The OCR extractor never fails: it returns a "failed" marker, a
  "no text" marker, or a header followed by the trimmed recognized text.
- **Message assembly.** `sendChatMessage` does three things:
  - It collects the file content: the single file, then one
    `[name]`-headed entry per attached file.
  - It builds the message list: the system prompt (the persona prompt plus
    the caller's addition), then the history with normalized roles, then
    the user turn, which wraps the file content and the question.
  - It sends the list to the reasoning model.
- **Error handling.** A failure is classified in this order:
  1. A rate limit: status 429, or a message containing "rate" or "limit".
     The whole call is retried with the same arguments.
  2. A credential error: a message containing "API key", or status 401.
  3. Anything else: thrown again with its own message, or with the
     generic message when it has none.
- **Key status.** `getApiKeyStatus` reports the single configured key.

The project has four files:

- `wrappers.dfy`: the `Option` and `Result` types.
- `js_text.dfy`: the JavaScript string operations the source relies on:
  truthiness, `startsWith`, `includes` and `trim` (with the ECMAScript
  white-space set). Each one comes with its specification lemmas.
- `file_reader.dfy`: the dispatcher and the extractors. The foreign
  libraries are the functions of an `Extractors` value, and a library that
  throws is `None`.
- `chat.dfy`: key status, file-content collection, message assembly,
  error classification and `sendChatMessage`.
  - The Groq SDK call is a parameter `complete(attempt, request)`. It is
    indexed by the attempt number, so a retried call may be answered
    differently.
  - The file dispatcher is a parameter `process`, a `Processor`. Lemma
    `DispatcherFailsOnlyWithExtractionErrors` shows that
    `ProcessWith(lib)` meets the one requirement placed on it.
  - The loops of the source (file collection, history forwarding, and the
    retry by recursion) are methods. Each is proved against the function
    that specifies it.

## Model

| member | source | states |
|---|---|---|
| Chat.ApiKeyStatus | server/groq.ts:34-40 | total equals available, failed is 0, and available is 1 exactly when the key is set (truthy) and 0 exactly when it is not |
| FileReader.Classify | server/groq.ts:110-129 | the dispatch chain as an exhaustive classification: each kind holds exactly when its comparison or prefix test holds; unsupported means none of the five named types and no "image/" prefix |
| FileReader.ExtractPdf | server/groq.ts:50-60 | fails exactly when pdf-parse throws, then with the localized PDF error; otherwise returns the library's text |
| FileReader.ExtractDocx | server/groq.ts:62-72 | fails exactly when mammoth throws, then with the localized Word error; otherwise returns the library's raw text |
| FileReader.ProcessFileContent | server/groq.ts:107-130 | fails exactly for a PDF or Word file whose extractor throws, and then only with one of the two localized extraction errors |
| FileReader.DispatchRoutes | server/groq.ts:110-129 | each MIME type reaches the extractor of its kind and its result is returned unchanged; an unsupported type yields the placeholder |
| FileReader.OcrResultCases | server/groq.ts:92-104 | the OCR result is never empty: the "failed" marker when recognition throws, the "no text" marker when the text trims to nothing, otherwise the header followed by the trimmed text |
| FileReader.OcrResultRecoversText | server/groq.ts:92-100 | the result starts with the OCR header exactly when recognition produced non-blank text; what follows the header is that text trimmed, non-empty, with no white space at either end |
| FileReader.PlaceholderNamesFile | server/groq.ts:129 | the unsupported-type placeholder contains the file name, which can be read back at a fixed offset |
| FileReader.UnsupportedTypeGivesPlaceholder | server/groq.ts:129 | a file of unsupported type never fails, and its content names the file |
| FileReader.ImageNeverFails | server/groq.ts:74-105 | an image never fails and always yields non-empty text |
| JsText.IncludesIff | server/groq.ts:212 | `includes` holds exactly when the substring occurs at some index |
| JsText.MissingCharNotIncluded | server/groq.ts:212-218 | a string lacking one character of the needle does not include it |
| JsText.TrimSpec | server/groq.ts:92 | `trim` returns a contiguous slice with only white space around it, no white space at its ends, and is empty exactly for all-white-space input |
| JsText.TrimIdempotent | server/groq.ts:92 | trimming twice is trimming once |
| Chat.FilesBlockFailure | server/groq.ts:149-155 | the attached files fail exactly when one of them fails, and then with the error of the first failing file |
| Chat.FailurePersists | server/groq.ts:150-152 | once a prefix of the files has failed, processing the whole list gives that same failure |
| Chat.FilesBlockAppend | server/groq.ts:150-154 | the block of a concatenated list is the block of the first part followed by that of the second |
| Chat.FilesBlockEntry | server/groq.ts:150-154 | in a successful block, every file was processed successfully, and its entry (headed by its name) follows the entries of the files before it |
| Chat.TwoFilesInOrder | server/groq.ts:150-154 | two files give the first file's entry followed by the second's |
| Chat.DispatcherFailsOnlyWithExtractionErrors | server/groq.ts:107-130 | the dispatcher fails only with the localized PDF or Word error |
| Chat.FileContentErrors | server/groq.ts:142-155 | collecting the file content fails only with an extraction error |
| Chat.UnnamedSingleFile | server/groq.ts:144-147 | a single file without a name is processed under the name "file"; an unsupported one shows it in its placeholder |
| Chat.CollectFileContent | server/groq.ts:142-155 | the accumulation loop yields the single file's content followed by one entry per attached file, or the first extraction error |
| Chat.NormalizeRole | server/groq.ts:173 | a forwarded role is never `system`, and it is `assistant` exactly when the history role is "assistant" |
| Chat.ConversationShape | server/groq.ts:159-186 | the list has the history's length plus two: the system prompt first, then the history in order with contents unchanged and roles normalized, then the user turn last; nothing after the first is a system message |
| Chat.SystemPromptExtends | server/groq.ts:161-164 | the system prompt starts with the persona prompt; when an addition is given it ends with a blank line and the addition, with nothing else in between (its length is the sum of the three parts); otherwise it is the persona prompt |
| Chat.UserTurnCarriesBoth | server/groq.ts:178-181 | the user turn ends with the message; it is the message alone exactly when there is no file content; otherwise it is the file header, the file content, the question header and the message, each at its offset and nothing more |
| Chat.BuildMessages | server/groq.ts:159-186 | the push loop builds exactly the specified conversation |
| Chat.ClassifyFailure | server/groq.ts:212-222 | retry exactly on a rate limit; a credential failure exactly when it is not a rate limit but a credential error; otherwise the error's own message when it is non-empty, and the generic message when it is missing or empty |
| Chat.ExtractionErrorsPropagate | server/groq.ts:212-222 | an extraction error is neither a rate limit nor a credential error, so it is thrown on unchanged |
| Chat.EmptyReplyRetriedAsWritten | server/groq.ts:199-215 | as written, the empty-reply error counts as a rate limit, so an empty reply is retried |
| Chat.StepFor | server/groq.ts:197-222 | one attempt: retry exactly on a rate-limited SDK error; an answer exactly for a non-empty reply, which is returned as is; an empty reply fails with the no-response error; a credential error fails with the localized credential message; any other SDK error fails with its own non-empty message or the generic one |
| Chat.StepsAgreeExceptEmptyReply | server/groq.ts:197-222 | the corrected attempt differs from the written one exactly on an empty reply |
| Chat.RetriesPrepend | server/groq.ts:212-216 | a retried attempt followed by later ones: the same request throughout, and every attempt but the last is retried |
| Chat.Attempt | server/groq.ts:141-222 | a failing file ends the attempt with its error and sends nothing; otherwise it sends exactly one request, built from the file content, and ends as that reply's step decides |
| Chat.SendChatMessage | server/groq.ts:132-224 | a missing key fails before anything is sent; a failing file fails with its error and sends nothing; otherwise one to fuel + 1 identical requests are sent, every attempt but the last is retried, and the reply is the last attempt's outcome, or `Exhausted` when the last was also retried and the fuel is spent |

## Left out

- The document libraries (pdf-parse, mammoth, Tesseract.js) and the base64/UTF-8 codecs are foreign code. They are the uninterpreted functions of `Extractors`, applied to the base64 text, so decoding is folded into them.
- The Groq SDK and the network are the parameter `complete`. The model says nothing about what it answers.
- Chat.SendChatMessage: the recursion is bounded by `fuel`, ending in `Exhausted`. The source retries without bound, and the model does not cover behaviour beyond `fuel` retries.
- Chat.SendChatMessage: it uses the corrected empty-reply step (`StepFor`) through `Attempt`. The as-written step is modelled separately (see Findings).
- Chat.Attempt: it uses the corrected empty-reply step (`StepFor`), so an empty reply fails with "No response generated from AI" where the source retries it. The as-written step is `StepAsWritten` (see Findings).
- Chat.SendChatMessage: it takes the dispatcher as the parameter `process`. It requires `process` to fail only with extraction errors, which `DispatcherFailsOnlyWithExtractionErrors` proves for `ProcessWith(lib)`. A retry re-processes the files, and `process` is a function, so it gives the same content each time.
- The three-second sleep before a retry is a timer and is not modelled.
- Logging (`console.log` / `console.error`) has no effect on results and is not modelled.
- Environment reads are not modelled. The key comes in as `Config.apiKey`.
- The persona prompt text is not modelled. It is the opaque `Config.basePrompt`.
- `enableGrounding` is carried in `Options` but never read, as in the source.
- `uploadFile` is file-system I/O and is not part of this model.
- The temperature 0.3 is a real constant. The model does no floating-point reasoning.
- Asynchrony is not modelled. Each `await` is a plain call, in order.
- The OCR `logger` progress callback is not modelled. Neither is the `mimeType` argument, which `extractTextFromImageWithOCR` ignores.
- The client components of the repository are not part of this model.

## Findings

| source | as written | input that shows it | evidently intended | confidence | as-written member | corrected member |
|---|---|---|---|---|---|---|
| server/groq.ts:199-216 | an empty reply throws "No response generated from AI" inside the `try`; the handler's `includes("rate")` matches "gene**rate**d", so the error is treated as a rate limit and the whole call is retried; it never ends while every later reply is also empty | a completion whose first choice has no content (`Completed(None)` or `Completed(Some(""))`) | the call fails with "No response generated from AI" | not executed | Chat.StepAsWritten, Chat.EmptyReplyRetriedAsWritten | Chat.StepFor, Chat.StepsAgreeExceptEmptyReply |
