/**
 * The chat orchestrator of the server module (server/groq.ts):
 * `sendChatMessage` collects the content of the attached files, builds
 * the message list for the reasoning model, sends it, and classifies a
 * failure as a rate limit (retried with the same arguments), a
 * credential error or anything else; `getApiKeyStatus` summarizes the
 * configured key. The Groq SDK call is a parameter `complete`, indexed
 * by the attempt number so that a retried call may be answered
 * differently; the unbounded retry is bounded by `fuel`.
 */
module Chat {
  import opened Wrappers
  import opened JsText
  import opened FileReader

  const REASONING_MODEL: string := "llama-3.3-70b-versatile"
  const MAX_TOKENS: nat := 4096
  const TEMPERATURE: real := 0.3

  const MISSING_KEY_ERROR: string := "لا يوجد مفتاح API متاح - يرجى إضافة GROQ_API_KEY"
  const CREDENTIAL_ERROR: string := "خطأ في مفتاح API - تحقق من إعدادات الخادم"
  const GENERIC_ERROR: string := "حدث خطأ في معالجة الرسالة"
  const NO_RESPONSE_ERROR: string := "No response generated from AI"

  /** The final user turn wraps the file content and the question between these headers. */
  const FILE_HEADER: string := "[محتوى الملف/الصورة]:\n"
  const QUESTION_HEADER: string := "\n\n[سؤال المستخدم]:\n"
  const DEFAULT_FILE_NAME: string := "file"

  /**
   * The process configuration read at start-up: the Groq key (absent when
   * the environment variable is unset) and the fixed persona prompt,
   * whose text is not part of the model.
   */
  datatype Config = Config(apiKey: Option<string>, basePrompt: string)

  datatype KeyStatus = KeyStatus(total: nat, available: nat, failed: nat)

  datatype Role = System | User | Assistant

  /** One entry of the list sent to the reasoning model. */
  datatype ChatMessage = ChatMessage(role: Role, content: string)

  /** A turn of the caller's history; its role is an arbitrary string. */
  datatype Turn = Turn(role: string, content: string)

  /** An entry of `options.files`. */
  datatype Attachment = Attachment(base64Data: string, mimeType: string, fileName: string)

  /** `GroqChatOptions`; every field may be left out by the caller. */
  datatype Options = Options(
    systemPrompt: Option<string>,
    base64Data: Option<string>,
    mimeType: Option<string>,
    fileName: Option<string>,
    enableGrounding: Option<bool>,
    files: Option<seq<Attachment>>)

  /** The chat-completion request handed to the SDK. */
  datatype Request = Request(model: string, messages: seq<ChatMessage>, maxTokens: nat, temperature: real)

  /** An error caught by the handler of `sendChatMessage`: its `status` and `message`, either possibly missing. */
  datatype Thrown = Thrown(status: Option<int>, message: Option<string>)

  /** What the SDK call did: it answered (the first choice's content, possibly missing) or it threw. */
  datatype Completion = Completed(content: Option<string>) | Rejected(error: Thrown)

  /** What the error handler decides. */
  datatype Decision = RetrySame | CredentialFailure | Propagate(message: string)

  /**
   * What `sendChatMessage` ends with: the reply text, a thrown error, or
   * (only in the model) retries still pending when the fuel ran out.
   */
  datatype Reply = Answer(text: string) | Failed(message: string) | Exhausted

  /** The result of one attempt: finished, or retry with the same arguments. */
  datatype Step = Done(reply: Reply) | Retry

  // ---------------------------------------------------------------------
  // Key status

  predicate KeyConfigured(cfg: Config) {
    Truthy(cfg.apiKey)
  }

  /** `getApiKeyStatus`: one key, available exactly when it is set; no key is ever counted as failed. */
  function ApiKeyStatus(cfg: Config): (s: KeyStatus)
    ensures s.total == s.available && s.failed == 0
    ensures s.available == 1 <==> KeyConfigured(cfg)
    ensures s.available == 0 <==> !KeyConfigured(cfg)
  {
    var n := if KeyConfigured(cfg) then 1 else 0;
    KeyStatus(n, n, 0)
  }

  // ---------------------------------------------------------------------
  // File content

  /** The block appended to the file content for each entry of `options.files`. */
  function Entry(fileName: string, content: string): string {
    "\n\n[" + fileName + "]\n" + content
  }

  /** How an attachment is processed; the list logic below holds for any such function. */
  type Processor = Attachment -> Result<string, string>

  /** `processFileContent` applied to an attachment. */
  function ProcessWith(lib: Extractors): Processor {
    (f: Attachment) => ProcessFileContent(lib, f.base64Data, f.mimeType, f.fileName)
  }

  /** The single file of the options is read only when both its data and its type are non-empty. */
  predicate HasSingleFile(options: Options) {
    Truthy(options.base64Data) && Truthy(options.mimeType)
  }

  /** The name the single file is processed under; "file" when none is given. */
  function SingleFileName(options: Options): string {
    if Truthy(options.fileName) then options.fileName.value else DEFAULT_FILE_NAME
  }

  /** The content of the single file, without any header. */
  function SingleFileContent(process: Processor, options: Options): Result<string, string> {
    if HasSingleFile(options) then
      process(Attachment(options.base64Data.value, options.mimeType.value, SingleFileName(options)))
    else Ok("")
  }

  /** The entries of a list of attachments in list order; the first failing file aborts. */
  function FilesBlock(process: Processor, files: seq<Attachment>): Result<string, string>
    decreases |files|
  {
    if files == [] then Ok("")
    else
      var last := files[|files| - 1];
      var before := FilesBlock(process, files[..|files| - 1]);
      var content := process(last);
      if before.Err? then before
      else if content.Err? then content
      else Ok(before.value + Entry(last.fileName, content.value))
  }

  function AttachedFiles(options: Options): seq<Attachment> {
    if options.files.Some? then options.files.value else []
  }

  /** The accumulated `fileContent`: the single file first, then the entries of `options.files`. */
  function FileContent(process: Processor, options: Options): Result<string, string> {
    match SingleFileContent(process, options)
    case Err(e) => Err(e)
    case Ok(single) =>
      match FilesBlock(process, AttachedFiles(options))
      case Err(e) => Err(e)
      case Ok(block) => Ok(single + block)
  }

  /** Once a prefix of the list has failed, the whole list fails with the same error. */
  lemma {:induction false} FailurePersists(process: Processor, files: seq<Attachment>, j: nat)
    requires j <= |files| && FilesBlock(process, files[..j]).Err?
    ensures FilesBlock(process, files) == FilesBlock(process, files[..j])
    decreases |files| - j
  {
    if j < |files| {
      var init := files[..|files| - 1];
      assert init[..j] == files[..j];
      FailurePersists(process, init, j);
    } else {
      assert files[..j] == files;
    }
  }

  /** The list fails exactly when one of its files fails, and with the error of the first such file. */
  lemma {:induction false} FilesBlockFailure(process: Processor, files: seq<Attachment>)
    ensures FilesBlock(process, files).Err? <==> exists i :: 0 <= i < |files| && process(files[i]).Err?
    ensures FilesBlock(process, files).Err? ==>
              exists i :: && 0 <= i < |files| && process(files[i]) == FilesBlock(process, files)
                          && forall k :: 0 <= k < i ==> process(files[k]).Ok?
    decreases |files|
  {
    if files != [] {
      var n := |files| - 1;
      var init := files[..n];
      FilesBlockFailure(process, init);
      assert forall k :: 0 <= k < n ==> init[k] == files[k];
      if FilesBlock(process, init).Err? {
        var i :| && 0 <= i < n && process(init[i]) == FilesBlock(process, init)
                 && forall k :: 0 <= k < i ==> process(init[k]).Ok?;
        assert process(files[i]) == FilesBlock(process, files);
      } else if process(files[n]).Err? {
        assert process(files[n]) == FilesBlock(process, files);
      } else {
        assert forall k :: 0 <= k < |files| ==> process(files[k]).Ok? by {
          forall k | 0 <= k < |files| ensures process(files[k]).Ok? {
            if k < n { assert init[k] == files[k]; }
          }
        }
      }
    }
  }

  /** Entries of two lists concatenate: the content of `a ++ b` is that of `a`, then that of `b`. */
  lemma {:induction false} FilesBlockAppend(process: Processor, a: seq<Attachment>, b: seq<Attachment>)
    requires FilesBlock(process, a).Ok? && FilesBlock(process, b).Ok?
    ensures FilesBlock(process, a + b) == Ok(FilesBlock(process, a).value + FilesBlock(process, b).value)
    decreases |b|
  {
    if b == [] {
      assert a + b == a;
      assert FilesBlock(process, a).value + "" == FilesBlock(process, a).value;
    } else {
      var n := |b| - 1;
      assert (a + b)[..|a + b| - 1] == a + b[..n];
      assert (a + b)[|a + b| - 1] == b[n];
      FilesBlockAppend(process, a, b[..n]);
      var entry := Entry(b[n].fileName, process(b[n]).value);
      assert FilesBlock(process, b).value == FilesBlock(process, b[..n]).value + entry;
      assert FilesBlock(process, a + b).value == FilesBlock(process, a + b[..n]).value + entry;
      var x, y := FilesBlock(process, a).value, FilesBlock(process, b[..n]).value;
      ConcatAssociates(x, y, entry);
    }
  }

  /**
   * Each attached file is processed successfully in a successful block,
   * and its entry, headed by its name, follows the entries of the files
   * before it: the block up to and including file `i` is a prefix of the
   * whole block.
   */
  lemma {:induction false} FilesBlockEntry(process: Processor, files: seq<Attachment>, i: nat)
    requires i < |files| && FilesBlock(process, files).Ok?
    ensures FilesBlock(process, files[..i]).Ok? && process(files[i]).Ok?
    ensures StartsWith(FilesBlock(process, files).value,
                       FilesBlock(process, files[..i]).value + Entry(files[i].fileName, process(files[i]).value))
    decreases |files|
  {
    var n := |files| - 1;
    var init := files[..n];
    if FilesBlock(process, files[..i]).Err? {
      FailurePersists(process, files, i);
    }
    if i == n {
    } else {
      assert init[..i] == files[..i];
      assert init[i] == files[i];
      FilesBlockEntry(process, init, i);
      var whole := FilesBlock(process, files).value;
      var before := FilesBlock(process, init).value;
      var p := FilesBlock(process, files[..i]).value + Entry(files[i].fileName, process(files[i]).value);
      assert whole[..|before|] == before;
      assert whole[..|p|] == before[..|p|];
    }
  }

  /** Two attached files: both names appear as headers, in list order, each before its own content. */
  lemma TwoFilesInOrder(process: Processor, f: Attachment, g: Attachment)
    requires process(f).Ok? && process(g).Ok?
    ensures FilesBlock(process, [f, g]) ==
              Ok(Entry(f.fileName, process(f).value) + Entry(g.fileName, process(g).value))
  {
    assert [f, g][..1] == [f];
    assert [f][..0] == [];
    var e := Entry(f.fileName, process(f).value);
    assert "" + e == e;
    assert FilesBlock(process, [f]) == Ok(e);
  }

  /** A processor that, like `processFileContent`, fails only with the extractors' localized messages. */
  ghost predicate FailsOnlyWithExtractionErrors(process: Processor) {
    forall f :: process(f).Err? ==> IsExtractionError(process(f).error)
  }

  /** `processFileContent` is such a processor. */
  lemma DispatcherFailsOnlyWithExtractionErrors(lib: Extractors)
    ensures FailsOnlyWithExtractionErrors(ProcessWith(lib))
  {
    forall f ensures ProcessWith(lib)(f).Err? ==> IsExtractionError(ProcessWith(lib)(f).error) {
      var r := ProcessFileContent(lib, f.base64Data, f.mimeType, f.fileName);
      assert ProcessWith(lib)(f) == r;
    }
  }

  /** File content can only fail with an error of the processor. */
  lemma FileContentErrors(process: Processor, options: Options)
    requires FailsOnlyWithExtractionErrors(process)
    ensures FileContent(process, options).Err? ==> IsExtractionError(FileContent(process, options).error)
  {
    var files := AttachedFiles(options);
    if SingleFileContent(process, options).Ok? && FilesBlock(process, files).Err? {
      FilesBlockFailure(process, files);
    }
  }

  /**
   * The single file carries no name header; when it is given without a
   * name it is processed under the name "file", which an unsupported type
   * shows in its placeholder.
   */
  lemma UnnamedSingleFile(lib: Extractors, options: Options)
    requires HasSingleFile(options) && !Truthy(options.fileName) && AttachedFiles(options) == []
    requires Classify(options.mimeType.value) == Unsupported
    ensures FileContent(ProcessWith(lib), options) == Ok(Placeholder(DEFAULT_FILE_NAME))
  {
    assert Placeholder(DEFAULT_FILE_NAME) + "" == Placeholder(DEFAULT_FILE_NAME);
  }

  /**
   * The loop of `sendChatMessage` that fills `fileContent`: the single
   * file, then `+=` one entry per attached file; a throwing extractor
   * ends the accumulation with its error.
   */
  method CollectFileContent(process: Processor, options: Options) returns (r: Result<string, string>)
    ensures r == FileContent(process, options)
  {
    var fileContent := "";
    if Truthy(options.base64Data) && Truthy(options.mimeType) {
      var name := if Truthy(options.fileName) then options.fileName.value else DEFAULT_FILE_NAME;
      var single := process(Attachment(options.base64Data.value, options.mimeType.value, name));
      if single.Err? {
        return Err(single.error);
      }
      fileContent := single.value;
    }
    ghost var single := fileContent;
    assert SingleFileContent(process, options) == Ok(single);
    if options.files.Some? && |options.files.value| > 0 {
      var files := options.files.value;
      var i := 0;
      ghost var block := "";
      while i < |files|
        invariant 0 <= i <= |files|
        invariant FilesBlock(process, files[..i]) == Ok(block)
        invariant fileContent == single + block
      {
        var file := files[i];
        var content := process(file);
        assert files[..i + 1][..i] == files[..i];
        if content.Err? {
          FailurePersists(process, files, i + 1);
          return Err(content.error);
        }
        ConcatAssociates(single, block, Entry(file.fileName, content.value));
        fileContent := fileContent + Entry(file.fileName, content.value);
        block := block + Entry(file.fileName, content.value);
        i := i + 1;
      }
      assert files[..i] == files;
    } else {
      assert AttachedFiles(options) == [];
      assert fileContent + "" == fileContent;
    }
    return Ok(fileContent);
  }

  // ---------------------------------------------------------------------
  // Messages

  /** The persona prompt, followed by a blank line and the caller's addition when one is given. */
  function SystemPrompt(basePrompt: string, addition: Option<string>): string {
    if Truthy(addition) then basePrompt + "\n\n" + addition.value else basePrompt
  }

  /** History roles are forwarded as `assistant` or, for anything else, `user`. */
  function NormalizeRole(role: string): (r: Role)
    ensures r != System
    ensures r == Assistant <==> role == "assistant"
  {
    if role == "assistant" then Assistant else User
  }

  function Forward(t: Turn): ChatMessage {
    ChatMessage(NormalizeRole(t.role), t.content)
  }

  function ForwardedHistory(history: seq<Turn>): seq<ChatMessage>
    decreases |history|
  {
    if history == [] then []
    else ForwardedHistory(history[..|history| - 1]) + [Forward(history[|history| - 1])]
  }

  /** The final user turn: the message alone, or wrapped with the file content when there is some. */
  function UserTurn(message: string, fileContent: string): string {
    if fileContent == "" then message else FILE_HEADER + fileContent + QUESTION_HEADER + message
  }

  /** The message list sent to the reasoning model. */
  function Conversation(basePrompt: string, addition: Option<string>, history: seq<Turn>, message: string, fileContent: string): seq<ChatMessage> {
    [ChatMessage(System, SystemPrompt(basePrompt, addition))]
    + ForwardedHistory(history)
    + [ChatMessage(User, UserTurn(message, fileContent))]
  }

  lemma {:induction false} ForwardedHistoryAt(history: seq<Turn>)
    ensures |ForwardedHistory(history)| == |history|
    ensures forall i :: 0 <= i < |history| ==> ForwardedHistory(history)[i] == Forward(history[i])
    decreases |history|
  {
    if history != [] {
      var init := history[..|history| - 1];
      ForwardedHistoryAt(init);
      assert forall i :: 0 <= i < |init| ==> init[i] == history[i];
    }
  }

  /**
   * Shape of the message list: one system message first, then the history
   * in order with contents unchanged and roles normalized (never
   * `system`), then one user message last.
   */
  lemma ConversationShape(basePrompt: string, addition: Option<string>, history: seq<Turn>, message: string, fileContent: string)
    ensures var c := Conversation(basePrompt, addition, history, message, fileContent);
            && |c| == |history| + 2
            && c[0] == ChatMessage(System, SystemPrompt(basePrompt, addition))
            && (forall i :: 0 <= i < |history| ==>
                  c[i + 1].content == history[i].content
                  && (c[i + 1].role == Assistant <==> history[i].role == "assistant"))
            && (forall i :: 0 < i < |c| ==> c[i].role != System)
            && c[|c| - 1] == ChatMessage(User, UserTurn(message, fileContent))
  {
    ForwardedHistoryAt(history);
    var c := Conversation(basePrompt, addition, history, message, fileContent);
    assert forall i :: 0 <= i < |history| ==> c[i + 1] == ForwardedHistory(history)[i];
  }

  /** The system prompt always begins with the persona prompt and ends with the addition when one is given. */
  lemma SystemPromptExtends(basePrompt: string, addition: Option<string>)
    ensures StartsWith(SystemPrompt(basePrompt, addition), basePrompt)
    ensures Truthy(addition) ==> EndsWith(SystemPrompt(basePrompt, addition), "\n\n" + addition.value)
    ensures Truthy(addition) ==> |SystemPrompt(basePrompt, addition)| == |basePrompt| + 2 + |addition.value|
    ensures !Truthy(addition) ==> SystemPrompt(basePrompt, addition) == basePrompt
  {
    if Truthy(addition) {
      ConcatSplits(basePrompt, "\n\n" + addition.value);
      assert basePrompt + "\n\n" + addition.value == basePrompt + ("\n\n" + addition.value);
    } else {
      ConcatSplits(basePrompt, "");
    }
  }

  /**
   * The user's message always ends the final turn; when there is file
   * content it opens the turn right after the file header, so both parts
   * can be read back.
   */
  lemma UserTurnCarriesBoth(message: string, fileContent: string)
    ensures EndsWith(UserTurn(message, fileContent), message)
    ensures fileContent == "" <==> UserTurn(message, fileContent) == message
    ensures fileContent != "" ==>
              var u, q := UserTurn(message, fileContent), |FILE_HEADER| + |fileContent|;
              && |u| == q + |QUESTION_HEADER| + |message|
              && StartsWith(u, FILE_HEADER)
              && u[|FILE_HEADER|..q] == fileContent
              && u[q..q + |QUESTION_HEADER|] == QUESTION_HEADER
  {
    if fileContent != "" {
      FourParts(FILE_HEADER, fileContent, QUESTION_HEADER, message);
    } else {
      ConcatSplits("", message);
    }
  }

  /** The message-building part of `sendChatMessage`: push the system prompt, each history turn, then the user turn. */
  method BuildMessages(basePrompt: string, addition: Option<string>, history: seq<Turn>, message: string, fileContent: string)
    returns (messages: seq<ChatMessage>)
    ensures messages == Conversation(basePrompt, addition, history, message, fileContent)
  {
    messages := [];
    var systemPrompt := basePrompt;
    if Truthy(addition) {
      systemPrompt := basePrompt + "\n\n" + addition.value;
    }
    messages := messages + [ChatMessage(System, systemPrompt)];
    var i := 0;
    while i < |history|
      invariant 0 <= i <= |history|
      invariant messages == [ChatMessage(System, SystemPrompt(basePrompt, addition))] + ForwardedHistory(history[..i])
    {
      var msg := history[i];
      messages := messages + [ChatMessage(if msg.role == "assistant" then Assistant else User, msg.content)];
      assert history[..i + 1][..i] == history[..i];
      i := i + 1;
    }
    assert history[..i] == history;
    var userMessage := message;
    if fileContent != "" {
      userMessage := FILE_HEADER + fileContent + QUESTION_HEADER + message;
    }
    messages := messages + [ChatMessage(User, userMessage)];
  }

  function RequestFor(cfg: Config, options: Options, history: seq<Turn>, message: string, fileContent: string): Request {
    Request(REASONING_MODEL, Conversation(cfg.basePrompt, options.systemPrompt, history, message, fileContent), MAX_TOKENS, TEMPERATURE)
  }

  // ---------------------------------------------------------------------
  // Error classification

  predicate RateLimited(e: Thrown) {
    || e.status == Some(429)
    || (e.message.Some? && (Includes(e.message.value, "rate") || Includes(e.message.value, "limit")))
  }

  predicate CredentialRejected(e: Thrown) {
    (e.message.Some? && Includes(e.message.value, "API key")) || e.status == Some(401)
  }

  /**
   * The handler of `sendChatMessage`: a rate limit is checked first and
   * retried, a credential error second, and any other error is thrown
   * again with its own message or, lacking one, the generic message.
   */
  function ClassifyFailure(e: Thrown): (d: Decision)
    ensures d == RetrySame <==> RateLimited(e)
    ensures d == CredentialFailure <==> !RateLimited(e) && CredentialRejected(e)
    ensures d.Propagate? ==> d.message != ""
    ensures d.Propagate? && Truthy(e.message) ==> d.message == e.message.value
    ensures d.Propagate? && !Truthy(e.message) ==> d.message == GENERIC_ERROR
  {
    if RateLimited(e) then RetrySame
    else if CredentialRejected(e) then CredentialFailure
    else Propagate(if Truthy(e.message) then e.message.value else GENERIC_ERROR)
  }

  /** The extractors' messages contain none of the words the handler looks for. */
  lemma ExtractionErrorLacksRate(m: string)
    requires IsExtractionError(m)
    ensures !Includes(m, "rate")
  {
    MissingCharNotIncluded(m, "rate", 1);
  }

  lemma ExtractionErrorLacksLimit(m: string)
    requires IsExtractionError(m)
    ensures !Includes(m, "limit")
  {
    MissingCharNotIncluded(m, "limit", 0);
  }

  lemma ExtractionErrorLacksApiKey(m: string)
    requires IsExtractionError(m)
    ensures !Includes(m, "API key")
  {
    MissingCharNotIncluded(m, "API key", 4);
  }

  /** The errors thrown by the file extractors pass through the handler unchanged. */
  lemma ExtractionErrorsPropagate(m: string)
    requires IsExtractionError(m)
    ensures ClassifyFailure(Thrown(None, Some(m))) == Propagate(m)
  {
    ExtractionErrorLacksRate(m);
    ExtractionErrorLacksLimit(m);
    ExtractionErrorLacksApiKey(m);
  }

  function FromDecision(d: Decision): Step {
    match d
    case RetrySame => Retry
    case CredentialFailure => Done(Failed(CREDENTIAL_ERROR))
    case Propagate(m) => Done(Failed(m))
  }

  /**
   * One attempt as the source writes it: an empty reply raises
   * NO_RESPONSE_ERROR inside the `try`, and the handler classifies it
   * like an SDK error.
   */
  function StepAsWritten(c: Completion): Step {
    match c
    case Completed(content) =>
      if Truthy(content) then Done(Answer(content.value))
      else FromDecision(ClassifyFailure(Thrown(None, Some(NO_RESPONSE_ERROR))))
    case Rejected(e) => FromDecision(ClassifyFailure(e))
  }

  /**
   * As written, the empty-reply error is taken for a rate limit, because
   * "generated" contains "rate": the call is retried instead of failing.
   */
  lemma EmptyReplyRetriedAsWritten()
    ensures ClassifyFailure(Thrown(None, Some(NO_RESPONSE_ERROR))) == RetrySame
    ensures StepAsWritten(Completed(None)) == Retry
    ensures StepAsWritten(Completed(Some(""))) == Retry
  {
    assert OccursAt(NO_RESPONSE_ERROR, "rate", 16);
    IncludesIff(NO_RESPONSE_ERROR, "rate");
  }

  /**
   * One attempt as intended: an empty reply fails with NO_RESPONSE_ERROR,
   * so only an SDK error that signals a rate limit is retried.
   */
  function StepFor(c: Completion): (s: Step)
    ensures s == Retry <==> c.Rejected? && RateLimited(c.error)
    ensures s.Done? && s.reply.Answer? <==> c.Completed? && Truthy(c.content)
    ensures s.Done? && s.reply.Answer? ==> s.reply.text == c.content.value
    ensures c.Completed? && !Truthy(c.content) ==> s == Done(Failed(NO_RESPONSE_ERROR))
    ensures c.Rejected? && CredentialRejected(c.error) && !RateLimited(c.error) ==> s == Done(Failed(CREDENTIAL_ERROR))
    ensures c.Rejected? && !RateLimited(c.error) && !CredentialRejected(c.error) ==>
              s == Done(Failed(if Truthy(c.error.message) then c.error.message.value else GENERIC_ERROR))
  {
    match c
    case Completed(content) =>
      if Truthy(content) then Done(Answer(content.value)) else Done(Failed(NO_RESPONSE_ERROR))
    case Rejected(e) => FromDecision(ClassifyFailure(e))
  }

  /** The corrected attempt differs from the written one on the empty reply only. */
  lemma StepsAgreeExceptEmptyReply(c: Completion)
    ensures StepFor(c) != StepAsWritten(c) <==> c.Completed? && !Truthy(c.content)
  {
    EmptyReplyRetriedAsWritten();
  }

  // ---------------------------------------------------------------------
  // sendChatMessage

  /**
   * The `try` block of `sendChatMessage` and the classification of what it
   * threw: collect the file content with `process` (the dispatcher
   * `processFileContent`), build and send the request as attempt number
   * `attempt`, and decide how the attempt ends.
   */
  method Attempt(cfg: Config, process: Processor, complete: (nat, Request) -> Completion,
                 message: string, history: seq<Turn>, options: Options, attempt: nat)
    returns (step: Step, sent: seq<Request>)
    requires FailsOnlyWithExtractionErrors(process)
    ensures FileContent(process, options).Err? ==>
              step == Done(Failed(FileContent(process, options).error)) && sent == []
    ensures FileContent(process, options).Ok? ==>
              && sent == [RequestFor(cfg, options, history, message, FileContent(process, options).value)]
              && step == StepFor(complete(attempt, sent[0]))
  {
    var fileContent := CollectFileContent(process, options);
    if fileContent.Err? {
      FileContentErrors(process, options);
      ExtractionErrorsPropagate(fileContent.error);
      step := FromDecision(ClassifyFailure(Thrown(None, Some(fileContent.error))));
      sent := [];
    } else {
      var messages := BuildMessages(cfg.basePrompt, options.systemPrompt, history, message, fileContent.value);
      var request := Request(REASONING_MODEL, messages, MAX_TOKENS, TEMPERATURE);
      sent := [request];
      step := StepFor(complete(attempt, request));
    }
  }

  /**
   * One retried attempt followed by the requests of the later attempts:
   * the same request throughout, and every attempt but the last retried.
   */
  lemma RetriesPrepend(complete: (nat, Request) -> Completion, request: Request, attempt: nat, more: seq<Request>)
    requires StepFor(complete(attempt, request)) == Retry
    requires forall k :: 0 <= k < |more| ==> more[k] == request
    requires forall k :: 0 <= k < |more| - 1 ==> StepFor(complete(attempt + 1 + k, more[k])) == Retry
    ensures forall k :: 0 <= k < 1 + |more| ==> ([request] + more)[k] == request
    ensures forall k :: 0 <= k < |more| ==> StepFor(complete(attempt + k, ([request] + more)[k])) == Retry
  {
    forall k | 0 <= k < |more|
      ensures StepFor(complete(attempt + k, ([request] + more)[k])) == Retry
    {
      if k > 0 {
        assert ([request] + more)[k] == more[k - 1];
        assert attempt + k == attempt + 1 + (k - 1);
      }
    }
  }

  /**
   * `sendChatMessage(message, history, options)`, with `process` standing
   * for `processFileContent` over the extraction libraries
   * (`ProcessWith(lib)`), making its first SDK call as attempt number
   * `attempt`, with at most `fuel` retries. It returns the reply and the
   * requests sent, in order: a missing key fails before anything is
   * processed or sent, a failing file before the model is called, and
   * every retry sends the very same request again.
   */
  method SendChatMessage(cfg: Config, process: Processor, complete: (nat, Request) -> Completion,
                         message: string, history: seq<Turn>, options: Options, attempt: nat, fuel: nat)
    returns (r: Reply, sent: seq<Request>)
    requires FailsOnlyWithExtractionErrors(process)
    ensures !KeyConfigured(cfg) ==> r == Failed(MISSING_KEY_ERROR) && sent == []
    ensures KeyConfigured(cfg) && FileContent(process, options).Err? ==>
              r == Failed(FileContent(process, options).error) && sent == []
    ensures KeyConfigured(cfg) && FileContent(process, options).Ok? ==>
              var request := RequestFor(cfg, options, history, message, FileContent(process, options).value);
              && 1 <= |sent| <= fuel + 1
              && (forall k :: 0 <= k < |sent| ==> sent[k] == request)
              && (forall k :: 0 <= k < |sent| - 1 ==> StepFor(complete(attempt + k, sent[k])) == Retry)
              && var last := StepFor(complete(attempt + |sent| - 1, request));
                 if last.Retry? then r == Exhausted && |sent| == fuel + 1 else r == last.reply
    decreases fuel
  {
    if !KeyConfigured(cfg) {
      return Failed(MISSING_KEY_ERROR), [];
    }
    var step;
    step, sent := Attempt(cfg, process, complete, message, history, options, attempt);
    match step
    case Done(reply) =>
      r := reply;
    case Retry =>
      if fuel == 0 {
        r := Exhausted;
      } else {
        var more;
        r, more := SendChatMessage(cfg, process, complete, message, history, options, attempt + 1, fuel - 1);
        RetriesPrepend(complete, sent[0], attempt, more);
        sent := sent + more;
      }
  }
}
