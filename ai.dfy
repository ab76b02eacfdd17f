/** The two AI routes: `/ai/chat`, which forwards one prompt to a chat model and digs the
    reply out of the response, and `/ai/translate`, which picks the text to translate, builds
    a two-message prompt and classifies the model's failures. Both are pure decisions; the
    model calls themselves are parameters. */
module Ai {
  import opened Wrappers
  import opened PyText
  import opened Http
  import Notes

  /** A decoded JSON value, as the chat client hands the response back. */
  datatype PyValue =
    | PyNone
    | PyBool(b: bool)
    | PyInt(i: int)
    | PyStr(s: string)
    | PyList(items: seq<PyValue>)
    | PyDict(entries: map<string, PyValue>)
  {
    /** Python truthiness: `None`, `False`, `0` and empty containers are falsy. */
    predicate Truthy() {
      match this
      case PyNone => false
      case PyBool(b) => b
      case PyInt(i) => i != 0
      case PyStr(s) => s != []
      case PyList(items) => items != []
      case PyDict(entries) => entries != map[]
    }

    /** The name Python reports for the value's type. */
    function TypeName(): string {
      match this
      case PyNone => "NoneType"
      case PyBool(_) => "bool"
      case PyInt(_) => "int"
      case PyStr(_) => "str"
      case PyList(_) => "list"
      case PyDict(_) => "dict"
    }
  }

  /** `d.get(key, default)`. */
  function DictGet(d: map<string, PyValue>, key: string, default: PyValue): (v: PyValue)
    ensures key in d ==> v == d[key]
    ensures key !in d ==> v == default
  {
    if key in d then d[key] else default
  }

  /** One `{'role': ..., 'content': ...}` entry of a chat request. */
  datatype Message = Message(role: string, content: string)

  // ---------------------------------------------------------------- /ai/chat

  const ChatModel := "gpt-4.1"
  const ChatMaxTokens := 512

  /** The arguments of `openai.ChatCompletion.create`. */
  datatype ChatCall = ChatCall(model: string, messages: seq<Message>, maxTokens: int)

  /** What the chat client does: it returns a response together with `str(response)`, or it
      raises an exception whose `str` is `message`. */
  datatype ChatOutcome = Returned(resp: PyValue, rendering: string) | Raised(message: string)

  /** The request `/ai/chat` sends for a prompt: one user message holding the prompt. */
  function ChatRequest(prompt: string): (call: ChatCall)
    ensures call.model == "gpt-4.1" && call.maxTokens == 512
    ensures |call.messages| == 1 && call.messages[0] == Message("user", prompt)
  {
    ChatCall(ChatModel, [Message("user", prompt)], ChatMaxTokens)
  }

  /** The prompt is usable only when it is a non-empty string. */
  predicate ValidPrompt(prompt: PyValue) {
    prompt.PyStr? && prompt.s != []
  }

  /** `choices[0].message.content` is present in `resp` along the dictionaries and the
      non-empty list the route walks, and equals `content`. */
  ghost predicate ContentAt(resp: PyValue, content: PyValue) {
    && resp.PyDict? && "choices" in resp.entries
    && var choices := resp.entries["choices"];
    && choices.PyList? && choices.items != []
    && choices.items[0].PyDict? && "message" in choices.items[0].entries
    && var message := choices.items[0].entries["message"];
    && message.PyDict? && "content" in message.entries
    && message.entries["content"] == content
  }

  /** The walk reaches a first choice whose `message` entry is present but not a dictionary,
      so the second `.get` raises `AttributeError`. */
  ghost predicate MessageNotDict(resp: PyValue) {
    && resp.PyDict? && "choices" in resp.entries
    && var choices := resp.entries["choices"];
    && choices.PyList? && choices.items != []
    && choices.items[0].PyDict? && "message" in choices.items[0].entries
    && !choices.items[0].entries["message"].PyDict?
  }

  /** Reply extraction: the truthy `choices[0].message.content` when the response has one,
      and the response's string form otherwise; a non-dictionary `message` raises. */
  function ExtractReply(resp: PyValue, rendering: string): (r: Result<PyValue, string>)
    ensures r.Failure? <==> MessageNotDict(resp)
    ensures r.Failure? ==>
              r.error == "'" + resp.entries["choices"].items[0].entries["message"].TypeName()
                         + "' object has no attribute 'get'"
    ensures forall c :: ContentAt(resp, c) && c.Truthy() ==> r == Success(c)
    ensures r.Success? ==> r.value == PyStr(rendering) || (r.value.Truthy() && ContentAt(resp, r.value))
    ensures r.Success? && rendering != [] ==> r.value.Truthy()
  {
    if !resp.PyDict? then Success(PyStr(rendering))
    else
      var choices := DictGet(resp.entries, "choices", PyNone);
      if !(choices.Truthy() && choices.PyList?) then Success(PyStr(rendering))
      else
        var first := choices.items[0];
        if !first.PyDict? then Success(PyStr(rendering))
        else
          var message := DictGet(first.entries, "message", PyDict(map[]));
          if !message.PyDict? then
            Failure("'" + message.TypeName() + "' object has no attribute 'get'")
          else
            var content := DictGet(message.entries, "content", PyNone);
            if content.Truthy() then Success(content) else Success(PyStr(rendering))
  }

  /** `/ai/chat`. The prompt is checked before the API key, the key before the client
      library; a failed call or a failed extraction is a 500 carrying the exception text. */
  function Chat(prompt: PyValue, apiKey: Option<string>, clientInstalled: bool,
                openai: ChatCall -> ChatOutcome): (r: Reply<PyValue>)
    ensures !ValidPrompt(prompt) ==> r == Err(400, "Missing or invalid prompt", None)
    ensures r.status == 400 <==> !ValidPrompt(prompt)
    ensures ValidPrompt(prompt) && !TruthyText(apiKey) ==>
              r == Err(500, "OpenAI API key not configured on server", None)
    ensures ValidPrompt(prompt) && TruthyText(apiKey) && !clientInstalled ==>
              r == Err(500, "OpenAI client library not installed on server", None)
    ensures r.Ok? <==>
              && ValidPrompt(prompt) && TruthyText(apiKey) && clientInstalled
              && openai(ChatRequest(prompt.s)).Returned?
              && ExtractReply(openai(ChatRequest(prompt.s)).resp, openai(ChatRequest(prompt.s)).rendering).Success?
    ensures r.Ok? ==>
              && r.status == 200
              && var out := openai(ChatRequest(prompt.s));
              Success(r.body) == ExtractReply(out.resp, out.rendering)
    ensures ValidPrompt(prompt) && TruthyText(apiKey) && clientInstalled && !r.Ok? ==>
              && r.status == 500 && r.error == "OpenAI request failed" && r.detail.Some?
    ensures ValidPrompt(prompt) && TruthyText(apiKey) && clientInstalled ==>
              var out := openai(ChatRequest(prompt.s));
              && (out.Raised? ==> r == Err(500, "OpenAI request failed", Some(out.message)))
              && (out.Returned? && ExtractReply(out.resp, out.rendering).Failure? ==>
                    r == Err(500, "OpenAI request failed", Some(ExtractReply(out.resp, out.rendering).error)))
  {
    if !ValidPrompt(prompt) then Err(400, "Missing or invalid prompt", None)
    else if !TruthyText(apiKey) then Err(500, "OpenAI API key not configured on server", None)
    else if !clientInstalled then Err(500, "OpenAI client library not installed on server", None)
    else
      match openai(ChatRequest(prompt.s))
      case Raised(message) => Err(500, "OpenAI request failed", Some(message))
      case Returned(resp, rendering) =>
        match ExtractReply(resp, rendering)
        case Failure(message) => Err(500, "OpenAI request failed", Some(message))
        case Success(reply) => Ok(200, reply)
  }

  // ------------------------------------------------------------ /ai/translate

  /** The model name the project's LLM wrapper is called with. */
  const TranslateModel := "openai/gpt-4.1-mini"

  /** The arguments of `call_llm_model`. */
  datatype LlmCall = LlmCall(model: string, messages: seq<Message>)

  /** What the LLM wrapper does: it returns the translated text, or raises with `message`. */
  datatype LlmOutcome = Completed(text: string) | Failed(message: string)

  /** The JSON body of `/ai/translate`; a missing or `null` `note_id` or `text` is `None`. */
  datatype TranslateRequest = TranslateRequest(noteId: Option<int>, text: Option<string>, target: Field<string>)

  /** Python truthiness of an optional note id (`None` and `0` are falsy). */
  predicate TruthyId(id: Option<int>) {
    id.Some? && id.value != 0
  }

  /** `data.get('target', 'Chinese')` as the f-string renders it: `Chinese` when the key is
      missing, `None` when it is `null`. */
  function TargetText(target: Field<string>): (t: string)
    ensures target.Absent? ==> t == "Chinese"
    ensures target.Null? ==> t == "None"
    ensures target.Given? ==> t == target.value
  {
    match target
    case Absent => "Chinese"
    case Null => "None"
    case Given(t) => t
  }

  /** The system prompt; it names the target language. */
  function TranslationPrompt(target: string): (p: string)
    ensures Contains(p, target)
    ensures "You are a helpful translator. Translate the user's text into " <= p
  {
    var pre := "You are a helpful translator. Translate the user's text into ";
    var post := ". Preserve meaning and formatting. Return only the translated text without commentary.";
    ContainsInfix(pre, target, post);
    pre + target + post
  }

  /** Exactly two messages: the system prompt for `target`, then the text as the user's. */
  function TranslationMessages(target: string, text: string): (ms: seq<Message>)
    ensures |ms| == 2
    ensures ms[0].role == "system" && Contains(ms[0].content, target)
    ensures ms[1] == Message("user", text)
  {
    [Message("system", TranslationPrompt(target)), Message("user", text)]
  }

  /** The text to translate: the stored note's content when `note_id` is truthy (whatever
      `text` says), the given `text` otherwise; 400 when both are falsy, 404 for an unknown
      note. */
  function SourceText(req: TranslateRequest, notes: map<int, Notes.Note>): (r: Result<string, Reply<string>>)
    ensures r == Failure(Err(400, "Provide either note_id or text to translate", None)) <==>
              !TruthyText(req.text) && !TruthyId(req.noteId)
    ensures TruthyId(req.noteId) && req.noteId.value in notes ==>
              r == Success(notes[req.noteId.value].content)
    ensures TruthyId(req.noteId) && req.noteId.value !in notes ==> r == Failure(Err(404, "Note not found", None))
    ensures !TruthyId(req.noteId) && TruthyText(req.text) ==> r == Success(req.text.value)
  {
    if !TruthyText(req.text) && !TruthyId(req.noteId) then
      Failure(Err(400, "Provide either note_id or text to translate", None))
    else if TruthyId(req.noteId) then
      if req.noteId.value in notes then Success(notes[req.noteId.value].content)
      else Failure(Err(404, "Note not found", None))
    else
      Success(req.text.value)
  }

  /** The exception handler of `/ai/translate`: a content-filter marker in the message
      makes it a 422, anything else a 500; both carry the message as `detail`. */
  function ClassifyFailure(msg: string): (r: Reply<string>)
    ensures r.Err? && r.detail == Some(msg)
    ensures r.status == 422 <==> Contains(msg, "content_filter") || Contains(msg, "ResponsibleAIPolicyViolation")
    ensures r.status == 422 ==> r.error == "Translation blocked by model content filter"
    ensures r.status != 422 ==> r.status == 500 && r.error == "Translation failed"
  {
    ContentFilterResultRedundant(msg);
    if Occurs("content_filter", msg) || Occurs("ResponsibleAIPolicyViolation", msg)
       || Occurs("content_filter_result", msg) then
      Err(422, "Translation blocked by model content filter", Some(msg))
    else
      Err(500, "Translation failed", Some(msg))
  }

  /** The third marker adds nothing: any message holding `content_filter_result` already
      holds `content_filter`. */
  lemma ContentFilterResultRedundant(msg: string)
    ensures Contains(msg, "content_filter_result") ==> Contains(msg, "content_filter")
  {
    if Contains(msg, "content_filter_result") {
      ContainsInfix("", "content_filter", "_result");
      assert "" + "content_filter" + "_result" == "content_filter_result";
      ContainsTransitive(msg, "content_filter_result", "content_filter");
    }
  }

  /** The call `/ai/translate` makes for a request whose source text is `text`. */
  function TranslationCall(target: Field<string>, text: string): (call: LlmCall)
    ensures call.model == "openai/gpt-4.1-mini"
    ensures call.messages == TranslationMessages(TargetText(target), text)
  {
    LlmCall(TranslateModel, TranslationMessages(TargetText(target), text))
  }

  /** `/ai/translate`: the source text's error reply, or the model's translation as a 200,
      or its failure classified. */
  function Translate(req: TranslateRequest, notes: map<int, Notes.Note>, llm: LlmCall -> LlmOutcome): (r: Reply<string>)
    ensures SourceText(req, notes).Failure? ==> r == SourceText(req, notes).error
    ensures SourceText(req, notes).Success? ==>
              var out := llm(TranslationCall(req.target, SourceText(req, notes).value));
              && (out.Completed? ==> r == Ok(200, out.text))
              && (out.Failed? ==> r == ClassifyFailure(out.message))
    ensures r.Err? ==> r.status == 400 || r.status == 404 || r.status == 422 || r.status == 500
  {
    var src := SourceText(req, notes);
    if src.Failure? then src.error
    else
      var out := llm(TranslationCall(req.target, src.value));
      if out.Completed? then Ok(200, out.text) else ClassifyFailure(out.message)
  }

  /** A truthy `note_id` makes `text` irrelevant: the reply is the same whatever text is sent. */
  lemma NoteIdOverridesText(req: TranslateRequest, other: Option<string>, notes: map<int, Notes.Note>,
                            llm: LlmCall -> LlmOutcome)
    requires TruthyId(req.noteId)
    ensures Translate(req, notes, llm) == Translate(req.(text := other), notes, llm)
  {
  }
}
