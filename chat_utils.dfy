/** Converting LangChain messages into the API's chat messages (app/utils/chat.py). */
module ChatUtils {
  import opened Errors

  /** A tool call as the model requested it; its fields are passed through untouched. */
  datatype ToolCall = ToolCall(name: string, arguments: string)

  /** The API's chat message. Its class is not part of this model; the fields follow its uses. */
  datatype ChatMessage = ChatMessage(role: string, content: string, toolCalls: Option<seq<ToolCall>>)

  /** The inputs `convert_langchain_message` distinguishes. `None` content stands for a missing or empty one;
      a dict is given by its string entries. */
  datatype LangchainMessage =
    | AsChat(msg: ChatMessage)
    | AIMsg(aiContent: Option<string>, aiToolCalls: Option<seq<ToolCall>>)
    | HumanMsg(humanContent: Option<string>, humanToolCalls: Option<seq<ToolCall>>)
    | SystemMsg(systemContent: Option<string>)
    | ToolMsg(toolContent: Option<string>)
    | Dict(fields: map<string, string>)
    | Unsupported(repr: string)

  const ConversionFailed := "Error processing message"

  /** `content or ""` */
  function OrEmpty(content: Option<string>): string
  {
    if content.Some? then content.value else ""
  }

  /** `convert_langchain_message`. `ChatMessage(**d)` fails validation without a role or a content, and the
      catch-all turns that failure into an assistant message. */
  function ConvertLangchainMessage(m: LangchainMessage): ChatMessage
  {
    match m
    case AsChat(msg) => msg
    case AIMsg(c, calls) => ChatMessage("assistant", OrEmpty(c), calls)
    case HumanMsg(c, calls) => ChatMessage("user", OrEmpty(c), calls)
    case SystemMsg(c) => ChatMessage("system", OrEmpty(c), None)
    case ToolMsg(c) => ChatMessage("tool", OrEmpty(c), None)
    case Dict(fields) =>
      if "role" in fields && "content" in fields then ChatMessage(fields["role"], fields["content"], None)
      else ChatMessage("assistant", ConversionFailed, None)
    case Unsupported(repr) => ChatMessage("assistant", repr, None)
  }

  // ---------------------------------------------------------------- lemmas

  /** The role each LangChain class maps to; tool calls survive for AI and human messages only, and a missing
      content becomes "". */
  lemma RoleMapping(content: Option<string>, calls: Option<seq<ToolCall>>)
    ensures ConvertLangchainMessage(AIMsg(content, calls)) == ChatMessage("assistant", OrEmpty(content), calls)
    ensures ConvertLangchainMessage(HumanMsg(content, calls)) == ChatMessage("user", OrEmpty(content), calls)
    ensures ConvertLangchainMessage(SystemMsg(content)) == ChatMessage("system", OrEmpty(content), None)
    ensures ConvertLangchainMessage(ToolMsg(content)) == ChatMessage("tool", OrEmpty(content), None)
    ensures content.None? ==> OrEmpty(content) == "" && ConvertLangchainMessage(ToolMsg(content)).content == ""
    ensures content.Some? ==> ConvertLangchainMessage(SystemMsg(content)).content == content.value
  {
  }

  /** A dict becomes the message it describes; one that lacks a role or a content becomes the error message. */
  lemma DictConversion(fields: map<string, string>)
    ensures var r := ConvertLangchainMessage(Dict(fields));
            && ("role" in fields && "content" in fields ==> r.role == fields["role"] && r.content == fields["content"])
            && (!("role" in fields && "content" in fields) ==> r == ChatMessage("assistant", "Error processing message", None))
  {
  }

  /** Converting a converted message again returns it unchanged. */
  lemma ConvertIdempotent(m: LangchainMessage)
    ensures ConvertLangchainMessage(AsChat(ConvertLangchainMessage(m))) == ConvertLangchainMessage(m)
  {
  }
}
