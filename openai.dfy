/** `chatgpt_analyze` of the OpenAI provider. The API call is a parameter. */
module OpenAI {
  import opened Wrappers
  import opened Payload

  const MODEL: string := "gpt-4o"

  /** `response.usage`: the prompt and completion token counts. */
  datatype Usage = Usage(promptTokens: int, completionTokens: int)

  /**
    What `openai.chat.completions.create` yields: an exception, or a response
    with its choices (each with its message content, possibly null) and its
    usage, which may be missing (null).
  */
  datatype Reply =
    | ApiRaised
    | Response(choices: seq<Option<string>>, usage: Option<Usage>)

  datatype Request = Request(model: string, messages: seq<Turn>)

  function RequestFor(prompt: string, messages: seq<Message>, dir: Directory): (q: Request)
    ensures q.model == MODEL && q.messages == Conversation(prompt, Records(messages, dir))
  {
    Request(MODEL, Conversation(prompt, Records(messages, dir)))
  }

  /**
    The result for a reply: content and both token counts unchanged on success;
    an API error, a reply without choices or one without usage is re-raised.
  */
  function ReplyOutcome(reply: Reply): (c: Completion)
    ensures c.Raised? <==> reply.ApiRaised? || |reply.choices| == 0 || reply.usage.None?
    ensures c.Completed? ==>
      c.text == reply.choices[0]
      && c.tokensIn == Some(reply.usage.value.promptTokens)
      && c.tokensOut == Some(reply.usage.value.completionTokens)
  {
    match reply
    case ApiRaised => Raised
    case Response(choices, usage) =>
      if |choices| == 0 || usage.None? then Raised
      else Completed(choices[0], Some(usage.value.promptTokens), Some(usage.value.completionTokens))
  }

  /** The provider as a completion capability, for `analyze`. */
  function Outcome(prompt: string, messages: seq<Message>, dir: Directory,
                   create: Request -> Reply): Completion
  {
    ReplyOutcome(create(RequestFor(prompt, messages, dir)))
  }

  /** Builds the records in a loop, sends the two-message conversation and maps the reply. */
  method ChatgptAnalyze(prompt: string, messages: seq<Message>, dir: Directory,
                        create: Request -> Reply)
    returns (sent: Request, c: Completion)
    ensures sent.model == MODEL
    ensures sent.messages == [SystemTurn(prompt), UserTurn(Records(messages, dir))]
    ensures c == ReplyOutcome(create(sent))
  {
    var records := BuildRecords(messages, dir);
    sent := Request(MODEL, [SystemTurn(prompt), UserTurn(records)]);
    var reply := create(sent);
    if reply.ApiRaised? || |reply.choices| == 0 {
      c := Raised;
    } else {
      var analysis := reply.choices[0];
      match reply.usage {
        case None =>
          c := Raised;
        case Some(usage) =>
          c := Completed(analysis, Some(usage.promptTokens), Some(usage.completionTokens));
      }
    }
  }
}
