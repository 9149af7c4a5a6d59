/** `chatgpt_analyze` of the YandexGPT provider. The HTTP call is a parameter. */
module Yandex {
  import opened Wrappers
  import opened Payload

  const MAX_TOKENS: int := 2000

  /**
    What `requests.post(...).json()` yields: an exception, or a response whose
    `"result"` key is absent or holds the alternatives, each with its message
    text or without one.
  */
  datatype Reply =
    | RequestRaised
    | Response(result: Option<seq<Option<string>>>)

  /** The JSON payload; its temperature (a float) is not modelled. */
  datatype Request = Request(modelUri: string, stream: bool, maxTokens: int, messages: seq<Turn>)

  function ModelUri(folderId: string): string
  {
    "gpt://" + folderId + "/yandexgpt-lite"
  }

  function RequestFor(prompt: string, messages: seq<Message>, dir: Directory, folderId: string): (q: Request)
    ensures q.messages == Conversation(prompt, Records(messages, dir))
    ensures q.modelUri == ModelUri(folderId) && !q.stream && q.maxTokens == MAX_TOKENS
  {
    Request(ModelUri(folderId), false, MAX_TOKENS, Conversation(prompt, Records(messages, dir)))
  }

  /**
    The result triple for a reply. A missing `"result"`, a missing alternative
    or message text (an exception inside the `try`) and a failed request all
    give `(None, None, None)`; the function never raises and reports no tokens.
  */
  function ReplyOutcome(reply: Reply): (c: Completion)
    ensures c.Completed? && c.tokensIn.None? && c.tokensOut.None?
    ensures c.text.Some? <==>
      reply.Response? && reply.result.Some? && |reply.result.value| > 0 && reply.result.value[0].Some?
    ensures c.text.Some? ==> c.text == reply.result.value[0]
  {
    match reply
    case RequestRaised => Completed(None, None, None)
    case Response(result) =>
      if result.Some? && |result.value| > 0 && result.value[0].Some?
      then Completed(result.value[0], None, None)
      else Completed(None, None, None)
  }

  /** The provider as a completion capability, for `analyze`. */
  function Outcome(prompt: string, messages: seq<Message>, dir: Directory, folderId: string,
                   post: Request -> Reply): Completion
  {
    ReplyOutcome(post(RequestFor(prompt, messages, dir, folderId)))
  }

  /** Builds the records in a loop, posts the payload and maps the reply. */
  method ChatgptAnalyze(prompt: string, messages: seq<Message>, dir: Directory, folderId: string,
                        post: Request -> Reply)
    returns (sent: Request, c: Completion)
    ensures sent.messages == [SystemTurn(prompt), UserTurn(Records(messages, dir))]
    ensures sent.modelUri == ModelUri(folderId) && !sent.stream && sent.maxTokens == MAX_TOKENS
    ensures c == ReplyOutcome(post(sent)) && c.Completed?
  {
    var records := BuildRecords(messages, dir);
    sent := Request(ModelUri(folderId), false, MAX_TOKENS, [SystemTurn(prompt), UserTurn(records)]);
    var reply := post(sent);
    if reply.Response? && reply.result.Some? {
      var alternatives := reply.result.value;
      if |alternatives| > 0 && alternatives[0].Some? {
        c := Completed(alternatives[0], None, None);
      } else {
        c := Completed(None, None, None);
      }
    } else {
      c := Completed(None, None, None);
    }
  }
}
