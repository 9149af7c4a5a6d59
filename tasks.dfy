/**
  The tasks the scheduler runs for one chat: `analyze` (window, message query,
  prompt, completion), the save gate `save_analysis_result`, and the delivery
  `send_analysis_result`.
*/
module Tasks {
  import opened Wrappers
  import opened Json
  import opened TimeWindow
  import opened Payload
  import opened AnalysisManager
  import Yandex
  import OpenAI

  /** A chat's configuration as the chat registry returns it. */
  datatype Chat = Chat(
    chatId: ChatKey,
    scheduleAnalysis: bool,
    analysisTime: TimeOfDay,
    sendTime: TimeOfDay,
    defaultPromptId: int)

  /**
    The collaborators of `analyze`: the chat registry, the message query
    (`None` when it raised), the prompt texts, the completion call of the
    configured provider, and the ISO-8601 rendering of an instant.
  */
  datatype AnalysisEnv = AnalysisEnv(
    registry: seq<Chat>,
    query: (ChatKey, int, int) -> Option<seq<Message>>,
    prompts: map<int, string>,
    complete: (string, seq<Message>) -> Completion,
    iso: int -> string)

  /** The dictionary `analyze` returns. */
  datatype Descriptor = Descriptor(
    chatId: ChatKey,
    analysisResult: Option<string>,
    tokensIn: Option<int>,
    tokensOut: Option<int>,
    promptId: int,
    filters: Object)

  /** `get_chat_by_id`: the first chat with that id. */
  function FindChat(registry: seq<Chat>, id: ChatKey): (r: Option<Chat>)
    ensures r.None? <==> forall i :: 0 <= i < |registry| ==> registry[i].chatId != id
    ensures r.Some? ==> r.value in registry && r.value.chatId == id
  {
    if registry == [] then None
    else if registry[0].chatId == id then Some(registry[0])
    else FindChat(registry[1..], id)
  }

  /** The filters record: `{chat_id, start_date, end_date, user_id: None}`, in that key order. */
  function FiltersRecord(chatId: ChatKey, w: Window, iso: int -> string): Object
  {
    assert "chat_id"[0] != "user_id"[0] && "start_date"[0] != "end_date"[0];
    [("chat_id", ChatKeyJson(chatId)), ("start_date", JStr(iso(w.start))),
     ("end_date", JStr(iso(w.end))), ("user_id", JNull)]
  }

  /** `get_prompt`, then `if not prompt`: a missing or empty prompt text is an error. */
  predicate HasPrompt(prompts: map<int, string>, id: int)
  {
    id in prompts && prompts[id] != ""
  }

  /**
    `analyze(chat_id, analysis_time)` at instant `nowUtc`. An unknown chat fails
    before anything else is consulted; every descriptor carries the filters of
    the analysis window and the chat's default prompt id.
  */
  function Analyze(chatId: ChatKey, at: TimeOfDay, nowUtc: int, env: AnalysisEnv): (r: Result<Descriptor, Error>)
    ensures FindChat(env.registry, chatId).None? ==> r == Failure(ChatNotFound)
    ensures r.Success? ==>
      && FindChat(env.registry, chatId).Some?
      && r.value.chatId == chatId
      && r.value.promptId == FindChat(env.registry, chatId).value.defaultPromptId
      && r.value.filters == FiltersRecord(chatId, AnalysisWindow(nowUtc, at), env.iso)
  {
    match FindChat(env.registry, chatId)
    case None => Failure(ChatNotFound)
    case Some(chat) =>
      var w := AnalysisWindow(nowUtc, at);
      match env.query(chatId, w.start, w.end)
      case None => Failure(MessageQueryFailed)
      case Some(messages) =>
        var filters := FiltersRecord(chatId, w, env.iso);
        if messages == [] then
          Success(Descriptor(chatId, None, Some(0), Some(0), chat.defaultPromptId, filters))
        else if !HasPrompt(env.prompts, chat.defaultPromptId) then
          Failure(PromptNotFound)
        else
          match env.complete(env.prompts[chat.defaultPromptId], messages)
          case Raised => Failure(AnalysisServiceError)
          case Completed(text, tokensIn, tokensOut) =>
            Success(Descriptor(chatId, text, tokensIn, tokensOut, chat.defaultPromptId, filters))
  }

  /** The recorded window of any descriptor is exactly one day wide and ends at the chat's local analysis time. */
  lemma AnalyzeWindow(chatId: ChatKey, at: TimeOfDay, nowUtc: int, env: AnalysisEnv)
    requires Analyze(chatId, at, nowUtc, env).Success?
    ensures var w := AnalysisWindow(nowUtc, at);
      && Analyze(chatId, at, nowUtc, env).value.filters[1] == ("start_date", JStr(env.iso(w.start)))
      && Analyze(chatId, at, nowUtc, env).value.filters[2] == ("end_date", JStr(env.iso(w.end)))
      && w.end - w.start == DAY
      && LocalClock(w.end) == SecondsOfDay(at) && LocalDate(w.end) == LocalDate(nowUtc)
  {
  }

  /**
    With no messages in the window the descriptor has no analysis text and zero
    tokens, whatever the prompts and the completion service would have done.
  */
  lemma AnalyzeEmptyWindow(chatId: ChatKey, at: TimeOfDay, nowUtc: int, env: AnalysisEnv,
                           prompts': map<int, string>, complete': (string, seq<Message>) -> Completion)
    requires FindChat(env.registry, chatId).Some?
    requires var w := AnalysisWindow(nowUtc, at); env.query(chatId, w.start, w.end) == Some([])
    ensures var r := Analyze(chatId, at, nowUtc, env);
      && r.Success?
      && r.value.analysisResult.None?
      && r.value.tokensIn == Some(0) && r.value.tokensOut == Some(0)
      && r == Analyze(chatId, at, nowUtc, env.(prompts := prompts', complete := complete'))
  {
  }

  /** A failing message query is re-raised. */
  lemma AnalyzeQueryFails(chatId: ChatKey, at: TimeOfDay, nowUtc: int, env: AnalysisEnv)
    requires FindChat(env.registry, chatId).Some?
    requires var w := AnalysisWindow(nowUtc, at); env.query(chatId, w.start, w.end).None?
    ensures Analyze(chatId, at, nowUtc, env) == Failure(MessageQueryFailed)
  {
  }

  /**
    With messages present: a missing or empty prompt is an error whatever the
    completion service does; otherwise the completion gets the prompt text and
    the messages, and its text and token counts are passed on unchanged, or its
    exception re-raised.
  */
  lemma AnalyzeWithMessages(chatId: ChatKey, at: TimeOfDay, nowUtc: int, env: AnalysisEnv)
    requires FindChat(env.registry, chatId).Some?
    requires var w := AnalysisWindow(nowUtc, at);
      env.query(chatId, w.start, w.end).Some? && env.query(chatId, w.start, w.end).value != []
    ensures var chat := FindChat(env.registry, chatId).value;
      var w := AnalysisWindow(nowUtc, at);
      var messages := env.query(chatId, w.start, w.end).value;
      var r := Analyze(chatId, at, nowUtc, env);
      && (!HasPrompt(env.prompts, chat.defaultPromptId) ==> r == Failure(PromptNotFound))
      && (HasPrompt(env.prompts, chat.defaultPromptId) ==>
            var c := env.complete(env.prompts[chat.defaultPromptId], messages);
            && (c.Raised? ==> r == Failure(AnalysisServiceError))
            && (c.Completed? ==>
                  r.Success? && r.value.analysisResult == c.text
                  && r.value.tokensIn == c.tokensIn && r.value.tokensOut == c.tokensOut))
  {
  }

  /** With the YandexGPT provider, `analyze` never fails for the completion call. */
  lemma AnalyzeWithYandexNeverServiceError(chatId: ChatKey, at: TimeOfDay, nowUtc: int, env: AnalysisEnv,
                                           dir: Directory, folderId: string, post: Yandex.Request -> Yandex.Reply)
    requires forall p, ms :: env.complete(p, ms) == Yandex.Outcome(p, ms, dir, folderId, post)
    ensures Analyze(chatId, at, nowUtc, env) != Failure(AnalysisServiceError)
    ensures Analyze(chatId, at, nowUtc, env).Success? ==>
      Analyze(chatId, at, nowUtc, env).value.tokensIn.None? || Analyze(chatId, at, nowUtc, env).value.tokensIn == Some(0)
  {
  }

  /** With the OpenAI provider, an API error on the request sent surfaces from `analyze` as `AnalysisServiceError`. */
  lemma AnalyzeWithOpenAIReraises(chatId: ChatKey, at: TimeOfDay, nowUtc: int, env: AnalysisEnv,
                                  dir: Directory, create: OpenAI.Request -> OpenAI.Reply)
    requires forall p, ms :: env.complete(p, ms) == OpenAI.Outcome(p, ms, dir, create)
    requires FindChat(env.registry, chatId).Some?
    requires HasPrompt(env.prompts, FindChat(env.registry, chatId).value.defaultPromptId)
    requires var w := AnalysisWindow(nowUtc, at);
      env.query(chatId, w.start, w.end).Some? && env.query(chatId, w.start, w.end).value != []
    requires var w := AnalysisWindow(nowUtc, at);
      var prompt := env.prompts[FindChat(env.registry, chatId).value.defaultPromptId];
      create(OpenAI.RequestFor(prompt, env.query(chatId, w.start, w.end).value, dir)) == OpenAI.ApiRaised
    ensures Analyze(chatId, at, nowUtc, env) == Failure(AnalysisServiceError)
  {
  }

  // ---------------------------------------------------------------------------
  // save_analysis_result

  /** `if data["analysis_result"]`: None and the empty string are falsy. */
  predicate Truthy(s: Option<string>)
  {
    s.Some? && s.value != ""
  }

  /**
    Writes the descriptor's prompt id, text, filters and tokens unchanged, and
    only when the analysis text is truthy; a store failure is re-raised.
  */
  method SaveAnalysisResult(store: Store, data: Descriptor, nowUtc: int, fault: bool)
    returns (r: Result<Option<nat>, Error>)
    requires store.Valid()
    modifies store
    ensures store.Valid()
    ensures !Truthy(data.analysisResult) ==> r == Success(None) && store.records == old(store.records)
    ensures Truthy(data.analysisResult) && fault ==>
      r == Failure(PersistenceError) && store.records == old(store.records)
    ensures Truthy(data.analysisResult) && !fault ==>
      && r == Success(Some(|old(store.records)| + 1))
      && store.records == old(store.records) +
           [Row(|old(store.records)| + 1, data.promptId, data.analysisResult.value, Obj(data.filters),
                data.tokensIn, data.tokensOut, nowUtc)]
  {
    if data.analysisResult.Some? && data.analysisResult.value != "" {
      var saved := store.Save(data.promptId, data.analysisResult.value, Obj(data.filters),
                              data.tokensIn, data.tokensOut, nowUtc, fault);
      match saved {
        case Failure(e) => r := Failure(e);
        case Success(id) => r := Success(Some(id));
      }
    } else {
      r := Success(None);
    }
  }

  // ---------------------------------------------------------------------------
  // send_analysis_result

  const DELIVERY_HEADER: string := "Результат анализа для чата "

  /** `f"Результат анализа для чата {chat}:\n\n{analysis_result}"`, where a missing name prints as `None`. */
  function DeliveryText(chatName: Option<string>, result: string): string
  {
    DELIVERY_HEADER + (if chatName.Some? then chatName.value else "None") + ":\n\n" + result
  }

  /** One call of `send_analysis_result`: the message submitted, whether it went through, and the bot stop. */
  datatype Delivery = Delivery(chatId: ChatKey, destination: string, text: string, delivered: bool, botStopped: bool)

  /**
    Sends the text, headed by the chat's name from `get_chat_name`, to the
    configured destination; a send failure is swallowed and the bot is
    stopped either way.
  */
  function SendAnalysisResult(dir: Directory, chatId: ChatKey, result: string,
                              destination: string, sendOk: bool): (d: Delivery)
    ensures d.botStopped && d.delivered == sendOk
    ensures d.chatId == chatId && d.destination == destination
    ensures var name := if chatId in dir.chatNames then dir.chatNames[chatId] else "None";
      d.text == DELIVERY_HEADER + name + ":\n\n" + result
  {
    Delivery(chatId, destination, DeliveryText(ChatName(dir, Some(chatId)), result), sendOk, true)
  }

  /**
    The delivered text starts with the header and the chat's name, and the
    result can be read back from its end: the text after the name and `":\n\n"`
    is exactly the result.
  */
  lemma DeliveryTextParts(chatName: Option<string>, result: string)
    ensures var name := if chatName.Some? then chatName.value else "None";
      var text := DeliveryText(chatName, result);
      var k := |DELIVERY_HEADER| + |name|;
      && |text| == k + 3 + |result|
      && text[..|DELIVERY_HEADER|] == DELIVERY_HEADER
      && text[|DELIVERY_HEADER|..k] == name
      && text[k..k + 3] == ":\n\n"
      && text[k + 3..] == result
  {
  }

  // ---------------------------------------------------------------------------
  // How the saved filters meet the 24-hour lookup

  /**
    The lookup compares the stored `"chat_id"` with `str(chat_id)`: the filters
    `analyze` records match their own chat exactly when its id is a string.
  */
  lemma SavedFiltersMatchIff(chatId: ChatKey, w: Window, iso: int -> string)
    ensures MatchesChat(Obj(FiltersRecord(chatId, w, iso)), chatId) <==> chatId.KStr?
  {
  }

  /**
    A row saved for a chat with a numeric id is never what the lookup returns
    for that chat, however recent it is.
  */
  lemma NumericChatRowNeverFound(rows: seq<Row>, row: Row, n: int, w: Window, iso: int -> string, nowUtc: int)
    requires row.filters == Obj(FiltersRecord(KNum(n), w, iso))
    ensures TodayAnalysisBy(rows, KNum(n), nowUtc, MatchesChat) != Some(row)
  {
    if TodayAnalysisBy(rows, KNum(n), nowUtc, MatchesChat) == Some(row) {
      TodayAnalysisFound(rows, KNum(n), nowUtc, MatchesChat);
      SavedFiltersMatchIff(KNum(n), w, iso);
    }
  }

  /** Under the string-coercing comparison the recorded filters match their own chat for either kind of id. */
  lemma SavedFiltersMatchCoerced(chatId: ChatKey, w: Window, iso: int -> string)
    ensures MatchesChatCoerced(Obj(FiltersRecord(chatId, w, iso)), chatId)
  {
  }

  /**
    Round trip under the coercing comparison: once a row saved from `analyze`'s
    filters lies in the last 24 hours, the lookup for its chat finds a row, and
    what it finds is no older than that row.
  */
  lemma SavedRowFoundCoerced(rows: seq<Row>, row: Row, chatId: ChatKey, w: Window, iso: int -> string, nowUtc: int)
    requires row in rows && row.filters == Obj(FiltersRecord(chatId, w, iso))
    requires Contains(LookupWindow(nowUtc), row.timestamp)
    ensures TodayAnalysisBy(rows, chatId, nowUtc, MatchesChatCoerced).Some?
    ensures TodayAnalysisBy(rows, chatId, nowUtc, MatchesChatCoerced).value.timestamp >= row.timestamp
  {
    SavedFiltersMatchCoerced(chatId, w, iso);
    TodayAnalysisNone(rows, chatId, nowUtc, MatchesChatCoerced);
    TodayAnalysisFound(rows, chatId, nowUtc, MatchesChatCoerced);
  }
}
