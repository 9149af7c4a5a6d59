# observe-scheduler: the hourly analysis pipeline, modelled in Dafny

observe-scheduler runs two jobs every hour.

- **Analysis tick** (`check_and_execute_tasks`): picks the chats whose scheduled analysis hour is now. For each one, `analyze` takes the messages of the last day up to the chat's analysis time and sends them to a completion provider (YandexGPT or OpenAI). `save_analysis_result` then stores the result in the analysis store.
- **Send tick** (`send_tasks`): picks the chats whose send hour is now. For each one, it looks up the newest stored analysis of the last 24 hours and sends that result through Telegram.

This project models that decision core:

- the time windows;
- due-chat selection;
- the per-chat error isolation of the analysis tick, and the abort of the send tick;
- the analysis descriptor and the save gate;
- the result store (`AnalysisManager`);
- the prompt payload both providers build;
- the job registry keyed by job id.

It proves what each of these promises.

Modules, one per concern:

| file | module | models |
|---|---|---|
| `wrappers.dfy` | `Wrappers` | `Option`, `Result` and the exceptions the code raises, as an `Error` tag |
| `time_window.dfy` | `TimeWindow` | instants as integer UTC seconds; Asia/Novosibirsk as a fixed UTC+7 offset; the analysis and lookup windows |
| `json_blob.dfy` | `Json` | the stored `filters` blob (`Empty`, `Malformed` or a parsed object); chat ids (`KStr` or `KNum`); Python's `str` of the values |
| `payload.dfy` | `Payload` | the message records and the two-turn conversation shared by both providers |
| `yandex.dfy`, `openai.dfy` | `Yandex`, `OpenAI` | each provider's `chatgpt_analyze`. The HTTP or API call is a function parameter. |
| `analysis_manager.dfy` | `AnalysisManager` | the result store, a class holding a `seq` of rows in insertion order |
| `tasks.dfy` | `Tasks` | `analyze`, `save_analysis_result`, `send_analysis_result` |
| `scheduler.dfy` | `Scheduler` | `execute_analysis`, `check_and_execute_tasks`, `send_tasks`, and the job registry as a class with a `map` |

Collaborators become parameters, each modelled as data:

- the chat registry: a `seq<Chat>`;
- the message query: a function returning `None` when it raises;
- the prompt texts and prompt names: maps;
- the completion call: a function to a `Completion`;
- ISO-8601 rendering: a function `int -> string`;
- the user and chat directories: maps. The same chat directory gives the names in the provider payload and in the delivered message;
- whether the store, the chat list or a chat's handling raises: boolean oracles;
- whether Telegram accepts a message: an oracle.

The current time is a parameter `nowUtc`. Every `datetime.now` of one tick is taken to give this same instant.

Newest-first order is an insertion sort on timestamps. Rows with equal timestamps come later-saved first; the database leaves their order open.

## Model

Some specification functions carry no contract of their own. The lemmas in the table state their properties:

- `AnalysisManager.MatchesChat` is the comparison at database/managers/analysis_manager.py:125-129. Tasks.SavedFiltersMatchIff and Tasks.NumericChatRowNeverFound state it.
- `AnalysisManager.TodayAnalysisBy` is the lookup at database/managers/analysis_manager.py:97-133. AnalysisManager.TodayAnalysisFound and AnalysisManager.TodayAnalysisNone state it.
- `Tasks.FiltersRecord` is the filters dict at utils/tasks.py:69-74. Tasks.Analyze and Tasks.AnalyzeWindow state it.
- `Scheduler.RunOf` is one `execute_analysis` at scheduler.py:35-48. Scheduler.RunSavesAnalysis, Scheduler.ExecuteAnalysis and Scheduler.RunsPointwise state it.
- `Scheduler.SendStep` is one iteration of the send loop, and `Scheduler.SendPlan` is the whole loop (scheduler.py:108-124). The Scheduler.Send* lemmas state them.

| member | source | states |
|---|---|---|
| TimeWindow.SecondsOfDay | utils/tasks.py:39-43 | the `analysis_time` replacement is a time of day in `[0, 86400)` whose hour is the chat's hour |
| TimeWindow.CurrentHour | scheduler.py:57-58 | `now.hour` is the hour whose local-clock interval contains now |
| TimeWindow.AnalysisWindow | utils/tasks.py:36-55 | the window is exactly one day wide, both in UTC and locally; its end is on today's local date at the chat's analysis time, and its start is the same clock time on the previous local date |
| TimeWindow.AnalysisEndUnique | utils/tasks.py:46-51 | the window end is the only instant on now's local date whose local clock reads `analysis_time` (both directions) |
| TimeWindow.LookupWindow | database/managers/analysis_manager.py:103-111 | converting the local bounds to UTC gives exactly `[now - 1 day, now)` |
| Json.ChatKeyJson | utils/tasks.py:69-70 | the recorded `chat_id` is the id itself: the JSON string `s` for a string id `s`, the JSON number `n` for a numeric id `n` |
| Json.Get | database/managers/analysis_manager.py:127 | `dict.get` is None exactly when no field has the key; otherwise it returns the value of a field with that key |
| Json.GetInObject | database/managers/analysis_manager.py:127 | in a parsed object, where each key occurs once, `dict.get` of a key returns the value stored with it |
| Payload.RecordsAreTextualMessages | utils/yandex_funcs.py:33-34 | only messages with truthy text give records: never more records than messages, every record has non-empty text, all-textual input gives one record per message, and no textual message gives no records |
| Payload.RecordsAppend | utils/openai_funcs.py:19-35 | the record list is built in input order: the records of `a + b` are the records of `a` followed by those of `b` |
| Payload.RecordsOfOne | utils/openai_funcs.py:21 | a message without text contributes nothing; a message with text contributes exactly its own record |
| Payload.RecordFields | utils/yandex_funcs.py:38-43 | a record carries the message's text and its user's and chat's names; the timestamp is the message's timestamp, `"Неизвестно"` when the key is absent, and null when it is present but null |
| Payload.BuildRecords | utils/yandex_funcs.py:31-44 | the append loop computes exactly the filtered, in-order record list (the same loop as utils/openai_funcs.py:17-35) |
| Payload.Conversation | utils/openai_funcs.py:38-39 | exactly two turns: system = the prompt, user = the record list |
| Yandex.RequestFor | utils/yandex_funcs.py:51-62 | the payload has modelUri `gpt://<folder>/yandexgpt-lite`, `stream` false, `maxTokens` 2000, and the two-turn conversation |
| Yandex.ReplyOutcome | utils/yandex_funcs.py:64-81 | it never raises and never reports tokens; the text is present exactly when the reply has `"result"` with a first alternative that has message text, and it is that text |
| Yandex.ChatgptAnalyze | utils/yandex_funcs.py:21-81 | the request it posts is built from the loop's records, and its result is the reply's outcome, always a `(text or None, None, None)` triple |
| OpenAI.RequestFor | utils/openai_funcs.py:38-45 | model `gpt-4o`, with the two-turn conversation |
| OpenAI.ReplyOutcome | utils/openai_funcs.py:40-56 | it raises exactly when the API raised, there is no first choice or the usage is missing; otherwise it returns the content and both token counts unchanged |
| OpenAI.ChatgptAnalyze | utils/openai_funcs.py:7-56 | it sends the two-message conversation of the loop's records, and its result is the reply's outcome |
| Tasks.FindChat | utils/tasks.py:31-34 | the lookup is None exactly when no registered chat has the id; otherwise it is a registered chat with that id |
| Tasks.Analyze | utils/tasks.py:19-111 | an unknown chat fails with `ChatNotFound` whatever the other collaborators do; every descriptor belongs to a registered chat, carries its id and default prompt id, and carries the filters `{chat_id, start_date, end_date, user_id: None}` of the analysis window |
| Tasks.AnalyzeWindow | utils/tasks.py:36-74 | the recorded start and end dates are the ISO renderings of a window one day wide, ending at the chat's analysis time on today's local date |
| Tasks.AnalyzeQueryFails | utils/tasks.py:59-67 | a failing message query is re-raised |
| Tasks.AnalyzeEmptyWindow | utils/tasks.py:76-86 | with no messages, the result text is None and both token counts are 0; the descriptor is identical whatever the prompts and the completion service are (neither is consulted) |
| Tasks.AnalyzeWithMessages | utils/tasks.py:90-111 | with messages, a missing or empty prompt fails with `PromptNotFound`; otherwise the completion gets the prompt text, an exception from it is re-raised, and its text and token counts are passed on unchanged |
| Tasks.AnalyzeWithYandexNeverServiceError | utils/tasks.py:97-101 | with the YandexGPT provider, `analyze` never fails because of the completion call, and reports no input tokens (or 0 for an empty window) |
| Tasks.AnalyzeWithOpenAIReraises | utils/openai_funcs.py:54-56 | with the OpenAI provider, an API error on the one request `analyze` sends surfaces as `AnalysisServiceError` |
| Tasks.SaveAnalysisResult | utils/tasks.py:114-131 | a falsy text (None or `""`) writes nothing; a truthy text appends exactly one row carrying the prompt id, text, filters and tokens unchanged; a store failure is re-raised with the store unchanged |
| Tasks.SendAnalysisResult | utils/tasks.py:134-153 | the message is exactly `"Результат анализа для чата "`, then the chat's name from `get_chat_name` (or `None`), then `":\n\n"`, then the result; it goes to the configured destination; a send failure is swallowed, and the bot is stopped in both cases |
| Tasks.DeliveryTextParts | utils/tasks.py:142-143 | the message splits back into the header, the name, `":\n\n"` and the result, each at its own position |
| Tasks.SavedFiltersMatchIff | database/managers/analysis_manager.py:127 | the filters `analyze` records match their own chat under the lookup's comparison exactly when the chat id is a string |
| Tasks.NumericChatRowNeverFound | database/managers/analysis_manager.py:121-131 | a row saved for a numeric chat id is never what the lookup returns for that chat |
| Tasks.SavedFiltersMatchCoerced | utils/tasks.py:69-74 | under a string-coercing comparison, the recorded filters match their own chat for either kind of id |
| Tasks.SavedRowFoundCoerced | database/managers/analysis_manager.py:114-131 | under the coercing comparison, a saved row inside the last 24 hours makes the lookup find a row for its chat that is no older |
| AnalysisManager.NewestFirst | database/managers/analysis_manager.py:36-38 | `ORDER BY timestamp DESC` gives a newest-first ordering that is a permutation of the rows |
| AnalysisManager.Page | database/managers/analysis_manager.py:39-40 | offset and limit give `min(limit, max(0, n - offset))` rows, the i-th being row `offset + i` |
| AnalysisManager.Preview | database/managers/analysis_manager.py:53 | the text itself when at most 100 characters; otherwise its first 100 characters followed by `...`, 103 in all |
| AnalysisManager.ItemsOf | database/managers/analysis_manager.py:46-56 | the comprehension succeeds exactly when every item builds (no unknown prompt, no malformed blob), and then gives one item per row, in order |
| AnalysisManager.TokenText | database/managers/analysis_manager.py:89-90 | a token count is shown as `'Неизвестно'` exactly when it is None or 0, and otherwise as itself |
| AnalysisManager.JoinFieldsAppend | database/managers/analysis_manager.py:75-77 | fields render as `key: value` joined by `", "` in key order |
| AnalysisManager.JoinFieldsHasColon | database/managers/analysis_manager.py:76 | every non-empty field list renders with a `:`, so it is never empty |
| AnalysisManager.FiltersReadableSentinels | database/managers/analysis_manager.py:69-88 | `'Не указаны'` exactly for an absent blob or an empty object; `'Некорректные данные'` exactly for malformed JSON; otherwise the joined fields |
| AnalysisManager.FindById | database/managers/analysis_manager.py:66-67 | None exactly when no row has the id; otherwise a stored row with that id |
| AnalysisManager.InWindowRows | database/managers/analysis_manager.py:114-117 | the query keeps exactly the rows with `now - 1 day <= timestamp < now` |
| AnalysisManager.FirstMatchBy | database/managers/analysis_manager.py:121-131 | the scan is None exactly when no row matches; otherwise it is a matching row with no matching row before it |
| AnalysisManager.TodayAnalysisFound | database/managers/analysis_manager.py:97-131 | a found row is stored, lies in the last 24 hours and matches, and no matching row of that window is newer |
| AnalysisManager.TodayAnalysisNone | database/managers/analysis_manager.py:97-133 | the lookup is None exactly when no row of the last 24 hours matches, which includes an empty window |
| AnalysisManager.Store.constructor | database/managers/analysis_manager.py:11-12 | a new store starts empty and valid |
| AnalysisManager.Store.Save | database/managers/analysis_manager.py:14-30 | on success, the store gains exactly one row holding the given values and the next sequential id, which is returned; on failure the store is unchanged and the error is raised |
| AnalysisManager.Store.GetAnalysisAll | database/managers/analysis_manager.py:32-60 | at most `limit` items, one per row of the newest-first page, and the full row count; if the page query or the count raises, or any item fails to build (including a malformed blob), the result is the error with no items and a count of 0 |
| AnalysisManager.Store.GetAnalysisById | database/managers/analysis_manager.py:62-95 | a failing query is re-raised; otherwise None for an id no row has, and for a stored id that row's id, prompt id, prompt name, timestamp, text, readable filters and token views, or the prompt-name error |
| AnalysisManager.Store.GetTodayAnalysis | database/managers/analysis_manager.py:97-133 | the newest-first scan returns what the lookup specification gives under exact comparison with `str(chat_id)`, skipping malformed blobs |
| Scheduler.SelectDue | scheduler.py:65-68 | a chat is selected exactly when it is registered, `schedule_analysis` is true and its scheduled hour is the current hour; never more chats than registered |
| Scheduler.SelectDueAppend | scheduler.py:100-103 | selection keeps registry order: it distributes over concatenation |
| Scheduler.FlagOffNeverSelected | scheduler.py:100-103 | a chat with `schedule_analysis` false is selected by neither tick |
| Scheduler.RunsPointwise | scheduler.py:73-74 | the i-th run of a tick is `execute_analysis` of the i-th due chat |
| Scheduler.RunsAppend | scheduler.py:73-74 | the runs of consecutive chats are the runs of each part, in order |
| Scheduler.RunsIsolated | scheduler.py:39-48 | each chat's run is independent: a failure for one chat leaves the runs before and after it unchanged |
| Scheduler.RunSavesAnalysis | scheduler.py:43-44 | a run saves only when the store did not fail and `analyze` succeeded with truthy text; what it saves is that descriptor's prompt id, text, tokens and window filters |
| Scheduler.EmptyWindowSavesNothing | scheduler.py:43-44 | a registered chat with no messages in its window is run but saves nothing |
| Scheduler.RowsForNumbered | scheduler.py:73-74 | the rows a tick appends are numbered consecutively and stamped with now; each comes from a saved run with that run's entry; there are no more rows than runs, and no saved run means no rows |
| Scheduler.RowsForSavedEntries | scheduler.py:73-74 | conversely, every saved run appends its row: the appended rows are the saved entries one for one, in run order |
| Scheduler.ExecuteAnalysis | scheduler.py:35-48 | one chat's run is the specified run, and the store grows by that run's row, if it saved one; every exception is caught |
| Scheduler.ExecuteAll | scheduler.py:73-74 | the loop performs the specified run for every due chat, in order, and the store grows by exactly those runs' rows |
| Scheduler.CheckAndExecuteTasks | scheduler.py:51-79 | a failing chat list does nothing; otherwise every chat due this hour is run once, in registry order, and the store grows by the saved results only |
| Scheduler.SendPlanAbortSticks | scheduler.py:97-124 | once an exception ends the send loop, the chats after it change nothing |
| Scheduler.SendAbortsRemaining | scheduler.py:108-124 | a chat whose handling raises aborts the tick; the deliveries are exactly those of the chats before it |
| Scheduler.SendOnlyWhenFound | scheduler.py:110-119 | every delivery is for a due chat whose lookup found a row, with that row's text; every not-found report is for a due chat whose lookup found none |
| Scheduler.DeliveredCoversDue | scheduler.py:110-119 | in the front-to-back reference, a due chat whose lookup finds a row gets a delivery of that row's text, every other due chat a not-found entry, and there is one entry per due chat |
| Scheduler.SendHandlesEveryChat | scheduler.py:108-119 | when no chat's handling raises, the tick runs to the end, and its deliveries and not-found entries are exactly the reference ones, in due-chat order |
| Scheduler.SendIffFound | scheduler.py:110-119 | with no exception in the tick, `send_analysis_result` is called for a due chat whenever its lookup found a row, with that row's text; every other due chat is reported as not found; there is one entry per due chat (with Scheduler.SendOnlyWhenFound, both directions) |
| Scheduler.SendAll | scheduler.py:108-124 | the loop with its single handler computes exactly the send plan of the due chats over the store |
| Scheduler.SendTasks | scheduler.py:82-124 | a failing chat list aborts with nothing sent; otherwise the report is the send plan of the chats due this hour |
| Scheduler.Register | scheduler.py:132-139 | `add_job(..., replace_existing=True)` maps the id to the new job and leaves every other id unchanged |
| Scheduler.RegisterReplaces | scheduler.py:148-155 | registering twice under one id equals registering once with the second job, and leaves a single entry for that id |
| Scheduler.BothJobsRegistered | scheduler.py:137-153 | the two job ids differ, so registering both jobs from empty leaves exactly two entries |
| Scheduler.JobScheduler.constructor | scheduler.py:22-32 | a new scheduler starts with no jobs and is not running |
| Scheduler.JobScheduler.AddHourlyAnalysis | scheduler.py:127-140 | registers `check_and_execute_tasks` hourly at minute 0 under `Analysis_schedule`, replacing an existing entry |
| Scheduler.JobScheduler.AddHourlySend | scheduler.py:143-156 | registers `send_tasks` hourly at minute 0 under `Send_schedule`, replacing an existing entry |
| Scheduler.JobScheduler.ClearExistingJobs | scheduler.py:183-191 | the registry is left empty; when `remove_all_jobs` raises, the error is swallowed and the jobs stay |
| Scheduler.JobScheduler.StartScheduler | scheduler.py:159-172 | registers both jobs, then starts; it reports a start exactly when the scheduler was not already running |

## Left out

- Network and bots: `requests.post`, `openai.chat.completions.create` and `TeleBot` are parameters or oracles. Headers, timeouts, the API key and the bot token are not modelled.
- Time: `datetime.now` is a parameter. The tick and every call inside it see the same instant. Microseconds are dropped; the analysis window sets them to 0 anyway.
- Time zones: pytz and the time-zone database become a fixed UTC+7 offset. Asia/Novosibirsk has had no daylight saving since 2016.
- ISO-8601 rendering of instants is an abstract function. The record list sent to the providers is kept as a list; its string rendering (`json.dumps` of each record, then the list's `str`) is not modelled.
- JSON parsing is left out. Blobs are `Empty`, `Malformed` or a parsed object: its fields in insertion order, each key once (the `Object` type).
  - How `json.loads` folds a repeated key into one is not modelled; it keeps the last value at the first key's position.
  - A JSON document that is not an object is not representable. At database/managers/analysis_manager.py:127 it would raise `AttributeError`. The by-id rendering would show it as is, or as `'Не указаны'` when it is falsy.
  - Field values are null, booleans, integers and strings. Floats, arrays and nested objects are not representable.
- Yandex.RequestFor: the `temperature: 0.6` completion option (a float) is not modelled.
- The apscheduler engine: cron firing, threads, executors, the SQLite job store and the time-zone setting. Only the map of jobs keyed by id and a running flag are kept.
- Scheduler.JobScheduler.StartScheduler: the database initialisation and the OpenAI key set-up before registration are not modelled. Only "already running raises" is kept (as `started == false`).
- `list_scheduled_jobs` only logs, so it is not modelled.
- Logging throughout is not modelled.
- main.py, the sleep loop that keeps the process alive, is not part of this model.
- Several collaborators are not part of this model; the collaborators above stand in for them:
  - `ChatManager` and `MessageManager`;
  - utils/db_get.py (`get_prompt`, `get_prompt_name`, `get_chat_name`, `get_user_name`);
  - the `AnalysisResult` model and SQLAlchemy sessions.
- Tasks.FindChat: `get_chat_by_id` is modelled as a search of the registry for the first chat with the id.
- Storing `filters`: the dict is taken to be stored as JSON with its keys in order, because the `AnalysisResult.save` that serialises it is not part of this model.
- Scheduler.SendTasks: the loop reads `analysis_result.result` (scheduler.py:114), while the store reads `result_text`. The `AnalysisResult` model is not part of this model, so both are taken to be the same column.
- Scheduler.SendTasks / Scheduler.SendAll: each of these is one oracle, `handlingFails`, rather than separate failure points:
  - an exception from `get_today_analysis`;
  - a failure of `get_chat_name` inside `send_analysis_result`;
  - a failure constructing the bot;
  - `bot.stop_bot()` raising in the `finally` (utils/tasks.py:152-153), after a successful or a failed send. If the send succeeded, the message went out, but the model records no delivery for that chat.
- Scheduler.CheckAndExecuteTasks: only `get_all_chats` can raise past `execute_analysis`. Every other exception of a run is caught per chat, as a `Failed` run carrying the error, not the message text.
- AnalysisManager.Store.GetAnalysisAll: the exception's message is reduced to an `Error` tag, and timestamps are kept as instants rather than ISO strings. The default arguments `offset=0, limit=10` are not modelled.
- AnalysisManager.Store.Valid: ids are taken to be gap-free (row k has id k). An insert that rolls back is taken not to use up an id, and rows are never deleted. AnalysisManager.Store.GetAnalysisById relies on this.
- AnalysisManager.NewestFirst: rows with equal timestamps are ordered later-saved first. The database does not fix this order.
- Payload.UserName / Payload.ChatName: a lookup that raises inside the record loop is not modelled; an unknown id gives `None`.

## Findings

| source | as written | input that shows it | evidently intended | confidence | as-written member | corrected member |
|---|---|---|---|---|---|---|
| database/managers/analysis_manager.py:127 | the lookup compares the stored `filters["chat_id"]` with `str(chat_id)`, but utils/tasks.py:69-74 records `chat_id` with its own type; a numeric id is stored as a JSON number, which never equals a string | a chat with numeric id `42`: its saved row has `"chat_id": 42`, so `get_today_analysis(42)` compares `42 == "42"` and returns None, and `send_tasks` never sends its result | the row recorded for a chat is found for that chat whatever the id's type | not executed; it depends on `chat_id` being an integer column, and that model is not part of this model | Tasks.NumericChatRowNeverFound | Tasks.SavedRowFoundCoerced |

For this finding:

- Tasks.SavedFiltersMatchIff states the as-written behaviour as an if-and-only-if.
- AnalysisManager.MatchesChatCoerced is the corrected comparison. It compares both sides as strings.
- Tasks.SavedFiltersMatchCoerced and Tasks.SavedRowFoundCoerced prove the round trip under it: a saved row is found again.
- AnalysisManager.TodayAnalysisBy takes the comparison as a parameter, so every lookup lemma holds under either comparison.

The send tick (Scheduler.SendStep, Scheduler.SendAll) and `AnalysisManager.Store.GetTodayAnalysis` keep the code's exact comparison. They model what the program does.
