/**
  The hourly driver: which chats are due, the analysis tick
  (`check_and_execute_tasks` with `execute_analysis`), the send tick
  (`send_tasks`), and the job registry keyed by job id.
*/
module Scheduler {
  import opened Wrappers
  import opened Json
  import opened TimeWindow
  import opened AnalysisManager
  import opened Payload
  import opened Tasks

  datatype TickKind = AnalysisTick | SendTick

  function ScheduledTime(c: Chat, kind: TickKind): TimeOfDay
  {
    match kind
    case AnalysisTick => c.analysisTime
    case SendTick => c.sendTime
  }

  predicate IsDue(c: Chat, kind: TickKind, hour: Hour)
  {
    c.scheduleAnalysis && ScheduledTime(c, kind).hour == hour
  }

  /** `[chat for chat in chats if chat.schedule_analysis and chat.<time>.hour == current_hour]`. */
  function SelectDue(chats: seq<Chat>, kind: TickKind, hour: Hour): (r: seq<Chat>)
    ensures forall c :: c in r <==> c in chats && IsDue(c, kind, hour)
    ensures |r| <= |chats|
  {
    if chats == [] then []
    else (if IsDue(chats[0], kind, hour) then [chats[0]] else []) + SelectDue(chats[1..], kind, hour)
  }

  /** Selection keeps the registry's order: it distributes over concatenation. */
  lemma {:induction false} SelectDueAppend(a: seq<Chat>, b: seq<Chat>, kind: TickKind, hour: Hour)
    ensures SelectDue(a + b, kind, hour) == SelectDue(a, kind, hour) + SelectDue(b, kind, hour)
    decreases |a|
  {
    if a == [] {
      assert a + b == b;
    } else {
      assert (a + b)[0] == a[0];
      assert (a + b)[1..] == a[1..] + b;
      SelectDueAppend(a[1..], b, kind, hour);
    }
  }

  /** A chat whose `schedule_analysis` is off is selected by neither tick. */
  lemma FlagOffNeverSelected(c: Chat, chats: seq<Chat>, hour: Hour)
    requires !c.scheduleAnalysis
    ensures c !in SelectDue(chats, AnalysisTick, hour) && c !in SelectDue(chats, SendTick, hour)
  {
  }

  // ---------------------------------------------------------------------------
  // The analysis tick

  /** What the store receives for one run. */
  datatype Entry = Entry(promptId: int, text: string, filters: Blob, tokensIn: Option<int>, tokensOut: Option<int>)

  /** What `execute_analysis` does for one chat: the entry it saves, nothing, or the error it logs. */
  datatype Run = Saved(entry: Entry) | NothingToSave | Failed(error: Error)

  /** `analyze` then `save_analysis_result`, with every exception caught. */
  function RunOf(chat: Chat, env: AnalysisEnv, nowUtc: int, saveFails: bool): Run
  {
    match Analyze(chat.chatId, chat.analysisTime, nowUtc, env)
    case Failure(e) => Failed(e)
    case Success(d) =>
      if !Truthy(d.analysisResult) then NothingToSave
      else if saveFails then Failed(PersistenceError)
      else Saved(Entry(d.promptId, d.analysisResult.value, Obj(d.filters), d.tokensIn, d.tokensOut))
  }

  /** What `execute_analysis` does to each chat of this tick. */
  function Runner(env: AnalysisEnv, nowUtc: int, saveFails: set<ChatKey>): Chat -> Run
  {
    (c: Chat) => RunOf(c, env, nowUtc, c.chatId in saveFails)
  }

  /** The chats' runs in order, one per chat. */
  function RunsWith(due: seq<Chat>, step: Chat -> Run): (rs: seq<Run>)
    ensures |rs| == |due|
  {
    if due == [] then []
    else RunsWith(due[..|due| - 1], step) + [step(due[|due| - 1])]
  }

  /** The runs of one tick over its due chats. */
  function Runs(due: seq<Chat>, env: AnalysisEnv, nowUtc: int, saveFails: set<ChatKey>): (rs: seq<Run>)
  {
    RunsWith(due, Runner(env, nowUtc, saveFails))
  }

  /** The i-th run is the run of the i-th due chat, and of nothing else. */
  lemma {:induction false} RunsPointwise(due: seq<Chat>, env: AnalysisEnv, nowUtc: int, saveFails: set<ChatKey>)
    ensures forall i :: 0 <= i < |due| ==>
      Runs(due, env, nowUtc, saveFails)[i] == RunOf(due[i], env, nowUtc, due[i].chatId in saveFails)
    decreases |due|
  {
    if due != [] {
      var init := due[..|due| - 1];
      RunsPointwise(init, env, nowUtc, saveFails);
      forall i | 0 <= i < |init| ensures init[i] == due[i] { }
    }
  }

  /** One more due chat adds its own run at the end. */
  lemma RunsWithSnoc(due: seq<Chat>, i: nat, step: Chat -> Run)
    requires i < |due|
    ensures RunsWith(due[..i + 1], step) == RunsWith(due[..i], step) + [step(due[i])]
  {
    assert due[..i + 1][..i] == due[..i];
  }

  /** The runs of a concatenation are the runs of its parts. */
  lemma {:induction false} RunsAppend(a: seq<Chat>, b: seq<Chat>, env: AnalysisEnv, nowUtc: int, saveFails: set<ChatKey>)
    ensures Runs(a + b, env, nowUtc, saveFails) == Runs(a, env, nowUtc, saveFails) + Runs(b, env, nowUtc, saveFails)
    decreases |b|
  {
    if b == [] {
      assert a + b == a;
    } else {
      var b' := b[..|b| - 1];
      assert (a + b)[..|a + b| - 1] == a + b';
      assert (a + b)[|a + b| - 1] == b[|b| - 1];
      RunsAppend(a, b', env, nowUtc, saveFails);
    }
  }

  function RowOf(e: Entry, id: nat, nowUtc: int): Row
  {
    Row(id, e.promptId, e.text, e.filters, e.tokensIn, e.tokensOut, nowUtc)
  }

  /** The rows a sequence of runs appends, numbered from `nextId`. */
  function RowsFor(runs: seq<Run>, nextId: nat, nowUtc: int): (rows: seq<Row>)
  {
    if runs == [] then []
    else
      var prefix := RowsFor(runs[..|runs| - 1], nextId, nowUtc);
      var last := runs[|runs| - 1];
      prefix + (if last.Saved? then [RowOf(last.entry, nextId + |prefix|, nowUtc)] else [])
  }

  /** Running one more chat appends that run's rows after the earlier ones. */
  lemma RowsForSnoc(runs: seq<Run>, run: Run, nextId: nat, nowUtc: int)
    ensures RowsFor(runs + [run], nextId, nowUtc)
         == RowsFor(runs, nextId, nowUtc) + RowsFor([run], nextId + |RowsFor(runs, nextId, nowUtc)|, nowUtc)
  {
    assert (runs + [run])[..|runs|] == runs;
    assert [run][..0] == [];
  }


  /** The appended rows are numbered consecutively, one per saved run, carrying that run's entry. */
  lemma {:induction false} RowsForNumbered(runs: seq<Run>, nextId: nat, nowUtc: int)
    ensures var rows := RowsFor(runs, nextId, nowUtc);
      && |rows| <= |runs|
      && (forall j :: 0 <= j < |rows| ==> rows[j].id == nextId + j && rows[j].timestamp == nowUtc)
      && (forall row :: row in rows ==> exists e :: Saved(e) in runs && row == RowOf(e, row.id, nowUtc))
      && ((forall r :: r in runs ==> !r.Saved?) ==> rows == [])
    decreases |runs|
  {
    if runs != [] {
      var init := runs[..|runs| - 1];
      RowsForNumbered(init, nextId, nowUtc);
      forall row | row in RowsFor(runs, nextId, nowUtc)
        ensures exists e :: Saved(e) in runs && row == RowOf(e, row.id, nowUtc)
      {
        if row in RowsFor(init, nextId, nowUtc) {
          var e :| Saved(e) in init && row == RowOf(e, row.id, nowUtc);
          assert Saved(e) in runs;
        } else {
          assert runs[|runs| - 1] in runs;
        }
      }
    }
  }

  /** The entries of the saved runs, front to back. */
  function SavedEntries(runs: seq<Run>): seq<Entry>
  {
    if runs == [] then []
    else (if runs[0].Saved? then [runs[0].entry] else []) + SavedEntries(runs[1..])
  }

  lemma {:induction false} SavedEntriesAppend(a: seq<Run>, b: seq<Run>)
    ensures SavedEntries(a + b) == SavedEntries(a) + SavedEntries(b)
    decreases |a|
  {
    if a == [] {
      assert a + b == b;
    } else {
      assert (a + b)[0] == a[0];
      assert (a + b)[1..] == a[1..] + b;
      SavedEntriesAppend(a[1..], b);
    }
  }

  /**
    Conversely, every saved run appends its row: the appended rows are the
    saved entries one for one, in the order of the runs, numbered from `nextId`.
  */
  lemma {:induction false} RowsForSavedEntries(runs: seq<Run>, nextId: nat, nowUtc: int)
    ensures var rows, saved := RowsFor(runs, nextId, nowUtc), SavedEntries(runs);
      && |rows| == |saved|
      && forall j :: 0 <= j < |rows| ==> rows[j] == RowOf(saved[j], nextId + j, nowUtc)
    decreases |runs|
  {
    if runs != [] {
      var init, last := runs[..|runs| - 1], runs[|runs| - 1];
      RowsForSavedEntries(init, nextId, nowUtc);
      assert runs == init + [last];
      SavedEntriesAppend(init, [last]);
      assert [last][1..] == [];
    }
  }

  /**
    A run saves only a truthy analysis text, and what it saves is the
    descriptor's prompt id, text, tokens and the filters of its chat's window.
  */
  lemma RunSavesAnalysis(chat: Chat, env: AnalysisEnv, nowUtc: int, saveFails: bool)
    requires RunOf(chat, env, nowUtc, saveFails).Saved?
    ensures var e := RunOf(chat, env, nowUtc, saveFails).entry;
      var d := Analyze(chat.chatId, chat.analysisTime, nowUtc, env);
      && !saveFails
      && d.Success? && Truthy(d.value.analysisResult)
      && e == Entry(d.value.promptId, d.value.analysisResult.value, Obj(d.value.filters),
                    d.value.tokensIn, d.value.tokensOut)
      && e.text != ""
      && e.filters == Obj(FiltersRecord(chat.chatId, AnalysisWindow(nowUtc, chat.analysisTime), env.iso))
  {
  }

  /** A chat with no messages in its window is run but saves nothing. */
  lemma EmptyWindowSavesNothing(chat: Chat, env: AnalysisEnv, nowUtc: int, saveFails: bool)
    requires FindChat(env.registry, chat.chatId).Some?
    requires var w := AnalysisWindow(nowUtc, chat.analysisTime); env.query(chat.chatId, w.start, w.end) == Some([])
    ensures RunOf(chat, env, nowUtc, saveFails) == NothingToSave
  {
  }

  /**
    A failing chat does not disturb the others: the runs of a tick are the runs
    of its parts, whatever any one of them does.
  */
  lemma RunsIsolated(a: seq<Chat>, c: Chat, b: seq<Chat>, env: AnalysisEnv, nowUtc: int, saveFails: set<ChatKey>)
    ensures Runs(a + [c] + b, env, nowUtc, saveFails)
         == Runs(a, env, nowUtc, saveFails) + [RunOf(c, env, nowUtc, c.chatId in saveFails)] + Runs(b, env, nowUtc, saveFails)
  {
    RunsAppend(a + [c], b, env, nowUtc, saveFails);
    RunsAppend(a, [c], env, nowUtc, saveFails);
    assert [c][..0] == [];
  }

  /** `execute_analysis`: analyses one chat and saves the result; every exception is caught. */
  method ExecuteAnalysis(store: Store, chat: Chat, env: AnalysisEnv, nowUtc: int, saveFails: bool)
    returns (run: Run)
    requires store.Valid()
    modifies store
    ensures store.Valid()
    ensures run == RunOf(chat, env, nowUtc, saveFails)
    ensures store.records == old(store.records) + RowsFor([run], |old(store.records)| + 1, nowUtc)
  {
    assert [NothingToSave][..0] == [];
    var data := Analyze(chat.chatId, chat.analysisTime, nowUtc, env);
    match data {
      case Failure(e) =>
        run := Failed(e);
      case Success(d) =>
        var saved := SaveAnalysisResult(store, d, nowUtc, saveFails);
        match saved {
          case Failure(e) => run := Failed(e);
          case Success(None) => run := NothingToSave;
          case Success(Some(_)) =>
            run := Saved(Entry(d.promptId, d.analysisResult.value, Obj(d.filters), d.tokensIn, d.tokensOut));
        }
    }
    assert [run][..0] == [];
  }

  /** The store after one more run holds the rows of all the runs so far. */
  lemma RowsForStep(before: seq<Row>, runs: seq<Run>, mid: seq<Row>, run: Run, after: seq<Row>, nowUtc: int)
    requires mid == before + RowsFor(runs, |before| + 1, nowUtc)
    requires after == mid + RowsFor([run], |mid| + 1, nowUtc)
    ensures after == before + RowsFor(runs + [run], |before| + 1, nowUtc)
  {
    RowsForSnoc(runs, run, |before| + 1, nowUtc);
  }

  /**
    `check_and_execute_tasks`: if the chat list loads, every chat due this hour
    is analysed once, in order, and the store grows by the saved results only;
    a failing chat does not stop the ones after it.
  */
  method CheckAndExecuteTasks(store: Store, env: AnalysisEnv, nowUtc: int, listFails: bool,
                              saveFails: set<ChatKey>)
    returns (runs: seq<Run>)
    requires store.Valid()
    modifies store
    ensures store.Valid()
    ensures listFails ==> runs == []
    ensures !listFails ==> runs == Runs(SelectDue(env.registry, AnalysisTick, CurrentHour(nowUtc)), env, nowUtc, saveFails)
    ensures store.records == old(store.records) + RowsFor(runs, |old(store.records)| + 1, nowUtc)
  {
    runs := [];
    if listFails {
      return;
    }
    var due := SelectDue(env.registry, AnalysisTick, CurrentHour(nowUtc));
    runs := ExecuteAll(store, due, env, nowUtc, saveFails);
  }

  /** The loop of `check_and_execute_tasks`: `execute_analysis` for each due chat in turn. */
  method ExecuteAll(store: Store, due: seq<Chat>, env: AnalysisEnv, nowUtc: int, saveFails: set<ChatKey>)
    returns (runs: seq<Run>)
    requires store.Valid()
    modifies store
    ensures store.Valid()
    ensures runs == Runs(due, env, nowUtc, saveFails)
    ensures store.records == old(store.records) + RowsFor(runs, |old(store.records)| + 1, nowUtc)
  {
    runs := [];
    ghost var before := store.records;
    var i := 0;
    while i < |due|
      invariant 0 <= i <= |due|
      invariant store.Valid()
      invariant runs == Runs(due[..i], env, nowUtc, saveFails)
      invariant store.records == before + RowsFor(runs, |before| + 1, nowUtc)
    {
      ghost var mid := store.records;
      var run := ExecuteAnalysis(store, due[i], env, nowUtc, due[i].chatId in saveFails);
      RowsForStep(before, runs, mid, run, store.records, nowUtc);
      RunsWithSnoc(due, i, Runner(env, nowUtc, saveFails));
      runs := runs + [run];
      i := i + 1;
    }
    assert due[..i] == due;
  }

  // ---------------------------------------------------------------------------
  // The send tick

  /**
    The collaborators of `send_tasks`: the chat registry, whether loading it
    raises, whether handling a chat raises (a store read or a directory lookup),
    the chat names of `get_chat_name`, whether the messaging service accepts a
    message, and the configured destination.
  */
  datatype SendEnv = SendEnv(
    registry: seq<Chat>,
    dir: Directory,
    listFails: bool,
    handlingFails: ChatKey -> bool,
    sendOk: ChatKey -> bool,
    destination: string)

  /** The deliveries made, the chats with no result found, and whether an exception ended the tick. */
  datatype SendReport = SendReport(deliveries: seq<Delivery>, notFound: seq<ChatKey>, aborted: bool)

  /** One iteration of the send loop. */
  function SendStep(c: Chat, rows: seq<Row>, env: SendEnv, nowUtc: int): SendReport
  {
    if env.handlingFails(c.chatId) then SendReport([], [], true)
    else
      match TodayAnalysisBy(rows, c.chatId, nowUtc, MatchesChat)
      case None => SendReport([], [c.chatId], false)
      case Some(row) =>
        SendReport([SendAnalysisResult(env.dir, c.chatId, row.resultText, env.destination, env.sendOk(c.chatId))],
                   [], false)
  }

  /** Sequencing: an aborted report stops everything after it. */
  function Then(a: SendReport, b: SendReport): SendReport
  {
    if a.aborted then a else SendReport(a.deliveries + b.deliveries, a.notFound + b.notFound, b.aborted)
  }

  /** The send loop over the due chats, with the single handler around it. */
  function SendPlan(due: seq<Chat>, rows: seq<Row>, env: SendEnv, nowUtc: int): SendReport
  {
    if due == [] then SendReport([], [], false)
    else Then(SendPlan(due[..|due| - 1], rows, env, nowUtc), SendStep(due[|due| - 1], rows, env, nowUtc))
  }

  /** Once an exception has ended the loop, the remaining chats change nothing. */
  lemma {:induction false} SendPlanAbortSticks(a: seq<Chat>, b: seq<Chat>, rows: seq<Row>, env: SendEnv, nowUtc: int)
    requires SendPlan(a, rows, env, nowUtc).aborted
    ensures SendPlan(a + b, rows, env, nowUtc) == SendPlan(a, rows, env, nowUtc)
    decreases |b|
  {
    if b == [] {
      assert a + b == a;
    } else {
      var b' := b[..|b| - 1];
      assert (a + b)[..|a + b| - 1] == a + b';
      SendPlanAbortSticks(a, b', rows, env, nowUtc);
    }
  }

  /** An exception at the i-th due chat fixes the outcome of the whole loop. */
  lemma SendPlanAbortAt(due: seq<Chat>, i: nat, rows: seq<Row>, env: SendEnv, nowUtc: int)
    requires i < |due| && SendPlan(due[..i + 1], rows, env, nowUtc).aborted
    ensures SendPlan(due, rows, env, nowUtc) == SendPlan(due[..i + 1], rows, env, nowUtc)
  {
    SendPlanAbortSticks(due[..i + 1], due[i + 1..], rows, env, nowUtc);
    assert due[..i + 1] + due[i + 1..] == due;
  }

  /** A chat whose handling raises aborts the tick: no chat after it gets a delivery. */
  lemma SendAbortsRemaining(a: seq<Chat>, c: Chat, b: seq<Chat>, rows: seq<Row>, env: SendEnv, nowUtc: int)
    requires env.handlingFails(c.chatId)
    ensures SendPlan(a + [c] + b, rows, env, nowUtc).aborted
    ensures SendPlan(a + [c] + b, rows, env, nowUtc).deliveries == SendPlan(a, rows, env, nowUtc).deliveries
  {
    assert (a + [c])[..|a + [c]| - 1] == a;
    SendPlanAbortSticks(a + [c], b, rows, env, nowUtc);
  }

  /** What one step delivers comes from that chat's lookup, and it reports the chat missing only when the lookup found nothing. */
  lemma StepOnlyWhenFound(c: Chat, rows: seq<Row>, env: SendEnv, nowUtc: int)
    ensures var step := SendStep(c, rows, env, nowUtc);
      var found := TodayAnalysisBy(rows, c.chatId, nowUtc, MatchesChat);
      && (forall d :: d in step.deliveries ==>
            found.Some? && d == SendAnalysisResult(env.dir, c.chatId, found.value.resultText, env.destination, env.sendOk(c.chatId)))
      && (forall k :: k in step.notFound ==> k == c.chatId && found.None?)
  {
  }

  /**
    A delivery is made only for a due chat whose lookup found a row, with that
    row's text; a chat is reported as not found only when its lookup found none.
  */
  lemma {:induction false} SendOnlyWhenFound(due: seq<Chat>, rows: seq<Row>, env: SendEnv, nowUtc: int)
    ensures var report := SendPlan(due, rows, env, nowUtc);
      && (forall d :: d in report.deliveries ==>
            exists c, row :: c in due && TodayAnalysisBy(rows, c.chatId, nowUtc, MatchesChat) == Some(row)
                            && d == SendAnalysisResult(env.dir, c.chatId, row.resultText, env.destination, env.sendOk(c.chatId)))
      && (forall k :: k in report.notFound ==>
            exists c :: c in due && c.chatId == k && TodayAnalysisBy(rows, k, nowUtc, MatchesChat).None?)
    decreases |due|
  {
    if due != [] {
      var init := due[..|due| - 1];
      var last := due[|due| - 1];
      SendOnlyWhenFound(init, rows, env, nowUtc);
      StepOnlyWhenFound(last, rows, env, nowUtc);
      var before := SendPlan(init, rows, env, nowUtc);
      var step := SendStep(last, rows, env, nowUtc);
      var report := SendPlan(due, rows, env, nowUtc);
      assert last in due;
      assert forall c :: c in init ==> c in due;
      if !before.aborted {
        assert report.deliveries == before.deliveries + step.deliveries;
        assert report.notFound == before.notFound + step.notFound;
        forall d | d in step.deliveries
          ensures exists c, row :: c in due && TodayAnalysisBy(rows, c.chatId, nowUtc, MatchesChat) == Some(row)
                                 && d == SendAnalysisResult(env.dir, c.chatId, row.resultText, env.destination, env.sendOk(c.chatId))
        {
          var row := TodayAnalysisBy(rows, last.chatId, nowUtc, MatchesChat).value;
          assert TodayAnalysisBy(rows, last.chatId, nowUtc, MatchesChat) == Some(row);
        }
      }
    }
  }

  /** The send loop's one step, seen from the plan over a prefix. */
  lemma SendPlanSnoc(due: seq<Chat>, i: nat, rows: seq<Row>, env: SendEnv, nowUtc: int)
    requires i < |due|
    ensures SendPlan(due[..i + 1], rows, env, nowUtc)
         == Then(SendPlan(due[..i], rows, env, nowUtc), SendStep(due[i], rows, env, nowUtc))
  {
    assert due[..i + 1][..i] == due[..i];
  }

  /** `f` of each chat, concatenated front to back. */
  function FlatMap<T>(due: seq<Chat>, f: Chat -> seq<T>): seq<T>
  {
    if due == [] then [] else f(due[0]) + FlatMap(due[1..], f)
  }

  lemma {:induction false} FlatMapAppend<T>(a: seq<Chat>, b: seq<Chat>, f: Chat -> seq<T>)
    ensures FlatMap(a + b, f) == FlatMap(a, f) + FlatMap(b, f)
    decreases |a|
  {
    if a == [] {
      assert a + b == b;
    } else {
      assert (a + b)[0] == a[0];
      assert (a + b)[1..] == a[1..] + b;
      FlatMapAppend(a[1..], b, f);
    }
  }

  lemma FlatMapSnoc<T>(due: seq<Chat>, f: Chat -> seq<T>)
    requires due != []
    ensures FlatMap(due, f) == FlatMap(due[..|due| - 1], f) + f(due[|due| - 1])
  {
    var init, last := due[..|due| - 1], due[|due| - 1];
    assert due == init + [last];
    FlatMapAppend(init, [last], f);
    assert [last][1..] == [];
  }

  /** Whatever `f` gives a chat of the sequence appears in the concatenation. */
  lemma {:induction false} FlatMapHas<T>(due: seq<Chat>, f: Chat -> seq<T>, c: Chat, x: T)
    requires c in due && x in f(c)
    ensures x in FlatMap(due, f)
    decreases |due|
  {
    if due[0] != c {
      FlatMapHas(due[1..], f, c, x);
    }
  }

  /** When `f` and `g` together give each chat exactly one element, the two concatenations have one per chat. */
  lemma {:induction false} FlatMapSplit<T, U>(due: seq<Chat>, f: Chat -> seq<T>, g: Chat -> seq<U>)
    requires forall c :: c in due ==> |f(c)| + |g(c)| == 1
    ensures |FlatMap(due, f)| + |FlatMap(due, g)| == |due|
    decreases |due|
  {
    if due != [] {
      assert forall c :: c in due[1..] ==> c in due;
      assert due[0] in due;
      FlatMapSplit(due[1..], f, g);
    }
  }

  /** The delivery a chat gets when its lookup finds a row, and none otherwise. */
  function DeliveryFor(c: Chat, rows: seq<Row>, env: SendEnv, nowUtc: int): seq<Delivery>
  {
    match TodayAnalysisBy(rows, c.chatId, nowUtc, MatchesChat)
    case None => []
    case Some(row) => [SendAnalysisResult(env.dir, c.chatId, row.resultText, env.destination, env.sendOk(c.chatId))]
  }

  /** The not-found entry of a chat whose lookup finds nothing. */
  function MissingFor(c: Chat, rows: seq<Row>, nowUtc: int): seq<ChatKey>
  {
    if TodayAnalysisBy(rows, c.chatId, nowUtc, MatchesChat).None? then [c.chatId] else []
  }

  /** Reference for a tick without exceptions: the deliveries of the due chats, front to back. */
  function Delivered(due: seq<Chat>, rows: seq<Row>, env: SendEnv, nowUtc: int): seq<Delivery>
  {
    FlatMap(due, (c: Chat) => DeliveryFor(c, rows, env, nowUtc))
  }

  /** Reference for a tick without exceptions: the due chats with no result, front to back. */
  function Missing(due: seq<Chat>, rows: seq<Row>, nowUtc: int): seq<ChatKey>
  {
    FlatMap(due, (c: Chat) => MissingFor(c, rows, nowUtc))
  }

  /**
    Each due chat is accounted for exactly once: a chat whose lookup finds a
    row gets a delivery with that row's text, every other chat a not-found
    entry, and there is one entry per due chat.
  */
  lemma DeliveredCoversDue(due: seq<Chat>, rows: seq<Row>, env: SendEnv, nowUtc: int)
    ensures |Delivered(due, rows, env, nowUtc)| + |Missing(due, rows, nowUtc)| == |due|
    ensures forall c :: c in due && TodayAnalysisBy(rows, c.chatId, nowUtc, MatchesChat).Some? ==>
      SendAnalysisResult(env.dir, c.chatId, TodayAnalysisBy(rows, c.chatId, nowUtc, MatchesChat).value.resultText,
                         env.destination, env.sendOk(c.chatId)) in Delivered(due, rows, env, nowUtc)
    ensures forall c :: c in due && TodayAnalysisBy(rows, c.chatId, nowUtc, MatchesChat).None? ==>
      c.chatId in Missing(due, rows, nowUtc)
  {
    var f := (c: Chat) => DeliveryFor(c, rows, env, nowUtc);
    var g := (c: Chat) => MissingFor(c, rows, nowUtc);
    FlatMapSplit(due, f, g);
    forall c | c in due && TodayAnalysisBy(rows, c.chatId, nowUtc, MatchesChat).Some?
      ensures SendAnalysisResult(env.dir, c.chatId, TodayAnalysisBy(rows, c.chatId, nowUtc, MatchesChat).value.resultText,
                                 env.destination, env.sendOk(c.chatId)) in Delivered(due, rows, env, nowUtc)
    {
      FlatMapHas(due, f, c, f(c)[0]);
    }
    forall c | c in due && TodayAnalysisBy(rows, c.chatId, nowUtc, MatchesChat).None?
      ensures c.chatId in Missing(due, rows, nowUtc)
    {
      FlatMapHas(due, g, c, c.chatId);
    }
  }

  /** The last due chat adds its own reference entries at the end. */
  lemma ReferenceSnoc(due: seq<Chat>, rows: seq<Row>, env: SendEnv, nowUtc: int)
    requires due != []
    ensures var init, last := due[..|due| - 1], due[|due| - 1];
      && Delivered(due, rows, env, nowUtc) == Delivered(init, rows, env, nowUtc) + DeliveryFor(last, rows, env, nowUtc)
      && Missing(due, rows, nowUtc) == Missing(init, rows, nowUtc) + MissingFor(last, rows, nowUtc)
  {
    FlatMapSnoc(due, (c: Chat) => DeliveryFor(c, rows, env, nowUtc));
    FlatMapSnoc(due, (c: Chat) => MissingFor(c, rows, nowUtc));
  }

  /** Without an exception, one step of the loop is the chat's reference delivery or not-found entry. */
  lemma StepIsReference(c: Chat, rows: seq<Row>, env: SendEnv, nowUtc: int)
    requires !env.handlingFails(c.chatId)
    ensures SendStep(c, rows, env, nowUtc)
         == SendReport(DeliveryFor(c, rows, env, nowUtc), MissingFor(c, rows, nowUtc), false)
  {
  }

  /** Without an exception so far or at the last chat, the plan adds that chat's reference entries. */
  lemma PlanSnoc(due: seq<Chat>, rows: seq<Row>, env: SendEnv, nowUtc: int)
    requires due != [] && !env.handlingFails(due[|due| - 1].chatId)
    requires !SendPlan(due[..|due| - 1], rows, env, nowUtc).aborted
    ensures var before, last := SendPlan(due[..|due| - 1], rows, env, nowUtc), due[|due| - 1];
      SendPlan(due, rows, env, nowUtc)
        == SendReport(before.deliveries + DeliveryFor(last, rows, env, nowUtc),
                      before.notFound + MissingFor(last, rows, nowUtc), false)
  {
    StepIsReference(due[|due| - 1], rows, env, nowUtc);
  }

  /**
    When no chat's handling raises, the tick runs to the end and its
    deliveries and not-found entries are exactly the reference ones, in the
    order of the due chats.
  */
  lemma {:induction false} SendHandlesEveryChat(due: seq<Chat>, rows: seq<Row>, env: SendEnv, nowUtc: int)
    requires forall c :: c in due ==> !env.handlingFails(c.chatId)
    ensures var report := SendPlan(due, rows, env, nowUtc);
      && !report.aborted
      && report.deliveries == Delivered(due, rows, env, nowUtc)
      && report.notFound == Missing(due, rows, nowUtc)
    decreases |due|
  {
    if due != [] {
      var init := due[..|due| - 1];
      var last := due[|due| - 1];
      assert forall c :: c in init ==> c in due;
      assert last in due;
      SendHandlesEveryChat(init, rows, env, nowUtc);
      PlanSnoc(due, rows, env, nowUtc);
      ReferenceSnoc(due, rows, env, nowUtc);
    }
  }

  /**
    `send_analysis_result` is called for a due chat exactly when its lookup
    found a row: with no exception in the tick, every chat found gets its
    row's text delivered and every other chat is reported as not found.
  */
  lemma SendIffFound(due: seq<Chat>, rows: seq<Row>, env: SendEnv, nowUtc: int)
    requires forall c :: c in due ==> !env.handlingFails(c.chatId)
    ensures var report := SendPlan(due, rows, env, nowUtc);
      && |report.deliveries| + |report.notFound| == |due|
      && (forall c :: c in due && TodayAnalysisBy(rows, c.chatId, nowUtc, MatchesChat).Some? ==>
            SendAnalysisResult(env.dir, c.chatId,
                               TodayAnalysisBy(rows, c.chatId, nowUtc, MatchesChat).value.resultText,
                               env.destination, env.sendOk(c.chatId)) in report.deliveries)
      && (forall c :: c in due && TodayAnalysisBy(rows, c.chatId, nowUtc, MatchesChat).None? ==>
            c.chatId in report.notFound)
  {
    SendHandlesEveryChat(due, rows, env, nowUtc);
    DeliveredCoversDue(due, rows, env, nowUtc);
  }

  /**
    `send_tasks`: for each chat due this hour, looks up its last-24-hours result
    and sends it when found; an exception while handling one chat ends the loop.
  */
  method SendTasks(store: Store, env: SendEnv, nowUtc: int) returns (report: SendReport)
    ensures env.listFails ==> report == SendReport([], [], true)
    ensures !env.listFails ==>
      report == SendPlan(SelectDue(env.registry, SendTick, CurrentHour(nowUtc)), store.records, env, nowUtc)
  {
    if env.listFails {
      return SendReport([], [], true);
    }
    var due := SelectDue(env.registry, SendTick, CurrentHour(nowUtc));
    report := SendAll(store, due, env, nowUtc);
  }

  /** The loop of `send_tasks` over the due chats, inside its handler. */
  method SendAll(store: Store, due: seq<Chat>, env: SendEnv, nowUtc: int) returns (report: SendReport)
    ensures report == SendPlan(due, store.records, env, nowUtc)
  {
    report := SendReport([], [], false);
    var i := 0;
    while i < |due|
      invariant 0 <= i <= |due|
      invariant report == SendPlan(due[..i], store.records, env, nowUtc)
      invariant !report.aborted
    {
      var chat := due[i];
      SendPlanSnoc(due, i, store.records, env, nowUtc);
      if env.handlingFails(chat.chatId) {
        assert report.deliveries + [] == report.deliveries && report.notFound + [] == report.notFound;
        report := SendReport(report.deliveries, report.notFound, true);
        SendPlanAbortAt(due, i, store.records, env, nowUtc);
        return;
      }
      var found := store.GetTodayAnalysis(chat.chatId, nowUtc);
      if found.Some? {
        var delivery := SendAnalysisResult(env.dir, chat.chatId, found.value.resultText,
                                           env.destination, env.sendOk(chat.chatId));
        report := SendReport(report.deliveries + [delivery], report.notFound, false);
      } else {
        report := SendReport(report.deliveries, report.notFound + [chat.chatId], false);
      }
      i := i + 1;
    }
    assert due[..i] == due;
  }

  // ---------------------------------------------------------------------------
  // The job registry

  datatype JobFunc = CheckAndExecuteTasksJob | SendTasksJob

  /** A cron trigger; `hour == "*"` fires every hour. */
  datatype Trigger = Cron(hour: string, minute: nat)

  datatype Job = Job(func: JobFunc, trigger: Trigger)

  const ANALYSIS_JOB_ID: string := "Analysis_schedule"
  const SEND_JOB_ID: string := "Send_schedule"
  const HOURLY: Trigger := Cron("*", 0)

  /** `add_job(..., id=id, replace_existing=True)` on the job map. */
  function Register(jobs: map<string, Job>, id: string, job: Job): (r: map<string, Job>)
    ensures r.Keys == jobs.Keys + {id} && r[id] == job
    ensures forall k :: k in jobs && k != id ==> r[k] == jobs[k]
  {
    jobs[id := job]
  }

  /** Registering under an id that is already taken replaces that entry: one entry per id. */
  lemma RegisterReplaces(jobs: map<string, Job>, id: string, first: Job, second: Job)
    ensures Register(Register(jobs, id, first), id, second) == Register(jobs, id, second)
    ensures |Register(Register(jobs, id, first), id, second).Keys| == |Register(jobs, id, first).Keys|
  {
  }

  /** The two hourly jobs have distinct ids, so registering both from an empty registry leaves exactly two. */
  lemma BothJobsRegistered()
    ensures ANALYSIS_JOB_ID != SEND_JOB_ID
    ensures var jobs := Register(Register(map[], ANALYSIS_JOB_ID, Job(CheckAndExecuteTasksJob, HOURLY)),
                                 SEND_JOB_ID, Job(SendTasksJob, HOURLY));
      jobs.Keys == {ANALYSIS_JOB_ID, SEND_JOB_ID} && |jobs.Keys| == 2
  {
    assert ANALYSIS_JOB_ID[0] != SEND_JOB_ID[0];
    var jobs := Register(Register(map[], ANALYSIS_JOB_ID, Job(CheckAndExecuteTasksJob, HOURLY)),
                         SEND_JOB_ID, Job(SendTasksJob, HOURLY));
    assert jobs.Keys == {ANALYSIS_JOB_ID} + {SEND_JOB_ID};
  }

  /** The module-level `BackgroundScheduler` and its job store. */
  class JobScheduler {
    var jobs: map<string, Job>
    var running: bool

    constructor ()
      ensures jobs == map[] && !running
    {
      jobs := map[];
      running := false;
    }

    /** `add_hourly_analysis`. */
    method AddHourlyAnalysis()
      modifies this
      ensures jobs == Register(old(jobs), ANALYSIS_JOB_ID, Job(CheckAndExecuteTasksJob, HOURLY))
      ensures running == old(running)
    {
      jobs := jobs[ANALYSIS_JOB_ID := Job(CheckAndExecuteTasksJob, HOURLY)];
    }

    /** `add_hourly_send`. */
    method AddHourlySend()
      modifies this
      ensures jobs == Register(old(jobs), SEND_JOB_ID, Job(SendTasksJob, HOURLY))
      ensures running == old(running)
    {
      jobs := jobs[SEND_JOB_ID := Job(SendTasksJob, HOURLY)];
    }

    /**
      `clear_existing_jobs`: `remove_all_jobs` empties the registry; when it
      raises, the error is logged and the registry keeps its jobs.
    */
    method ClearExistingJobs(removeFails: bool)
      modifies this
      ensures removeFails ==> jobs == old(jobs)
      ensures !removeFails ==> jobs == map[]
      ensures running == old(running)
    {
      if !removeFails {
        jobs := map[];
      }
    }

    /**
      `start_scheduler` after the database and API key setup: registers both
      jobs, then starts; starting a scheduler that already runs raises.
    */
    method StartScheduler() returns (started: bool)
      modifies this
      ensures jobs == Register(Register(old(jobs), ANALYSIS_JOB_ID, Job(CheckAndExecuteTasksJob, HOURLY)),
                               SEND_JOB_ID, Job(SendTasksJob, HOURLY))
      ensures started == !old(running) && running
    {
      AddHourlyAnalysis();
      AddHourlySend();
      started := !running;
      running := true;
    }
  }
}
