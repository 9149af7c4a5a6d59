/**
  The result store (`AnalysisManager`): saving an analysis, the paged listing,
  the by-id rendering and the last-24-hours lookup by chat id. The database is
  an in-memory sequence of rows in insertion order.
*/
module AnalysisManager {
  import opened Wrappers
  import opened Json
  import opened TimeWindow

  /** One stored `AnalysisResult`; `timestamp` is assigned by the server when the row is saved. */
  datatype Row = Row(
    id: nat,
    promptId: int,
    resultText: string,
    filters: Blob,
    tokensIn: Option<int>,
    tokensOut: Option<int>,
    timestamp: int)

  const PREVIEW_LENGTH: nat := 100
  const ELLIPSIS: string := "..."
  const NOT_SPECIFIED: string := "Не указаны"
  const INVALID_DATA: string := "Некорректные данные"

  // ---------------------------------------------------------------------------
  // ORDER BY timestamp DESC

  predicate NewestFirstOrdered(rs: seq<Row>)
  {
    forall i, j :: 0 <= i < j < |rs| ==> rs[i].timestamp >= rs[j].timestamp
  }

  function Insert(r: Row, s: seq<Row>): (t: seq<Row>)
    ensures |t| == |s| + 1
    ensures multiset(t) == multiset(s) + multiset{r}
    ensures t[0] == r || (s != [] && t[0] == s[0])
  {
    if s == [] || r.timestamp >= s[0].timestamp then [r] + s
    else
      assert s == [s[0]] + s[1..];
      [s[0]] + Insert(r, s[1..])
  }

  /** Inserting into a newest-first sequence keeps it newest first. */
  lemma {:induction false} InsertOrdered(r: Row, s: seq<Row>)
    requires NewestFirstOrdered(s)
    ensures NewestFirstOrdered(Insert(r, s))
  {
    if s != [] && r.timestamp < s[0].timestamp {
      var u := Insert(r, s[1..]);
      InsertOrdered(r, s[1..]);
      var t := [s[0]] + u;
      assert t == Insert(r, s);
      forall i, j | 0 <= i < j < |t| ensures t[i].timestamp >= t[j].timestamp {
        if i == 0 {
          assert u[0].timestamp <= s[0].timestamp;
          assert j - 1 == 0 || u[0].timestamp >= u[j - 1].timestamp;
        } else {
          assert t[i] == u[i - 1] && t[j] == u[j - 1];
        }
      }
    }
  }

  /**
    The rows ordered newest first. Rows with equal timestamps (the database
    leaves their order open) come later-saved first.
  */
  function NewestFirst(rows: seq<Row>): (s: seq<Row>)
    ensures NewestFirstOrdered(s)
    ensures multiset(s) == multiset(rows) && |s| == |rows|
  {
    if rows == [] then []
    else
      var n := |rows| - 1;
      assert rows == rows[..n] + [rows[n]];
      InsertOrdered(rows[n], NewestFirst(rows[..n]));
      Insert(rows[n], NewestFirst(rows[..n]))
  }

  /** Reordering neither adds nor loses a row. */
  lemma NewestFirstSameRows(rows: seq<Row>)
    ensures forall x :: x in NewestFirst(rows) <==> x in rows
  {
    var s := NewestFirst(rows);
    forall x ensures x in s <==> x in rows {
      assert x in s <==> x in multiset(s);
      assert x in rows <==> x in multiset(rows);
    }
  }

  // ---------------------------------------------------------------------------
  // get_analysis_all

  /** `.offset(offset).limit(limit)`. */
  function Page(rows: seq<Row>, offset: nat, limit: nat): (p: seq<Row>)
    ensures |p| == if offset >= |rows| then 0 else if limit < |rows| - offset then limit else |rows| - offset
    ensures forall i :: 0 <= i < |p| ==> p[i] == rows[offset + i]
  {
    if offset >= |rows| then []
    else if limit < |rows| - offset then rows[offset..offset + limit]
    else rows[offset..]
  }

  /** The listing's preview: the text itself up to 100 characters, else its first 100 and `...`. */
  function Preview(text: string): (p: string)
    ensures |text| <= PREVIEW_LENGTH ==> p == text
    ensures |text| > PREVIEW_LENGTH ==>
      |p| == PREVIEW_LENGTH + 3 && p[..PREVIEW_LENGTH] == text[..PREVIEW_LENGTH] && p[PREVIEW_LENGTH..] == ELLIPSIS
  {
    if |text| > PREVIEW_LENGTH then text[..PREVIEW_LENGTH] + ELLIPSIS else text
  }

  /** The `filters` entry of a listed analysis: the parsed object, or `'Не указаны'`. */
  datatype ListedFilters = ParsedFilters(fields: Fields) | FiltersNotSpecified

  datatype ListItem = ListItem(
    analysisId: nat,
    promptId: int,
    promptName: string,
    filters: ListedFilters,
    timestamp: int,
    preview: string)

  /** `{'error': ..., 'analyses': [...], 'total_count': ...}`. */
  datatype ListResult = ListResult(error: Option<Error>, analyses: seq<ListItem>, totalCount: nat)

  /**
    One listed item; `get_prompt_name` raises for an unknown prompt and
    `json.loads` raises for a malformed blob, in the order the dict is built.
  */
  function ItemOf(row: Row, promptNames: map<int, string>): Result<ListItem, Error>
  {
    if row.promptId !in promptNames then Failure(PromptLookupFailed)
    else
      match row.filters
      case Malformed => Failure(MalformedFilterData)
      case Empty =>
        Success(ListItem(row.id, row.promptId, promptNames[row.promptId], FiltersNotSpecified,
                         row.timestamp, Preview(row.resultText)))
      case Obj(fs) =>
        Success(ListItem(row.id, row.promptId, promptNames[row.promptId], ParsedFilters(fs),
                         row.timestamp, Preview(row.resultText)))
  }

  /** No item of the rows raises. */
  predicate AllItemsBuild(rows: seq<Row>, promptNames: map<int, string>)
  {
    forall i :: 0 <= i < |rows| ==> ItemOf(rows[i], promptNames).Success?
  }

  /** The list comprehension: every item, or the first exception. */
  function ItemsOf(rows: seq<Row>, promptNames: map<int, string>): (r: Result<seq<ListItem>, Error>)
    ensures r.Success? <==> AllItemsBuild(rows, promptNames)
    ensures r.Success? ==>
      |r.value| == |rows| && forall i :: 0 <= i < |rows| ==> r.value[i] == ItemOf(rows[i], promptNames).value
  {
    if rows == [] then Success([])
    else
      match ItemOf(rows[0], promptNames)
      case Failure(e) => Failure(e)
      case Success(item) =>
        match ItemsOf(rows[1..], promptNames)
        case Failure(e) => Failure(e)
        case Success(rest) => Success([item] + rest)
  }

  // ---------------------------------------------------------------------------
  // get_analysis_by_id

  datatype TokenView = Count(n: int) | UnknownTokens

  datatype Detail = Detail(
    analysisId: nat,
    promptId: int,
    promptName: string,
    timestamp: int,
    resultText: string,
    filters: string,
    tokensIn: TokenView,
    tokensOut: TokenView)

  /** `tokens or 'Неизвестно'`: 0 and None are falsy. */
  function TokenText(t: Option<int>): (v: TokenView)
    ensures v.UnknownTokens? <==> t.None? || t.value == 0
    ensures v.Count? ==> t == Some(v.n)
  {
    if t.Some? && t.value != 0 then Count(t.value) else UnknownTokens
  }

  function FieldText(f: (string, JsonValue)): string
  {
    f.0 + ": " + PyStr(f.1)
  }

  /** `", ".join(f"{key}: {value}" for key, value in filters.items())`. */
  function JoinFields(fs: Fields): string
  {
    if fs == [] then ""
    else if |fs| == 1 then FieldText(fs[0])
    else FieldText(fs[0]) + ", " + JoinFields(fs[1..])
  }

  /** The human-readable `filters` of a detail. */
  function FiltersReadable(blob: Blob): string
  {
    match blob
    case Empty => NOT_SPECIFIED
    case Malformed => INVALID_DATA
    case Obj(fs) => if JoinFields(fs) == "" then NOT_SPECIFIED else JoinFields(fs)
  }

  /** Joining two non-empty field lists puts `", "` between their renderings: key order is kept. */
  lemma {:induction false} JoinFieldsAppend(a: Fields, b: Fields)
    requires a != [] && b != []
    ensures JoinFields(a + b) == JoinFields(a) + ", " + JoinFields(b)
    decreases |a|
  {
    if |a| == 1 {
      assert (a + b)[1..] == b;
    } else {
      assert (a + b)[1..] == a[1..] + b;
      JoinFieldsAppend(a[1..], b);
    }
  }

  /** Every rendered field contributes `": "`, so a non-empty object never renders as empty. */
  lemma {:induction false} JoinFieldsHasColon(fs: Fields)
    requires fs != []
    ensures ':' in JoinFields(fs)
  {
    var first := FieldText(fs[0]);
    assert first[|fs[0].0|] == ':';
    if |fs| > 1 {
      assert JoinFields(fs)[|fs[0].0|] == ':';
    }
  }

  /**
    The sentinels of the by-id rendering: `'Не указаны'` exactly for an empty
    blob or an empty object, `'Некорректные данные'` for malformed JSON, and
    otherwise the joined fields.
  */
  lemma FiltersReadableSentinels(blob: Blob)
    ensures FiltersReadable(blob) == NOT_SPECIFIED <==> blob.Empty? || blob == Obj([])
    ensures FiltersReadable(blob) == INVALID_DATA <==> blob.Malformed?
    ensures blob.Obj? && blob.fields != [] ==> FiltersReadable(blob) == JoinFields(blob.fields)
  {
    if blob.Obj? && blob.fields != [] {
      JoinFieldsHasColon(blob.fields);
      assert ':' !in NOT_SPECIFIED;
      assert ':' !in INVALID_DATA;
    }
  }

  /** `filter_by(analysis_id=id).first()`. */
  function FindById(rows: seq<Row>, id: int): (r: Option<Row>)
    ensures r.None? <==> forall i :: 0 <= i < |rows| ==> rows[i].id != id
    ensures r.Some? ==> r.value in rows && r.value.id == id
  {
    if rows == [] then None
    else if rows[0].id == id then Some(rows[0])
    else FindById(rows[1..], id)
  }

  // ---------------------------------------------------------------------------
  // get_today_analysis

  /** `.filter(timestamp >= start).filter(timestamp < end)`. */
  function InWindowRows(rows: seq<Row>, w: Window): (s: seq<Row>)
    ensures forall r :: r in s <==> r in rows && Contains(w, r.timestamp)
  {
    if rows == [] then []
    else (if Contains(w, rows[0].timestamp) then [rows[0]] else []) + InWindowRows(rows[1..], w)
  }

  /**
    The comparison as the source writes it: the blob's `"chat_id"` must be the
    JSON string equal to `str(chat_id)`. A numeric stored id never matches, an
    empty blob is `{}` and matches nothing, and a malformed blob is skipped.
  */
  predicate MatchesChat(blob: Blob, chatId: ChatKey)
  {
    blob.Obj? && Get(blob.fields, "chat_id") == Some(JStr(ChatKeyStr(chatId)))
  }

  /** Both sides compared as strings, so `42` and `"42"` name the same chat. */
  predicate MatchesChatCoerced(blob: Blob, chatId: ChatKey)
  {
    blob.Obj?
    && var v := Get(blob.fields, "chat_id");
    v.Some? && (v.value.JStr? || v.value.JNum?) && PyStr(v.value) == ChatKeyStr(chatId)
  }

  /** The newest-first scan: the first row whose blob matches. */
  function FirstMatchBy(rows: seq<Row>, chatId: ChatKey, matches: (Blob, ChatKey) -> bool): (r: Option<Row>)
    ensures r.None? <==> forall i :: 0 <= i < |rows| ==> !matches(rows[i].filters, chatId)
    ensures r.Some? ==>
      exists i :: 0 <= i < |rows| && rows[i] == r.value && matches(r.value.filters, chatId)
               && forall j :: 0 <= j < i ==> !matches(rows[j].filters, chatId)
  {
    if rows == [] then None
    else if matches(rows[0].filters, chatId) then Some(rows[0])
    else
      var r := FirstMatchBy(rows[1..], chatId, matches);
      assert r.Some? ==> exists i :: 1 <= i < |rows| && rows[i] == r.value && matches(r.value.filters, chatId)
                          && forall j :: 0 <= j < i ==> !matches(rows[j].filters, chatId) by {
        if r.Some? {
          var k :| 0 <= k < |rows[1..]| && rows[1..][k] == r.value && matches(r.value.filters, chatId)
                   && forall j :: 0 <= j < k ==> !matches(rows[1..][j].filters, chatId);
          assert rows[k + 1] == r.value;
          forall j | 0 <= j < k + 1 ensures !matches(rows[j].filters, chatId) {
            if j > 0 { assert rows[j] == rows[1..][j - 1]; }
          }
        }
      }
      r
  }

  /** `get_today_analysis` with a given comparison. */
  function TodayAnalysisBy(rows: seq<Row>, chatId: ChatKey, nowUtc: int, matches: (Blob, ChatKey) -> bool): Option<Row>
  {
    FirstMatchBy(NewestFirst(InWindowRows(rows, LookupWindow(nowUtc))), chatId, matches)
  }

  /** On a newest-first sequence, the first match is a newest match. */
  lemma FirstMatchIsNewest(sorted: seq<Row>, chatId: ChatKey, matches: (Blob, ChatKey) -> bool)
    requires NewestFirstOrdered(sorted)
    requires FirstMatchBy(sorted, chatId, matches).Some?
    ensures var row := FirstMatchBy(sorted, chatId, matches).value;
      && row in sorted && matches(row.filters, chatId)
      && forall x :: x in sorted && matches(x.filters, chatId) ==> x.timestamp <= row.timestamp
  {
    var row := FirstMatchBy(sorted, chatId, matches).value;
    var i :| 0 <= i < |sorted| && sorted[i] == row && matches(row.filters, chatId)
             && forall j :: 0 <= j < i ==> !matches(sorted[j].filters, chatId);
    forall x | x in sorted && matches(x.filters, chatId)
      ensures x.timestamp <= row.timestamp
    {
      var k :| 0 <= k < |sorted| && sorted[k] == x;
      if k != i {
        assert i < k;
        assert sorted[i].timestamp >= sorted[k].timestamp;
      }
    }
  }

  /**
    A row the lookup returns lies in the last 24 hours, matches, and no
    matching row of that window is newer.
  */
  lemma {:induction false} TodayAnalysisFound(rows: seq<Row>, chatId: ChatKey, nowUtc: int,
                                            matches: (Blob, ChatKey) -> bool)
    requires TodayAnalysisBy(rows, chatId, nowUtc, matches).Some?
    ensures var row := TodayAnalysisBy(rows, chatId, nowUtc, matches).value;
      && row in rows
      && Contains(LookupWindow(nowUtc), row.timestamp)
      && matches(row.filters, chatId)
      && forall x :: x in rows && Contains(LookupWindow(nowUtc), x.timestamp) && matches(x.filters, chatId)
           ==> x.timestamp <= row.timestamp
  {
    var w := LookupWindow(nowUtc);
    var inWindow := InWindowRows(rows, w);
    var sorted := NewestFirst(inWindow);
    NewestFirstSameRows(inWindow);
    FirstMatchIsNewest(sorted, chatId, matches);
  }

  /** The lookup returns None exactly when no row of the last 24 hours matches (so also when there is none). */
  lemma {:induction false} TodayAnalysisNone(rows: seq<Row>, chatId: ChatKey, nowUtc: int,
                                           matches: (Blob, ChatKey) -> bool)
    ensures TodayAnalysisBy(rows, chatId, nowUtc, matches).None? <==>
      forall x :: x in rows && Contains(LookupWindow(nowUtc), x.timestamp) ==> !matches(x.filters, chatId)
  {
    var w := LookupWindow(nowUtc);
    var inWindow := InWindowRows(rows, w);
    var sorted := NewestFirst(inWindow);
    NewestFirstSameRows(inWindow);
    if TodayAnalysisBy(rows, chatId, nowUtc, matches).None? {
      forall x | x in rows && Contains(w, x.timestamp) ensures !matches(x.filters, chatId) {
        assert x in inWindow;
        assert x in sorted;
        var k :| 0 <= k < |sorted| && sorted[k] == x;
      }
    } else {
      TodayAnalysisFound(rows, chatId, nowUtc, matches);
    }
  }

  // ---------------------------------------------------------------------------
  // The manager

  class Store {
    var records: seq<Row>

    /** Ids are assigned in sequence by the database and rows are never deleted. */
    ghost predicate Valid()
      reads this
    {
      forall i :: 0 <= i < |records| ==> records[i].id == i + 1
    }

    constructor ()
      ensures Valid() && records == []
    {
      records := [];
    }

    /**
      `save_analysis_result`: one new row carrying exactly the given values;
      on a storage failure the transaction is rolled back and the error raised.
    */
    method Save(promptId: int, resultText: string, filters: Blob, tokensIn: Option<int>,
                tokensOut: Option<int>, nowUtc: int, fault: bool)
      returns (r: Result<nat, Error>)
      requires Valid()
      modifies this
      ensures Valid()
      ensures fault ==> r == Failure(PersistenceError) && records == old(records)
      ensures !fault ==>
        && r == Success(|old(records)| + 1)
        && records == old(records) + [Row(|old(records)| + 1, promptId, resultText, filters, tokensIn, tokensOut, nowUtc)]
    {
      if fault {
        r := Failure(PersistenceError);
      } else {
        var id := |records| + 1;
        records := records + [Row(id, promptId, resultText, filters, tokensIn, tokensOut, nowUtc)];
        r := Success(id);
      }
    }

    /**
      `get_analysis_all`: up to `limit` items of the newest-first order from
      `offset` on, and the full row count. Any exception yields the error
      result with no items and a zero count: a failing page query or count
      (`queryFails`), or one while building the items (a malformed blob on
      the page, an unknown prompt).
    */
    function GetAnalysisAll(offset: nat, limit: nat, promptNames: map<int, string>, queryFails: bool): (r: ListResult)
      reads this
      ensures |r.analyses| <= limit
      ensures r.error.Some? ==> r.analyses == [] && r.totalCount == 0
      ensures queryFails ==> r.error == Some(StoreQueryFailed)
      ensures r.error.None? ==> r.totalCount == |records|
      ensures r.error.None? <==> !queryFails && AllItemsBuild(Page(NewestFirst(records), offset, limit), promptNames)
      ensures r.error.None? ==>
        var page := Page(NewestFirst(records), offset, limit);
        |r.analyses| == |page| && forall i :: 0 <= i < |page| ==> r.analyses[i] == ItemOf(page[i], promptNames).value
    {
      if queryFails then ListResult(Some(StoreQueryFailed), [], 0)
      else
        var items := ItemsOf(Page(NewestFirst(records), offset, limit), promptNames);
        if items.Failure? then ListResult(Some(items.error), [], 0)
        else ListResult(None, items.value, |records|)
    }

    /**
      `get_analysis_by_id`: None for an id no row has; otherwise the full text,
      the readable filters and the token views. A failing query (`queryFails`)
      or a raising `get_prompt_name` is re-raised.
    */
    function GetAnalysisById(id: int, promptNames: map<int, string>, queryFails: bool): (r: Result<Option<Detail>, Error>)
      reads this
      requires Valid()
      ensures queryFails ==> r == Failure(StoreQueryFailed)
      ensures !queryFails && !(1 <= id <= |records|) ==> r == Success(None)
      ensures !queryFails && 1 <= id <= |records| ==>
        var row := records[id - 1];
        && (r.Failure? <==> row.promptId !in promptNames)
        && (r.Success? ==>
              && r.value.Some?
              && r.value.value.analysisId == id
              && r.value.value.promptId == row.promptId
              && r.value.value.promptName == promptNames[row.promptId]
              && r.value.value.timestamp == row.timestamp
              && r.value.value.resultText == row.resultText
              && r.value.value.filters == FiltersReadable(row.filters)
              && r.value.value.tokensIn == TokenText(row.tokensIn)
              && r.value.value.tokensOut == TokenText(row.tokensOut))
    {
      FindByIdSequential(records, id, 0);
      if queryFails then Failure(StoreQueryFailed)
      else match FindById(records, id)
      case None => Success(None)
      case Some(row) =>
        if row.promptId !in promptNames then Failure(PromptLookupFailed)
        else
          Success(Some(Detail(row.id, row.promptId, promptNames[row.promptId], row.timestamp, row.resultText,
                              FiltersReadable(row.filters), TokenText(row.tokensIn), TokenText(row.tokensOut))))
    }

    /**
      `get_today_analysis`: scans the rows of the last 24 hours newest first and
      returns the first whose blob matches `str(chat_id)`, skipping malformed blobs.
    */
    method GetTodayAnalysis(chatId: ChatKey, nowUtc: int) returns (r: Option<Row>)
      ensures r == TodayAnalysisBy(records, chatId, nowUtc, MatchesChat)
    {
      var w := LookupWindow(nowUtc);
      var results := NewestFirst(InWindowRows(records, w));
      r := None;
      if results == [] {
        return;
      }
      var i := 0;
      while i < |results|
        invariant 0 <= i <= |results|
        invariant FirstMatchBy(results[i..], chatId, MatchesChat) == FirstMatchBy(results, chatId, MatchesChat)
      {
        assert results[i..][1..] == results[i + 1..];
        var result := results[i];
        match result.filters {
          case Malformed =>
            // json.JSONDecodeError: logged, and the scan goes on.
          case Empty =>
            // `{}` has no "chat_id".
          case Obj(fields) =>
            if Get(fields, "chat_id") == Some(JStr(ChatKeyStr(chatId))) {
              return Some(result);
            }
        }
        i := i + 1;
      }
    }
  }

  /** With ids assigned in sequence from `k + 1`, the row with id `id` sits at index `id - k - 1`. */
  lemma {:induction false} FindByIdSequential(rows: seq<Row>, id: int, k: int)
    requires forall i :: 0 <= i < |rows| ==> rows[i].id == k + i + 1
    ensures FindById(rows, id) == if k + 1 <= id <= k + |rows| then Some(rows[id - k - 1]) else None
    decreases |rows|
  {
    if rows != [] && rows[0].id != id {
      FindByIdSequential(rows[1..], id, k + 1);
    }
  }
}
