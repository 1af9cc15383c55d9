/** The batch evaluation (utils/evaluation.py): every test question is
    answered by both backends, each answer is classified TP / FP / FN by
    keyword matching, and the per-backend counters become precision, recall,
    F1 and an average latency. */
module Evaluation {
  import opened Seqs
  import opened Text
  import opened DataLoader
  import opened Scoring

  // ---------------------------------------------------------------------
  // _check_correctness_detailed
  // ---------------------------------------------------------------------

  /** TP: answered correctly; FP: answered without the expected keyword;
      FN: no answer (a short refusal). */
  datatype Status = TP | FP | FN

  /** The text the results file stores for a status. */
  function StatusName(s: Status): string {
    match s
    case TP => "TP"
    case FP => "FP"
    case FN => "FN"
  }

  /** The lower-cased and stripped expected keywords of a test question. */
  datatype Expected = Expected(team: string, position: string, player: string)

  const FailPhrases: seq<string> := ["veri bulunamadı", "bilgi yok", "bilinmiyor", "eşleşen oyuncu yok", "üzgünüm"]

  /** Responses of at least this many characters are never a refusal. */
  const ShortResponseLimit: nat := 50

  /** The refusal guard, on the lower-cased response. */
  predicate LooksUnanswered(response: string) {
    |response| < ShortResponseLimit && exists i :: 0 <= i < |FailPhrases| && Contains(response, FailPhrases[i])
  }

  /** `keyword and keyword in response`. */
  predicate Mentioned(keyword: string, response: string) {
    keyword != [] && Contains(response, keyword)
  }

  /** The rule of each intent, on the lower-cased response. `Ask_Info` has
      no non-empty guard: an empty expected value counts as present. */
  predicate IsCorrect(response: string, expected: Expected, intent: string) {
    if intent == "Ask_Team" then Mentioned(expected.team, response)
    else if intent == "Ask_Position" then Mentioned(expected.position, response)
    else if intent == "Ask_Info" then
      Contains(response, expected.player)
      && (Contains(response, expected.team) || Contains(response, expected.position))
    else Mentioned(expected.team, response) || Mentioned(expected.position, response)
  }

  /** `_check_correctness_detailed(response, expected_vals, intent)`. */
  function CheckCorrectness(response: string, expected: Expected, intent: string): Status {
    var lowered := Lower(response);
    if LooksUnanswered(lowered) then FN
    else if IsCorrect(lowered, expected, intent) then TP
    else FP
  }

  /** FN exactly for a short response holding a fail phrase; every other
      response is TP or FP, and the rule of its intent decides which. */
  lemma {:induction false} CheckCorrectnessCases(response: string, expected: Expected, intent: string)
    ensures var s, lowered := CheckCorrectness(response, expected, intent), Lower(response);
      && (s == FN <==> |lowered| < 50 && exists i :: 0 <= i < |FailPhrases| && Contains(lowered, FailPhrases[i]))
      && (|response| >= 50 ==> s != FN)
      && (s != FN ==>
            && (intent == "Ask_Team" ==> (s == TP <==> expected.team != [] && Contains(lowered, expected.team)))
            && (intent == "Ask_Position" ==> (s == TP <==> expected.position != [] && Contains(lowered, expected.position)))
            && (intent == "Ask_Info" ==>
                  (s == TP <==> Contains(lowered, expected.player)
                                && (Contains(lowered, expected.team) || Contains(lowered, expected.position))))
            && (intent !in {"Ask_Team", "Ask_Position", "Ask_Info"} ==>
                  (s == TP <==> (expected.team != [] && Contains(lowered, expected.team))
                                || (expected.position != [] && Contains(lowered, expected.position)))))
  {
  }

  /** An `Ask_Info` question whose expected player, team and position are
      all blank is answered correctly by any response that is not a short
      refusal. */
  lemma {:induction false} AskInfoBlankExpectationsAlwaysTP(response: string)
    requires !LooksUnanswered(Lower(response))
    ensures CheckCorrectness(response, Expected("", "", ""), "Ask_Info") == TP
  {
    EmptyContained(Lower(response));
  }

  /** A blank expected team can never make an `Ask_Team` answer TP. */
  lemma {:induction false} AskTeamBlankTeamNeverTP(response: string, expected: Expected)
    requires expected.team == []
    ensures CheckCorrectness(response, expected, "Ask_Team") != TP
  {
  }

  /** A correct answer of at least 50 characters stays correct whatever is
      appended to it: the keyword tests only look for occurrences. */
  lemma {:induction false} CorrectAnswerStableUnderExtension(response: string, more: string, expected: Expected, intent: string)
    requires |response| >= ShortResponseLimit
    requires CheckCorrectness(response, expected, intent) == TP
    ensures CheckCorrectness(response + more, expected, intent) == TP
  {
    var a, b := Lower(response), Lower(response + more);
    LowerAppend(response, more);
    assert b == a + Lower(more);
    assert a + Lower(more) == [] + a + Lower(more);
    forall k: string | Contains(a, k) ensures Contains(b, k) {
      ContainsInExtension([], a, Lower(more), k);
    }
  }

  /** The literal answer given when retrieval finds no player,
      "Veri bulunamadı.", written as two-character pieces so that its
      lower-casing can be worked out piece by piece. */
  const NoDataResponse: string := "Ve" + "ri" + " b" + "ul" + "un" + "am" + "ad" + "ı."

  /** The pieces spell the literal of the source. */
  lemma {:induction false} NoDataLiteral()
    ensures NoDataResponse == "Veri bulunamadı."
  {
  }

  /** The no-data answer is always classified FN, whatever the question. */
  lemma {:induction false} NoDataIsUnanswered(expected: Expected, intent: string)
    ensures CheckCorrectness(NoDataResponse, expected, intent) == FN
  {
    NoDataLowered();
    NoDataText();
    var lowered := Lower(NoDataResponse);
    assert Contains(lowered, FailPhrases[0]);
  }

  /** The no-data answer lower-cases to "veri bulunamadı.". */
  lemma {:induction false} NoDataLowered()
    ensures Lower(NoDataResponse) == "ve" + "ri" + " b" + "ul" + "un" + "am" + "ad" + "ı."
  {
    LowerPairFixed('v', 'e');
    assert Lower("Ve") == LowerChar('V') + Lower("e");
    LowerPairFixed('r', 'i');
    LowerPairFixed(' ', 'b');
    LowerPairFixed('u', 'l');
    LowerPairFixed('u', 'n');
    LowerPairFixed('a', 'm');
    LowerPairFixed('a', 'd');
    LowerPairFixed('ı', '.');
    LowerAppend("Ve", "ri");
    LowerAppend("Ve" + "ri", " b");
    LowerAppend("Ve" + "ri" + " b", "ul");
    LowerAppend("Ve" + "ri" + " b" + "ul", "un");
    LowerAppend("Ve" + "ri" + " b" + "ul" + "un", "am");
    LowerAppend("Ve" + "ri" + " b" + "ul" + "un" + "am", "ad");
    LowerAppend("Ve" + "ri" + " b" + "ul" + "un" + "am" + "ad", "ı.");
  }

  /** "veri bulunamadı." starts with the first fail phrase and is shorter
      than the refusal limit. */
  lemma {:induction false} NoDataText()
    ensures FailPhrases[0] <= "ve" + "ri" + " b" + "ul" + "un" + "am" + "ad" + "ı."
    ensures |"ve" + "ri" + " b" + "ul" + "un" + "am" + "ad" + "ı."| < ShortResponseLimit
  {
  }

  /** A long answer naming the expected team is correct for a team
      question, whatever surrounds the name and however the name is
      capitalised: "... Barcelona ..." of at least 50 characters is TP for
      the expected team "barcelona". */
  lemma {:induction false} NamedTeamIsTP(pre: string, name: string, post: string, expected: Expected)
    requires expected.team != [] && Lower(name) == expected.team
    requires |pre| + |name| + |post| >= ShortResponseLimit
    ensures CheckCorrectness(pre + name + post, expected, "Ask_Team") == TP
  {
    LowerAppend(pre, name);
    LowerAppend(pre + name, post);
    assert Contains(Lower(name), Lower(name));
    ContainsInExtension(Lower(pre), Lower(name), Lower(post), Lower(name));
  }

  // ---------------------------------------------------------------------
  // The counters and _calculate_final_metrics
  // ---------------------------------------------------------------------

  /** The counters of one backend, as they stand at some moment. */
  datatype Tally = Tally(tp: nat, fp: nat, fn: nat, responseTimes: seq<real>)

  /** The entry `metrics[model]` that `run_evaluation` updates in place. */
  class ModelCounters {
    var tp: nat
    var fp: nat
    var fn: nat
    var responseTimes: seq<real>

    constructor ()
      ensures tp == 0 && fp == 0 && fn == 0 && responseTimes == []
    {
      tp, fp, fn, responseTimes := 0, 0, 0, [];
    }

    function Snapshot(): (t: Tally)
      reads this
    {
      Tally(tp, fp, fn, responseTimes)
    }

    /** The bookkeeping of `evaluate_model`: append the duration, then add
        one to the counter the status names. */
    method Record(status: Status, duration: real)
      modifies this
      ensures responseTimes == old(responseTimes) + [duration]
      ensures tp == old(tp) + (if status == TP then 1 else 0)
      ensures fp == old(fp) + (if status == FP then 1 else 0)
      ensures fn == old(fn) + (if status == FN then 1 else 0)
    {
      responseTimes := responseTimes + [duration];
      if status == TP {
        tp := tp + 1;
      } else if status == FN {
        fn := fn + 1;
      } else {
        fp := fp + 1;
      }
    }
  }

  /** One row of the final metrics table. */
  datatype Summary = Summary(
    model: string, precision: real, recall: real, f1: real, avgTime: real,
    tp: nat, fp: nat, fn: nat)

  /** The row `_calculate_final_metrics` builds for one backend: the raw
      counts unchanged, precision and recall the shares of TP among the
      answers and among the expected answers, F1 in [0, 1] and equal to
      2·TP / (2·TP + FP + FN) (0 without a TP), and the mean latency (0 with
      no timings). */
  function Summarize(model: string, t: Tally): (s: Summary)
    ensures s.model == model && s.tp == t.tp && s.fp == t.fp && s.fn == t.fn
    ensures IsRatio(s.precision, t.tp, t.fp) && IsRatio(s.recall, t.tp, t.fn)
    ensures s.f1 == ClosedFormF1(t.tp, t.fp, t.fn) && 0.0 <= s.f1 <= 1.0
    ensures t.responseTimes == [] ==> s.avgTime == 0.0
    ensures t.responseTimes != [] ==> s.avgTime * |t.responseTimes| as real == Sum(t.responseTimes)
  {
    var p, r := Precision(t.tp, t.fp), Recall(t.tp, t.fn);
    F1OfCounts(t.tp, t.fp, t.fn);
    Summary(model, p, r, F1(p, r), Average(t.responseTimes), t.tp, t.fp, t.fn)
  }

  /** `_calculate_final_metrics(metrics)`: one summary row per backend, in
      the order of the dictionary. */
  method CalculateFinalMetrics(metrics: seq<(string, Tally)>) returns (finalMetrics: seq<Summary>)
    ensures |finalMetrics| == |metrics|
    ensures forall i :: 0 <= i < |metrics| ==> finalMetrics[i] == Summarize(metrics[i].0, metrics[i].1)
  {
    finalMetrics := [];
    for i := 0 to |metrics|
      invariant |finalMetrics| == i
      invariant forall j :: 0 <= j < i ==> finalMetrics[j] == Summarize(metrics[j].0, metrics[j].1)
    {
      var (modelName, data) := metrics[i];
      var p := Precision(data.tp, data.fp);
      var r := Recall(data.tp, data.fn);
      var f1 := F1(p, r);
      var avgTime := Average(data.responseTimes);
      finalMetrics := finalMetrics + [Summary(modelName, p, r, f1, avgTime, data.tp, data.fp, data.fn)];
    }
  }

  // ---------------------------------------------------------------------
  // run_evaluation
  // ---------------------------------------------------------------------

  /** One row of the test file; `intent` is `None` when the file has no
      intent column. */
  datatype TestQuestion = TestQuestion(
    question: string, intent: Option<string>,
    expectedTeam: string, expectedPosition: string, expectedPlayer: string)

  /** One row of the results table. */
  datatype ResultRow = ResultRow(
    question: string, intent: string, expectedTeam: string,
    xaiResponse: string, xaiStatus: Status,
    geminiResponse: string, geminiStatus: Status)

  /** A generation backend: the answer to a question given the retrieved
      player record (the source passes the record's `str()` text). */
  type Backend = (string, PlayerInfo) -> string

  /** `row.get('intent', 'General')`. */
  function IntentOf(q: TestQuestion): string {
    if q.intent.Some? then q.intent.value else "General"
  }

  /** `str(cell).lower().strip()` of the three expected columns. */
  function ExpectedOf(q: TestQuestion): Expected {
    Expected(Strip(Lower(q.expectedTeam)), Strip(Lower(q.expectedPosition)), Strip(Lower(q.expectedPlayer)))
  }

  /** Retrieval: a player mentioned in the question, or else a lookup with
      the whole question as the name. */
  function Retrieve(df: Option<seq<Row>>, question: string): (info: Option<PlayerInfo>)
    ensures MentionedPlayer(df, question).Some? ==> info == MentionedPlayer(df, question)
    ensures MentionedPlayer(df, question).None? ==> info == GetPlayerInfo(df, question)
  {
    match MentionedPlayer(df, question)
    case Some(found) => Some(found)
    case None => GetPlayerInfo(df, question)
  }

  /** With a table, a non-empty question and a non-blank query, retrieval
      finds nothing exactly when no row is mentioned in the lower-cased
      question and no row's name contains the lower-cased, stripped
      question. */
  lemma {:induction false} RetrieveFindsNothing(df: Option<seq<Row>>, question: string)
    requires df.Some? && question != [] && Lower(Strip(question)) != []
    ensures var rows := df.value;
      Retrieve(df, question).None? <==>
        && (forall i :: 0 <= i < |rows| ==> !Mentions(rows[i], Lower(question)))
        && (forall i :: 0 <= i < |rows| ==> !NameMatches(rows[i], Lower(Strip(question))))
  {
    MentionedPlayerFirstMatch(df, question);
    GetPlayerInfoFirstMatch(df, question);
  }

  /** The answer of one backend: generated from the record when one was
      retrieved, the no-data literal otherwise. */
  function ResponseOf(backend: Backend, question: string, info: Option<PlayerInfo>): string {
    if info.Some? then backend(question, info.value) else NoDataResponse
  }

  /** What `run_evaluation` records for one test question. When retrieval
      finds nothing, both backends answer the no-data literal and both are
      FN. */
  function EvaluateQuestion(df: Option<seq<Row>>, q: TestQuestion, xai: Backend, gemini: Backend): (r: ResultRow)
    ensures r.question == q.question && r.intent == IntentOf(q) && r.expectedTeam == ExpectedOf(q).team
    ensures r.xaiStatus == CheckCorrectness(r.xaiResponse, ExpectedOf(q), IntentOf(q))
    ensures r.geminiStatus == CheckCorrectness(r.geminiResponse, ExpectedOf(q), IntentOf(q))
    ensures Retrieve(df, q.question).None? ==>
      r.xaiResponse == NoDataResponse && r.geminiResponse == NoDataResponse && r.xaiStatus == FN && r.geminiStatus == FN
    ensures Retrieve(df, q.question).Some? ==>
      var info := Retrieve(df, q.question).value;
      r.xaiResponse == xai(q.question, info) && r.geminiResponse == gemini(q.question, info)
  {
    var info := Retrieve(df, q.question);
    var expected, intent := ExpectedOf(q), IntentOf(q);
    var xaiResponse := ResponseOf(xai, q.question, info);
    var geminiResponse := ResponseOf(gemini, q.question, info);
    NoDataIsUnanswered(expected, intent);
    ResultRow(q.question, intent, expected.team,
              xaiResponse, CheckCorrectness(xaiResponse, expected, intent),
              geminiResponse, CheckCorrectness(geminiResponse, expected, intent))
  }

  /** The evaluation of one question as a function of the question. */
  function Evaluator(df: Option<seq<Row>>, xai: Backend, gemini: Backend): TestQuestion -> ResultRow {
    q => EvaluateQuestion(df, q, xai, gemini)
  }

  /** The results table of a run over `tests`: one row per question, in
      order. */
  function EvaluateAll(df: Option<seq<Row>>, tests: seq<TestQuestion>, xai: Backend, gemini: Backend): (r: seq<ResultRow>)
    ensures |r| == |tests|
  {
    Map(tests, Evaluator(df, xai, gemini))
  }

  /** Row `i` of the table is the evaluation of question `i` alone: no row
      depends on another question. */
  lemma {:induction false} EvaluateAllRows(df: Option<seq<Row>>, tests: seq<TestQuestion>, xai: Backend, gemini: Backend)
    ensures forall i :: 0 <= i < |tests| ==> EvaluateAll(df, tests, xai, gemini)[i] == EvaluateQuestion(df, tests[i], xai, gemini)
  {
    MapAt(tests, Evaluator(df, xai, gemini));
  }

  /** One more question adds its row at the end. */
  lemma {:induction false} EvaluateAllSnoc(df: Option<seq<Row>>, tests: seq<TestQuestion>, q: TestQuestion, xai: Backend, gemini: Backend)
    ensures EvaluateAll(df, tests + [q], xai, gemini) == EvaluateAll(df, tests, xai, gemini) + [EvaluateQuestion(df, q, xai, gemini)]
  {
    MapSnoc(tests, q, Evaluator(df, xai, gemini));
  }

  /** The status column of each backend in the results table. */
  function XaiColumn(results: seq<ResultRow>): (c: seq<Status>)
    ensures |c| == |results| && forall i :: 0 <= i < |results| ==> c[i] == results[i].xaiStatus
  {
    seq(|results|, i requires 0 <= i < |results| => results[i].xaiStatus)
  }

  function GeminiColumn(results: seq<ResultRow>): (c: seq<Status>)
    ensures |c| == |results| && forall i :: 0 <= i < |results| ==> c[i] == results[i].geminiStatus
  {
    seq(|results|, i requires 0 <= i < |results| => results[i].geminiStatus)
  }

  /** The counters after a run: one count per status, one timing per
      question. */
  function TallyOf(statuses: seq<Status>, times: seq<real>): (t: Tally)
    ensures t.tp + t.fp + t.fn == |statuses| && t.responseTimes == times
  {
    StatusCountsSum(statuses);
    Tally(Count(statuses, TP), Count(statuses, FP), Count(statuses, FN), times)
  }

  /** Every status is exactly one of TP, FP and FN. */
  lemma {:induction false} StatusCountsSum(statuses: seq<Status>)
    ensures Count(statuses, TP) + Count(statuses, FP) + Count(statuses, FN) == |statuses|
  {
    if statuses != [] {
      var prefix, last := statuses[..|statuses| - 1], statuses[|statuses| - 1];
      assert statuses == prefix + [last];
      StatusCountsSum(prefix);
      CountAppend(prefix, last, TP);
      CountAppend(prefix, last, FP);
      CountAppend(prefix, last, FN);
      assert Count(statuses, TP) == Count(prefix, TP) + (if last == TP then 1 else 0);
      assert Count(statuses, FP) == Count(prefix, FP) + (if last == FP then 1 else 0);
      assert Count(statuses, FN) == Count(prefix, FN) + (if last == FN then 1 else 0);
    }
  }

  /** Appending a row appends its status to each status column. */
  lemma {:induction false} ColumnsAppend(results: seq<ResultRow>, row: ResultRow)
    ensures XaiColumn(results + [row]) == XaiColumn(results) + [row.xaiStatus]
    ensures GeminiColumn(results + [row]) == GeminiColumn(results) + [row.geminiStatus]
  {
    assert XaiColumn(results + [row]) == XaiColumn(results) + [row.xaiStatus];
  }

  /** One more status and timing add one to exactly the named counter. */
  lemma {:induction false} TallyAppend(statuses: seq<Status>, times: seq<real>, s: Status, d: real)
    ensures var t, u := TallyOf(statuses, times), TallyOf(statuses + [s], times + [d]);
      && u.tp == t.tp + (if s == TP then 1 else 0)
      && u.fp == t.fp + (if s == FP then 1 else 0)
      && u.fn == t.fn + (if s == FN then 1 else 0)
      && u.responseTimes == t.responseTimes + [d]
  {
    CountAppend(statuses, s, TP);
    CountAppend(statuses, s, FP);
    CountAppend(statuses, s, FN);
  }

  /** The body of the loop of `run_evaluation` for one question, without
      the bookkeeping: retrieval by mention and then by name, both
      generations, and their classification. */
  method AnswerQuestion(df: Option<seq<Row>>, q: TestQuestion, xai: Backend, gemini: Backend)
    returns (row: ResultRow)
    ensures row == EvaluateQuestion(df, q, xai, gemini)
  {
    var intent := IntentOf(q);
    var expected := ExpectedOf(q);

    var playerInfo := FindPlayerInText(df, q.question);
    if playerInfo.None? {
      playerInfo := GetPlayerInfo(df, q.question);
    }
    assert playerInfo == Retrieve(df, q.question);

    var xaiResponse := if playerInfo.Some? then xai(q.question, playerInfo.value) else NoDataResponse;
    var xaiStatus := CheckCorrectness(xaiResponse, expected, intent);
    var geminiResponse := if playerInfo.Some? then gemini(q.question, playerInfo.value) else NoDataResponse;
    var geminiStatus := CheckCorrectness(geminiResponse, expected, intent);
    row := ResultRow(q.question, intent, expected.team, xaiResponse, xaiStatus, geminiResponse, geminiStatus);
  }

  /** The counters' update for one answer keeps them equal to the tally
      of the statuses and timings seen so far. */
  method Tick(counters: ModelCounters, ghost statuses: seq<Status>, ghost times: seq<real>, status: Status, duration: real)
    modifies counters
    requires counters.Snapshot() == TallyOf(statuses, times)
    ensures counters.Snapshot() == TallyOf(statuses + [status], times + [duration])
  {
    counters.Record(status, duration);
    TallyAppend(statuses, times, status, duration);
  }

  /** The bookkeeping for one row of the results: each backend's status and
      duration go to that backend's counters. */
  method RecordRow(xaiCounters: ModelCounters, geminiCounters: ModelCounters,
                   ghost results: seq<ResultRow>, ghost xaiTimes: seq<real>, ghost geminiTimes: seq<real>,
                   row: ResultRow, xaiTime: real, geminiTime: real)
    requires xaiCounters != geminiCounters
    requires xaiCounters.Snapshot() == TallyOf(XaiColumn(results), xaiTimes)
    requires geminiCounters.Snapshot() == TallyOf(GeminiColumn(results), geminiTimes)
    modifies xaiCounters, geminiCounters
    ensures xaiCounters.Snapshot() == TallyOf(XaiColumn(results + [row]), xaiTimes + [xaiTime])
    ensures geminiCounters.Snapshot() == TallyOf(GeminiColumn(results + [row]), geminiTimes + [geminiTime])
  {
    ColumnsAppend(results, row);
    Tick(xaiCounters, XaiColumn(results), xaiTimes, row.xaiStatus, xaiTime);
    Tick(geminiCounters, GeminiColumn(results), geminiTimes, row.geminiStatus, geminiTime);
  }

  /** The loop of `run_evaluation()`: each question is answered by both
      backends and recorded in both counters, which therefore end up as the
      tallies of the status columns and timings. */
  method AnswerAll(df: Option<seq<Row>>, tests: seq<TestQuestion>, xai: Backend, gemini: Backend,
                   xaiTimes: seq<real>, geminiTimes: seq<real>,
                   xaiCounters: ModelCounters, geminiCounters: ModelCounters)
    returns (results: seq<ResultRow>)
    requires |xaiTimes| == |tests| && |geminiTimes| == |tests| && xaiCounters != geminiCounters
    requires xaiCounters.Snapshot() == Tally(0, 0, 0, []) && geminiCounters.Snapshot() == Tally(0, 0, 0, [])
    modifies xaiCounters, geminiCounters
    ensures results == EvaluateAll(df, tests, xai, gemini)
    ensures xaiCounters.Snapshot() == TallyOf(XaiColumn(results), xaiTimes)
    ensures geminiCounters.Snapshot() == TallyOf(GeminiColumn(results), geminiTimes)
  {
    results := [];
    for index := 0 to |tests|
      invariant results == EvaluateAll(df, tests[..index], xai, gemini)
      invariant xaiCounters.Snapshot() == TallyOf(XaiColumn(results), xaiTimes[..index])
      invariant geminiCounters.Snapshot() == TallyOf(GeminiColumn(results), geminiTimes[..index])
    {
      PrefixStep(tests, index);
      EvaluateAllSnoc(df, tests[..index], tests[index], xai, gemini);
      PrefixStep(xaiTimes, index);
      PrefixStep(geminiTimes, index);
      var row := AnswerQuestion(df, tests[index], xai, gemini);
      RecordRow(xaiCounters, geminiCounters, results, xaiTimes[..index], geminiTimes[..index],
                row, xaiTimes[index], geminiTimes[index]);
      results := results + [row];
    }
    assert tests[..|tests|] == tests;
    assert xaiTimes[..|tests|] == xaiTimes && geminiTimes[..|tests|] == geminiTimes;
  }

  /** `run_evaluation()`, with the two backends and the measured durations
      (one per question and backend) as parameters. The results table holds
      one row per question, and the final metrics are the summaries of the
      two backends' counters, xAI first; each backend's three counts add up
      to the number of questions. */
  method RunEvaluation(df: Option<seq<Row>>, tests: seq<TestQuestion>, xai: Backend, gemini: Backend,
                       xaiTimes: seq<real>, geminiTimes: seq<real>)
    returns (finalMetrics: seq<Summary>, results: seq<ResultRow>)
    requires |xaiTimes| == |tests| && |geminiTimes| == |tests|
    ensures results == EvaluateAll(df, tests, xai, gemini)
    ensures |finalMetrics| == 2
    ensures finalMetrics[0] == Summarize("xAI", TallyOf(XaiColumn(results), xaiTimes))
    ensures finalMetrics[1] == Summarize("Gemini", TallyOf(GeminiColumn(results), geminiTimes))
    ensures finalMetrics[0].tp + finalMetrics[0].fp + finalMetrics[0].fn == |tests|
    ensures finalMetrics[1].tp + finalMetrics[1].fp + finalMetrics[1].fn == |tests|
  {
    var xaiCounters := new ModelCounters();
    var geminiCounters := new ModelCounters();
    results := AnswerAll(df, tests, xai, gemini, xaiTimes, geminiTimes, xaiCounters, geminiCounters);
    finalMetrics := CalculateFinalMetrics([("xAI", xaiCounters.Snapshot()), ("Gemini", geminiCounters.Snapshot())]);
  }
}
