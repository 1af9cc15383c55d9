/** The metrics view over a stored results file (utils/metrics.py,
    `get_metrics`): the TP / FP / FN statuses recorded for each backend are
    counted again and turned into precision, recall and F1 with the same
    formulas as the evaluation run. */
module Metrics {
  import opened Seqs
  import opened Text
  import opened Scoring
  import opened Evaluation

  /** The results file as `get_metrics` finds it: absent; present but not
      readable (the error text of the exception); or read, as a map from
      column name to the column's cells, missing cells read as "". */
  datatype ResultsFile = Missing | Unreadable(error: string) | Loaded(columns: map<string, seq<string>>)

  /** One row of the summary table. */
  datatype MetricRow = MetricRow(model: string, precision: real, recall: real, f1: real)

  /** What `get_metrics` returns: the placeholder row, the error row, or
      one summary row per backend with a status column. */
  datatype MetricsView =
    | Placeholder(status: string, info: string)
    | Failure(message: string)
    | Summaries(rows: seq<MetricRow>)

  const NoResultsStatus: string := "Test Verisi Yok"
  const NoResultsInfo: string := "Lütfen 'Değerlendirme Paneli'nden testi çalıştırın."
  const FailurePrefix: string := "Metrikler okunurken hata oluştu: "

  /** The backends, in the order their rows appear. */
  const Models: seq<string> := ["xAI", "Gemini"]

  /** `f"{model.lower()}_status"`. */
  function StatusColumn(model: string): string {
    Lower(model) + "_status"
  }

  /** The status columns read are the ones the evaluation run writes,
      `xai_status` and `gemini_status`. */
  lemma {:induction false} StatusColumnNames()
    ensures StatusColumn(Models[0]) == "xai_status" && StatusColumn(Models[1]) == "gemini_status"
  {
    LowerXai();
    LowerGemini();
  }

  lemma {:induction false} LowerXai()
    ensures Lower("xAI") == "xai"
  {
    assert Lower("I") == LowerChar('I') + Lower([]);
    assert Lower("AI") == LowerChar('A') + Lower("I");
    assert Lower("xAI") == LowerChar('x') + Lower("AI");
  }

  lemma {:induction false} LowerGemini()
    ensures Lower("Gemini") == "gemini"
  {
    LowerFiveFixed('e', 'm', 'i', 'n', 'i');
    assert Lower("Gemini") == LowerChar('G') + Lower("emini");
  }

  lemma {:induction false} LowerFiveFixed(a: char, b: char, c: char, d: char, e: char)
    requires LowerChar(a) == [a] && LowerChar(b) == [b] && LowerChar(c) == [c]
    requires LowerChar(d) == [d] && LowerChar(e) == [e]
    ensures Lower([a, b, c, d, e]) == [a, b, c, d, e]
  {
    LowerPairFixed(d, e);
    assert Lower([c, d, e]) == LowerChar(c) + Lower([d, e]);
    assert Lower([b, c, d, e]) == LowerChar(b) + Lower([c, d, e]);
    assert Lower([a, b, c, d, e]) == LowerChar(a) + Lower([b, c, d, e]);
  }

  /** The summary row for one backend's status column: the counts of cells
      that are exactly "TP", "FP" and "FN" give precision and recall, and F1
      is their harmonic mean, 2·TP / (2·TP + FP + FN). */
  function ModelRow(model: string, column: seq<string>): (r: MetricRow)
    ensures var tp, fp, fn := Count(column, "TP"), Count(column, "FP"), Count(column, "FN");
      && r.model == model
      && IsRatio(r.precision, tp, fp) && IsRatio(r.recall, tp, fn)
      && r.f1 == ClosedFormF1(tp, fp, fn) && 0.0 <= r.f1 <= 1.0
  {
    var tp, fp, fn := Count(column, "TP"), Count(column, "FP"), Count(column, "FN");
    var precision, recall := Precision(tp, fp), Recall(tp, fn);
    F1OfCounts(tp, fp, fn);
    MetricRow(model, precision, recall, F1(precision, recall))
  }

  /** The rows for `models` in order, skipping a model whose status column
      the file does not have. */
  function SummaryRows(columns: map<string, seq<string>>, models: seq<string>): (rows: seq<MetricRow>)
    ensures |rows| <= |models|
  {
    if models == [] then []
    else
      var last := models[|models| - 1];
      SummaryRows(columns, models[..|models| - 1]) + RowsFor(columns, last)
  }

  /** The specification of `get_metrics`. */
  function MetricsOf(file: ResultsFile): MetricsView {
    match file
    case Missing => Placeholder(NoResultsStatus, NoResultsInfo)
    case Unreadable(error) => Failure(FailurePrefix + error)
    case Loaded(columns) => Summaries(SummaryRows(columns, Models))
  }

  /** The body of the loop for a backend whose status column is present:
      the three counts and the guarded formulas. */
  method ModelSummary(model: string, column: seq<string>) returns (row: MetricRow)
    ensures row == ModelRow(model, column)
  {
    var tp, fp, fn := Count(column, "TP"), Count(column, "FP"), Count(column, "FN");
    var precision := if tp + fp > 0 then tp as real / (tp + fp) as real else 0.0;
    var recall := if tp + fn > 0 then tp as real / (tp + fn) as real else 0.0;
    var f1 := if precision + recall > 0.0 then 2.0 * (precision * recall) / (precision + recall) else 0.0;
    assert precision == Precision(tp, fp) && recall == Recall(tp, fn);
    F1Formula(precision, recall);
    row := MetricRow(model, precision, recall, f1);
  }

  /** The loop of `get_metrics()` over the backends, appending one summary
      row per backend whose status column is present. */
  method SummariseColumns(columns: map<string, seq<string>>) returns (summaryData: seq<MetricRow>)
    ensures summaryData == SummaryRows(columns, Models)
  {
    summaryData := [];
    for i := 0 to |Models|
      invariant summaryData == SummaryRows(columns, Models[..i])
    {
      var model := Models[i];
      var statusColumn := StatusColumn(model);
      PrefixStep(Models, i);
      if statusColumn !in columns {
        continue;
      }
      var row := ModelSummary(model, columns[statusColumn]);
      summaryData := summaryData + [row];
    }
    assert Models[..|Models|] == Models;
  }

  /** `get_metrics()`: the placeholder without a file, the error row when
      reading fails, the summary rows otherwise. */
  method GetMetrics(file: ResultsFile) returns (view: MetricsView)
    ensures view == MetricsOf(file)
  {
    match file
    case Missing =>
      view := Placeholder(NoResultsStatus, NoResultsInfo);
    case Unreadable(error) =>
      view := Failure(FailurePrefix + error);
    case Loaded(columns) =>
      var summaryData := SummariseColumns(columns);
      view := Summaries(summaryData);
  }

  /** The rows for one model: one if its status column is present, none
      otherwise. */
  function RowsFor(columns: map<string, seq<string>>, model: string): seq<MetricRow> {
    if StatusColumn(model) in columns then [ModelRow(model, columns[StatusColumn(model)])] else []
  }

  /** With two models, the rows of the first come before those of the
      second. */
  lemma {:induction false} SummaryRowsOfTwo(columns: map<string, seq<string>>, first: string, second: string)
    ensures SummaryRows(columns, [first, second]) == RowsFor(columns, first) + RowsFor(columns, second)
  {
    var models := [first, second];
    assert models[..1] == [first] && [first][..0] == [];
    assert SummaryRows(columns, [first]) == SummaryRows(columns, []) + RowsFor(columns, first);
  }

  /** Which rows the view holds: the placeholder without a file, and the
      xAI row before the Gemini row, each present exactly when its status
      column is. */
  lemma {:induction false} MetricsRows(file: ResultsFile)
    ensures file.Missing? ==> MetricsOf(file).Placeholder?
    ensures file.Loaded? ==>
      MetricsOf(file) == Summaries(RowsFor(file.columns, "xAI") + RowsFor(file.columns, "Gemini"))
  {
    if file.Loaded? {
      SummaryRowsOfTwo(file.columns, "xAI", "Gemini");
    }
  }

  /** A cell with any other text than "TP", "FP" or "FN" is counted in none
      of them: the three counts add up to at most the number of rows. */
  lemma {:induction false} CountsAtMostRows(column: seq<string>)
    ensures Count(column, "TP") + Count(column, "FP") + Count(column, "FN") <= |column|
  {
    CountThreeAtMost(column, "TP", "FP", "FN");
  }

  /** Reading back a run's statuses gives the run's own scores: for a status
      column holding the names of the statuses a run recorded, the summary
      row has the precision, recall and F1 of `_calculate_final_metrics`
      for that run, and every row is counted. */
  lemma {:induction false} StoredRunAgrees(model: string, statuses: seq<Status>, times: seq<real>)
    ensures var row, summary := ModelRow(model, Map(statuses, StatusName)), Summarize(model, TallyOf(statuses, times));
      && row.precision == summary.precision && row.recall == summary.recall && row.f1 == summary.f1
    ensures var column := Map(statuses, StatusName);
      Count(column, "TP") + Count(column, "FP") + Count(column, "FN") == |statuses|
  {
    var column := Map(statuses, StatusName);
    CountMap(statuses, StatusName, TP);
    CountMap(statuses, StatusName, FP);
    CountMap(statuses, StatusName, FN);
    var row, summary := ModelRow(model, column), Summarize(model, TallyOf(statuses, times));
    RatioUnique(row.precision, summary.precision, summary.tp, summary.fp);
    RatioUnique(row.recall, summary.recall, summary.tp, summary.fn);
  }
}
