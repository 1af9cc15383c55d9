# Football scout chatbot: lookup, scoring and metrics core

A Dafny model of the decision logic of a Turkish football-scout chatbot.
The chatbot answers questions about players from a CSV table of players and
generates replies with two LLM backends (xAI and Gemini). Its evaluation
harness scores those backends against a file of test questions. The model
covers four parts of that system:

- **Player lookup** (`utils/data_loader.py`). `get_player_info` finds the
  first row whose lower-cased `name` or `full_name` contains the stripped,
  lower-cased query. `find_player_in_text` is a loop over the table that
  returns the first row with a name longer than three characters occurring
  in the lower-cased text. `_format_player_info` builds the eight-field
  record. These are in `data_loader.dfy`.
- **Answer scoring** (`utils/evaluation.py`). `_check_correctness_detailed`
  classifies a response as TP, FP or FN. `run_evaluation` answers every test
  question with both backends and keeps per-backend counters.
  `_calculate_final_metrics` turns the counters into precision, recall, F1
  and a mean latency. These are in `evaluation.dfy`; the formulas shared
  with the metrics view are in `scoring.dfy`.
- **Small-talk routing** (`app/main.py`, `handle_social_intents`). Greetings,
  farewells and thanks are recognised, in that order, on the lower-cased,
  stripped message. This is in `social.dfy`.
- **Stored-result metrics** (`utils/metrics.py`, `get_metrics`). The TP / FP /
  FN statuses saved by a run are counted again per backend. This is in
  `metrics.dfy`.

`text.dfy` models the Python string primitives the code relies on:
`str.lower()`, `str.strip()`, `in` and `startswith`. `seqs.dfy` holds
sequence utilities: filter, first index, map and count.

The functional parts are functions with lemmas. The parts that work by
updating state are methods, each proved equal to a specification function:
- the scan of `find_player_in_text`;
- the loop of `run_evaluation`, whose per-backend counters are a class,
  `ModelCounters`, updated in place;
- the loop of `_calculate_final_metrics`;
- the loop of `get_metrics`.

The comment at utils/data_loader.py:70 says longer names should be
preferred. The code returns the first match in table order, and the model
follows the code: `FirstRowWinsOverLongerName` shows a shorter name earlier
in the table winning over a longer one.

## Model

| member | source | states |
|---|---|---|
| DataLoader.FormatPlayerInfo | utils/data_loader.py:87-98 | name and full name are copied. Position, club, league and nationality are copied, or are "N/A" when the column is absent. Age is its text, "nan" when missing, "N/A" without the column. Price is its text followed by " M€" when present, and is "N/A" exactly when it is not present. |
| DataLoader.GetPlayerInfo | utils/data_loader.py:30-58 | The name lookup: the first row whose lower-cased name or full name contains the stripped, lower-cased query, formatted. Specified by `GetPlayerInfoFirstMatch`. |
| DataLoader.GetPlayerInfoFirstMatch | utils/data_loader.py:35-58 | No record without a table, and none for an all-white-space query. Otherwise there is no record exactly when no row's lower-cased name or full name contains the stripped, lower-cased query. When there is one, it is the record of the first such row. |
| DataLoader.GetPlayerInfoNoMinimumLength | utils/data_loader.py:38-49 | A one-letter query is looked up: there is no minimum length. |
| DataLoader.GetPlayerInfoIgnoresCase | utils/data_loader.py:38-49 | A query equal to a row's name up to letter case finds that row when it comes first. |
| DataLoader.MentionedPlayer | utils/data_loader.py:60-85 | The specification of the mention scan: the record of the first row, in table order, that mentions the lower-cased text. Characterised by `MentionedPlayerFirstMatch` and met by `FindPlayerInText`. |
| DataLoader.FindPlayerInText | utils/data_loader.py:60-85 | The scan with early return yields exactly the record of the first row that mentions the text, or None. |
| DataLoader.MentionedPlayerFirstMatch | utils/data_loader.py:65-85 | No record without a table or for an empty text. A record comes from a row whose lower-cased name or full name, longer than three characters, occurs in the lower-cased text, and no earlier row does so. There is no record exactly when no row qualifies. |
| DataLoader.ShortNamesNeverMentioned | utils/data_loader.py:82-85 | Names of at most three characters never match, so a table of such rows gives no record for any text. |
| DataLoader.FirstRowWinsOverLongerName | utils/data_loader.py:70-83 | With a short name first and a longer mentioned name second, the first row is returned: first match, not longest match. |
| Evaluation.CheckCorrectness | utils/evaluation.py:89-135 | The TP / FP / FN classification of one response. Specified by `CheckCorrectnessCases`. |
| Evaluation.CheckCorrectnessCases | utils/evaluation.py:94-135 | FN exactly for a lower-cased response shorter than 50 characters that contains one of the five fail phrases. A response of 50 characters or more is never FN. Otherwise TP holds exactly under the rule of the intent: a non-empty team for Ask_Team; a non-empty position for Ask_Position; the player plus the team or position for Ask_Info, with no non-empty guard; a non-empty team or position for any other intent. |
| Evaluation.AskInfoBlankExpectationsAlwaysTP | utils/evaluation.py:115-122 | With blank expected values, any non-refusal answers an Ask_Info question correctly, because "" occurs in every text. |
| Evaluation.AskTeamBlankTeamNeverTP | utils/evaluation.py:105-108 | A blank expected team never makes an Ask_Team answer TP. |
| Evaluation.CorrectAnswerStableUnderExtension | utils/evaluation.py:99-135 | A correct answer of at least 50 characters stays correct whatever is appended to it. |
| Evaluation.NamedTeamIsTP | utils/evaluation.py:105-108 | A long answer naming the expected team, in any letter case and anywhere in the text, is TP for Ask_Team. |
| Evaluation.NoDataLiteral | utils/evaluation.py:53 | The no-data answer is the literal "Veri bulunamadı.". |
| Evaluation.NoDataIsUnanswered | utils/evaluation.py:94-100 | The no-data answer "Veri bulunamadı." (line 53) is FN for every question and intent. |
| Evaluation.Retrieve | utils/evaluation.py:39-41 | The player mentioned in the question is used when there is one, and a lookup by the whole question otherwise. |
| Evaluation.RetrieveFindsNothing | utils/evaluation.py:39-41 | With a table, a non-empty question and a non-blank query, retrieval finds nothing exactly when no row is mentioned in the lower-cased question and no row's name or full name contains the stripped, lower-cased question. |
| Evaluation.IntentOf | utils/evaluation.py:29 | The question's intent, or "General" when the file has no intent column. A blank intent cell is "" and takes the fallback rule of `CheckCorrectnessCases`. |
| Evaluation.ExpectedOf | utils/evaluation.py:32-36 | The three expected values, lower-cased and stripped, compared by `CheckCorrectnessCases`. |
| Evaluation.EvaluateQuestion | utils/evaluation.py:27-77 | A row records the question, intent and expected team, and each backend's status is the classification of its response. Without a retrieved record, both responses are the no-data literal and both are FN. With one, the responses are the backends' answers for that record. |
| Evaluation.EvaluateAllRows | utils/evaluation.py:27-77 | Row i of the results is the evaluation of question i alone. |
| Evaluation.ModelCounters.Record | utils/evaluation.py:55-66 | Appends the duration and adds one to exactly the counter the status names, leaving the other two unchanged. |
| Evaluation.RecordRow | utils/evaluation.py:55-74 | After one row, each backend's counters are the tally of its status column and its timings, extended by that row's status and duration. |
| Evaluation.TallyAppend | utils/evaluation.py:55-66 | One more status adds one to exactly the matching count, and one more duration is appended. |
| Evaluation.TallyOf | utils/evaluation.py:55-66 | After a run the three counts add up to the number of statuses, and the timings are those recorded. |
| Evaluation.AnswerQuestion | utils/evaluation.py:27-77 | The loop body, with retrieval by mention and then by name, is the evaluation of that question. |
| Evaluation.Tick | utils/evaluation.py:55-66 | The in-place counter update keeps the counters equal to the tally of the statuses and timings seen. |
| Evaluation.AnswerAll | utils/evaluation.py:27-77 | After the loop, the results are one row per question in order. Each backend's counters are the tally of its status column and its timings. |
| Evaluation.RunEvaluation | utils/evaluation.py:16-87 | The results table is the per-question evaluation. The final metrics are two rows, xAI then Gemini, each the summary of that backend's counters, with tp + fp + fn equal to the number of questions. |
| Evaluation.Summarize | utils/evaluation.py:140-168 | Counts are reported unchanged. Precision is TP/(TP+FP) and recall is TP/(TP+FN), each 0 with a zero denominator. F1 is 2·TP/(2·TP+FP+FN) and lies in [0, 1]. The mean time is 0 with no timings. |
| Evaluation.CalculateFinalMetrics | utils/evaluation.py:137-170 | One summary per backend, in the dictionary's order. |
| Scoring.Ratio | utils/evaluation.py:146-149 | The guarded share is in [0, 1] and equals part/(part + rest), or 0 with a zero denominator. It is 0 iff part is 0, and 1 iff there is no rest. |
| Scoring.Precision | utils/evaluation.py:146 | TP/(TP+FP) in [0, 1], and 0 when there is no TP and no FP. |
| Scoring.Recall | utils/evaluation.py:149 | TP/(TP+FN) in [0, 1], and 0 when there is no TP and no FN. |
| Scoring.Average | utils/evaluation.py:157 | 0 for no timings; otherwise mean times count equals the sum. |
| Scoring.F1 | utils/evaluation.py:152-155 | f·(p + r) = 2pr when p + r > 0, else 0. For ratios, f is in [0, 1] and lies between p and r. |
| Scoring.F1OfCounts | utils/evaluation.py:145-155 | From the counts, F1 of precision and recall is 2·TP / (2·TP + FP + FN), and 0 without TP. |
| Scoring.AverageBounds | utils/evaluation.py:157 | The mean of the timings lies within their bounds. |
| Scoring.ThreeOneOneExample | utils/evaluation.py:145-155 | 3 TP, 1 FP and 1 FN give precision, recall and F1 of 0.75. |
| Social.Normalise | app/main.py:30 | `text.lower().strip()`. Neither padding nor prior lower-casing changes it, by `NormalisationIgnoresPaddingAndCase`. |
| Social.KindOf | app/main.py:33-55 | Greeting, then farewell, then thanks, then none, in the order of the early returns. Spelled out by `SocialIntentCases`. |
| Social.HandleSocialIntents | app/main.py:29-55 | The reply is None exactly when the normalised text is no small talk, and otherwise is one of the replies of the kind recognised. |
| Social.SocialIntentCases | app/main.py:33-55 | A greeting is an exact greeting or a greeting followed by a space, and it gets a greeting reply over farewell and thanks. Otherwise a farewell phrase anywhere gets a farewell reply, over thanks. Otherwise a thanks phrase gets the fixed thanks reply. Otherwise there is no reply. |
| Social.EveryReplyPossible | app/main.py:35-47 | Every reply of the recognised kind is produced by some random draw. |
| Social.NormalisationIgnoresPaddingAndCase | app/main.py:30 | White space around the message and lower-casing it beforehand do not change the reply. |
| Text.Lower | utils/data_loader.py:38 | `str.lower()` character by character. Lower-casing twice is lower-casing once (`LowerIdempotent`). It gives the empty string exactly for the empty string. |
| Text.Strip | utils/data_loader.py:38 | `str.strip()`. Characterised by `StripSpec`. |
| Text.StripSpec | app/main.py:30 | `strip()` keeps the part after the leading white space, drops only white space at the end, and leaves no white space at either end. |
| Text.StripEmptyIffBlank | utils/data_loader.py:38-40 | The stripped query is empty exactly when it is all white space. |
| Text.StripPadded | app/main.py:30 | Padding with white space does not change `strip()`. |
| Text.LowerIdempotent | app/main.py:30 | Lower-casing twice is lower-casing once. |
| Text.StartsWith | app/main.py:34 | `text.startswith(prefix)` holds exactly when the first characters of the text are the prefix. |
| Text.Contains | utils/data_loader.py:82 | `needle in hay`. Characterised by `ContainsIff`. |
| Text.ContainsIff | utils/data_loader.py:82 | `needle in hay` holds exactly when the needle occurs at some index of the hay. |
| Metrics.StatusColumnNames | utils/metrics.py:22-26 | The columns read are `xai_status` and `gemini_status`. |
| Metrics.ModelRow | utils/metrics.py:33-47 | From the counts of cells exactly "TP", "FP" and "FN": precision and recall are the guarded shares, and F1 is 2·TP/(2·TP+FP+FN) in [0, 1]. |
| Metrics.ModelSummary | utils/metrics.py:33-54 | The counting and the guarded formulas give the specified row. |
| Metrics.SummariseColumns | utils/metrics.py:21-56 | The loop over the backends yields the specified rows, skipping a backend without a status column. |
| Metrics.MetricsOf | utils/metrics.py:11-59 | The specification of `get_metrics`: the placeholder, the error text after the fixed prefix, or the summary rows. Met by `GetMetrics`; its rows are described by `MetricsRows`. |
| Metrics.GetMetrics | utils/metrics.py:11-59 | The placeholder row without a file, the error row when reading fails, the summary rows otherwise. |
| Metrics.MetricsRows | utils/metrics.py:11-30 | Without a file there is a placeholder. With one, the xAI row comes before the Gemini row, each present exactly when its status column is. |
| Metrics.CountsAtMostRows | utils/metrics.py:33-35 | Cells other than TP, FP and FN are counted in none, so tp + fp + fn is at most the number of rows. |
| Metrics.StoredRunAgrees | utils/metrics.py:33-47 | A status column holding a run's statuses gives that run's precision, recall and F1 from `_calculate_final_metrics`, and every row is counted. |

## Left out

- Reading and writing CSV files (`_load_data`, `read_csv`, `fillna`, `to_csv`) is file I/O. The player table is given as `Option<seq<Row>>`, with `None` for a failed load. The results file is given as `Missing`, `Unreadable` or `Loaded` columns of strings.
- The LLM backends (`models/xai_handler.py`, `models/gemini_handler.py`) are network calls. They are function parameters of type `Backend`. The backend receives the record itself, not its `str()` text.
- `time.time()` latencies are passed in as one sequence of durations per backend.
- `random.choice` is modelled by a `pick` parameter; `EveryReplyPossible` shows that no reply is excluded.
- The `print` progress message and all of the Streamlit UI and session flow in `app/main.py` apart from `handle_social_intents` are not modelled.
- DataLoader.GetPlayerInfo: pandas' `str.contains` treats the query as a regular expression. The model treats it as a literal substring, so queries with regex metacharacters may behave differently in the source. A query that is not a valid expression, such as one with an unbalanced `(` or a leading `*`, makes the source raise `re.error`. On the fallback path of `run_evaluation` (utils/evaluation.py:41) that aborts the whole run, while the model returns `None` or a record.
- Text.Lower: Python's `lower()` is modelled for ASCII, Latin-1 and Latin Extended-A, which hold every Turkish letter. Other code points are left unchanged.
- Evaluation.Summarize: the `round(x, 2)` applied for display is not modelled. Ratios are exact reals rather than floats.
- Metrics.ModelRow: the `round(x, 2)` applied for display is not modelled. Ratios are exact reals.
- Evaluation.TestQuestion: the test file is read with `fillna("")` (utils/evaluation.py:11), so a blank cell arrives as "". The model takes the cells as the strings given. A blank expected team or position fails the non-empty guards of Ask_Team, Ask_Position and the fallback rule. Ask_Info has no such guard, so a blank expected value counts as present (`AskInfoBlankExpectationsAlwaysTP`). A blank intent cell is "", which takes the fallback rule; `None` stands for a file without an intent column.
- Metrics.GetMetrics: only the outcome of a failed read is modelled, as an error text; which inputs make pandas raise is not.
- The table is read-only, and the backends are deterministic functions. Repeated calls to a real LLM may give different answers.
