# rag-sql-assistant: a verified model of the query pipeline's decisions

The assistant turns a natural-language question into SQL with an LLM. It runs
the SQL on PostgreSQL and shows the result as text or as a Plotly chart. Around
the LLM, the database and Plotly sit three pieces of deterministic logic. This
project models those three pieces in Dafny and proves what they promise.

- **SQL extraction** (`QueryGenerator.dfy`). `QueryGenerator.generate_sql_query`
  reads the model's free-text reply and returns one of four things:
  - the SQL between the `SQL_QUERY_START`/`SQL_QUERY_END` sentinels, kept from
    the first SELECT line on;
  - the refusal `"Unable to generate query: <reason>"` taken from between
    `ERROR_START`/`ERROR_END`;
  - SQL scraped line by line from the whole reply;
  - the fixed message `"Unable to generate a valid SQL query from the response"`.

  The line-scanning loops are methods proved against specification functions.
  The whole decision is the method `GenerateSqlQuery`, proved equal to
  `Render(Classify(response))`. The schema text that `get_table_info` builds
  for the prompt is the method `FormatSchema`. It is proved equal to a
  line-by-line description of the text.
- **Axis heuristic and chart guards** (`ChartGenerator.dfy`).
  `_get_axis_labels` is modelled as the method `GetAxisLabels`. Its two
  first-match loops become the method `FindColumn`. It is proved equal to the
  function `ChooseAxes`, whose first-match, fallback and membership
  properties are lemmas. `generate_chart` is the function `GenerateChart`,
  which covers the guard chain, the chart-type dispatch, the titles and the
  axis titles.
- **Result-shape policy** (`App.dfy`). `DataAnalysisApp.process_query` is the
  function `ProcessQuery`. The database is a function parameter
  `execute: string -> DbOutcome`. "The database is not consulted" is therefore
  stated as "the reply is the same for every `execute`". `Answer` composes the
  generator, the handler's `.strip()` and `process_query`. The lemmas at the
  end of `App.dfy` tie the generator's outputs to the refusal test in
  `process_query`.

`Text.dfy` models the Python `str` operations these rely on: `strip` with
Python's full whitespace set, `upper`/`lower`/`title` on ASCII letters,
`replace`, `startswith`, `in`, `split(sep)` and `sep.join`. `Wrappers.dfy`
holds `Option`.

Behaviours of the code that the model keeps:

- The refusal test in `process_query` is a plain `startswith`. The
  generator's own failure message does not carry the refusal prefix. That
  message is therefore executed as SQL (`App.FailureMessageExecuted`).
- `response.split(START)[1]` takes the text up to the *second* `START` marker
  when there is one. So the block ends at the first `START` or `END` after the
  first `START` (`Text.BetweenMarkers`).
- Blank lines inside the sentinel block are dropped.
- The SELECT test is case-insensitive. In the model, whose case mapping is
  ASCII-only, extracted SQL therefore starts with `s` or `S`.
- A sentinel block without a SELECT line skips the ERROR branch.
- The final axis fallbacks apply only when a label is unset or empty.

## Model

| member | source | states |
|---|---|---|
| Text.Strip | src/llm/llm_handler.py:18 | the result of `strip()` has no whitespace at either end and is no longer than its input |
| Text.StripFixed | src/llm/query_generator.py:153 | `strip()` returns its input unchanged exactly when neither end is whitespace |
| Text.StripBothEnds | src/llm/llm_handler.py:18 | `strip()` equals `rstrip()` after `lstrip()` |
| Text.StripEmpty | main.py:32 | `strip()` gives the empty string exactly for all-whitespace input |
| Text.StripKeepsPrefix | main.py:29 | a prefix with non-blank ends survives `strip()` |
| Text.UpperAt | src/llm/query_generator.py:159 | `upper()` maps each character on its own |
| Text.TitleOnlyRecases | src/visualization/chart_generator.py:98-99 | `title()` keeps length and non-letters, changes only case, upper-cases word-initial letters and lower-cases letters that follow a letter |
| Text.Find | src/llm/query_generator.py:151 | the result is the first position where the pattern occurs, or none when it occurs nowhere |
| Text.ContainsChar | src/llm/query_generator.py:158 | for a one-character pattern, `p in s` is membership |
| Text.Split | src/llm/query_generator.py:153 | `split` yields at least one piece, more than one exactly when the separator occurs, and no piece contains the separator |
| Text.JoinSplit | src/llm/query_generator.py:158 | joining the pieces of a split with the same separator restores the string |
| Text.SplitJoin | src/llm/query_generator.py:165 | splitting a join of separator-free pieces on a one-character separator restores the pieces |
| Text.JoinStripped | src/llm/query_generator.py:165 | joining non-empty stripped lines gives a stripped text that starts with the first line's first character |
| Text.BetweenMarkers | src/llm/query_generator.py:153 | `s.split(open)[1].split(close)[0]` is a prefix of the text after the first `open` with neither marker inside, ending at the end or where a marker begins; no `open` begins before the cut, and a `close` that begins before it runs into the next `open` (this cannot happen for the program's sentinels, since no end of an END marker begins a START marker, so there the cut is at the first marker) |
| QueryGenerator.FirstSelectFrom | src/llm/query_generator.py:158-160 | the first line at or after `from` whose stripped, upper-cased form starts with SELECT, with no such line before it |
| QueryGenerator.CaptureSentinelLines | src/llm/query_generator.py:156-163 | the capture loop returns exactly the non-blank lines from the first SELECT line on, stripped |
| QueryGenerator.CaptureFallbackLines | src/llm/query_generator.py:173-181 | the fallback loop returns exactly the stripped lines from the first SELECT line on that hold a clause keyword |
| QueryGenerator.NonBlankSound | src/llm/query_generator.py:161-162 | every captured line is non-empty and stripped |
| QueryGenerator.NonBlankComplete | src/llm/query_generator.py:161-162 | every non-blank line is captured, stripped |
| QueryGenerator.KeywordLinesSound | src/llm/query_generator.py:179-181 | every line the fallback keeps holds a clause keyword and is stripped |
| QueryGenerator.KeywordLinesComplete | src/llm/query_generator.py:179-181 | every keyword-bearing line is kept |
| QueryGenerator.SentinelCaptureShape | src/llm/query_generator.py:156-164 | the capture is non-empty iff a SELECT line exists; it starts with that line stripped, holds only non-empty stripped lines, is a subsequence of the stripped lines, and misses no non-blank line after the first SELECT line |
| QueryGenerator.FallbackCaptureShape | src/llm/query_generator.py:173-182 | the same shape for the fallback, with "holds a clause keyword" in place of "non-blank" |
| QueryGenerator.Classify | src/llm/query_generator.py:150-185 | the ERROR outcome is chosen iff the SQL sentinels are not both present and the ERROR sentinels are; a sentinel query needs both SQL sentinels and a fallback query needs SELECT and FROM, and neither is empty (with the *Path lemmas below) |
| QueryGenerator.Render | src/llm/query_generator.py:165-185 | a refusal is the refusal prefix followed by the reason, and no query is the fixed message (RenderedQueryLines covers the query outcomes) |
| QueryGenerator.GenerateSqlQuery | src/llm/query_generator.py:150-185 | the extraction method returns the rendering of the three-path decision `Classify` |
| QueryGenerator.SentinelPath | src/llm/query_generator.py:151-165 | with both SQL sentinels and a SELECT line in the block, the result is exactly the block's captured lines (`SentinelCapture`); the first starts with SELECT in any case; none is empty or padded; they occur in order |
| QueryGenerator.SelectlessBlockSkipsErrorBranch | src/llm/query_generator.py:164-172 | a sentinel block without a SELECT line goes to the fallback and never to the ERROR branch |
| QueryGenerator.RefusalPath | src/llm/query_generator.py:167-169 | the refusal is returned iff the SQL sentinels are not both present and the ERROR sentinels are; its reason is the stripped text after the first ERROR_START, cut at the next marker |
| QueryGenerator.FallbackPath | src/llm/query_generator.py:172-183 | fallback SQL needs case-sensitive SELECT and FROM in the reply; its lines hold clause keywords, start with a SELECT line and follow the reply's order |
| QueryGenerator.NoQueryPath | src/llm/query_generator.py:185 | the fixed message is returned iff no path yields anything |
| QueryGenerator.SelectedLinesRoundTrip | src/llm/query_generator.py:165 | selected stripped lines joined by newlines split back into the same lines |
| QueryGenerator.RenderedQueryLines | src/llm/query_generator.py:183 | the returned SQL text splits back into exactly the extracted lines |
| QueryGenerator.FormatSchema | src/llm/query_generator.py:77-84 | the nested formatting loops build the header followed by one section per table |
| QueryGenerator.SchemaTextTerminated | src/llm/query_generator.py:78-82 | the schema text is its lines, each followed by a newline |
| QueryGenerator.SchemaTextLines | src/llm/query_generator.py:78-82 | read line by line, the schema text is "Database Schema:", then per table in order "", "Table: name", "Columns:" and one "  - col" per column in order |
| ChartGenerator.AddKeys | src/visualization/chart_generator.py:58 | adding a row's keys keeps the existing columns first, adds no duplicate, and leaves exactly the old columns plus the row's keys |
| ChartGenerator.AddKeysInRowOrder | src/visualization/chart_generator.py:58 | the appended keys come in the order of their first appearance in the row, so with AddKeys the result is fixed exactly |
| ChartGenerator.FrameColumns | src/visualization/chart_generator.py:58 | the frame's columns have no duplicates (order and contents: AddKeysInRowOrder, FrameColumnsAreKeys, UniformFrameColumns) |
| ChartGenerator.AddDistinctKeys | src/visualization/chart_generator.py:58 | distinct new keys are appended exactly as the row lists them |
| ChartGenerator.AddKnownKeys | src/visualization/chart_generator.py:58 | a row whose keys are all columns already adds none |
| ChartGenerator.UniformFrameColumns | src/visualization/chart_generator.py:58 | rows that all list the same distinct keys, as one query's result rows do, give exactly those columns in that order |
| ChartGenerator.FrameColumnsAreKeys | src/visualization/chart_generator.py:58 | a name is a column iff some row has it as a key |
| ChartGenerator.FrameEmpty | src/visualization/chart_generator.py:61-62 | the frame is empty iff every row is empty |
| ChartGenerator.FirstMatchFrom | src/visualization/chart_generator.py:24-28 | the first column from `from` on whose lower-cased name contains a pattern, with none before it; none when no column matches |
| ChartGenerator.FindColumn | src/visualization/chart_generator.py:24-35 | one first-match loop returns the first matching column, or leaves the label unset |
| ChartGenerator.GetAxisLabels | src/visualization/chart_generator.py:11-50 | the method returns exactly the labels `ChooseAxes` describes |
| ChartGenerator.MatchedNotEmpty | src/visualization/chart_generator.py:38 | a name that matches a keyword is not empty, so a matched label is never falsy |
| ChartGenerator.AxesAreColumns | src/visualization/chart_generator.py:45-50 | both labels are columns of the frame |
| ChartGenerator.MeasureIsY | src/visualization/chart_generator.py:16-28 | when a column names a measure, the first such column is y |
| ChartGenerator.DimensionIsX | src/visualization/chart_generator.py:31-42 | unless the numeric fallback applies, the first column naming a dimension is x |
| ChartGenerator.NumericFallback | src/visualization/chart_generator.py:38-42 | no measure, two or more columns and a numeric last column give y = last and x = first, overriding any dimension match |
| ChartGenerator.LastResortLabels | src/visualization/chart_generator.py:44-48 | without a measure y is the last column; without a dimension x is the first, whatever y is |
| ChartGenerator.SameColumnOnBothAxes | src/visualization/chart_generator.py:45-50 | a leading column matching both keyword lists is chosen for both axes, since x = y is not excluded |
| ChartGenerator.BothListsMatch | src/visualization/chart_generator.py:16-18 | the column name "total_id" matches both keyword lists |
| ChartGenerator.KindOf | src/visualization/chart_generator.py:72-93 | a recognised chart type is the name of its kind |
| ChartGenerator.KindRoundTrip | src/visualization/chart_generator.py:72-93 | every kind is recognised by its own name |
| ChartGenerator.AxisTitle | src/visualization/chart_generator.py:98-99 | an axis title has the name's length, no underscore, a space for each underscore and the name's letters up to case |
| ChartGenerator.GenerateChart | src/visualization/chart_generator.py:52-103 | a chart is drawn iff the frame has two or more columns and the type is bar, line or scatter, on the given rows and of that type (each message case: ChartGuards; the figure: ChartFigure) |
| ChartGenerator.MessagesDistinct | src/visualization/chart_generator.py:56-94 | the no-data, insufficient-columns and unsupported-type messages are pairwise different |
| ChartGenerator.ChartGuards | src/visualization/chart_generator.py:55-94 | no-data iff the frame has no column; insufficient iff exactly one column; unsupported iff two or more columns and an unknown type; a chart iff two or more columns and type bar, line or scatter |
| ChartGenerator.ChartFigure | src/visualization/chart_generator.py:70-101 | a chart uses the heuristic's two frame columns; its title is "y by x", "y over x" or "y vs x" by type; its axis titles have no underscore; it uses the white template |
| App.HandlerQuery | src/llm/llm_handler.py:14-18 | the handler returns the generator's string with no whitespace at either end |
| App.ShapeResults | main.py:41-64 | exactly one of plot and message is set, and a plot is set iff there are two or more rows and the generator drew a chart |
| App.Respond | main.py:36-64 | a database error gives "Database error: " and its text; exactly one of plot and message is set |
| App.ProcessQuery | main.py:23-67 | exactly one of plot and message is set; a plot needs a non-refusal, non-blank query |
| App.Answer | main.py:23-67 | exactly one of plot and message is set, and a plot needs the handler's query to have returned two or more rows from which the generator drew a chart (refusals: RefusalAnswered; the failure message: FailureMessageExecuted) |
| App.RefusalShortCircuit | main.py:29-30 | a query starting "Unable to generate query" is the message, with no plot, whatever the database |
| App.BlankQuery | main.py:32-33 | an empty or all-whitespace query gives "Error: Could not generate SQL query" whatever the database |
| App.QueryExecuted | main.py:35-39 | any other query is executed as given, and the reply depends only on its outcome |
| App.ResultShapes | main.py:41-64 | no rows give "No data found for the query"; one one-column row gives "key: value"; one row gives its "k: v" entries joined by ", "; two or more rows pass on the chart or its message |
| App.ScalarIsRowText | main.py:45-54 | for a one-column row the scalar display and the row display agree |
| App.RowTextEntries | main.py:53 | the row display is the first entry, ", ", then the display of the rest |
| App.KeywordLineNotEmpty | src/llm/query_generator.py:179-181 | a line holding a clause keyword is not empty |
| App.JoinedQueryShape | src/llm/query_generator.py:165 | joined query lines form a stripped, non-empty text starting with s or S |
| App.ExtractedQueryShape | src/llm/query_generator.py:164-183 | under the ASCII case mapping, extracted SQL is non-empty, has no surrounding whitespace and starts with s or S |
| App.ExtractedQueryExecuted | main.py:26-37 | extracted SQL passes the handler's strip unchanged and is the text the database executes |
| App.NoQueryMessageStripped | src/llm/query_generator.py:185 | the failure message survives `strip()` unchanged |
| App.RefusalIffShortCircuit | main.py:29 | the handler's query starts with "Unable to generate query" iff the generator took the ERROR branch |
| App.RefusalAnswered | main.py:26-30 | a refusal reaches the user as the stripped message, with no plot and no query run |
| App.FailureMessageExecuted | main.py:29-37 | the generator's failure message is not caught by the refusal test and is sent to the database as SQL |

## Left out

- The LLM call, prompt template, embeddings and vector store (src/llm/query_generator.py:95-148). They are network and library calls, so the model's reply is an input string.
- The catalog query, connection, cursor and cleanup of `get_table_info` (src/llm/query_generator.py:31-75, 86-93). They are database I/O, so the fetched (table, columns) rows are an input.
- The `except` branch of `generate_sql_query` (src/llm/query_generator.py:187-189). It is reachable only through a library failure. Its message "Error generating SQL query: ..." also lacks the refusal prefix; that is not proved here.
- The `except` branches of `generate_chart` (src/visualization/chart_generator.py:105-111) and the outer ones of `process_query` (main.py:63-67). They are reachable only through pandas or Plotly failures.
- A database failure is modelled as the `DbError` outcome carrying the error text. The connection and cursor of src/database/db_manager.py are I/O.
- pandas' `is_numeric_dtype` on the last column (src/visualization/chart_generator.py:40) is the input `lastIsNumeric`. It stands for pandas' verdict on the fetched values.
- DataFrame construction is modelled only as far as the generator uses it: the columns, as keys in first-appearance order. Cell values are carried as the text `str()` gives them.
- Rows are lists of (key, value) pairs. The model does not require their keys to be distinct, although a Python dict's are.
- Plotly figures are modelled as the record of arguments passed to `px.bar`/`px.line`/`px.scatter` and `update_layout`. Rendering is out of scope.
- Text.Upper, Text.Lower, Text.Title: case mapping covers ASCII letters only. Python also maps some non-ASCII letters to ASCII ones (`'ſ'.upper()` is `'S'`, `'ı'.upper()` is `'I'`). Such letters change the outcome of the SELECT test (src/llm/query_generator.py:159, 177), the keyword test (:179) and the axis keyword match: Python accepts the line "ſelect a from t" and returns it starting with `ſ`, while the model skips it. The statements about extracted SQL starting with `s` or `S` hold for the ASCII model only.
- ChartGenerator.GetAxisLabels: requires a non-empty column list. On an empty frame Python raises IndexError at `columns[-1]`. `generate_chart` never calls it with fewer than two columns.
- The Gradio interface (`launch_interface` at main.py:69-102, interface/gradio_app.py), logging, configuration (config/config.py), the logger setup (src/utils/logger.py) and the matplotlib plotter (visualization/chart_generator.py). They hold no decision logic.
- The question text and `LLMHandler` itself. The handler contributes only the `.strip()` of src/llm/llm_handler.py:18, which `App.HandlerQuery` applies.
