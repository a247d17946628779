/**
 * The result-shape policy of `DataAnalysisApp.process_query`: the query the
 * LLM handler returns is refused, rejected as blank, or executed, and the
 * database outcome is turned into a (plot, message) pair. The database is a
 * function from the query text to its outcome, so "not executed" reads as
 * "does not depend on that function".
 */
module App {
  import opened Wrappers
  import opened Text
  import opened QueryGenerator
  import opened ChartGenerator

  /** The prefix `process_query` treats as a refusal from the generator. */
  const RefusalMarker := "Unable to generate query"
  const BlankQueryMessage := "Error: Could not generate SQL query"
  const DatabaseErrorPrefix := "Database error: "
  const NoResultsMessage := "No data found for the query"

  /** What executing the query gives: the fetched rows, or the text of the raised error. */
  datatype DbOutcome = Rows(rows: seq<Row>) | DbError(reason: string)

  /** The pair `process_query` returns to the interface. */
  datatype Reply = Reply(plot: Option<Figure>, message: Option<string>)

  /** `LLMHandler.generate_sql_query`: the generator's string, stripped. */
  function HandlerQuery(response: string): (r: string)
    ensures Stripped(r)
  {
    Strip(Render(Classify(response)))
  }

  /** One "key: value" entry of a displayed row. */
  function FieldText(field: (string, string)): string
  {
    field.0 + ": " + field.1
  }

  /** A displayed row: its "key: value" entries in key order, joined by ", ". */
  function RowText(row: Row): string
  {
    Join(seq(|row|, i requires 0 <= i < |row| => FieldText(row[i])), ", ")
  }

  /** The branches of `process_query` after the rows have been fetched. */
  function ShapeResults(results: seq<Row>, chartType: string, lastIsNumeric: bool): (r: Reply)
    ensures r.plot.Some? != r.message.Some?
    ensures r.plot.Some? <==> |results| >= 2 && GenerateChart(results, chartType, lastIsNumeric).Chart?
  {
    if results == [] then Reply(None, Some(NoResultsMessage))
    else if |results| == 1 && |results[0]| == 1 then Reply(None, Some(FieldText(results[0][0])))
    else if |results| == 1 then Reply(None, Some(RowText(results[0])))
    else
      match GenerateChart(results, chartType, lastIsNumeric)
      case Message(text) => Reply(None, Some(text))
      case Chart(figure) => Reply(Some(figure), None)
  }

  /** The reply for the outcome of executing the query. */
  function Respond(outcome: DbOutcome, chartType: string, lastIsNumeric: bool): (r: Reply)
    ensures r.plot.Some? != r.message.Some?
    ensures outcome.DbError? ==> r == Reply(None, Some(DatabaseErrorPrefix + outcome.reason))
  {
    match outcome
    case DbError(reason) => Reply(None, Some(DatabaseErrorPrefix + reason))
    case Rows(results) => ShapeResults(results, chartType, lastIsNumeric)
  }

  /**
   * `process_query` given the handler's query. `execute` stands for the
   * database and `lastIsNumeric` for pandas' verdict on the result's last
   * column. Exactly one of plot and message is present.
   */
  function ProcessQuery(sqlQuery: string, execute: string -> DbOutcome, chartType: string, lastIsNumeric: bool): (r: Reply)
    ensures r.plot.Some? != r.message.Some?
    ensures r.plot.Some? ==> !StartsWith(sqlQuery, RefusalMarker) && !AllSpace(sqlQuery)
  {
    if StartsWith(sqlQuery, RefusalMarker) then Reply(None, Some(sqlQuery))
    else if AllSpace(sqlQuery) then Reply(None, Some(BlankQueryMessage))
    else Respond(execute(sqlQuery), chartType, lastIsNumeric)
  }

  /** The whole pipeline after the model has replied with `response`. */
  function Answer(response: string, execute: string -> DbOutcome, chartType: string, lastIsNumeric: bool): (r: Reply)
    ensures r.plot.Some? != r.message.Some?
    ensures r.plot.Some? ==>
              var outcome := execute(HandlerQuery(response));
              outcome.Rows? && |outcome.rows| >= 2 && GenerateChart(outcome.rows, chartType, lastIsNumeric).Chart?
  {
    ProcessQuery(HandlerQuery(response), execute, chartType, lastIsNumeric)
  }

  // ---------------------------------------------------------------------------
  // process_query, branch by branch
  // ---------------------------------------------------------------------------

  /**
   * A refusal is passed on as the message, with no plot, and the database is
   * not consulted: any other database gives the same reply.
   */
  lemma RefusalShortCircuit(sqlQuery: string, execute: string -> DbOutcome, other: string -> DbOutcome,
                            chartType: string, lastIsNumeric: bool)
    requires StartsWith(sqlQuery, RefusalMarker)
    ensures ProcessQuery(sqlQuery, execute, chartType, lastIsNumeric) == Reply(None, Some(sqlQuery))
    ensures ProcessQuery(sqlQuery, execute, chartType, lastIsNumeric) == ProcessQuery(sqlQuery, other, chartType, lastIsNumeric)
  {
  }

  /** An empty or all-whitespace query gives the fixed error message, again without the database. */
  lemma BlankQuery(sqlQuery: string, execute: string -> DbOutcome, other: string -> DbOutcome,
                   chartType: string, lastIsNumeric: bool)
    requires !StartsWith(sqlQuery, RefusalMarker) && AllSpace(sqlQuery)
    ensures ProcessQuery(sqlQuery, execute, chartType, lastIsNumeric) == Reply(None, Some(BlankQueryMessage))
    ensures ProcessQuery(sqlQuery, execute, chartType, lastIsNumeric) == ProcessQuery(sqlQuery, other, chartType, lastIsNumeric)
  {
  }

  /** Any other query is executed as it is, and the reply depends on the database only through that one outcome. */
  lemma QueryExecuted(sqlQuery: string, execute: string -> DbOutcome, chartType: string, lastIsNumeric: bool)
    requires !StartsWith(sqlQuery, RefusalMarker) && !AllSpace(sqlQuery)
    ensures ProcessQuery(sqlQuery, execute, chartType, lastIsNumeric) == Respond(execute(sqlQuery), chartType, lastIsNumeric)
  {
  }

  /**
   * The fetched rows decide the shape: no rows give the fixed message, a
   * single one-column row gives "key: value", any other single row gives its
   * entries joined by ", ", and two or more rows go to the chart generator,
   * whose message or figure is passed on.
   */
  lemma ResultShapes(results: seq<Row>, chartType: string, lastIsNumeric: bool)
    ensures results == [] ==> ShapeResults(results, chartType, lastIsNumeric) == Reply(None, Some(NoResultsMessage))
    ensures |results| == 1 && |results[0]| == 1 ==>
              ShapeResults(results, chartType, lastIsNumeric) == Reply(None, Some(results[0][0].0 + ": " + results[0][0].1))
    ensures |results| == 1 ==> ShapeResults(results, chartType, lastIsNumeric) == Reply(None, Some(RowText(results[0])))
    ensures |results| >= 2 ==>
              var chart := GenerateChart(results, chartType, lastIsNumeric);
              ShapeResults(results, chartType, lastIsNumeric) ==
                if chart.Chart? then Reply(Some(chart.figure), None) else Reply(None, Some(chart.text))
  {
    if |results| == 1 && |results[0]| == 1 {
      ScalarIsRowText(results[0]);
    }
  }

  /** The single-value display agrees with the general row display on a one-column row. */
  lemma ScalarIsRowText(row: Row)
    requires |row| == 1
    ensures RowText(row) == FieldText(row[0])
  {
  }

  /**
   * The row display lists every entry in key order: it starts with the first
   * entry, and for two or more entries it is the first entry, ", ", and the
   * display of the remaining ones.
   */
  lemma RowTextEntries(row: Row)
    requires |row| >= 2
    ensures RowText(row) == FieldText(row[0]) + ", " + RowText(row[1..])
  {
    var entries := seq(|row|, i requires 0 <= i < |row| => FieldText(row[i]));
    assert entries[1..] == seq(|row[1..]|, i requires 0 <= i < |row[1..]| => FieldText(row[1..][i]));
  }

  // ---------------------------------------------------------------------------
  // The generator and process_query together
  // ---------------------------------------------------------------------------

  /** A line the fallback keeps holds a clause keyword, so it is not empty. */
  lemma KeywordLineNotEmpty(line: string)
    requires HasClauseKeyword(line)
    ensures line != []
  {
    var k :| 0 <= k < |ClauseKeywords| && Contains(Upper(line), ClauseKeywords[k]);
    assert OccursAt(Upper(line), ClauseKeywords[k], Find(Upper(line), ClauseKeywords[k]).value);
  }

  /**
   * Extracted SQL has no surrounding whitespace and starts with the S of
   * SELECT in either case.
   */
  lemma ExtractedQueryShape(response: string)
    requires Classify(response).SentinelQuery? || Classify(response).FallbackQuery?
    ensures var query := Render(Classify(response));
            && query != [] && Stripped(query)
            && (query[0] == 's' || query[0] == 'S')
  {
    var e := Classify(response);
    if e.SentinelQuery? {
      SentinelPath(response);
      JoinedQueryShape(e.lines);
    } else {
      FallbackPath(response);
      var lines := e.lines;
      forall k | 0 <= k < |lines|
        ensures lines[k] != []
      {
        KeywordLineNotEmpty(lines[k]);
      }
      JoinedQueryShape(lines);
    }
  }

  /** Joined query lines keep the ends of their first and last lines. */
  lemma JoinedQueryShape(lines: seq<string>)
    requires lines != [] && StartsWith(Upper(lines[0]), "SELECT")
    requires forall k :: 0 <= k < |lines| ==> lines[k] != [] && Stripped(lines[k])
    ensures var query := Join(lines, Newline);
            && query != [] && Stripped(query)
            && (query[0] == 's' || query[0] == 'S')
  {
    JoinStripped(lines, Newline);
    UpperAt(lines[0], 0);
    assert Upper(lines[0])[0] == 'S';
  }

  /**
   * The handler's query is an extracted SQL text exactly as extracted, and
   * that text is what the database executes.
   */
  lemma ExtractedQueryExecuted(response: string, execute: string -> DbOutcome, chartType: string, lastIsNumeric: bool)
    requires Classify(response).SentinelQuery? || Classify(response).FallbackQuery?
    ensures HandlerQuery(response) == Render(Classify(response))
    ensures Answer(response, execute, chartType, lastIsNumeric) ==
              Respond(execute(Render(Classify(response))), chartType, lastIsNumeric)
  {
    var query := Render(Classify(response));
    ExtractedQueryShape(response);
    StripFixed(query);
    assert !StartsWith(query, RefusalMarker) by {
      assert query[0] != RefusalMarker[0];
    }
    assert !IsSpace(query[0]);
  }

  /** The fixed failure message opens with "Unable to generate a val". */
  lemma NoQueryMessageOpening()
    ensures NoQueryMessage[..24] == "Unable to generate a val"
  {
  }

  /** The fixed failure message has no surrounding whitespace, so stripping keeps it. */
  lemma NoQueryMessageStripped()
    ensures Strip(NoQueryMessage) == NoQueryMessage
  {
    NoQueryMessageOpening();
    StripKeepsStripped(NoQueryMessage, NoQueryMessage[..24][0]);
  }

  /** A string with no surrounding whitespace is its own `strip()`. */
  lemma StripKeepsStripped(s: string, head: char)
    requires s != [] && s[0] == head && !IsSpace(head) && !IsSpace(s[|s| - 1])
    ensures Strip(s) == s
  {
    StripFixed(s);
  }

  /**
   * The generator's refusal, and only it, triggers the short circuit of
   * `process_query`: the prefix "Unable to generate query: " survives
   * stripping, extracted SQL starts with an S, and the fixed failure message
   * reads "Unable to generate a valid ...", which lacks the prefix.
   */
  lemma RefusalIffShortCircuit(response: string)
    ensures StartsWith(HandlerQuery(response), RefusalMarker) <==> Classify(response).Refusal?
  {
    var e := Classify(response);
    match e
    case Refusal(reason) =>
      assert StartsWith(Render(e), RefusalMarker) by {
        assert Render(e)[..|RefusalMarker|] == RefusalPrefix[..|RefusalMarker|];
      }
      StripKeepsPrefix(Render(e), RefusalMarker);
    case NoQuery =>
      NoQueryMessageOpening();
      NoQueryMessageStripped();
      assert HandlerQuery(response)[..24] == "Unable to generate a val";
    case _ =>
      ExtractedQueryExecuted(response, _ => Rows([]), "bar", false);
      ExtractedQueryShape(response);
      assert HandlerQuery(response)[0] != RefusalMarker[0];
  }

  /**
   * A refusal from the generator reaches the user as the message, stripped,
   * with no plot and no query run.
   */
  lemma RefusalAnswered(response: string, execute: string -> DbOutcome, chartType: string, lastIsNumeric: bool)
    requires Classify(response).Refusal?
    ensures Answer(response, execute, chartType, lastIsNumeric) ==
              Reply(None, Some(Strip(RefusalPrefix + Classify(response).reason)))
  {
    RefusalIffShortCircuit(response);
  }

  /**
   * The generator's fixed failure message is not caught by the refusal test:
   * `process_query` sends it to the database as if it were SQL.
   */
  lemma FailureMessageExecuted(response: string, execute: string -> DbOutcome, chartType: string, lastIsNumeric: bool)
    requires Classify(response).NoQuery?
    ensures Answer(response, execute, chartType, lastIsNumeric) ==
              Respond(execute(NoQueryMessage), chartType, lastIsNumeric)
  {
    RefusalIffShortCircuit(response);
    NoQueryMessageOpening();
    NoQueryMessageStripped();
    assert NoQueryMessage[0] == NoQueryMessage[..24][0];
  }
}
