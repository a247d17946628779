/**
 * `QueryGenerator` (src/llm/query_generator.py): how a language-model reply is
 * turned into SQL text, a refusal message or a fixed failure message, and how
 * the catalog rows are rendered as the schema text put into the prompt.
 * The model call, the prompt and the catalog query are inputs here.
 */
module QueryGenerator {
  import opened Text

  const SqlStart := "SQL_QUERY_START"
  const SqlEnd := "SQL_QUERY_END"
  const ErrorStart := "ERROR_START"
  const ErrorEnd := "ERROR_END"
  const Newline := "\n"

  /** Put in front of the model's own explanation when it declines. */
  const RefusalPrefix := "Unable to generate query: "
  /** Returned when no extraction path yields a line. */
  const NoQueryMessage := "Unable to generate a valid SQL query from the response"
  /** The clause keywords the direct-extraction fallback keeps lines for. */
  const ClauseKeywords := ["SELECT", "FROM", "WHERE", "GROUP BY", "ORDER BY", "HAVING"]

  // ---------------------------------------------------------------------------
  // Line selection
  // ---------------------------------------------------------------------------

  /** A line that, stripped and upper-cased, starts with SELECT: where capture begins. */
  predicate IsSelectLine(line: string)
  {
    StartsWith(Upper(Strip(line)), "SELECT")
  }

  /** An upper-cased line holds one of the SQL clause keywords. */
  predicate HasClauseKeyword(line: string)
  {
    ContainsAny(Upper(line), ClauseKeywords)
  }

  /** Index of the first SELECT line at or after `from`, or `|lines|` when there is none. */
  function FirstSelectFrom(lines: seq<string>, from: nat): (k: nat)
    requires from <= |lines|
    ensures from <= k <= |lines|
    ensures k < |lines| ==> IsSelectLine(lines[k])
    ensures forall j :: from <= j < k ==> !IsSelectLine(lines[j])
    decreases |lines| - from
  {
    if from == |lines| then from
    else if IsSelectLine(lines[from]) then from
    else FirstSelectFrom(lines, from + 1)
  }

  /** Index of the first SELECT line, or `|lines|` when there is none. */
  function FirstSelect(lines: seq<string>): (k: nat)
    ensures k <= |lines|
    ensures k < |lines| ==> IsSelectLine(lines[k])
    ensures forall j :: 0 <= j < k ==> !IsSelectLine(lines[j])
  {
    FirstSelectFrom(lines, 0)
  }

  /** Each line stripped. */
  function StripAll(lines: seq<string>): seq<string>
  {
    seq(|lines|, i requires 0 <= i < |lines| => Strip(lines[i]))
  }

  /** The stripped lines that are not empty, in order. */
  function NonBlank(lines: seq<string>): seq<string>
  {
    if lines == [] then []
    else
      var last := Strip(lines[|lines| - 1]);
      NonBlank(lines[..|lines| - 1]) + (if last != [] then [last] else [])
  }

  /** The stripped lines that hold a clause keyword, in order. */
  function KeywordLines(lines: seq<string>): seq<string>
  {
    if lines == [] then []
    else
      var last := Strip(lines[|lines| - 1]);
      KeywordLines(lines[..|lines| - 1]) + (if HasClauseKeyword(last) then [last] else [])
  }

  /** What the sentinel path keeps of the block's lines: every non-blank line from the first SELECT line on. */
  function SentinelCapture(lines: seq<string>): seq<string>
  {
    NonBlank(lines[FirstSelect(lines)..])
  }

  /** What the fallback keeps of the reply's lines: every keyword line from the first SELECT line on. */
  function FallbackCapture(lines: seq<string>): seq<string>
  {
    KeywordLines(lines[FirstSelect(lines)..])
  }

  /** Growing the window by one line adds that line's contribution at the back. */
  lemma NonBlankStep(lines: seq<string>, k: nat, i: nat)
    requires k <= i < |lines|
    ensures NonBlank(lines[k..i + 1])
         == NonBlank(lines[k..i]) + (if Strip(lines[i]) != [] then [Strip(lines[i])] else [])
  {
    assert lines[k..i + 1][..i - k] == lines[k..i];
  }

  /** Growing the window by one line adds that line's contribution at the back. */
  lemma KeywordLinesStep(lines: seq<string>, k: nat, i: nat)
    requires k <= i < |lines|
    ensures KeywordLines(lines[k..i + 1])
         == KeywordLines(lines[k..i]) + (if HasClauseKeyword(Strip(lines[i])) then [Strip(lines[i])] else [])
  {
    assert lines[k..i + 1][..i - k] == lines[k..i];
  }

  /**
   * The state of the sentinel capture loop after `i` lines: the flag is
   * raised exactly once the first SELECT line has been passed, and the kept
   * lines are the non-blank lines of the window from that line on.
   */
  function SentinelLoopState(lines: seq<string>, i: nat): (bool, seq<string>)
    requires i <= |lines|
  {
    var k := FirstSelect(lines);
    if k < i then (true, NonBlank(lines[k..i])) else (false, [])
  }

  /** One turn of the sentinel capture loop: what the loop body does to the flag and the kept lines. */
  function SentinelTurn(state: (bool, seq<string>), line: string): (bool, seq<string>)
  {
    var capture := state.0 || IsSelectLine(line);
    (capture, if capture && Strip(line) != [] then state.1 + [Strip(line)] else state.1)
  }

  /** One turn of the sentinel capture loop keeps its state. */
  lemma SentinelLoopStep(lines: seq<string>, i: nat)
    requires i < |lines|
    ensures SentinelLoopState(lines, i + 1) == SentinelTurn(SentinelLoopState(lines, i), lines[i])
  {
    var k := FirstSelect(lines);
    var line := lines[i];
    var added := if Strip(line) != [] then [Strip(line)] else [];
    if k < i {
      NonBlankStep(lines, k, i);
      assert SentinelLoopState(lines, i) == (true, NonBlank(lines[k..i]));
      assert SentinelLoopState(lines, i + 1) == (true, NonBlank(lines[k..i]) + added);
      if added == [] {
        assert NonBlank(lines[k..i]) + added == NonBlank(lines[k..i]);
      }
    } else if k == i {
      NonBlankStep(lines, k, i);
      assert IsSelectLine(line);
      assert SentinelLoopState(lines, i) == (false, []);
      assert SentinelLoopState(lines, i + 1) == (true, [] + added);
      assert [] + added == added;
    } else {
      assert !IsSelectLine(line);
      assert SentinelLoopState(lines, i) == (false, []);
      assert SentinelLoopState(lines, i + 1) == (false, []);
    }
  }

  /** The state of the fallback capture loop after `i` lines, with keyword lines in place of non-blank ones. */
  function FallbackLoopState(lines: seq<string>, i: nat): (bool, seq<string>)
    requires i <= |lines|
  {
    var k := FirstSelect(lines);
    if k < i then (true, KeywordLines(lines[k..i])) else (false, [])
  }

  /** One turn of the fallback capture loop, which strips the line before both tests. */
  function FallbackTurn(state: (bool, seq<string>), line: string): (bool, seq<string>)
  {
    var stripped := Strip(line);
    var capture := state.0 || StartsWith(Upper(stripped), "SELECT");
    (capture, if capture && HasClauseKeyword(stripped) then state.1 + [stripped] else state.1)
  }

  /** One turn of the fallback capture loop keeps its state. */
  lemma FallbackLoopStep(lines: seq<string>, i: nat)
    requires i < |lines|
    ensures FallbackLoopState(lines, i + 1) == FallbackTurn(FallbackLoopState(lines, i), lines[i])
  {
    var k := FirstSelect(lines);
    var line := lines[i];
    var added := if HasClauseKeyword(Strip(line)) then [Strip(line)] else [];
    if k < i {
      KeywordLinesStep(lines, k, i);
      assert FallbackLoopState(lines, i) == (true, KeywordLines(lines[k..i]));
      assert FallbackLoopState(lines, i + 1) == (true, KeywordLines(lines[k..i]) + added);
      if added == [] {
        assert KeywordLines(lines[k..i]) + added == KeywordLines(lines[k..i]);
      }
    } else if k == i {
      KeywordLinesStep(lines, k, i);
      assert IsSelectLine(line);
      assert FallbackLoopState(lines, i) == (false, []);
      assert FallbackLoopState(lines, i + 1) == (true, [] + added);
      assert [] + added == added;
    } else {
      assert !IsSelectLine(line);
      assert FallbackLoopState(lines, i) == (false, []);
      assert FallbackLoopState(lines, i + 1) == (false, []);
    }
  }

  /** The capture loop of the sentinel path: start at a SELECT line, keep every non-blank line after it. */
  method CaptureSentinelLines(lines: seq<string>) returns (sqlLines: seq<string>)
    ensures sqlLines == SentinelCapture(lines)
  {
    sqlLines := [];
    var capture := false;
    for i := 0 to |lines|
      invariant (capture, sqlLines) == SentinelLoopState(lines, i)
    {
      SentinelLoopStep(lines, i);
      var line := lines[i];
      if IsSelectLine(line) {
        capture := true;
      }
      if capture && Strip(line) != [] {
        sqlLines := sqlLines + [Strip(line)];
      }
    }
    assert lines[FirstSelect(lines)..|lines|] == lines[FirstSelect(lines)..];
  }

  /** The capture loop of the fallback: start at a SELECT line, keep every keyword line after it. */
  method CaptureFallbackLines(lines: seq<string>) returns (sqlLines: seq<string>)
    ensures sqlLines == FallbackCapture(lines)
  {
    sqlLines := [];
    var capture := false;
    for i := 0 to |lines|
      invariant (capture, sqlLines) == FallbackLoopState(lines, i)
    {
      FallbackLoopStep(lines, i);
      var line := Strip(lines[i]);
      if StartsWith(Upper(line), "SELECT") {
        capture := true;
      }
      if capture && HasClauseKeyword(line) {
        sqlLines := sqlLines + [line];
      }
    }
    assert lines[FirstSelect(lines)..|lines|] == lines[FirstSelect(lines)..];
  }

  // ---------------------------------------------------------------------------
  // What the two capture passes keep
  // ---------------------------------------------------------------------------

  /** A SELECT line is never blank once stripped. */
  lemma SelectLineNotBlank(line: string)
    requires IsSelectLine(line)
    ensures Strip(line) != []
  {
  }

  /** A line that starts with SELECT holds a clause keyword. */
  lemma SelectHasKeyword(line: string)
    requires StartsWith(Upper(line), "SELECT")
    ensures HasClauseKeyword(line)
  {
    assert OccursAt(Upper(line), ClauseKeywords[0], 0);
  }

  /** Every line the non-blank pass yields passes its test and is stripped. */
  lemma {:induction false} NonBlankSound(lines: seq<string>)
    ensures forall k :: 0 <= k < |NonBlank(lines)| ==> NonBlank(lines)[k] != [] && Stripped(NonBlank(lines)[k])
    decreases |lines|
  {
    if lines != [] {
      NonBlankSound(lines[..|lines| - 1]);
    }
  }

  /** The non-blank pass yields some of the stripped lines, in their order. */
  lemma {:induction false} NonBlankSubseq(lines: seq<string>)
    ensures IsSubseq(NonBlank(lines), StripAll(lines))
    decreases |lines|
  {
    if lines != [] {
      var init := lines[..|lines| - 1];
      var last := Strip(lines[|lines| - 1]);
      NonBlankSubseq(init);
      assert StripAll(lines) == StripAll(init) + [last];
      if last != [] {
        SubseqAppendBoth(NonBlank(init), StripAll(init), last);
      } else {
        assert NonBlank(lines) == NonBlank(init);
        SubseqExtend(NonBlank(init), StripAll(init), last);
      }
    }
  }

  /** The non-blank pass leaves out no line that passes its test. */
  lemma {:induction false} NonBlankComplete(lines: seq<string>)
    ensures forall j :: 0 <= j < |lines| && Strip(lines[j]) != [] ==> Strip(lines[j]) in NonBlank(lines)
    decreases |lines|
  {
    if lines != [] {
      var init := lines[..|lines| - 1];
      NonBlankComplete(init);
      forall j | 0 <= j < |lines| - 1
        ensures lines[j] == init[j]
      {
      }
    }
  }

  /** When the first line passes the non-blank test, it comes first. */
  lemma {:induction false} NonBlankHead(lines: seq<string>)
    requires lines != [] && Strip(lines[0]) != []
    ensures NonBlank(lines) != [] && NonBlank(lines)[0] == Strip(lines[0])
    decreases |lines|
  {
    if |lines| > 1 {
      var init := lines[..|lines| - 1];
      assert init[0] == lines[0];
      NonBlankHead(init);
    }
  }

  /** Every line the keyword pass yields passes its test and is stripped. */
  lemma {:induction false} KeywordLinesSound(lines: seq<string>)
    ensures forall k :: 0 <= k < |KeywordLines(lines)| ==> HasClauseKeyword(KeywordLines(lines)[k]) && Stripped(KeywordLines(lines)[k])
    decreases |lines|
  {
    if lines != [] {
      KeywordLinesSound(lines[..|lines| - 1]);
    }
  }

  /** The keyword pass yields some of the stripped lines, in their order. */
  lemma {:induction false} KeywordLinesSubseq(lines: seq<string>)
    ensures IsSubseq(KeywordLines(lines), StripAll(lines))
    decreases |lines|
  {
    if lines != [] {
      var init := lines[..|lines| - 1];
      var last := Strip(lines[|lines| - 1]);
      KeywordLinesSubseq(init);
      assert StripAll(lines) == StripAll(init) + [last];
      if HasClauseKeyword(last) {
        SubseqAppendBoth(KeywordLines(init), StripAll(init), last);
      } else {
        assert KeywordLines(lines) == KeywordLines(init);
        SubseqExtend(KeywordLines(init), StripAll(init), last);
      }
    }
  }

  /** The keyword pass leaves out no line that passes its test. */
  lemma {:induction false} KeywordLinesComplete(lines: seq<string>)
    ensures forall j :: 0 <= j < |lines| && HasClauseKeyword(Strip(lines[j])) ==> Strip(lines[j]) in KeywordLines(lines)
    decreases |lines|
  {
    if lines != [] {
      var init := lines[..|lines| - 1];
      KeywordLinesComplete(init);
      forall j | 0 <= j < |lines| - 1
        ensures lines[j] == init[j]
      {
      }
    }
  }

  /** When the first line passes the keyword test, it comes first. */
  lemma {:induction false} KeywordLinesHead(lines: seq<string>)
    requires lines != [] && HasClauseKeyword(Strip(lines[0]))
    ensures KeywordLines(lines) != [] && KeywordLines(lines)[0] == Strip(lines[0])
    decreases |lines|
  {
    if |lines| > 1 {
      var init := lines[..|lines| - 1];
      assert init[0] == lines[0];
      KeywordLinesHead(init);
    }
  }

  /** Some line of `lines` is a SELECT line. */
  predicate HasSelectLine(lines: seq<string>)
  {
    exists j :: 0 <= j < |lines| && IsSelectLine(lines[j])
  }

  /** Every non-blank line from position `k` on is kept by the non-blank pass over that window. */
  lemma NonBlankCompleteFrom(lines: seq<string>, k: nat)
    requires k <= |lines|
    ensures forall j :: k <= j < |lines| && Strip(lines[j]) != [] ==> Strip(lines[j]) in NonBlank(lines[k..])
  {
    NonBlankComplete(lines[k..]);
    forall j | k <= j < |lines| && Strip(lines[j]) != []
      ensures Strip(lines[j]) in NonBlank(lines[k..])
    {
      assert lines[k..][j - k] == lines[j];
    }
  }

  /** Every keyword line from position `k` on is kept by the keyword pass over that window. */
  lemma KeywordLinesCompleteFrom(lines: seq<string>, k: nat)
    requires k <= |lines|
    ensures forall j :: k <= j < |lines| && HasClauseKeyword(Strip(lines[j])) ==> Strip(lines[j]) in KeywordLines(lines[k..])
  {
    KeywordLinesComplete(lines[k..]);
    forall j | k <= j < |lines| && HasClauseKeyword(Strip(lines[j]))
      ensures Strip(lines[j]) in KeywordLines(lines[k..])
    {
      assert lines[k..][j - k] == lines[j];
    }
  }

  /**
   * The sentinel pass yields lines exactly when some line is a SELECT line;
   * then its first line is that SELECT line, stripped, no line it yields is
   * empty or carries surrounding whitespace, they are the block's stripped
   * lines in their order, and every non-blank line from the SELECT line on
   * is among them.
   */
  lemma SentinelCaptureShape(lines: seq<string>)
    ensures SentinelCapture(lines) != [] <==> HasSelectLine(lines)
    ensures SentinelCapture(lines) != [] ==>
              SentinelCapture(lines)[0] == Strip(lines[FirstSelect(lines)])
              && StartsWith(Upper(SentinelCapture(lines)[0]), "SELECT")
    ensures forall k :: 0 <= k < |SentinelCapture(lines)| ==>
              SentinelCapture(lines)[k] != [] && Stripped(SentinelCapture(lines)[k])
    ensures IsSubseq(SentinelCapture(lines), StripAll(lines))
    ensures forall j :: FirstSelect(lines) <= j < |lines| && Strip(lines[j]) != [] ==>
              Strip(lines[j]) in SentinelCapture(lines)
  {
    var k := FirstSelect(lines);
    var tail := lines[k..];
    var r := NonBlank(tail);
    assert r == SentinelCapture(lines);
    NonBlankSound(tail);
    if k < |lines| {
      SelectLineNotBlank(lines[k]);
      NonBlankHead(tail);
    } else {
      assert tail == [];
    }
    assert StripAll(lines) == StripAll(lines)[..k] + StripAll(tail);
    NonBlankSubseq(tail);
    SubseqOfSuffix(r, StripAll(lines)[..k], StripAll(tail));
    NonBlankCompleteFrom(lines, k);
  }

  /**
   * The fallback pass yields lines exactly when some line is a SELECT line;
   * then its first line is that SELECT line, stripped, every line it yields
   * holds a clause keyword and is stripped, they are the reply's stripped
   * lines in their order, and every keyword line from the SELECT line on is
   * among them.
   */
  lemma FallbackCaptureShape(lines: seq<string>)
    ensures FallbackCapture(lines) != [] <==> HasSelectLine(lines)
    ensures FallbackCapture(lines) != [] ==>
              FallbackCapture(lines)[0] == Strip(lines[FirstSelect(lines)])
              && StartsWith(Upper(FallbackCapture(lines)[0]), "SELECT")
    ensures forall k :: 0 <= k < |FallbackCapture(lines)| ==>
              HasClauseKeyword(FallbackCapture(lines)[k]) && Stripped(FallbackCapture(lines)[k])
    ensures IsSubseq(FallbackCapture(lines), StripAll(lines))
    ensures forall j :: FirstSelect(lines) <= j < |lines| && HasClauseKeyword(Strip(lines[j])) ==>
              Strip(lines[j]) in FallbackCapture(lines)
  {
    var k := FirstSelect(lines);
    var tail := lines[k..];
    var r := KeywordLines(tail);
    assert r == FallbackCapture(lines);
    KeywordLinesSound(tail);
    if k < |lines| {
      SelectHasKeyword(Strip(lines[k]));
      KeywordLinesHead(tail);
    } else {
      assert tail == [];
    }
    assert StripAll(lines) == StripAll(lines)[..k] + StripAll(tail);
    KeywordLinesSubseq(tail);
    SubseqOfSuffix(r, StripAll(lines)[..k], StripAll(tail));
    KeywordLinesCompleteFrom(lines, k);
  }

  // ---------------------------------------------------------------------------
  // generate_sql_query: the three extraction paths
  // ---------------------------------------------------------------------------

  /** What the reply was turned into, before it is rendered as the returned string. */
  datatype Extraction =
    | SentinelQuery(lines: seq<string>)   // SQL taken from between the SQL sentinels
    | Refusal(reason: string)             // the model's explanation from between the ERROR sentinels
    | FallbackQuery(lines: seq<string>)   // SQL scraped line by line from the raw reply
    | NoQuery                             // nothing usable

  /** Both SQL sentinels occur somewhere in the reply. */
  predicate HasSqlSentinels(response: string)
  {
    Contains(response, SqlStart) && Contains(response, SqlEnd)
  }

  /** Both ERROR sentinels occur somewhere in the reply. */
  predicate HasErrorSentinels(response: string)
  {
    Contains(response, ErrorStart) && Contains(response, ErrorEnd)
  }

  /** The case-sensitive guard of the direct-extraction fallback. */
  predicate MentionsSelectFrom(response: string)
  {
    Contains(response, "SELECT") && Contains(response, "FROM")
  }

  /** The lines of the stripped text between the SQL sentinels. */
  function SentinelBlockLines(response: string): seq<string>
    requires HasSqlSentinels(response)
  {
    Split(Strip(Between(response, SqlStart, SqlEnd)), Newline)
  }

  /** The lines of the whole reply. */
  function ResponseLines(response: string): seq<string>
  {
    Split(response, Newline)
  }

  /** The direct-extraction fallback and, failing it, the fixed message. */
  function FallbackExtraction(response: string): Extraction
  {
    if MentionsSelectFrom(response) && FallbackCapture(ResponseLines(response)) != [] then
      FallbackQuery(FallbackCapture(ResponseLines(response)))
    else
      NoQuery
  }

  /**
   * The decision of `generate_sql_query`. The ERROR test is the `elif` of the
   * SQL-sentinel test, so it is made only when the SQL sentinels are not both
   * present; a sentinel block without a SELECT line falls through to the
   * fallback directly.
   */
  function Classify(response: string): (r: Extraction)
    ensures r.Refusal? <==> !HasSqlSentinels(response) && HasErrorSentinels(response)
    ensures r.SentinelQuery? ==> HasSqlSentinels(response) && r.lines != []
    ensures r.FallbackQuery? ==> MentionsSelectFrom(response) && r.lines != []
  {
    if HasSqlSentinels(response) then
      if SentinelCapture(SentinelBlockLines(response)) != [] then
        SentinelQuery(SentinelCapture(SentinelBlockLines(response)))
      else
        FallbackExtraction(response)
    else if HasErrorSentinels(response) then
      Refusal(Strip(Between(response, ErrorStart, ErrorEnd)))
    else
      FallbackExtraction(response)
  }

  /** The string `generate_sql_query` returns for each outcome. */
  function Render(e: Extraction): (r: string)
    ensures e.Refusal? ==> StartsWith(r, RefusalPrefix) && r[|RefusalPrefix|..] == e.reason
    ensures e.NoQuery? ==> r == NoQueryMessage
  {
    match e
    case SentinelQuery(lines) => Join(lines, Newline)
    case Refusal(reason) => RefusalPrefix + reason
    case FallbackQuery(lines) => Join(lines, Newline)
    case NoQuery => NoQueryMessage
  }

  /** `QueryGenerator.generate_sql_query` after the model has replied with `response`. */
  method GenerateSqlQuery(response: string) returns (query: string)
    ensures query == Render(Classify(response))
  {
    if Contains(response, SqlStart) && Contains(response, SqlEnd) {
      var sqlParts := Strip(Split(Split(response, SqlStart)[1], SqlEnd)[0]);
      var sqlLines := CaptureSentinelLines(Split(sqlParts, Newline));
      if sqlLines != [] {
        return Join(sqlLines, Newline);
      }
    } else if Contains(response, ErrorStart) && Contains(response, ErrorEnd) {
      var errorMsg := Strip(Split(Split(response, ErrorStart)[1], ErrorEnd)[0]);
      return RefusalPrefix + errorMsg;
    }
    if Contains(response, "SELECT") && Contains(response, "FROM") {
      var sqlLines := CaptureFallbackLines(Split(response, Newline));
      if sqlLines != [] {
        return Join(sqlLines, Newline);
      }
    }
    return NoQueryMessage;
  }

  /**
   * The sentinel path: when both SQL sentinels occur and the block between
   * them has a SELECT line, the result is the block's non-blank lines from
   * that line on, stripped; the first starts with SELECT in any case, none is
   * empty or padded, and they are the block's stripped lines in order.
   */
  lemma SentinelPath(response: string)
    requires HasSqlSentinels(response) && HasSelectLine(SentinelBlockLines(response))
    ensures Classify(response).SentinelQuery?
    ensures Classify(response).lines == SentinelCapture(SentinelBlockLines(response))
    ensures var lines := Classify(response).lines;
            && lines != []
            && StartsWith(Upper(lines[0]), "SELECT")
            && (forall k :: 0 <= k < |lines| ==> lines[k] != [] && Stripped(lines[k]))
            && IsSubseq(lines, StripAll(SentinelBlockLines(response)))
  {
    SentinelCaptureShape(SentinelBlockLines(response));
  }

  /**
   * A sentinel block without a SELECT line never reaches the ERROR branch,
   * even when the ERROR sentinels are present: the reply goes to the
   * fallback.
   */
  lemma SelectlessBlockSkipsErrorBranch(response: string)
    requires HasSqlSentinels(response) && !HasSelectLine(SentinelBlockLines(response))
    ensures Classify(response) == FallbackExtraction(response)
    ensures !Classify(response).Refusal?
  {
    SentinelCaptureShape(SentinelBlockLines(response));
  }

  /**
   * The ERROR branch is taken exactly when the SQL sentinels are not both
   * present and the ERROR sentinels are; its reason is the stripped text
   * after the first ERROR_START, cut where the next ERROR_START or ERROR_END
   * begins (or at the end of the reply).
   */
  lemma RefusalPath(response: string)
    ensures Classify(response).Refusal? <==> !HasSqlSentinels(response) && HasErrorSentinels(response)
    ensures Classify(response).Refusal? ==>
              var after := AfterFirst(response, ErrorStart);
              var mid := Between(response, ErrorStart, ErrorEnd);
              && Classify(response).reason == Strip(mid)
              && StartsWith(after, mid)
              && !Contains(mid, ErrorStart) && !Contains(mid, ErrorEnd)
              && (|mid| == |after| || OccursAt(after, ErrorStart, |mid|) || OccursAt(after, ErrorEnd, |mid|))
  {
    if HasSqlSentinels(response) {
      SentinelCaptureShape(SentinelBlockLines(response));
    }
    if Classify(response).Refusal? {
      BetweenMarkers(response, ErrorStart, ErrorEnd);
    }
  }

  /**
   * The fallback yields SQL only when the reply contains SELECT and FROM
   * (case-sensitive) and has a SELECT line; every line it returns holds a
   * clause keyword, the first starts with SELECT in any case, and they are
   * the reply's stripped lines in order.
   */
  lemma FallbackPath(response: string)
    ensures Classify(response).FallbackQuery? ==>
              && MentionsSelectFrom(response)
              && HasSelectLine(ResponseLines(response))
              && !(!HasSqlSentinels(response) && HasErrorSentinels(response))
    ensures Classify(response).FallbackQuery? ==>
              var lines := Classify(response).lines;
              && lines != []
              && StartsWith(Upper(lines[0]), "SELECT")
              && (forall k :: 0 <= k < |lines| ==> HasClauseKeyword(lines[k]) && Stripped(lines[k]))
              && IsSubseq(lines, StripAll(ResponseLines(response)))
  {
    FallbackCaptureShape(ResponseLines(response));
  }

  /**
   * The fixed failure message is returned exactly when no path yields
   * anything: no usable sentinel block, no ERROR branch, and no SELECT line
   * the fallback may scrape.
   */
  lemma NoQueryPath(response: string)
    ensures Classify(response).NoQuery? <==>
              && !(HasSqlSentinels(response) && HasSelectLine(SentinelBlockLines(response)))
              && !(!HasSqlSentinels(response) && HasErrorSentinels(response))
              && !(MentionsSelectFrom(response) && HasSelectLine(ResponseLines(response)))
    ensures Classify(response).NoQuery? ==> Render(Classify(response)) == NoQueryMessage
  {
    if HasSqlSentinels(response) {
      SentinelCaptureShape(SentinelBlockLines(response));
    }
    FallbackCaptureShape(ResponseLines(response));
  }

  /** Stripping lines that hold no newline leaves lines that hold none. */
  lemma StrippedLinesNoNewline(lines: seq<string>)
    requires forall k :: 0 <= k < |lines| ==> !Contains(lines[k], Newline)
    ensures forall x :: x in StripAll(lines) ==> !Contains(x, Newline)
  {
    forall x | x in StripAll(lines)
      ensures !Contains(x, Newline)
    {
      var j :| 0 <= j < |lines| && StripAll(lines)[j] == x;
      StripKeepsNoNewChars(lines[j]);
      ContainsChar(lines[j], '\n');
      ContainsChar(x, '\n');
    }
  }

  /** A selection of stripped newline-free lines, read back line by line, gives the same lines. */
  lemma SelectedLinesRoundTrip(selected: seq<string>, lines: seq<string>)
    requires selected != [] && IsSubseq(selected, StripAll(lines))
    requires forall k :: 0 <= k < |lines| ==> !Contains(lines[k], Newline)
    ensures Split(Join(selected, Newline), Newline) == selected
  {
    StrippedLinesNoNewline(lines);
    SubseqMembers(selected, StripAll(lines));
    forall k | 0 <= k < |selected|
      ensures !Contains(selected[k], Newline)
    {
      assert selected[k] in StripAll(lines);
    }
    SplitJoin(selected, Newline);
  }

  /** The SQL text returned by either extraction path splits back into exactly the extracted lines. */
  lemma RenderedQueryLines(response: string)
    requires Classify(response).SentinelQuery? || Classify(response).FallbackQuery?
    ensures Split(Render(Classify(response)), Newline) == Classify(response).lines
  {
    if Classify(response).SentinelQuery? {
      SentinelCaptureShape(SentinelBlockLines(response));
      SelectedLinesRoundTrip(Classify(response).lines, SentinelBlockLines(response));
    } else {
      FallbackCaptureShape(ResponseLines(response));
      SelectedLinesRoundTrip(Classify(response).lines, ResponseLines(response));
    }
  }

  // ---------------------------------------------------------------------------
  // get_table_info: the schema text
  // ---------------------------------------------------------------------------

  /** One catalog row: a table name and its column descriptions, in catalog order. */
  type TableInfo = (string, seq<string>)

  const SchemaHeader := "Database Schema:\n"

  /** The line listing one column under a table heading. */
  function Bullet(column: string): string
  {
    "  - " + column + "\n"
  }

  /** The lines under a table heading, one bullet per column. */
  function ColumnBullets(columns: seq<string>): string
  {
    if columns == [] then ""
    else ColumnBullets(columns[..|columns| - 1]) + Bullet(columns[|columns| - 1])
  }

  /** The heading that opens a table's section. */
  function TableHeading(name: string): string
  {
    "\nTable: " + name + "\nColumns:\n"
  }

  /** A table's section: its heading and its column bullets. */
  function TableSection(table: TableInfo): string
  {
    TableHeading(table.0) + ColumnBullets(table.1)
  }

  /** The sections of all tables, in order. */
  function TableSections(tables: seq<TableInfo>): string
  {
    if tables == [] then ""
    else TableSections(tables[..|tables| - 1]) + TableSection(tables[|tables| - 1])
  }

  /** The schema text put into the prompt. */
  function SchemaText(tables: seq<TableInfo>): string
  {
    SchemaHeader + TableSections(tables)
  }

  /** The formatting loops of `get_table_info` over the fetched catalog rows. */
  method FormatSchema(tables: seq<TableInfo>) returns (schemaText: string)
    ensures schemaText == SchemaText(tables)
  {
    schemaText := "Database Schema:\n";
    for t := 0 to |tables|
      invariant schemaText == SchemaHeader + TableSections(tables[..t])
    {
      ghost var before := schemaText;
      var (tableName, columns) := tables[t];
      schemaText := schemaText + ("\nTable: " + tableName + "\nColumns:\n");
      ghost var heading := schemaText;
      for c := 0 to |columns|
        invariant schemaText == heading + ColumnBullets(columns[..c])
      {
        ghost var done := schemaText;
        schemaText := schemaText + ("  - " + columns[c] + "\n");
        BulletsStep(heading, columns, c, done);
      }
      SectionsStep(tables, t, before, schemaText);
    }
    assert tables[..|tables|] == tables;
  }

  lemma BulletsStep(heading: string, columns: seq<string>, c: nat, done: string)
    requires c < |columns| && done == heading + ColumnBullets(columns[..c])
    ensures done + ("  - " + columns[c] + "\n") == heading + ColumnBullets(columns[..c + 1])
  {
    assert columns[..c + 1][..c] == columns[..c];
  }

  lemma SectionsStep(tables: seq<TableInfo>, t: nat, before: string, after: string)
    requires t < |tables| && before == SchemaHeader + TableSections(tables[..t])
    requires after == before + ("\nTable: " + tables[t].0 + "\nColumns:\n") + ColumnBullets(tables[t].1[..|tables[t].1|])
    ensures after == SchemaHeader + TableSections(tables[..t + 1])
  {
    assert tables[t].1[..|tables[t].1|] == tables[t].1;
    assert tables[..t + 1][..t] == tables[..t];
  }

  /** The text of `lines`, each followed by a newline. */
  function Terminated(lines: seq<string>): string
  {
    if lines == [] then "" else lines[0] + "\n" + Terminated(lines[1..])
  }

  /** The schema text line by line: the header, then for each table a blank line, its name, "Columns:" and one bullet per column. */
  function SchemaLines(tables: seq<TableInfo>): seq<string>
  {
    if tables == [] then ["Database Schema:"]
    else
      var (name, columns) := tables[|tables| - 1];
      SchemaLines(tables[..|tables| - 1]) + TableLines(name, columns)
  }

  function TableLines(name: string, columns: seq<string>): seq<string>
  {
    ["", "Table: " + name, "Columns:"] + seq(|columns|, i requires 0 <= i < |columns| => "  - " + columns[i])
  }

  lemma {:induction false} TerminatedAppend(a: seq<string>, b: seq<string>)
    ensures Terminated(a + b) == Terminated(a) + Terminated(b)
    decreases |a|
  {
    if a != [] {
      assert (a + b)[0] == a[0];
      assert (a + b)[1..] == a[1..] + b;
      TerminatedAppend(a[1..], b);
      calc {
        Terminated(a + b);
        a[0] + "\n" + Terminated(a[1..] + b);
        a[0] + "\n" + (Terminated(a[1..]) + Terminated(b));
        (a[0] + "\n" + Terminated(a[1..])) + Terminated(b);
      }
    } else {
      assert a + b == b;
    }
  }

  lemma {:induction false} TerminatedIsJoin(lines: seq<string>)
    ensures Join(lines + [""], Newline) == Terminated(lines)
    decreases |lines|
  {
    if lines != [] {
      assert (lines + [""])[1..] == lines[1..] + [""];
      TerminatedIsJoin(lines[1..]);
    }
  }

  lemma {:induction false} BulletsTerminated(columns: seq<string>)
    ensures ColumnBullets(columns) == Terminated(seq(|columns|, i requires 0 <= i < |columns| => "  - " + columns[i]))
    decreases |columns|
  {
    if columns != [] {
      var init := columns[..|columns| - 1];
      BulletsTerminated(init);
      var bullets := seq(|columns|, i requires 0 <= i < |columns| => "  - " + columns[i]);
      var initBullets := seq(|init|, i requires 0 <= i < |init| => "  - " + init[i]);
      assert bullets == initBullets + [bullets[|columns| - 1]];
      TerminatedAppend(initBullets, [bullets[|columns| - 1]]);
    }
  }

  /** The schema text is its lines, each followed by a newline. */
  lemma {:induction false} SchemaTextTerminated(tables: seq<TableInfo>)
    ensures SchemaText(tables) == Terminated(SchemaLines(tables))
    decreases |tables|
  {
    if tables == [] {
      assert Terminated(["Database Schema:"]) == "Database Schema:" + "\n" + Terminated([]);
    } else {
      var init := tables[..|tables| - 1];
      var last := tables[|tables| - 1];
      SchemaTextTerminated(init);
      TableSectionTerminated(last);
      TerminatedAppend(SchemaLines(init), TableLines(last.0, last.1));
      calc {
        SchemaText(tables);
        SchemaHeader + (TableSections(init) + TableSection(last));
        (SchemaHeader + TableSections(init)) + TableSection(last);
        SchemaText(init) + TableSection(last);
      }
    }
  }

  /** One table's section is its lines, each followed by a newline. */
  lemma TableSectionTerminated(table: TableInfo)
    ensures TableSection(table) == Terminated(TableLines(table.0, table.1))
  {
    var (name, columns) := table;
    var heading := ["", "Table: " + name, "Columns:"];
    var bullets := seq(|columns|, i requires 0 <= i < |columns| => "  - " + columns[i]);
    BulletsTerminated(columns);
    TerminatedAppend(heading, bullets);
    HeadingTerminated(name);
  }

  lemma HeadingTerminated(name: string)
    ensures Terminated(["", "Table: " + name, "Columns:"]) == TableHeading(name)
  {
    var h := ["", "Table: " + name, "Columns:"];
    assert h[1..][1..][1..] == [];
    assert Terminated(h[1..][1..]) == "Columns:" + "\n";
    assert Terminated(h[1..]) == "Table: " + name + "\n" + "Columns:" + "\n";
  }

  /** No table name and no column description holds a newline. */
  predicate SingleLineNames(tables: seq<TableInfo>)
  {
    forall k :: 0 <= k < |tables| ==>
      '\n' !in tables[k].0 && forall c :: c in tables[k].1 ==> '\n' !in c
  }

  /**
   * Read back line by line, the schema text is the header line, then for
   * each table in order a blank line, "Table: <name>", "Columns:" and one
   * "  - <column>" line per column in order, then the empty piece after the
   * final newline.
   */
  lemma SchemaTextLines(tables: seq<TableInfo>)
    requires SingleLineNames(tables)
    ensures Split(SchemaText(tables), Newline) == SchemaLines(tables) + [""]
  {
    SchemaTextTerminated(tables);
    TerminatedIsJoin(SchemaLines(tables));
    var all := SchemaLines(tables) + [""];
    SchemaLinesSingle(tables);
    forall k | 0 <= k < |all|
      ensures !Contains(all[k], Newline)
    {
      ContainsChar(all[k], '\n');
    }
    SplitJoin(all, Newline);
  }

  lemma {:induction false} SchemaLinesSingle(tables: seq<TableInfo>)
    requires SingleLineNames(tables)
    ensures forall k :: 0 <= k < |SchemaLines(tables)| ==> '\n' !in SchemaLines(tables)[k]
    decreases |tables|
  {
    if tables != [] {
      var init := tables[..|tables| - 1];
      assert SingleLineNames(init) by {
        forall k | 0 <= k < |init|
          ensures init[k] == tables[k]
        {
        }
      }
      SchemaLinesSingle(init);
      var (name, columns) := tables[|tables| - 1];
      var lines := TableLines(name, columns);
      forall k | 0 <= k < |lines|
        ensures '\n' !in lines[k]
      {
        if k >= 3 {
          assert lines[k] == "  - " + columns[k - 3];
          assert columns[k - 3] in columns;
        }
      }
    }
  }
}
