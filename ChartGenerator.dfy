/**
 * The chart generator: the column-name heuristic that picks the x and y
 * axes of a chart, and the guard chain of `generate_chart` that decides
 * between a message and a figure and builds its title and axis titles.
 */
module ChartGenerator {
  import opened Wrappers
  import opened Text

  /** Substrings that mark a measure column (a candidate y axis). */
  const MeasurePatterns := ["total", "sum", "avg", "count", "amount", "revenue", "sales", "profit"]
  /** Substrings that mark a dimension column (a candidate x axis). */
  const DimensionPatterns := ["name", "category", "region", "date", "month", "year", "id"]

  const NoDataMessage := "No data available to generate chart."
  const InsufficientColumnsMessage := "Insufficient columns for visualization." + " Need at least 2 columns."
  const UnsupportedPrefix := "Unsupported chart type: "
  const LayoutTemplate := "plotly_white"

  // ---------------------------------------------------------------------------
  // Result rows and the columns of the data frame built from them
  // ---------------------------------------------------------------------------

  /** One result row: its (column, value) pairs in the row's key order, values as text. */
  type Row = seq<(string, string)>

  predicate HasKey(row: Row, column: string)
  {
    exists j :: 0 <= j < |row| && row[j].0 == column
  }

  predicate NoDuplicates(columns: seq<string>)
  {
    forall i, j :: 0 <= i < j < |columns| ==> columns[i] != columns[j]
  }

  /** The position of the first entry of `row` keyed `column`. */
  function FirstKeyIndex(row: Row, column: string): (r: nat)
    requires HasKey(row, column)
    ensures r < |row| && row[r].0 == column
    ensures forall j :: 0 <= j < r ==> row[j].0 != column
    decreases |row|
  {
    if row[0].0 == column then 0
    else
      assert HasKey(row[1..], column) by {
        var j :| 0 <= j < |row| && row[j].0 == column;
        assert row[1..][j - 1] == row[j];
      }
      var k := FirstKeyIndex(row[1..], column);
      assert forall j :: 0 < j <= k ==> row[j] == row[1..][j - 1];
      1 + k
  }

  /** The keys of a non-empty row are its first key and the keys of the rest, which sit one place further on. */
  lemma KeysOfTail(row: Row)
    requires row != []
    ensures forall c :: HasKey(row, c) <==> c == row[0].0 || HasKey(row[1..], c)
    ensures forall c :: HasKey(row[1..], c) && c != row[0].0 ==> FirstKeyIndex(row, c) == 1 + FirstKeyIndex(row[1..], c)
  {
    forall c | HasKey(row, c) && c != row[0].0
      ensures HasKey(row[1..], c)
    {
      var j :| 0 <= j < |row| && row[j].0 == c;
      assert row[1..][j - 1] == row[j];
    }
    forall c | HasKey(row[1..], c)
      ensures HasKey(row, c)
    {
      var j :| 0 <= j < |row[1..]| && row[1..][j].0 == c;
      assert row[j + 1] == row[1..][j];
    }
  }

  /**
   * `columns` followed by the keys of `row` that are not yet among them,
   * each once, in the order of their first appearance in the row.
   */
  function AddKeys(columns: seq<string>, row: Row): (r: seq<string>)
    requires NoDuplicates(columns)
    ensures NoDuplicates(r)
    ensures |columns| <= |r| && r[..|columns|] == columns
    ensures forall c :: c in r <==> c in columns || HasKey(row, c)
    decreases |row|
  {
    if row == [] then columns
    else
      var key := row[0].0;
      var next := if key in columns then columns else columns + [key];
      var r := AddKeys(next, row[1..]);
      assert forall c :: HasKey(row, c) <==> c == key || HasKey(row[1..], c) by {
        KeysOfTail(row);
      }
      assert r[..|columns|] == r[..|next|][..|columns|];
      r
  }

  /** From position `from` on, `names` are keys of `row` listed in the order of their first appearance in it. */
  predicate InRowOrder(names: seq<string>, from: nat, row: Row)
  {
    forall i, j :: from <= i < j < |names| ==> KeyBefore(row, names[i], names[j])
  }

  /** `a` and `b` are keys of `row`, and `a` first appears before `b` does. */
  predicate KeyBefore(row: Row, a: string, b: string)
  {
    HasKey(row, a) && HasKey(row, b) && FirstKeyIndex(row, a) < FirstKeyIndex(row, b)
  }

  /** The keys `AddKeys` appends come in the order of their first appearance in the row. */
  lemma {:induction false} AddKeysInRowOrder(columns: seq<string>, row: Row)
    requires NoDuplicates(columns)
    ensures InRowOrder(AddKeys(columns, row), |columns|, row)
    decreases |row|
  {
    if row != [] {
      var key := row[0].0;
      var next := if key in columns then columns else columns + [key];
      var r := AddKeys(next, row[1..]);
      assert r == AddKeys(columns, row);
      AddKeysInRowOrder(next, row[1..]);
      forall i | |next| <= i < |r|
        ensures r[i] in next || HasKey(row[1..], r[i])
      {
        assert r[i] in r;
      }
      InRowOrderStep(columns, row, next, r);
    }
  }

  /**
   * One step of `AddKeys`: if the keys appended for the rest of the row are
   * in that rest's order, the keys appended for the whole row are in its
   * order.
   */
  lemma InRowOrderStep(columns: seq<string>, row: Row, next: seq<string>, r: seq<string>)
    requires row != [] && next == if row[0].0 in columns then columns else columns + [row[0].0]
    requires NoDuplicates(r) && |next| <= |r| && r[..|next|] == next
    requires forall i :: |next| <= i < |r| ==> r[i] in next || HasKey(row[1..], r[i])
    requires InRowOrder(r, |next|, row[1..])
    ensures InRowOrder(r, |columns|, row)
  {
    forall i | |next| <= i < |r|
      ensures HasKey(row, r[i]) && FirstKeyIndex(row, r[i]) == 1 + FirstKeyIndex(row[1..], r[i])
    {
      LaterKeyShifts(row, next, r, i);
    }
    forall i, j | |columns| <= i < j < |r|
      ensures KeyBefore(row, r[i], r[j])
    {
      if i < |next| {
        assert r[..|next|][i] == row[0].0;
        assert HasKey(row, r[i]) && FirstKeyIndex(row, r[i]) == 0;
      } else {
        assert FirstKeyIndex(row[1..], r[i]) < FirstKeyIndex(row[1..], r[j]);
      }
    }
  }

  /**
   * A key that `AddKeys` appends for the rest of a row is a key of the
   * whole row, other than its first, and so sits one place further on in it.
   */
  lemma LaterKeyShifts(row: Row, next: seq<string>, r: seq<string>, i: nat)
    requires row != [] && row[0].0 in next
    requires NoDuplicates(r) && |next| <= i < |r| && r[..|next|] == next
    requires r[i] in next || HasKey(row[1..], r[i])
    ensures HasKey(row, r[i]) && FirstKeyIndex(row, r[i]) == 1 + FirstKeyIndex(row[1..], r[i])
  {
    forall m | 0 <= m < |next|
      ensures next[m] != r[i]
    {
      assert next[m] == r[m];
    }
    KeysOfTail(row);
  }

  /**
   * The columns of the pandas data frame built from a list of row
   * dictionaries: every key of every row, in order of first appearance.
   */
  function FrameColumns(rows: seq<Row>): (r: seq<string>)
    ensures NoDuplicates(r)
  {
    if rows == [] then []
    else AddKeys(FrameColumns(rows[..|rows| - 1]), rows[|rows| - 1])
  }

  /** The keys of a row, in the row's order. */
  function Keys(row: Row): seq<string>
  {
    seq(|row|, j requires 0 <= j < |row| => row[j].0)
  }

  /** A prefix of a duplicate-free list is duplicate-free. */
  lemma PrefixNoDuplicates(a: seq<string>, b: seq<string>)
    requires NoDuplicates(a + b)
    ensures NoDuplicates(a)
  {
    assert forall i :: 0 <= i < |a| ==> (a + b)[i] == a[i];
  }

  /** Keys that are distinct and new are appended exactly as the row lists them. */
  lemma {:induction false} AddDistinctKeys(columns: seq<string>, row: Row)
    requires NoDuplicates(columns + Keys(row))
    ensures NoDuplicates(columns) && AddKeys(columns, row) == columns + Keys(row)
    decreases |row|
  {
    PrefixNoDuplicates(columns, Keys(row));
    if row != [] {
      var key := row[0].0;
      var next := columns + [key];
      assert Keys(row) == [key] + Keys(row[1..]);
      assert columns + Keys(row) == next + Keys(row[1..]);
      assert key !in columns by {
        forall m | 0 <= m < |columns|
          ensures columns[m] != key
        {
          assert (columns + Keys(row))[m] == columns[m];
          assert (columns + Keys(row))[|columns|] == key;
        }
      }
      AddDistinctKeys(next, row[1..]);
    }
  }

  /** A row whose keys are all columns already adds none. */
  lemma {:induction false} AddKnownKeys(columns: seq<string>, row: Row)
    requires NoDuplicates(columns)
    requires forall j :: 0 <= j < |row| ==> row[j].0 in columns
    ensures AddKeys(columns, row) == columns
    decreases |row|
  {
    if row != [] {
      assert forall j :: 0 <= j < |row[1..]| ==> row[1..][j] == row[j + 1];
      AddKnownKeys(columns, row[1..]);
    }
  }

  /**
   * Rows that all list the same distinct keys in the same order, as the
   * rows of one query result do, give a frame with exactly those columns in
   * that order.
   */
  lemma {:induction false} UniformFrameColumns(rows: seq<Row>, keys: seq<string>)
    requires rows != [] && NoDuplicates(keys)
    requires forall i :: 0 <= i < |rows| ==> Keys(rows[i]) == keys
    ensures FrameColumns(rows) == keys
    decreases |rows|
  {
    var init := rows[..|rows| - 1];
    var last := rows[|rows| - 1];
    assert Keys(last) == keys;
    if init == [] {
      assert [] + Keys(last) == keys;
      AddDistinctKeys([], last);
    } else {
      assert forall i :: 0 <= i < |init| ==> init[i] == rows[i];
      UniformFrameColumns(init, keys);
      assert forall j :: 0 <= j < |last| ==> last[j].0 == keys[j];
      AddKnownKeys(keys, last);
    }
  }

  /** A column of the frame is a key of some row, and every key of every row is a column. */
  lemma {:induction false} FrameColumnsAreKeys(rows: seq<Row>)
    ensures forall c :: c in FrameColumns(rows) <==> exists i :: 0 <= i < |rows| && HasKey(rows[i], c)
  {
    if rows != [] {
      var init := rows[..|rows| - 1];
      var last := rows[|rows| - 1];
      FrameColumnsAreKeys(init);
      assert forall i :: 0 <= i < |init| ==> init[i] == rows[i];
      forall c
        ensures c in FrameColumns(rows) <==> c in FrameColumns(init) || HasKey(last, c)
      {
        assert FrameColumns(rows) == AddKeys(FrameColumns(init), last);
      }
    }
  }

  /** The frame has no columns exactly when no row has a key. */
  lemma FrameEmpty(rows: seq<Row>)
    ensures FrameColumns(rows) == [] <==> forall i :: 0 <= i < |rows| ==> rows[i] == []
  {
    if FrameColumns(rows) != [] {
      ColumnComesFromRow(rows, FrameColumns(rows)[0]);
    }
    if exists i :: 0 <= i < |rows| && rows[i] != [] {
      var i :| 0 <= i < |rows| && rows[i] != [];
      FirstKeyIsColumn(rows, i);
    }
  }

  lemma FirstKeyIsColumn(rows: seq<Row>, i: nat)
    requires i < |rows| && rows[i] != []
    ensures rows[i][0].0 in FrameColumns(rows)
  {
    FrameColumnsAreKeys(rows);
    assert HasKey(rows[i], rows[i][0].0);
  }

  lemma ColumnComesFromRow(rows: seq<Row>, c: string)
    requires c in FrameColumns(rows)
    ensures exists i :: 0 <= i < |rows| && rows[i] != []
  {
    FrameColumnsAreKeys(rows);
    var i :| 0 <= i < |rows| && HasKey(rows[i], c);
    assert rows[i] != [];
  }

  // ---------------------------------------------------------------------------
  // The axis heuristic of `_get_axis_labels`
  // ---------------------------------------------------------------------------

  /** The lower-cased column name contains one of `patterns`. */
  predicate Matches(column: string, patterns: seq<string>)
  {
    ContainsAny(Lower(column), patterns)
  }

  /** The index of the first column from `from` on that matches `patterns`. */
  function FirstMatchFrom(columns: seq<string>, patterns: seq<string>, from: nat): (r: Option<nat>)
    requires from <= |columns|
    ensures r.Some? ==> from <= r.value < |columns| && Matches(columns[r.value], patterns)
    ensures r.Some? ==> forall j :: from <= j < r.value ==> !Matches(columns[j], patterns)
    ensures r.None? ==> forall j :: from <= j < |columns| ==> !Matches(columns[j], patterns)
    decreases |columns| - from
  {
    if from == |columns| then None
    else if Matches(columns[from], patterns) then Some(from)
    else FirstMatchFrom(columns, patterns, from + 1)
  }

  /** The column the first-match loop settles on, if any. */
  function FirstMatch(columns: seq<string>, patterns: seq<string>): Option<string>
  {
    match FirstMatchFrom(columns, patterns, 0)
    case None => None
    case Some(i) => Some(columns[i])
  }

  /** The first matching column is the one the first-match loop settles on. */
  lemma FirstMatchAt(columns: seq<string>, patterns: seq<string>, i: nat)
    requires i < |columns| && Matches(columns[i], patterns)
    requires forall j :: 0 <= j < i ==> !Matches(columns[j], patterns)
    ensures FirstMatch(columns, patterns) == Some(columns[i])
  {
    var r := FirstMatchFrom(columns, patterns, 0);
    assert r.Some?;
    assert r.value == i;
  }

  /** Python's `not label` for a label that is `None` or a column name. */
  predicate Falsy(name: Option<string>)
  {
    name.None? || name.value == ""
  }

  datatype Axes = Axes(x: string, y: string)

  /** The labels `_get_axis_labels` returns for the frame's columns. */
  function ChooseAxes(columns: seq<string>, lastIsNumeric: bool): Axes
    requires |columns| > 0
  {
    var last := columns[|columns| - 1];
    var measure := FirstMatch(columns, MeasurePatterns);
    var dimension := FirstMatch(columns, DimensionPatterns);
    var numericFallback := Falsy(measure) && |columns| >= 2 && lastIsNumeric;
    var y := if numericFallback then Some(last) else measure;
    var x := if numericFallback then Some(columns[0]) else dimension;
    Axes(if Falsy(x) then columns[0] else x.value, if Falsy(y) then last else y.value)
  }

  /**
   * `_get_axis_labels`: the two first-match loops, the numeric fallback,
   * then the final fallbacks.
   */
  method GetAxisLabels(columns: seq<string>, lastIsNumeric: bool) returns (x: string, y: string)
    requires |columns| > 0
    ensures Axes(x, y) == ChooseAxes(columns, lastIsNumeric)
  {
    var yAxis := FindColumn(columns, MeasurePatterns);
    var xAxis := FindColumn(columns, DimensionPatterns);

    if Falsy(yAxis) && |columns| >= 2 {
      if lastIsNumeric {
        yAxis := Some(columns[|columns| - 1]);
        xAxis := Some(columns[0]);
      }
    }

    if Falsy(yAxis) {
      yAxis := Some(columns[|columns| - 1]);
    }
    if Falsy(xAxis) {
      xAxis := Some(columns[0]);
    }
    x, y := xAxis.value, yAxis.value;
  }

  /** One first-match loop: the first column whose lower-cased name contains one of `patterns`, left unset when none does. */
  method FindColumn(columns: seq<string>, patterns: seq<string>) returns (found: Option<string>)
    ensures found == FirstMatch(columns, patterns)
  {
    found := None;
    for i := 0 to |columns|
      invariant found.None?
      invariant FirstMatchFrom(columns, patterns, 0) == FirstMatchFrom(columns, patterns, i)
    {
      var colLower := Lower(columns[i]);
      if ContainsAny(colLower, patterns) {
        found := Some(columns[i]);
        break;
      }
    }
  }

  /** A name that matches a (non-empty) pattern is not empty, so a matched label is never falsy. */
  lemma MatchedNotEmpty(column: string, patterns: seq<string>)
    requires forall k :: 0 <= k < |patterns| ==> patterns[k] != []
    requires Matches(column, patterns)
    ensures column != ""
  {
    var k :| 0 <= k < |patterns| && Contains(Lower(column), patterns[k]);
    assert OccursAt(Lower(column), patterns[k], Find(Lower(column), patterns[k]).value);
  }

  /** Both chosen labels are columns of the frame. */
  lemma AxesAreColumns(columns: seq<string>, lastIsNumeric: bool)
    requires |columns| > 0
    ensures ChooseAxes(columns, lastIsNumeric).x in columns
    ensures ChooseAxes(columns, lastIsNumeric).y in columns
  {
  }

  /** When some column names a measure, the first such column is the y axis. */
  lemma MeasureIsY(columns: seq<string>, lastIsNumeric: bool, i: nat)
    requires i < |columns| && Matches(columns[i], MeasurePatterns)
    requires forall j :: 0 <= j < i ==> !Matches(columns[j], MeasurePatterns)
    ensures ChooseAxes(columns, lastIsNumeric).y == columns[i]
  {
    FirstMatchAt(columns, MeasurePatterns, i);
    MatchedNotEmpty(columns[i], MeasurePatterns);
  }

  /**
   * Unless the numeric fallback applies (no measure column, at least two
   * columns, last column numeric), the first column that names a dimension
   * is the x axis.
   */
  lemma DimensionIsX(columns: seq<string>, lastIsNumeric: bool, i: nat)
    requires i < |columns| && Matches(columns[i], DimensionPatterns)
    requires forall j :: 0 <= j < i ==> !Matches(columns[j], DimensionPatterns)
    requires FirstMatch(columns, MeasurePatterns).Some? || |columns| < 2 || !lastIsNumeric
    ensures ChooseAxes(columns, lastIsNumeric).x == columns[i]
  {
    FirstMatchAt(columns, DimensionPatterns, i);
    MatchedNotEmpty(columns[i], DimensionPatterns);
    if FirstMatch(columns, MeasurePatterns).Some? {
      var k := FirstMatchFrom(columns, MeasurePatterns, 0).value;
      MatchedNotEmpty(columns[k], MeasurePatterns);
    }
  }

  /**
   * With no measure column, at least two columns and a numeric last column,
   * the last column is y and the first is x, whatever dimension matched.
   */
  lemma NumericFallback(columns: seq<string>, lastIsNumeric: bool)
    requires |columns| >= 2 && lastIsNumeric
    requires forall j :: 0 <= j < |columns| ==> !Matches(columns[j], MeasurePatterns)
    ensures ChooseAxes(columns, lastIsNumeric) == Axes(columns[0], columns[|columns| - 1])
  {
  }

  /**
   * With no measure column, y is the last column; with no dimension column,
   * x is the first column, whatever y turned out to be.
   */
  lemma LastResortLabels(columns: seq<string>, lastIsNumeric: bool)
    requires |columns| > 0
    ensures (forall j :: 0 <= j < |columns| ==> !Matches(columns[j], MeasurePatterns)) ==>
              ChooseAxes(columns, lastIsNumeric).y == columns[|columns| - 1]
    ensures (forall j :: 0 <= j < |columns| ==> !Matches(columns[j], DimensionPatterns)) ==>
              ChooseAxes(columns, lastIsNumeric).x == columns[0]
  {
    if FirstMatch(columns, MeasurePatterns).Some? {
      MatchedNotEmpty(columns[FirstMatchFrom(columns, MeasurePatterns, 0).value], MeasurePatterns);
    }
  }

  /** A column whose name matches both lists is picked for both axes when it comes first. */
  lemma SameColumnOnBothAxes(columns: seq<string>, lastIsNumeric: bool)
    requires |columns| > 0
    requires Matches(columns[0], MeasurePatterns) && Matches(columns[0], DimensionPatterns)
    ensures ChooseAxes(columns, lastIsNumeric) == Axes(columns[0], columns[0])
  {
    MeasureIsY(columns, lastIsNumeric, 0);
    DimensionIsX(columns, lastIsNumeric, 0);
  }

  /** Such a column exists: "total_id" names a measure and a dimension at once. */
  lemma BothListsMatch()
    ensures Matches("total_id", MeasurePatterns) && Matches("total_id", DimensionPatterns)
  {
    var s := Lower("total_id");
    assert s == "total_id";
    assert OccursAt(s, MeasurePatterns[0], 0);
    assert OccursAt(s, DimensionPatterns[6], 6);
  }

  // ---------------------------------------------------------------------------
  // generate_chart
  // ---------------------------------------------------------------------------

  datatype ChartKind = Bar | Line | Scatter

  /** The chart type names the dispatch accepts. */
  function KindName(kind: ChartKind): string
  {
    match kind
    case Bar => "bar"
    case Line => "line"
    case Scatter => "scatter"
  }

  function KindOf(chartType: string): (r: Option<ChartKind>)
    ensures r.Some? ==> KindName(r.value) == chartType
  {
    if chartType == "bar" then Some(Bar)
    else if chartType == "line" then Some(Line)
    else if chartType == "scatter" then Some(Scatter)
    else None
  }

  /** Every kind is recognised by its own name. */
  lemma KindRoundTrip(kind: ChartKind)
    ensures KindOf(KindName(kind)) == Some(kind)
  {
  }

  /** The word between the y and x labels in the chart title. */
  function Connector(kind: ChartKind): string
  {
    match kind
    case Bar => " by "
    case Line => " over "
    case Scatter => " vs "
  }

  /** An axis title: the column name with underscores as spaces, title-cased. */
  function AxisTitle(column: string): (r: string)
    ensures |r| == |column|
    ensures '_' !in r
    ensures forall i :: 0 <= i < |column| && column[i] == '_' ==> r[i] == ' '
    ensures forall i :: 0 <= i < |column| && column[i] != '_' ==> LowerChar(r[i]) == LowerChar(column[i])
  {
    var spaced := ReplaceChar(column, '_', ' ');
    var r := Title(spaced);
    forall i | 0 <= i < |column|
      ensures column[i] == '_' ==> r[i] == ' '
      ensures column[i] != '_' ==> LowerChar(r[i]) == LowerChar(column[i])
      ensures r[i] != '_'
    {
      TitleAt(spaced, i);
    }
    r
  }

  /** A plotly figure with its layout, as far as the generator decides it. */
  datatype Figure = Figure(
    kind: ChartKind,
    frame: seq<Row>,
    x: string,
    y: string,
    title: string,
    xAxisTitle: string,
    yAxisTitle: string,
    template: string)

  /** What `generate_chart` returns: a figure, or a message string. */
  datatype ChartResult = Chart(figure: Figure) | Message(text: string)

  function Plot(kind: ChartKind, data: seq<Row>, axes: Axes): Figure
  {
    Figure(kind, data, axes.x, axes.y, axes.y + Connector(kind) + axes.x,
           AxisTitle(axes.x), AxisTitle(axes.y), LayoutTemplate)
  }

  /**
   * `generate_chart`: no rows or an empty frame give the no-data message,
   * one column gives the insufficient-columns message, an unknown chart
   * type gives the unsupported message, and otherwise the figure is built
   * on the labels of the axis heuristic. `lastIsNumeric` is pandas' verdict
   * on the dtype of the frame's last column.
   */
  function GenerateChart(data: seq<Row>, chartType: string, lastIsNumeric: bool): (r: ChartResult)
    ensures r.Chart? <==> |FrameColumns(data)| >= 2 && KindOf(chartType).Some?
    ensures r.Chart? ==> r.figure.frame == data && KindName(r.figure.kind) == chartType
  {
    if data == [] then Message(NoDataMessage)
    else
      var columns := FrameColumns(data);
      if columns == [] then Message(NoDataMessage)
      else if |columns| < 2 then Message(InsufficientColumnsMessage)
      else
        var axes := ChooseAxes(columns, lastIsNumeric);
        match KindOf(chartType)
        case None => Message(UnsupportedPrefix + chartType)
        case Some(kind) => Chart(Plot(kind, data, axes))
  }

  /** The three messages differ from one another whatever the chart type. */
  lemma MessagesDistinct(chartType: string)
    ensures NoDataMessage != InsufficientColumnsMessage
    ensures UnsupportedPrefix + chartType != NoDataMessage
    ensures UnsupportedPrefix + chartType != InsufficientColumnsMessage
  {
    assert NoDataMessage[0] == 'N';
    assert InsufficientColumnsMessage[0] == 'I';
    assert (UnsupportedPrefix + chartType)[0] == 'U';
  }

  /**
   * The guard chain in order: the no-data message exactly when there is no
   * row or no column, the insufficient-columns message exactly when the
   * frame has one column, and both checks decide before the chart type is
   * looked at.
   */
  lemma ChartGuards(data: seq<Row>, chartType: string, lastIsNumeric: bool)
    ensures GenerateChart(data, chartType, lastIsNumeric) == Message(NoDataMessage) <==>
              FrameColumns(data) == []
    ensures GenerateChart(data, chartType, lastIsNumeric) == Message(InsufficientColumnsMessage) <==>
              |FrameColumns(data)| == 1
    ensures GenerateChart(data, chartType, lastIsNumeric) == Message(UnsupportedPrefix + chartType) <==>
              |FrameColumns(data)| >= 2 && KindOf(chartType).None?
    ensures GenerateChart(data, chartType, lastIsNumeric).Chart? <==>
              |FrameColumns(data)| >= 2 && chartType in ["bar", "line", "scatter"]
  {
    MessagesDistinct(chartType);
    var columns := FrameColumns(data);
    var r := GenerateChart(data, chartType, lastIsNumeric);
    assert KindOf(chartType).Some? <==> chartType in ["bar", "line", "scatter"];
    if data == [] {
      assert columns == [];
    } else if columns == [] {
      assert r == Message(NoDataMessage);
    } else if |columns| < 2 {
      assert r == Message(InsufficientColumnsMessage);
    } else if KindOf(chartType).None? {
      assert r == Message(UnsupportedPrefix + chartType);
    } else {
      assert r.Chart?;
    }
  }

  /**
   * A figure is drawn on two columns of the frame chosen by the axis
   * heuristic, titled "y by x", "y over x" or "y vs x" after the chart type,
   * with underscore-free axis titles and the white template.
   */
  lemma ChartFigure(data: seq<Row>, chartType: string, lastIsNumeric: bool)
    requires GenerateChart(data, chartType, lastIsNumeric).Chart?
    ensures var f := GenerateChart(data, chartType, lastIsNumeric).figure;
      && |FrameColumns(data)| >= 2
      && Axes(f.x, f.y) == ChooseAxes(FrameColumns(data), lastIsNumeric)
      && f.x in FrameColumns(data) && f.y in FrameColumns(data)
      && KindName(f.kind) == chartType
      && f.frame == data
      && (chartType == "bar" ==> f.title == f.y + " by " + f.x)
      && (chartType == "line" ==> f.title == f.y + " over " + f.x)
      && (chartType == "scatter" ==> f.title == f.y + " vs " + f.x)
      && '_' !in f.xAxisTitle && '_' !in f.yAxisTitle
      && |f.xAxisTitle| == |f.x| && |f.yAxisTitle| == |f.y|
      && f.template == LayoutTemplate
  {
    AxesAreColumns(FrameColumns(data), lastIsNumeric);
  }
}
