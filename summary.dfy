/**
 * The summary engine of preview_summary / export_summary: which files give a
 * row, the masked and coerced slice of each axis column, one value per
 * (axis, metric) pair, and the "File", "<col>-<metric>" header; plus the
 * metric list get_selected_summary_metrics hands to it.
 */
module Summary {
  import opened Wrappers
  import opened Text
  import opened Tables
  import opened TimeNormalizer
  import opened Statistics

  /** Concatenation of blocks, in order. */
  function Flatten<T>(blocks: seq<seq<T>>): seq<T>
  {
    if blocks == [] then [] else Flatten(blocks[..|blocks| - 1]) + blocks[|blocks| - 1]
  }

  /** Flattening one more block appends that block. */
  lemma FlattenSnoc<T>(blocks: seq<seq<T>>, a: nat)
    requires a < |blocks|
    ensures Flatten(blocks[..a + 1]) == Flatten(blocks[..a]) + blocks[a]
  {
    assert blocks[..a + 1][..a] == blocks[..a];
  }

  lemma {:induction false} FlattenLength<T>(blocks: seq<seq<T>>, width: nat)
    requires forall k :: 0 <= k < |blocks| ==> |blocks[k]| == width
    ensures |Flatten(blocks)| == |blocks| * width
  {
    if blocks != [] {
      FlattenLength(blocks[..|blocks| - 1], width);
      assert |blocks| * width == (|blocks| - 1) * width + width;
    }
  }

  /** Blocks of equal width laid end to end: element m of block a sits at a * width + m. */
  lemma {:induction false} FlattenAt<T>(blocks: seq<seq<T>>, width: nat, a: nat, m: nat)
    requires forall k :: 0 <= k < |blocks| ==> |blocks[k]| == width
    requires a < |blocks| && m < width
    ensures a * width + m < |Flatten(blocks)|
    ensures Flatten(blocks)[a * width + m] == blocks[a][m]
  {
    var n := |blocks| - 1;
    var init := blocks[..n];
    FlattenLength(init, width);
    FlattenLength(blocks, width);
    if a < n {
      FlattenAt(init, width, a, m);
      assert a * width + m < |Flatten(init)|;
    } else {
      assert a * width == |Flatten(init)|;
    }
  }

  /** The masked rows of one column, coerced to numbers: pd.to_numeric(df[col][mask], errors="coerce"). */
  function Masked(cells: seq<Cell>, mask: seq<bool>, parseNum: NumberParser): (vals: seq<Option<real>>)
    requires |mask| == |cells|
    ensures |vals| <= |cells|
  {
    if cells == [] then []
    else
      var n := |cells| - 1;
      Masked(cells[..n], mask[..n], parseNum) + (if mask[n] then [Coerce(cells[n], parseNum)] else [])
  }

  /** Only rows the mask includes reach the metrics: an all-false mask leaves an empty slice. */
  lemma {:induction false} MaskedNothing(cells: seq<Cell>, mask: seq<bool>, parseNum: NumberParser)
    requires |mask| == |cells|
    requires forall i :: 0 <= i < |mask| ==> !mask[i]
    ensures Masked(cells, mask, parseNum) == []
  {
    if cells != [] {
      MaskedNothing(cells[..|cells| - 1], mask[..|cells| - 1], parseNum);
    }
  }

  /** The slice of an axis column, or the empty series when the table lacks the column. */
  function AxisSlice(t: Table, col: string, mask: seq<bool>, parseNum: NumberParser): seq<Option<real>>
    requires |mask| == t.height
  {
    match Lookup(t, col)
    case Some(cells) => Masked(cells, mask, parseNum)
    case None => []
  }

  /** One block per axis column, one value per metric. */
  function ValueBlocks(t: Table, cols: seq<string>, metrics: seq<Metric>, mask: seq<bool>, parseNum: NumberParser): (b: seq<seq<Stat>>)
    requires |mask| == t.height
    ensures |b| == |cols|
    ensures forall a :: 0 <= a < |cols| ==> |b[a]| == |metrics|
  {
    seq(|cols|, a requires 0 <= a < |cols| =>
      seq(|metrics|, m requires 0 <= m < |metrics| => Compute(metrics[m], AxisSlice(t, cols[a], mask, parseNum))))
  }

  /** One block of "<col>-<metric>" names per axis column. */
  function NameBlocks(cols: seq<string>, metrics: seq<Metric>): (b: seq<seq<string>>)
    ensures |b| == |cols|
    ensures forall a :: 0 <= a < |cols| ==> |b[a]| == |metrics|
  {
    seq(|cols|, a requires 0 <= a < |cols| =>
      seq(|metrics|, m requires 0 <= m < |metrics| => cols[a] + "-" + MetricName(metrics[m])))
  }

  /** The header of the summary table. */
  function Header(cols: seq<string>, metrics: seq<Metric>): seq<string>
  {
    ["File"] + Flatten(NameBlocks(cols, metrics))
  }

  /** A row of the summary: the file's basename, then its values. */
  datatype SummaryRow = SummaryRow(file: string, values: seq<Stat>)

  /** The row of one loaded table whose time column holds `timeCells`. */
  function FileRow(f: string, t: Table, timeCells: seq<Cell>, cols: seq<string>, metrics: seq<Metric>,
                   w: Window, parseTs: StampParser, parseNum: NumberParser): SummaryRow
    requires |timeCells| == t.height
  {
    var mask := Mask(ElapsedSeconds(timeCells, parseTs, parseNum), w);
    SummaryRow(Basename(f), Flatten(ValueBlocks(t, cols, metrics, mask, parseNum)))
  }

  /** A selected file gives a row iff it is loaded and its table has the time column. */
  predicate Summarised(f: string, loaded: map<string, Table>, timeCol: string)
  {
    f in loaded && HasColumn(loaded[f], timeCol)
  }

  function RowOf(f: string, loaded: map<string, Table>, timeCol: string, cols: seq<string>, metrics: seq<Metric>,
                 w: Window, parseTs: StampParser, parseNum: NumberParser): SummaryRow
    requires Summarised(f, loaded, timeCol)
  {
    FileRow(f, loaded[f], Lookup(loaded[f], timeCol).value, cols, metrics, w, parseTs, parseNum)
  }

  /** The summary rows, in the order of the selected files. */
  function SummaryRows(files: seq<string>, loaded: map<string, Table>, timeCol: string, cols: seq<string>,
                       metrics: seq<Metric>, w: Window, parseTs: StampParser, parseNum: NumberParser): seq<SummaryRow>
  {
    if files == [] then []
    else
      var f := files[|files| - 1];
      SummaryRows(files[..|files| - 1], loaded, timeCol, cols, metrics, w, parseTs, parseNum)
        + (if Summarised(f, loaded, timeCol) then [RowOf(f, loaded, timeCol, cols, metrics, w, parseTs, parseNum)] else [])
  }

  /** The values of one row: for each axis column its slice, then each metric over it. */
  method RowValues(t: Table, cols: seq<string>, metrics: seq<Metric>, mask: seq<bool>, parseNum: NumberParser)
    returns (values: seq<Stat>)
    requires |mask| == t.height
    ensures values == Flatten(ValueBlocks(t, cols, metrics, mask, parseNum))
  {
    ghost var blocks := ValueBlocks(t, cols, metrics, mask, parseNum);
    values := [];
    for a := 0 to |cols|
      invariant values == Flatten(blocks[..a])
    {
      var vals := AxisSlice(t, cols[a], mask, parseNum);
      ghost var block := blocks[a];
      for m := 0 to |metrics|
        invariant values == Flatten(blocks[..a]) + block[..m]
      {
        assert block[m] == Compute(metrics[m], vals);
        assert block[..m + 1] == block[..m] + [block[m]];
        values := values + [Compute(metrics[m], vals)];
      }
      assert block[..|metrics|] == block;
      FlattenSnoc(blocks, a);
    }
    assert blocks[..|cols|] == blocks;
  }

  /** The header loop: "File", then "<col>-<metric>" in axis order, then metric order. */
  method HeaderColumns(cols: seq<string>, metrics: seq<Metric>) returns (columns: seq<string>)
    ensures columns == Header(cols, metrics)
  {
    ghost var names := NameBlocks(cols, metrics);
    var flat: seq<string> := [];
    for a := 0 to |cols|
      invariant flat == Flatten(names[..a])
    {
      ghost var block := names[a];
      for m := 0 to |metrics|
        invariant flat == Flatten(names[..a]) + block[..m]
      {
        var name := cols[a] + "-" + MetricName(metrics[m]);
        assert block[m] == name;
        assert block[..m + 1] == block[..m] + [name];
        flat := flat + [name];
      }
      assert block[..|metrics|] == block;
      FlattenSnoc(names, a);
    }
    assert names[..|cols|] == names;
    columns := ["File"] + flat;
  }

  /**
   * The summary loops of preview_summary and export_summary: one row per selected
   * file that is loaded and has the time column, then the header.
   */
  method SummaryTable(files: seq<string>, loaded: map<string, Table>, timeCol: string, cols: seq<string>,
                      metrics: seq<Metric>, w: Window, parseTs: StampParser, parseNum: NumberParser)
    returns (columns: seq<string>, rows: seq<SummaryRow>)
    ensures rows == SummaryRows(files, loaded, timeCol, cols, metrics, w, parseTs, parseNum)
    ensures columns == Header(cols, metrics)
  {
    rows := [];
    for i := 0 to |files|
      invariant rows == SummaryRows(files[..i], loaded, timeCol, cols, metrics, w, parseTs, parseNum)
    {
      assert files[..i + 1][..i] == files[..i];
      var f := files[i];
      if f in loaded {
        var t := loaded[f];
        match Lookup(t, timeCol) {
          case None =>
          case Some(timeCells) =>
            var tsec := ElapsedSeconds(timeCells, parseTs, parseNum);
            var mask := Mask(tsec, w);
            var values := RowValues(t, cols, metrics, mask, parseNum);
            rows := rows + [SummaryRow(Basename(f), values)];
        }
      }
    }
    assert files[..|files|] == files;
    columns := HeaderColumns(cols, metrics);
  }

  // ---------------------------------------------------------------- layout properties

  /** Every row is as wide as the header: 1 + |axes| * |metrics| cells. */
  lemma RowMatchesHeader(f: string, t: Table, timeCells: seq<Cell>, cols: seq<string>, metrics: seq<Metric>,
                         w: Window, parseTs: StampParser, parseNum: NumberParser)
    requires |timeCells| == t.height
    ensures |FileRow(f, t, timeCells, cols, metrics, w, parseTs, parseNum).values| == |cols| * |metrics|
    ensures |Header(cols, metrics)| == 1 + |cols| * |metrics|
  {
    var mask := Mask(ElapsedSeconds(timeCells, parseTs, parseNum), w);
    FlattenLength(ValueBlocks(t, cols, metrics, mask, parseNum), |metrics|);
    FlattenLength(NameBlocks(cols, metrics), |metrics|);
  }

  /** Axis order, then metric order: the value for axis a and metric m sits at a * |metrics| + m of the row's values. */
  lemma ValueLayout(t: Table, cols: seq<string>, metrics: seq<Metric>, mask: seq<bool>, parseNum: NumberParser, a: nat, m: nat)
    requires |mask| == t.height
    requires a < |cols| && m < |metrics|
    ensures var values := Flatten(ValueBlocks(t, cols, metrics, mask, parseNum));
      a * |metrics| + m < |values| && values[a * |metrics| + m] == Compute(metrics[m], AxisSlice(t, cols[a], mask, parseNum))
  {
    FlattenAt(ValueBlocks(t, cols, metrics, mask, parseNum), |metrics|, a, m);
  }

  /** ... and its header is "<col>-<metric>", at position 1 + a * |metrics| + m of the header. */
  lemma HeaderLayout(cols: seq<string>, metrics: seq<Metric>, a: nat, m: nat)
    requires a < |cols| && m < |metrics|
    ensures var header := Header(cols, metrics);
      1 + a * |metrics| + m < |header| && header[1 + a * |metrics| + m] == cols[a] + "-" + MetricName(metrics[m])
  {
    FlattenAt(NameBlocks(cols, metrics), |metrics|, a, m);
  }

  /** A column the table lacks yields NaN for every metric. */
  lemma AbsentColumnAllNaN(t: Table, cols: seq<string>, metrics: seq<Metric>, mask: seq<bool>, parseNum: NumberParser, a: nat, m: nat)
    requires |mask| == t.height
    requires a < |cols| && m < |metrics| && !HasColumn(t, cols[a])
    ensures var values := Flatten(ValueBlocks(t, cols, metrics, mask, parseNum));
      a * |metrics| + m < |values| && values[a * |metrics| + m] == NaN
  {
    ValueLayout(t, cols, metrics, mask, parseNum, a, m);
  }

  /** A window that covers every elapsed time gives the same row as no window at all. */
  lemma CoveringWindowSameRow(f: string, t: Table, timeCells: seq<Cell>, cols: seq<string>, metrics: seq<Metric>,
                              lo: real, hi: real, parseTs: StampParser, parseNum: NumberParser)
    requires |timeCells| == t.height
    requires var tsec := ElapsedSeconds(timeCells, parseTs, parseNum);
      forall i :: 0 <= i < |tsec| ==> tsec[i].Some? && lo <= tsec[i].value <= hi
    ensures FileRow(f, t, timeCells, cols, metrics, Window(Some(lo), Some(hi)), parseTs, parseNum)
         == FileRow(f, t, timeCells, cols, metrics, Window(None, None), parseTs, parseNum)
  {
    CoveringWindowIncludesAll(ElapsedSeconds(timeCells, parseTs, parseNum), lo, hi);
  }

  /**
   * The rows correspond, in order, to exactly the selected files that are loaded
   * and have the time column: `idx` gives the position of each row's file.
   */
  lemma {:induction false} SummaryRowsIndices(files: seq<string>, loaded: map<string, Table>, timeCol: string, cols: seq<string>,
                                              metrics: seq<Metric>, w: Window, parseTs: StampParser, parseNum: NumberParser)
    returns (idx: seq<nat>)
    ensures var rows := SummaryRows(files, loaded, timeCol, cols, metrics, w, parseTs, parseNum);
      && |idx| == |rows|
      && (forall k :: 0 <= k < |idx| ==>
            && idx[k] < |files| && Summarised(files[idx[k]], loaded, timeCol)
            && rows[k] == RowOf(files[idx[k]], loaded, timeCol, cols, metrics, w, parseTs, parseNum))
      && (forall k, l :: 0 <= k < l < |idx| ==> idx[k] < idx[l])
      && (forall j :: 0 <= j < |files| ==> (j in idx <==> Summarised(files[j], loaded, timeCol)))
  {
    if files == [] {
      idx := [];
    } else {
      var n := |files| - 1;
      var init := files[..n];
      idx := SummaryRowsIndices(init, loaded, timeCol, cols, metrics, w, parseTs, parseNum);
      if Summarised(files[n], loaded, timeCol) {
        idx := idx + [n];
      }
      forall j | 0 <= j < n
        ensures files[j] == init[j]
      {
      }
    }
  }

  // ---------------------------------------------------------------- a worked scenario

  /** A log with header Time, RPM, Temp and the rows (0, 1000, 80), (1, 1200, 85), (2, 1100, 90). */
  function ScenarioTable(): (t: Table)
    ensures Lookup(t, "Time") == Some([Num(0.0), Num(1.0), Num(2.0)])
    ensures Lookup(t, "RPM") == Some([Num(1000.0), Num(1200.0), Num(1100.0)])
  {
    Frame(3, [Column("Time", [Num(0.0), Num(1.0), Num(2.0)]),
              Column("RPM", [Num(1000.0), Num(1200.0), Num(1100.0)]),
              Column("Temp", [Num(80.0), Num(85.0), Num(90.0)])])
  }

  /** When pd.to_datetime refuses the Time column, the fallback keeps the values 0, 1, 2, and [0, 1] keeps rows 0 and 1. */
  lemma ScenarioMaskFallback(parseTs: StampParser, parseNum: NumberParser)
    requires forall c :: parseTs(c).None?
    ensures Mask(ElapsedSeconds([Num(0.0), Num(1.0), Num(2.0)], parseTs, parseNum), Window(Some(0.0), Some(1.0)))
         == [true, true, false]
  {
    var time := [Num(0.0), Num(1.0), Num(2.0)];
    assert ToStamp(time[0], parseTs).None?;
    assert ElapsedSeconds(time, parseTs, parseNum) == [Some(0.0), Some(1.0), Some(2.0)];
  }

  /** When pd.to_datetime reads the numbers as nanoseconds, all three rows lie within [0, 1] second. */
  lemma ScenarioMaskStamps(parseTs: StampParser, parseNum: NumberParser)
    requires forall v :: parseTs(Num(v)) == Some(At(v.Floor))
    ensures Mask(ElapsedSeconds([Num(0.0), Num(1.0), Num(2.0)], parseTs, parseNum), Window(Some(0.0), Some(1.0)))
         == [true, true, true]
  {
    var time := [Num(0.0), Num(1.0), Num(2.0)];
    assert parseTs(Num(0.0)) == Some(At(0)) && parseTs(Num(1.0)) == Some(At(1)) && parseTs(Num(2.0)) == Some(At(2));
    assert UsesTimestamps(time, parseTs) by {
      forall i | 0 <= i < 3
        ensures ToStamp(time[i], parseTs).Some?
      {
      }
    }
    assert ElapsedSeconds(time, parseTs, parseNum) == [Some(0.0), Some(1.0 / NanosPerSecond), Some(2.0 / NanosPerSecond)];
  }

  /** The RPM values the two masks let through. */
  lemma ScenarioSlices(parseNum: NumberParser)
    ensures var rpm := [Num(1000.0), Num(1200.0), Num(1100.0)];
      && Masked(rpm, [true, true, false], parseNum) == [Some(1000.0), Some(1200.0)]
      && Masked(rpm, [true, true, true], parseNum) == [Some(1000.0), Some(1200.0), Some(1100.0)]
  {
    var rpm := [Num(1000.0), Num(1200.0), Num(1100.0)];
    assert rpm[..2] == [Num(1000.0), Num(1200.0)] && rpm[..2][..1] == [Num(1000.0)] && [Num(1000.0)][..0] == [];
    assert Masked([Num(1000.0)], [true], parseNum) == [Some(1000.0)];
    assert Masked(rpm[..2], [true, true], parseNum) == [Some(1000.0), Some(1200.0)];
  }

  /** Both slices average to 1100. */
  lemma ScenarioMeans()
    ensures Compute(Mean, [Some(1000.0), Some(1200.0)]) == Value(1100.0)
    ensures Compute(Mean, [Some(1000.0), Some(1200.0), Some(1100.0)]) == Value(1100.0)
  {
    assert Present([Some(1100.0)]) == [1100.0];
    assert Present([Some(1200.0), Some(1100.0)]) == [1200.0, 1100.0];
    assert Present([Some(1000.0), Some(1200.0), Some(1100.0)]) == [1000.0, 1200.0, 1100.0];
    assert Present([Some(1200.0)]) == [1200.0];
    assert Present([Some(1000.0), Some(1200.0)]) == [1000.0, 1200.0];
    assert Sum([1000.0, 1200.0]) == 2200.0;
    assert Sum([1000.0, 1200.0, 1100.0]) == 3300.0;
  }

  /**
   * Summarising RPM by its mean over the window [0, 1] gives 1100 for the file
   * A.txt, whichever way the numeric Time column is read: when pd.to_datetime
   * refuses it, the numeric fallback keeps rows 0 and 1, (1000 + 1200) / 2; when
   * it reads the numbers as nanoseconds since the epoch, every row lies within
   * one second of the first, (1000 + 1200 + 1100) / 3.
   */
  lemma ScenarioRpmMean(parseTs: StampParser, parseNum: NumberParser)
    requires (forall c :: parseTs(c).None?) || (forall v :: parseTs(Num(v)) == Some(At(v.Floor)))
    ensures var t := ScenarioTable();
      FileRow("logs/A.txt", t, Lookup(t, "Time").value, ["RPM"], [Mean], Window(Some(0.0), Some(1.0)), parseTs, parseNum)
        == SummaryRow("A.txt", [Value(1100.0)])
  {
    var t := ScenarioTable();
    var mask := Mask(ElapsedSeconds(Lookup(t, "Time").value, parseTs, parseNum), Window(Some(0.0), Some(1.0)));
    if forall c :: parseTs(c).None? {
      ScenarioMaskFallback(parseTs, parseNum);
    } else {
      ScenarioMaskStamps(parseTs, parseNum);
    }
    ScenarioSlices(parseNum);
    ScenarioMeans();
    SingleBlock(t, "RPM", Mean, mask, parseNum);
    ScenarioBasename();
  }

  /** With one axis column the table has and one metric, the row holds that metric of the column's masked values. */
  lemma SingleBlock(t: Table, col: string, m: Metric, mask: seq<bool>, parseNum: NumberParser)
    requires |mask| == t.height && HasColumn(t, col)
    ensures Flatten(ValueBlocks(t, [col], [m], mask, parseNum)) == [Compute(m, Masked(Lookup(t, col).value, mask, parseNum))]
  {
    var values := Flatten(ValueBlocks(t, [col], [m], mask, parseNum));
    FlattenLength(ValueBlocks(t, [col], [m], mask, parseNum), 1);
    ValueLayout(t, [col], [m], mask, parseNum, 0, 0);
    assert |values| == 1;
  }

  lemma ScenarioBasename()
    ensures Basename("logs/A.txt") == "A.txt"
  {
  }

  // ---------------------------------------------------------------- metric selection

  /** The metrics named in the custom dialog's text, in order: each piece stripped, lower-cased and kept if known. */
  function ChosenMetrics(pieces: seq<string>): seq<Metric>
  {
    if pieces == [] then []
    else
      var p := ParseMetric(Lower(Strip(pieces[0])));
      (if p.Some? then [p.value] else []) + ChosenMetrics(pieces[1..])
  }

  function MetricNames(ms: seq<Metric>): (names: seq<string>)
    ensures |names| == |ms|
    ensures forall k :: 0 <= k < |ms| ==> names[k] == MetricName(ms[k])
  {
    if ms == [] then [] else [MetricName(ms[0])] + MetricNames(ms[1..])
  }

  /** The text the custom dialog starts with: ",".join(custom_metrics_selected). */
  function DialogText(remembered: seq<Metric>): string
  {
    JoinWith(MetricNames(remembered), ',')
  }

  /**
   * get_selected_summary_metrics: the metrics for the chosen summary type, and the
   * remembered custom selection afterwards. `dialog` is the text the operator
   * confirms in the custom dialog, or None when it is cancelled.
   */
  function SelectMetrics(summaryType: string, dialog: Option<string>, remembered: seq<Metric>): (r: (seq<Metric>, seq<Metric>))
    ensures r.0 != []
    ensures r.1 == remembered || r.1 == r.0
  {
    var v := Lower(summaryType);
    if v == "mean" then ([Mean], remembered)
    else if v == "median" then ([Median], remembered)
    else if v == "min/max" then ([Min, Max], remembered)
    else if v == "std dev" then ([Std], remembered)
    else if StartsWith(v, "custom") then
      if dialog.Some? && ChosenMetrics(Split(dialog.value, ',')) != [] then
        var chosen := ChosenMetrics(Split(dialog.value, ','));
        (chosen, chosen)
      else ([Mean], remembered)
    else ([Mean], remembered)
  }

  lemma LowerOfLowercase(s: string)
    requires forall i :: 0 <= i < |s| ==> !('A' <= s[i] <= 'Z')
    ensures Lower(s) == s
  {
  }

  /** A metric's own name survives the dialog's strip and lower-casing and names it again. */
  lemma OwnNameChosen(m: Metric)
    ensures ParseMetric(Lower(Strip(MetricName(m)))) == Some(m)
  {
    var name := MetricName(m);
    StripNoop(name);
    LowerOfLowercase(name);
    ParseMetricName(m, name);
  }

  lemma {:induction false} ChosenFromNames(ms: seq<Metric>)
    ensures ChosenMetrics(MetricNames(ms)) == ms
  {
    if ms != [] {
      var names := MetricNames(ms);
      OwnNameChosen(ms[0]);
      ChosenFromNames(ms[1..]);
      assert names[1..] == MetricNames(ms[1..]);
      assert ChosenMetrics(names) == [ms[0]] + ChosenMetrics(MetricNames(ms[1..]));
      assert [ms[0]] + ms[1..] == ms;
    }
  }

  /** Confirming the custom dialog without editing its text keeps the remembered selection. */
  lemma DialogTextRoundTrip(remembered: seq<Metric>)
    requires remembered != []
    ensures ChosenMetrics(Split(DialogText(remembered), ',')) == remembered
  {
    var names := MetricNames(remembered);
    forall k | 0 <= k < |names|
      ensures ',' !in names[k]
    {
      match remembered[k]
      case Mean =>
      case Median =>
      case Min =>
      case Max =>
      case Std =>
    }
    SplitJoin(names, ',');
    ChosenFromNames(remembered);
  }

  /** The call as written: the custom branch uses QInputDialog, which is never imported, and raises NameError. */
  function SelectMetricsAsWritten(summaryType: string, remembered: seq<Metric>): Result<seq<Metric>, string>
  {
    var v := Lower(summaryType);
    if v != "mean" && v != "median" && v != "min/max" && v != "std dev" && StartsWith(v, "custom") then
      Err("NameError: name 'QInputDialog' is not defined")
    else
      Ok(SelectMetrics(summaryType, None, remembered).0)
  }

  /** As written, choosing "Custom…" never yields metrics; the corrected call always does. */
  lemma CustomSummaryRaisesAsWritten(dialog: Option<string>, remembered: seq<Metric>)
    ensures SelectMetricsAsWritten("Custom…", remembered).Err?
    ensures SelectMetrics("Custom…", dialog, remembered).0 != []
  {
    var v := Lower("Custom…");
    assert v[..6] == "custom";
  }
}
