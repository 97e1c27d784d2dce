/**
 * Elapsed-time derivation (extract_datetime_col) and the time window of the
 * summaries (get_time_window and the row mask of preview_summary / export_summary).
 */
module TimeNormalizer {
  import opened Wrappers
  import opened Text
  import opened Tables

  /** A parsed timestamp in nanoseconds since the epoch, or NaT. */
  datatype Stamp = NaT | At(ns: int)

  /**
   * pd.to_datetime on one non-blank cell: a timestamp, NaT (for text such as
   * "NaT"), or None when it raises.
   */
  type StampParser = Cell -> Option<Stamp>

  /** One cell through pd.to_datetime: a blank is NaT; None when the whole conversion would raise. */
  function ToStamp(c: Cell, parseTs: StampParser): Option<Stamp>
  {
    if c.Missing? then Some(NaT) else parseTs(c)
  }

  /**
   * The timestamp path succeeds: pd.to_datetime does not raise on any cell and
   * t.iloc[0] exists (an empty column raises IndexError and takes the fallback).
   */
  predicate UsesTimestamps(cells: seq<Cell>, parseTs: StampParser)
  {
    |cells| > 0 && forall i :: 0 <= i < |cells| ==> ToStamp(cells[i], parseTs).Some?
  }

  const NanosPerSecond: real := 1_000_000_000.0

  /** (t - t0).total_seconds(); NaT on either side gives NaN. */
  function SecondsSince(t0: Stamp, t: Stamp): Option<real>
  {
    if t0.At? && t.At? then Some((t.ns - t0.ns) as real / NanosPerSecond) else None
  }

  /**
   * extract_datetime_col: seconds since the first row's timestamp when the column
   * converts to timestamps, otherwise the column coerced to numbers as it stands.
   */
  function ElapsedSeconds(cells: seq<Cell>, parseTs: StampParser, parseNum: NumberParser): (r: seq<Option<real>>)
    ensures |r| == |cells|
  {
    if UsesTimestamps(cells, parseTs) then
      var t0 := ToStamp(cells[0], parseTs).value;
      seq(|cells|, i requires 0 <= i < |cells| => SecondsSince(t0, ToStamp(cells[i], parseTs).value))
    else
      seq(|cells|, i requires 0 <= i < |cells| => Coerce(cells[i], parseNum))
  }

  /** On the timestamp path the first row is the origin: its elapsed time is zero. */
  lemma ElapsedStartsAtZero(cells: seq<Cell>, parseTs: StampParser, parseNum: NumberParser)
    requires UsesTimestamps(cells, parseTs) && ToStamp(cells[0], parseTs).value.At?
    ensures ElapsedSeconds(cells, parseTs, parseNum)[0] == Some(0.0)
  {
  }

  /** On the timestamp path elapsed times keep the spacing of the timestamps. */
  lemma ElapsedKeepsSpacing(cells: seq<Cell>, parseTs: StampParser, parseNum: NumberParser, i: nat, j: nat)
    requires UsesTimestamps(cells, parseTs) && ToStamp(cells[0], parseTs).value.At?
    requires i < |cells| && j < |cells|
    requires ToStamp(cells[i], parseTs).value.At? && ToStamp(cells[j], parseTs).value.At?
    ensures var r := ElapsedSeconds(cells, parseTs, parseNum);
      r[i].Some? && r[j].Some? &&
      r[j].value - r[i].value == (ToStamp(cells[j], parseTs).value.ns - ToStamp(cells[i], parseTs).value.ns) as real / NanosPerSecond
  {
  }

  /** A NaT origin (a blank first row, or one that parses to NaT) leaves every elapsed time missing. */
  lemma NaTOriginBlanksAll(cells: seq<Cell>, parseTs: StampParser, parseNum: NumberParser, i: nat)
    requires UsesTimestamps(cells, parseTs) && ToStamp(cells[0], parseTs).value.NaT? && i < |cells|
    ensures ElapsedSeconds(cells, parseTs, parseNum)[i] == None
  {
  }

  /** The numeric fallback does not rebase: each row keeps its own coerced value. */
  lemma FallbackNotRebased(cells: seq<Cell>, parseTs: StampParser, parseNum: NumberParser, i: nat)
    requires !UsesTimestamps(cells, parseTs) && i < |cells|
    ensures ElapsedSeconds(cells, parseTs, parseNum)[i] == Coerce(cells[i], parseNum)
  {
  }

  // ---------------------------------------------------------------- time window

  /** float(s) on already-stripped text: None when it raises. */
  type FloatParser = string -> Option<real>

  /** pd.to_datetime(s) on already-stripped text: a moment, or None when it raises. */
  type DateParser = string -> Option<int>

  /** What parse_time returns when it does not return None. */
  datatype ParsedTime = Seconds(s: real) | Moment(ns: int)

  /** parse_time: blank gives None; otherwise float first, then datetime, else None. */
  function ParseTime(text: string, parseFloat: FloatParser, parseDate: DateParser): Option<ParsedTime>
  {
    var s := Strip(text);
    if s == [] then None
    else match parseFloat(s)
      case Some(v) => Some(Seconds(v))
      case None =>
        match parseDate(s)
        case Some(ns) => Some(Moment(ns))
        case None => None
  }

  /** An optional (start, end) range of elapsed seconds. */
  datatype Window = Window(start: Option<real>, end: Option<real>)

  /** Only a float bound is honoured. */
  function AsSeconds(p: Option<ParsedTime>): Option<real>
  {
    if p.Some? && p.value.Seconds? then Some(p.value.s) else None
  }

  /** get_time_window over the two text fields. */
  function TimeWindow(startText: string, endText: string, parseFloat: FloatParser, parseDate: DateParser): (w: Window)
  {
    Window(AsSeconds(ParseTime(startText, parseFloat, parseDate)), AsSeconds(ParseTime(endText, parseFloat, parseDate)))
  }

  /** A bound is present exactly when its stripped text parses as a float, and then it is that float. */
  lemma TimeWindowBound(text: string, other: string, parseFloat: FloatParser, parseDate: DateParser)
    ensures TimeWindow(text, other, parseFloat, parseDate).start ==
      (if Strip(text) == [] then None else parseFloat(Strip(text)))
    ensures TimeWindow(other, text, parseFloat, parseDate).end ==
      (if Strip(text) == [] then None else parseFloat(Strip(text)))
  {
  }

  /** Text that parses as a datetime but not as a float is dropped, not converted. */
  lemma DateOnlyBoundIgnored(text: string, other: string, parseFloat: FloatParser, parseDate: DateParser)
    requires Strip(text) != [] && parseFloat(Strip(text)).None? && parseDate(Strip(text)).Some?
    ensures ParseTime(text, parseFloat, parseDate) == Some(Moment(parseDate(Strip(text)).value))
    ensures TimeWindow(text, other, parseFloat, parseDate).start == None
  {
  }

  /** The mask of one row: (start absent or t >= start) and (end absent or t <= end); NaN compares false. */
  predicate InWindow(t: Option<real>, w: Window)
  {
    && (w.start.None? || (t.Some? && t.value >= w.start.value))
    && (w.end.None? || (t.Some? && t.value <= w.end.value))
  }

  /**
   * The row mask over an elapsed-time series: one entry per row; with no bound
   * every row is in; with a bound a row without an elapsed time is out; a row
   * before the start or after the end is out; and a row between the bounds,
   * either bound included, is in.
   */
  function Mask(tsec: seq<Option<real>>, w: Window): (m: seq<bool>)
    ensures |m| == |tsec|
    ensures w.start.None? && w.end.None? ==> forall i :: 0 <= i < |m| ==> m[i]
    ensures w.start.Some? || w.end.Some? ==> forall i :: 0 <= i < |m| && tsec[i].None? ==> !m[i]
    ensures forall i :: 0 <= i < |m| && tsec[i].Some? && w.start.Some? && tsec[i].value < w.start.value ==> !m[i]
    ensures forall i :: 0 <= i < |m| && tsec[i].Some? && w.end.Some? && tsec[i].value > w.end.value ==> !m[i]
    ensures forall i :: (0 <= i < |m| && tsec[i].Some?
                          && (w.start.None? || w.start.value <= tsec[i].value)
                          && (w.end.None? || tsec[i].value <= w.end.value)) ==> m[i]
  {
    seq(|tsec|, i requires 0 <= i < |tsec| => InWindow(tsec[i], w))
  }

  /** With no bound every row is included, even one without an elapsed time. */
  lemma UnboundedIncludesAll(t: Option<real>)
    ensures InWindow(t, Window(None, None))
  {
  }

  /** With any bound, a row whose elapsed time is missing is excluded. */
  lemma MissingExcludedWhenBounded(w: Window)
    requires w.start.Some? || w.end.Some?
    ensures !InWindow(None, w)
  {
  }

  /** `narrow` lies inside `wide`: every bound of `wide` is present in `narrow` and at least as tight. */
  predicate Narrower(narrow: Window, wide: Window)
  {
    && (wide.start.Some? ==> narrow.start.Some? && narrow.start.value >= wide.start.value)
    && (wide.end.Some? ==> narrow.end.Some? && narrow.end.value <= wide.end.value)
  }

  /** Number of rows a mask includes. */
  function CountIncluded(m: seq<bool>): nat
  {
    if m == [] then 0 else CountIncluded(m[..|m| - 1]) + (if m[|m| - 1] then 1 else 0)
  }

  /** Narrowing the window never includes more rows. */
  lemma {:induction false} NarrowerIncludesFewer(tsec: seq<Option<real>>, narrow: Window, wide: Window)
    requires Narrower(narrow, wide)
    ensures CountIncluded(Mask(tsec, narrow)) <= CountIncluded(Mask(tsec, wide))
  {
    if tsec != [] {
      var init := tsec[..|tsec| - 1];
      NarrowerIncludesFewer(init, narrow, wide);
      assert Mask(tsec, narrow)[..|tsec| - 1] == Mask(init, narrow);
      assert Mask(tsec, wide)[..|tsec| - 1] == Mask(init, wide);
    }
  }

  /** A window whose bounds cover every elapsed time includes every row, like no window at all. */
  lemma CoveringWindowIncludesAll(tsec: seq<Option<real>>, lo: real, hi: real)
    requires forall i :: 0 <= i < |tsec| ==> tsec[i].Some? && lo <= tsec[i].value <= hi
    ensures Mask(tsec, Window(Some(lo), Some(hi))) == Mask(tsec, Window(None, None))
  {
  }
}
