/**
 * Column inference: which headers look like time columns (is_time_col), which
 * columns are numeric in a sample of the selected files (unique_numeric_columns),
 * and which names are offered as the time column (populate_column_choices).
 */
module Schema {
  import opened Wrappers
  import opened Text
  import opened Ordering
  import opened Tables

  const TimeTokens: seq<string> := ["time", "zaman", "date"]

  /** is_time_col: the lower-cased header contains "time", "zaman" or "date". */
  function IsTimeCol(col: string): bool
  {
    var l := Lower(col);
    Contains(l, "time") || Contains(l, "zaman") || Contains(l, "date")
  }

  /** A header is time-like exactly when one of the tokens occurs somewhere in its lower-cased form. */
  lemma IsTimeColIff(col: string)
    ensures IsTimeCol(col) <==> exists k, i :: 0 <= k < |TimeTokens| && OccursAt(Lower(col), TimeTokens[k], i)
  {
    var l := Lower(col);
    ContainsIff(l, "time");
    ContainsIff(l, "zaman");
    ContainsIff(l, "date");
    assert TimeTokens[0] == "time" && TimeTokens[1] == "zaman" && TimeTokens[2] == "date";
  }

  /** The heuristic ignores case. */
  lemma IsTimeColIgnoresCase(col: string)
    ensures IsTimeCol(Lower(col)) == IsTimeCol(col)
  {
    LowerIdempotent(col);
  }

  // ---------------------------------------------------------------- numeric columns

  /** Names of the first `j` columns of a sample that convert with the strict pd.to_numeric. */
  ghost function NumericAmong(t: Table, parseNum: NumberParser, j: nat): set<string>
    requires j <= |t.columns|
  {
    set k | 0 <= k < j && Converts(t.columns[k].cells, parseNum) :: t.columns[k].name
  }

  /** The columns a file contributes: those of its 10-row sample that convert; none when the read raises. */
  ghost function NumericInFile(f: string, read: Reader, parseNum: NumberParser): set<string>
  {
    match read(f, Some(10))
    case Ok(t) => NumericAmong(t, parseNum, |t.columns|)
    case Err(_) => {}
  }

  /** The union, over the files, of the columns each one contributes. */
  ghost function NumericColumnSet(files: seq<string>, read: Reader, parseNum: NumberParser): set<string>
  {
    if files == [] then {}
    else NumericColumnSet(files[..|files| - 1], read, parseNum) + NumericInFile(files[|files| - 1], read, parseNum)
  }

  /** A column is offered iff some file's sample reads and has a column of that name that converts. */
  lemma {:induction false} NumericColumnSetIff(files: seq<string>, read: Reader, parseNum: NumberParser, c: string)
    ensures c in NumericColumnSet(files, read, parseNum) <==> exists j :: 0 <= j < |files| && c in NumericInFile(files[j], read, parseNum)
  {
    if files != [] {
      var init := files[..|files| - 1];
      NumericColumnSetIff(init, read, parseNum, c);
      if exists j :: 0 <= j < |files| && c in NumericInFile(files[j], read, parseNum) {
        var j :| 0 <= j < |files| && c in NumericInFile(files[j], read, parseNum);
        if j < |files| - 1 {
          assert files[j] == init[j];
        }
      }
      if exists j :: 0 <= j < |init| && c in NumericInFile(init[j], read, parseNum) {
        var j :| 0 <= j < |init| && c in NumericInFile(init[j], read, parseNum);
        assert init[j] == files[j];
      }
    }
  }

  /** Union semantics: selecting more files never takes a candidate column away. */
  lemma NumericColumnsMonotone(files: seq<string>, more: seq<string>, read: Reader, parseNum: NumberParser)
    requires forall f :: f in files ==> f in more
    ensures NumericColumnSet(files, read, parseNum) <= NumericColumnSet(more, read, parseNum)
  {
    forall c | c in NumericColumnSet(files, read, parseNum)
      ensures c in NumericColumnSet(more, read, parseNum)
    {
      NumericColumnSetIff(files, read, parseNum, c);
      var j :| 0 <= j < |files| && c in NumericInFile(files[j], read, parseNum);
      assert files[j] in more;
      var j' :| 0 <= j' < |more| && more[j'] == files[j];
      NumericColumnSetIff(more, read, parseNum, c);
    }
  }

  /**
   * unique_numeric_columns, with the decimal separator taken from the reader:
   * the sorted, duplicate-free list of the union of every file's numeric sample columns.
   */
  method UniqueNumericColumns(files: seq<string>, read: Reader, parseNum: NumberParser) returns (cols: seq<string>)
    ensures StrictlySorted(cols)
    ensures forall c :: c in cols <==> c in NumericColumnSet(files, read, parseNum)
  {
    var found: set<string> := {};
    for i := 0 to |files|
      invariant found == NumericColumnSet(files[..i], read, parseNum)
    {
      assert files[..i + 1][..i] == files[..i];
      match read(files[i], Some(10)) {
        case Ok(t) =>
          for j := 0 to |t.columns|
            invariant found == NumericColumnSet(files[..i], read, parseNum) + NumericAmong(t, parseNum, j)
          {
            if Converts(t.columns[j].cells, parseNum) {
              found := found + {t.columns[j].name};
            }
          }
        case Err(_) =>
      }
    }
    assert files[..|files|] == files;
    cols := SortedList(found);
  }

  /**
   * The numeric columns as populate_column_choices obtains them as written: with no
   * file selected the helper is skipped; otherwise its first statement reads the
   * undefined name `self` and raises NameError.
   */
  function NumericChoicesAsWritten(selected: seq<string>): Result<seq<string>, string>
  {
    if selected == [] then Ok([]) else Err("name 'self' is not defined")
  }

  /** Whenever a selected file has a numeric column to offer, the code as written raises instead. */
  lemma SelfDefect(selected: seq<string>, read: Reader, parseNum: NumberParser, c: string)
    requires c in NumericColumnSet(selected, read, parseNum)
    ensures NumericChoicesAsWritten(selected).Err?
  {
  }

  // ---------------------------------------------------------------- time column choices

  /** Time-like headers among the first `j` columns of a sample. */
  ghost function TimeLikeAmong(t: Table, j: nat): set<string>
    requires j <= |t.columns|
  {
    set k | 0 <= k < j && IsTimeCol(t.columns[k].name) :: t.columns[k].name
  }

  /** The time-like headers of a file's 5-row sample; none when the read raises. */
  ghost function TimeLikeInFile(f: string, read: Reader): set<string>
  {
    match read(f, Some(5))
    case Ok(t) => TimeLikeAmong(t, |t.columns|)
    case Err(_) => {}
  }

  /** dt_cols before the fallback: the union of every file's time-like headers. */
  ghost function TimeHeaderSet(files: seq<string>, read: Reader): set<string>
  {
    if files == [] then {}
    else TimeHeaderSet(files[..|files| - 1], read) + TimeLikeInFile(files[|files| - 1], read)
  }

  /** dt_cols after the fallback: the first numeric column stands in when no header looks like time. */
  ghost function TimeChoiceSet(files: seq<string>, read: Reader, numeric: seq<string>): set<string>
  {
    var dt := TimeHeaderSet(files, read);
    if dt == {} && numeric != [] then {numeric[0]} else dt
  }

  lemma {:induction false} TimeHeadersAreTimeLike(files: seq<string>, read: Reader, c: string)
    requires c in TimeHeaderSet(files, read)
    ensures IsTimeCol(c)
  {
    if c !in TimeLikeInFile(files[|files| - 1], read) {
      TimeHeadersAreTimeLike(files[..|files| - 1], read, c);
    }
  }

  /**
   * Every offered time column is a time-like header, except the fallback, which is
   * offered alone and only when no selected file has a time-like header.
   */
  lemma TimeChoicesExplained(files: seq<string>, read: Reader, numeric: seq<string>, c: string)
    requires c in TimeChoiceSet(files, read, numeric)
    ensures IsTimeCol(c) || (TimeHeaderSet(files, read) == {} && numeric != [] && c == numeric[0])
  {
    if TimeHeaderSet(files, read) != {} {
      TimeHeadersAreTimeLike(files, read, c);
    }
  }

  /**
   * The time-column part of populate_column_choices: sorted(dt_cols), where dt_cols
   * collects the time-like headers of the selected files and falls back to the first
   * numeric column.
   */
  method TimeColumnChoices(files: seq<string>, read: Reader, numeric: seq<string>) returns (choices: seq<string>)
    ensures StrictlySorted(choices)
    ensures forall c :: c in choices <==> c in TimeChoiceSet(files, read, numeric)
    ensures TimeHeaderSet(files, read) == {} && numeric != [] ==> choices == [numeric[0]]
  {
    var dt: set<string> := {};
    for i := 0 to |files|
      invariant dt == TimeHeaderSet(files[..i], read)
    {
      assert files[..i + 1][..i] == files[..i];
      match read(files[i], Some(5)) {
        case Ok(t) =>
          for j := 0 to |t.columns|
            invariant dt == TimeHeaderSet(files[..i], read) + TimeLikeAmong(t, j)
          {
            if IsTimeCol(t.columns[j].name) {
              dt := dt + {t.columns[j].name};
            }
          }
        case Err(_) =>
      }
    }
    assert files[..|files|] == files;
    if dt == {} && numeric != [] {
      dt := dt + {numeric[0]};
    }
    choices := SortedList(dt);
    if TimeHeaderSet(files, read) == {} && numeric != [] {
      assert |choices| == 1 && numeric[0] in choices;
    }
  }
}
