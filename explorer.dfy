/**
 * The main window's file and selection state: the scanned file list, the filtered
 * and checked entries, the loaded tables, the remembered custom metrics, the time
 * column choices and the axis table.
 */
module Explorer {
  import opened Wrappers
  import opened Ordering
  import opened Tables
  import opened FileCatalog
  import opened Schema
  import opened Loader
  import opened Statistics
  import opened Summary
  import opened AxisBinding

  /** get_selected_files: the filtered paths whose list entries are checked, in list order. */
  function Selected(filtered: seq<string>, checked: seq<bool>): seq<string>
    requires |checked| <= |filtered|
  {
    if checked == [] then []
    else
      var n := |checked| - 1;
      Selected(filtered, checked[..n]) + (if checked[n] then [filtered[n]] else [])
  }

  /** Every selected path is the path of a checked entry, and every checked entry's path is selected. */
  lemma {:induction false} SelectedIff(filtered: seq<string>, checked: seq<bool>, f: string)
    requires |checked| <= |filtered|
    ensures f in Selected(filtered, checked) <==> exists i :: 0 <= i < |checked| && checked[i] && filtered[i] == f
  {
    if checked != [] {
      var n := |checked| - 1;
      SelectedIff(filtered, checked[..n], f);
      if f in Selected(filtered, checked) && f !in Selected(filtered, checked[..n]) {
        assert checked[n] && filtered[n] == f;
      }
      if exists i :: 0 <= i < |checked| && checked[i] && filtered[i] == f {
        var i :| 0 <= i < |checked| && checked[i] && filtered[i] == f;
        if i < n {
          assert checked[..n][i];
        }
      }
    }
  }

  /** With every entry checked the selection is the whole filtered list. */
  lemma {:induction false} SelectedAllChecked(filtered: seq<string>)
    ensures Selected(filtered, seq(|filtered|, _ => true)) == filtered
  {
    if filtered != [] {
      var n := |filtered| - 1;
      var all := seq(|filtered|, _ => true);
      assert all[..n] == seq(n, _ => true);
      SelectedPrefixAllChecked(filtered, n);
      assert filtered[..n] + [filtered[n]] == filtered;
    }
  }

  lemma {:induction false} SelectedPrefixAllChecked(filtered: seq<string>, n: nat)
    requires n <= |filtered|
    ensures Selected(filtered, seq(n, _ => true)) == filtered[..n]
  {
    if n > 0 {
      assert seq(n, _ => true)[..n - 1] == seq(n - 1, _ => true);
      SelectedPrefixAllChecked(filtered, n - 1);
      assert filtered[..n - 1] + [filtered[n - 1]] == filtered[..n];
    }
  }

  /** With every entry unchecked nothing is selected. */
  lemma {:induction false} SelectedNoneChecked(filtered: seq<string>, n: nat)
    requires n <= |filtered|
    ensures Selected(filtered, seq(n, _ => false)) == []
  {
    if n > 0 {
      assert seq(n, _ => false)[..n - 1] == seq(n - 1, _ => false);
      SelectedNoneChecked(filtered, n - 1);
    }
  }

  /** A list of names with no member is empty. */
  lemma EmptyWithoutMembers(s: seq<string>)
    ensures (forall c :: c !in s) ==> s == []
  {
    if s != [] {
      assert s[0] in s;
    }
  }

  class Explorer {
    /** self.file_list_data: the paths found by the last completed scan. */
    var fileListData: seq<string>
    /** self.filtered_files. */
    var filteredFiles: seq<string>
    /** The check state of each row of the file list widget. */
    var checked: seq<bool>
    /** self.loaded_dfs. */
    var loadedDfs: map<string, Table>
    /** self.custom_metrics_selected. */
    var customMetricsSelected: seq<Metric>
    /** The items of the time column combo box. */
    var timeChoices: seq<string>
    /** The items of every axis combo box: the numeric columns of the last refresh. */
    var columnChoices: seq<string>
    /** The Y-axis table. */
    const axes: AxisTable

    ghost predicate Valid()
      reads this, axes
    {
      && axes.Valid()
      && |checked| <= |filteredFiles|
      && customMetricsSelected != []
    }

    /**
     * The combo boxes show what populate_column_choices computes for the current
     * selection: the sorted numeric columns, the sorted time column choices, and in
     * every axis combo an offered column, or nothing when none is offered.
     */
    ghost predicate ColumnsRefreshed(read: Reader, parseNum: NumberParser)
      reads this, axes
      requires Valid()
    {
      var selected := Selected(filteredFiles, checked);
      && StrictlySorted(columnChoices)
      && (forall c :: c in columnChoices <==> c in NumericColumnSet(selected, read, parseNum))
      && StrictlySorted(timeChoices)
      && (forall c :: c in timeChoices <==> c in TimeChoiceSet(selected, read, columnChoices))
      && (forall i :: 0 <= i < |axes.selections| ==>
            if columnChoices == [] then axes.selections[i] == "" else axes.selections[i] in columnChoices)
    }

    /** __init__: empty lists, "mean" remembered, the single-row axis table bound to no columns. */
    constructor ()
      ensures Valid() && fresh(axes)
      ensures fileListData == [] && filteredFiles == [] && checked == [] && loadedDfs == map[]
      ensures customMetricsSelected == [Mean] && timeChoices == [] && columnChoices == []
      ensures axes.axisRows == ["Primary Y"] && axes.selections == [""]
    {
      fileListData := [];
      filteredFiles := [];
      checked := [];
      loadedDfs := map[];
      customMetricsSelected := [Mean];
      timeChoices := [];
      columnChoices := [];
      axes := new AxisTable([]);
    }

    /** The part of scan_folder that runs before the scan thread: the list and its rows are cleared. */
    method StartScan()
      requires Valid()
      modifies this`fileListData, this`checked
      ensures Valid()
      ensures fileListData == [] && checked == []
    {
      fileListData := [];
      checked := [];
    }

    /** filter_files: one unchecked row per scanned path whose base name contains the filter text. */
    method FilterFiles(filterText: string)
      requires Valid()
      modifies this`filteredFiles, this`checked
      ensures Valid()
      ensures filteredFiles == Filtered(fileListData, filterText)
      ensures checked == seq(|filteredFiles|, _ => false)
    {
      var kept: seq<string> := [];
      for i := 0 to |fileListData|
        invariant kept == Filtered(fileListData[..i], filterText)
      {
        assert fileListData[..i + 1][..i] == fileListData[..i];
        if Keeps(fileListData[i], filterText) {
          kept := kept + [fileListData[i]];
        }
      }
      assert fileListData[..|fileListData|] == fileListData;
      filteredFiles := kept;
      checked := seq(|kept|, _ => false);
    }

    /**
     * folder_scan_complete: the scan result is stored and filtered, which leaves
     * nothing selected, and the column refresh then empties every combo box.
     */
    method ScanComplete(files: seq<string>, filterText: string, read: Reader, parseNum: NumberParser)
      requires Valid()
      modifies this`fileListData, this`filteredFiles, this`checked, this`timeChoices, this`columnChoices, axes`selections
      ensures Valid()
      ensures fileListData == files
      ensures filteredFiles == Filtered(files, filterText)
      ensures Selected(filteredFiles, checked) == []
      ensures columnChoices == [] && timeChoices == []
      ensures axes.selections == seq(|old(axes.selections)|, _ => "")
    {
      fileListData := files;
      FilterFiles(filterText);
      SelectedNoneChecked(filteredFiles, |filteredFiles|);
      PopulateColumnChoices(read, parseNum);
      assert NumericColumnSet([], read, parseNum) == {};
      EmptyWithoutMembers(columnChoices);
      assert TimeChoiceSet([], read, []) == {};
      EmptyWithoutMembers(timeChoices);
    }

    /** select_all_files: each row that changes fires itemChanged, which refreshes the combo boxes. */
    method SelectAll(read: Reader, parseNum: NumberParser)
      requires Valid()
      modifies this`checked, this`timeChoices, this`columnChoices, axes`selections
      ensures Valid()
      ensures checked == seq(|old(checked)|, _ => true)
      ensures (exists i :: 0 <= i < |old(checked)| && !old(checked)[i]) ==> ColumnsRefreshed(read, parseNum)
      ensures (forall i :: 0 <= i < |old(checked)| ==> old(checked)[i]) ==>
        timeChoices == old(timeChoices) && columnChoices == old(columnChoices) && axes.selections == old(axes.selections)
    {
      ghost var changed := false;
      for i := 0 to |checked|
        invariant Valid() && |checked| == |old(checked)|
        invariant forall k :: 0 <= k < i ==> checked[k]
        invariant forall k :: i <= k < |checked| ==> checked[k] == old(checked)[k]
        invariant changed <==> exists k :: 0 <= k < i && !old(checked)[k]
        invariant changed ==> ColumnsRefreshed(read, parseNum)
        invariant !changed ==>
          timeChoices == old(timeChoices) && columnChoices == old(columnChoices) && axes.selections == old(axes.selections)
      {
        if !checked[i] {
          checked := checked[i := true];
          PopulateColumnChoices(read, parseNum);
          changed := true;
        }
      }
      assert checked == seq(|old(checked)|, _ => true);
    }

    /** deselect_all_files: each row that changes fires itemChanged, which refreshes the combo boxes. */
    method DeselectAll(read: Reader, parseNum: NumberParser)
      requires Valid()
      modifies this`checked, this`timeChoices, this`columnChoices, axes`selections
      ensures Valid()
      ensures checked == seq(|old(checked)|, _ => false)
      ensures (exists i :: 0 <= i < |old(checked)| && old(checked)[i]) ==> ColumnsRefreshed(read, parseNum)
      ensures (forall i :: 0 <= i < |old(checked)| ==> !old(checked)[i]) ==>
        timeChoices == old(timeChoices) && columnChoices == old(columnChoices) && axes.selections == old(axes.selections)
    {
      ghost var changed := false;
      for i := 0 to |checked|
        invariant Valid() && |checked| == |old(checked)|
        invariant forall k :: 0 <= k < i ==> !checked[k]
        invariant forall k :: i <= k < |checked| ==> checked[k] == old(checked)[k]
        invariant changed <==> exists k :: 0 <= k < i && old(checked)[k]
        invariant changed ==> ColumnsRefreshed(read, parseNum)
        invariant !changed ==>
          timeChoices == old(timeChoices) && columnChoices == old(columnChoices) && axes.selections == old(axes.selections)
      {
        if checked[i] {
          checked := checked[i := false];
          PopulateColumnChoices(read, parseNum);
          changed := true;
        }
      }
      assert checked == seq(|old(checked)|, _ => false);
    }

    /**
     * Ticking or unticking one row of the file list: when its state changes,
     * itemChanged runs on_file_checked, which refreshes the combo boxes.
     */
    method SetChecked(i: nat, on: bool, read: Reader, parseNum: NumberParser)
      requires Valid() && i < |checked|
      modifies this`checked, this`timeChoices, this`columnChoices, axes`selections
      ensures Valid()
      ensures checked == old(checked)[i := on]
      ensures old(checked)[i] != on ==>
        ColumnsRefreshed(read, parseNum) && axes.selections == Rebind(old(axes.selections), columnChoices)
      ensures old(checked)[i] == on ==>
        timeChoices == old(timeChoices) && columnChoices == old(columnChoices) && axes.selections == old(axes.selections)
    {
      if checked[i] != on {
        checked := checked[i := on];
        PopulateColumnChoices(read, parseNum);
      }
    }

    /** get_selected_files, as the loop over the list rows. */
    method GetSelectedFiles() returns (selected: seq<string>)
      requires Valid()
      ensures selected == Selected(filteredFiles, checked)
    {
      selected := [];
      for i := 0 to |checked|
        invariant selected == Selected(filteredFiles, checked[..i])
      {
        assert checked[..i + 1][..i] == checked[..i];
        if checked[i] {
          selected := selected + [filteredFiles[i]];
        }
      }
      assert checked[..|checked|] == checked;
    }

    /**
     * The column lists populate_column_choices computes for the current selection,
     * with the numeric-column helper reading its decimal separator through `read`:
     * the sorted numeric columns and the sorted time column choices.
     */
    method ChoicesOfSelection(read: Reader, parseNum: NumberParser) returns (numeric: seq<string>, times: seq<string>)
      requires Valid()
      ensures StrictlySorted(numeric)
      ensures forall c :: c in numeric <==> c in NumericColumnSet(Selected(filteredFiles, checked), read, parseNum)
      ensures StrictlySorted(times)
      ensures forall c :: c in times <==> c in TimeChoiceSet(Selected(filteredFiles, checked), read, numeric)
    {
      var selected := GetSelectedFiles();
      numeric := [];
      if selected != [] {
        numeric := UniqueNumericColumns(selected, read, parseNum);
      }
      times := TimeColumnChoices(selected, read, numeric);
    }

    /**
     * populate_column_choices: the numeric columns of the selected files, the time
     * column choices, and the refreshed axis combos.
     */
    method PopulateColumnChoices(read: Reader, parseNum: NumberParser)
      requires Valid()
      modifies this`timeChoices, this`columnChoices, axes`selections
      ensures Valid()
      ensures ColumnsRefreshed(read, parseNum)
      ensures axes.selections == Rebind(old(axes.selections), columnChoices)
    {
      var numeric, times := ChoicesOfSelection(read, parseNum);
      columnChoices := numeric;
      timeChoices := times;
      axes.Refresh(numeric);
      RebindAllChooseOffered(old(axes.selections), numeric);
    }

    /**
     * add_axis_row: refused at four rows, with nothing refreshed; otherwise the next
     * canonical row is appended and populate_column_choices refreshes every combo.
     */
    method AddAxisRow(read: Reader, parseNum: NumberParser) returns (ok: bool)
      requires Valid()
      modifies this`timeChoices, this`columnChoices, axes
      ensures Valid()
      ensures ok <==> old(|axes.axisRows|) < MaxAxes
      ensures ok ==> && axes.axisRows == old(axes.axisRows) + [AxisNames[old(|axes.axisRows|)]]
                     && axes.axisMap == old(axes.axisMap) + [("", "")]
                     && axes.selections == Rebind(old(axes.selections) + [""], columnChoices)
                     && ColumnsRefreshed(read, parseNum)
      ensures !ok ==> unchanged(axes) && timeChoices == old(timeChoices) && columnChoices == old(columnChoices)
    {
      var numeric, times := ChoicesOfSelection(read, parseNum);
      ok := axes.AddAxisRow(numeric);
      if ok {
        columnChoices := numeric;
        timeChoices := times;
        RebindAllChooseOffered(old(axes.selections) + [""], numeric);
      }
    }

    /**
     * remove_axis_row: refused with a single row, with nothing refreshed; otherwise
     * row idx is dropped and populate_column_choices refreshes every combo.
     */
    method RemoveAxisRow(idx: nat, read: Reader, parseNum: NumberParser) returns (ok: bool)
      requires Valid() && idx < |axes.axisRows|
      modifies this`timeChoices, this`columnChoices, axes
      ensures Valid()
      ensures ok <==> old(|axes.axisRows|) > 1
      ensures ok ==> && axes.axisRows == Removed(old(axes.axisRows), idx)
                     && axes.axisMap == Removed(old(axes.axisMap), idx)
                     && axes.headerLabels == AxisNames[..old(|axes.axisRows|) - 1]
                     && axes.selections == Rebind(Removed(old(axes.selections), idx), columnChoices)
                     && ColumnsRefreshed(read, parseNum)
      ensures !ok ==> unchanged(axes) && timeChoices == old(timeChoices) && columnChoices == old(columnChoices)
    {
      var numeric, times := ChoicesOfSelection(read, parseNum);
      ok := axes.RemoveAxisRow(idx, numeric);
      if ok {
        columnChoices := numeric;
        timeChoices := times;
        RebindAllChooseOffered(Removed(old(axes.selections), idx), numeric);
      }
    }

    /** load_selected_dataframes, with the decimal separator folded into `read`. */
    method LoadSelectedDataframes(read: Reader) returns (errors: seq<string>)
      requires Valid()
      modifies this`loadedDfs
      ensures Valid()
      ensures loadedDfs == Load(Selected(filteredFiles, checked), read).loaded
      ensures errors == Load(Selected(filteredFiles, checked), read).errors
    {
      var files := GetSelectedFiles();
      var loaded: map<string, Table> := map[];
      errors := [];
      for i := 0 to |files|
        invariant Load(files[..i], read) == LoadResult(loaded, errors)
      {
        assert files[..i + 1][..i] == files[..i];
        match read(files[i], None) {
          case Ok(t) => loaded := loaded[files[i] := t];
          case Err(e) => errors := errors + [ErrorLine(files[i], e)];
        }
      }
      assert files[..|files|] == files;
      loadedDfs := loaded;
    }

    /** get_selected_summary_metrics, with the dialog's answer (None when cancelled) as a parameter. */
    method SelectedSummaryMetrics(summaryType: string, dialog: Option<string>) returns (metrics: seq<Metric>)
      requires Valid()
      modifies this`customMetricsSelected
      ensures Valid()
      ensures (metrics, customMetricsSelected) == SelectMetrics(summaryType, dialog, old(customMetricsSelected))
    {
      var r := SelectMetrics(summaryType, dialog, customMetricsSelected);
      metrics := r.0;
      customMetricsSelected := r.1;
    }
  }
}
