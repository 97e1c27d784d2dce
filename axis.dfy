/**
 * The axis table: one to four rows, each with a label and a combo box bound to
 * a numeric column (add_axis_row, remove_axis_row, and the combo refresh of
 * populate_column_choices).
 */
module AxisBinding {

  const MaxAxes: nat := 4

  const AxisNames: seq<string> := ["Primary Y", "Secondary Y", "Tertiary Y", "Quaternary Y"]

  /**
   * The combo refresh of populate_column_choices: a row keeps its column when it is
   * still offered, otherwise it takes the column at its own index, or the first one;
   * with nothing offered the combo is empty ("").
   */
  function Rebind(selections: seq<string>, allColumns: seq<string>): (r: seq<string>)
    ensures |r| == |selections|
  {
    seq(|selections|, i requires 0 <= i < |selections| =>
      if selections[i] != "" && selections[i] in allColumns then selections[i]
      else if allColumns != [] then allColumns[if i < |allColumns| then i else 0]
      else "")
  }

  /** After a refresh every row shows an offered column, or nothing when none is offered; kept choices survive. */
  lemma RebindChoosesOffered(selections: seq<string>, allColumns: seq<string>, i: nat)
    requires i < |selections|
    ensures allColumns == [] ==> Rebind(selections, allColumns)[i] == ""
    ensures allColumns != [] ==> Rebind(selections, allColumns)[i] in allColumns
    ensures selections[i] != "" && selections[i] in allColumns ==> Rebind(selections, allColumns)[i] == selections[i]
  {
  }

  /** After a refresh every combo shows an offered column, or every combo is empty when none is offered. */
  lemma RebindAllChooseOffered(selections: seq<string>, allColumns: seq<string>)
    ensures forall i :: 0 <= i < |selections| ==>
      if allColumns == [] then Rebind(selections, allColumns)[i] == "" else Rebind(selections, allColumns)[i] in allColumns
  {
    forall i | 0 <= i < |selections|
      ensures if allColumns == [] then Rebind(selections, allColumns)[i] == "" else Rebind(selections, allColumns)[i] in allColumns
    {
      RebindChoosesOffered(selections, allColumns, i);
    }
  }

  /** Refreshing twice with the same columns changes nothing more. */
  lemma RebindIdempotent(selections: seq<string>, allColumns: seq<string>)
    requires "" !in allColumns
    ensures Rebind(Rebind(selections, allColumns), allColumns) == Rebind(selections, allColumns)
  {
    var once := Rebind(selections, allColumns);
    forall i | 0 <= i < |selections|
      ensures Rebind(once, allColumns)[i] == once[i]
    {
      RebindChoosesOffered(selections, allColumns, i);
    }
  }

  /** list.pop(idx) on its own: the entry at idx is gone, the others keep their order. */
  function Removed<T>(s: seq<T>, idx: nat): (r: seq<T>)
    requires idx < |s|
    ensures |r| == |s| - 1
    ensures forall k :: 0 <= k < idx ==> r[k] == s[k]
    ensures forall k :: idx <= k < |r| ==> r[k] == s[k + 1]
  {
    s[..idx] + s[idx + 1..]
  }

  class AxisTable {
    /** self.axis_rows; the label items in column 0 of the table hold the same names. */
    var axisRows: seq<string>
    /** self.axis_map. */
    var axisMap: seq<(string, string)>
    /** The vertical header labels of the table. */
    var headerLabels: seq<string>
    /** The current text of each row's column combo box ("" when it is empty). */
    var selections: seq<string>

    ghost predicate Valid()
      reads this
    {
      && 1 <= |axisRows| <= MaxAxes
      && |axisMap| == |axisRows| && |selections| == |axisRows|
      && headerLabels == AxisNames[..|axisRows|]
      && (forall i :: 0 <= i < |axisRows| ==> axisRows[i] in AxisNames)
      && (forall i :: 0 <= i < |axisMap| ==> axisMap[i] == ("", ""))
    }

    /**
     * get_axis_column_mapping: one (label, column) pair per row, in row order;
     * there are one to four pairs and every label is a canonical axis name.
     */
    function Mapping(): (m: seq<(string, string)>)
      reads this
      requires Valid()
      ensures 1 <= |m| <= MaxAxes && |m| == |axisRows|
      ensures forall i :: 0 <= i < |m| ==> m[i].0 in AxisNames
      ensures forall i :: 0 <= i < |m| ==> m[i].0 == axisRows[i] && m[i].1 == selections[i]
    {
      var rows, sels := axisRows, selections;
      seq(|rows|, i requires 0 <= i < |rows| => (rows[i], sels[i]))
    }

    /** init_dynamic_axis_table: the single "Primary Y" row, then a refresh. */
    constructor (allColumns: seq<string>)
      ensures Valid()
      ensures axisRows == ["Primary Y"] && axisMap == [("", "")]
      ensures selections == Rebind([""], allColumns)
    {
      axisRows := ["Primary Y"];
      axisMap := [("", "")];
      headerLabels := ["Primary Y"];
      selections := Rebind([""], allColumns);
    }

    /** add_axis_row: refused at four rows; otherwise the next canonical name is appended and the combos refreshed. */
    method AddAxisRow(allColumns: seq<string>) returns (ok: bool)
      requires Valid()
      modifies this
      ensures Valid()
      ensures ok <==> old(|axisRows|) < MaxAxes
      ensures ok ==> && axisRows == old(axisRows) + [AxisNames[old(|axisRows|)]]
                     && axisMap == old(axisMap) + [("", "")]
                     && selections == Rebind(old(selections) + [""], allColumns)
      ensures !ok ==> unchanged(this)
    {
      var n := |axisRows|;
      if n >= MaxAxes {
        return false;
      }
      axisRows := axisRows + [AxisNames[n]];
      axisMap := axisMap + [("", "")];
      headerLabels := AxisNames[..n + 1];
      selections := Rebind(selections + [""], allColumns);
      ok := true;
    }

    /**
     * remove_axis_row: refused with a single row; otherwise row idx is dropped from
     * every list, the header labels become the first N canonical names, and the
     * combos are refreshed. The remaining rows keep their own labels.
     */
    method RemoveAxisRow(idx: nat, allColumns: seq<string>) returns (ok: bool)
      requires Valid() && idx < |axisRows|
      modifies this
      ensures Valid()
      ensures ok <==> old(|axisRows|) > 1
      ensures ok ==> && axisRows == Removed(old(axisRows), idx)
                     && axisMap == Removed(old(axisMap), idx)
                     && headerLabels == AxisNames[..old(|axisRows|) - 1]
                     && selections == Rebind(Removed(old(selections), idx), allColumns)
      ensures !ok ==> unchanged(this)
    {
      if |axisRows| <= 1 {
        return false;
      }
      axisRows := Removed(axisRows, idx);
      axisMap := Removed(axisMap, idx);
      headerLabels := AxisNames[..|axisRows|];
      selections := Rebind(Removed(selections, idx), allColumns);
      ok := true;
    }

    /** The axis-combo part of populate_column_choices. */
    method Refresh(allColumns: seq<string>)
      requires Valid()
      modifies this`selections
      ensures Valid()
      ensures selections == Rebind(old(selections), allColumns)
    {
      selections := Rebind(selections, allColumns);
    }
  }

  /** From the initial single row only three additions succeed; the fourth is refused and four rows remain. */
  method CapacityScenario(allColumns: seq<string>) returns (accepted: nat, rows: nat)
    ensures accepted == 3 && rows == MaxAxes
  {
    var table := new AxisTable(allColumns);
    accepted := 0;
    var i := 0;
    while i < 4
      invariant 0 <= i <= 4
      invariant table.Valid()
      invariant |table.axisRows| == if i < 3 then 1 + i else 4
      invariant accepted == if i < 3 then i else 3
    {
      var ok := table.AddAxisRow(allColumns);
      if ok {
        accepted := accepted + 1;
      }
      i := i + 1;
    }
    rows := |table.axisRows|;
  }
}
