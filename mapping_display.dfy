/**
 * The views the mapping panel derives from the columns, the captions, the data
 * and the mapping: which columns are still unmapped, which captions are still
 * free, a few sample values per column, the overall status and the preview table.
 * Nothing here changes state.
 */
module MappingDisplay {
  import opened Text
  import opened Wrappers
  import opened Mappings
  import opened Sequences

  /** `csvColumns.filter(col => !mappings[col])`: a caption that is the empty string counts as unmapped. */
  function UnmappedColumns(csvColumns: seq<string>, m: Mapping): (r: seq<string>)
    ensures forall c :: c in r <==> c in csvColumns && !IsMapped(m, c)
    ensures r == [] <==> forall c :: c in csvColumns ==> IsMapped(m, c)
    ensures IsSubsequence(r, csvColumns)
  {
    if csvColumns == [] then []
    else
      var rest := UnmappedColumns(csvColumns[1..], m);
      if IsMapped(m, csvColumns[0]) then rest else [csvColumns[0]] + rest
  }

  /** Every unmapped column is listed as often as the header has it, and no mapped one. */
  lemma {:induction false} UnmappedColumnsCount(csvColumns: seq<string>, m: Mapping)
    ensures forall c :: multiset(UnmappedColumns(csvColumns, m))[c] == if IsMapped(m, c) then 0 else multiset(csvColumns)[c]
  {
    if csvColumns != [] {
      UnmappedColumnsCount(csvColumns[1..], m);
      assert csvColumns == [csvColumns[0]] + csvColumns[1..];
    }
  }

  /** `c` is the first column of the header that is unmapped. */
  predicate IsFirstUnmapped(csvColumns: seq<string>, m: Mapping, c: string) {
    exists i :: 0 <= i < |csvColumns| && csvColumns[i] == c && !IsMapped(m, c) &&
      forall j :: 0 <= j < i ==> IsMapped(m, csvColumns[j])
  }

  /** The head of the unmapped list is the first unmapped column. */
  lemma {:induction false} UnmappedColumnsHead(csvColumns: seq<string>, m: Mapping)
    requires UnmappedColumns(csvColumns, m) != []
    ensures IsFirstUnmapped(csvColumns, m, UnmappedColumns(csvColumns, m)[0])
  {
    var c := csvColumns[0];
    if IsMapped(m, c) {
      var rest := csvColumns[1..];
      UnmappedColumnsHead(rest, m);
      var i :| 0 <= i < |rest| && rest[i] == UnmappedColumns(rest, m)[0] && !IsMapped(m, rest[i]) &&
        forall j :: 0 <= j < i ==> IsMapped(m, rest[j]);
      assert csvColumns[i + 1] == rest[i];
      assert forall j :: 0 <= j < i + 1 ==> IsMapped(m, csvColumns[j]) by {
        forall j | 0 <= j < i + 1 ensures IsMapped(m, csvColumns[j]) {
          if j > 0 { assert csvColumns[j] == rest[j - 1]; }
        }
      }
    } else {
      assert csvColumns[0] == UnmappedColumns(csvColumns, m)[0];
    }
  }

  /**
   * Giving columns a caption never makes the unmapped list longer, and giving
   * one of its columns a caption makes it strictly shorter.
   */
  lemma {:induction false} UnmappedColumnsShrink(csvColumns: seq<string>, m: Mapping, m': Mapping, c: string)
    requires forall k :: IsMapped(m, k) ==> IsMapped(m', k)
    ensures |UnmappedColumns(csvColumns, m')| <= |UnmappedColumns(csvColumns, m)|
    ensures c in csvColumns && !IsMapped(m, c) && IsMapped(m', c) ==>
      |UnmappedColumns(csvColumns, m')| < |UnmappedColumns(csvColumns, m)|
  {
    if csvColumns != [] {
      UnmappedColumnsShrink(csvColumns[1..], m, m', c);
      if c in csvColumns && c != csvColumns[0] {
        assert c in csvColumns[1..];
      }
    }
  }

  /** `captions.filter(cap => !Object.values(mappings).includes(cap))` */
  function AvailableCaptions(captions: seq<string>, m: Mapping): (r: seq<string>)
    ensures forall c :: c in r <==> c in captions && c !in Values(m)
    ensures r == [] <==> forall c :: c in captions ==> c in Values(m)
    ensures IsSubsequence(r, captions)
  {
    if captions == [] then []
    else
      var rest := AvailableCaptions(captions[1..], m);
      if captions[0] in Values(m) then rest else [captions[0]] + rest
  }

  /** Every free caption is listed as often as the caption list has it, and no used one. */
  lemma {:induction false} AvailableCaptionsCount(captions: seq<string>, m: Mapping)
    ensures forall c :: multiset(AvailableCaptions(captions, m))[c] == if c in Values(m) then 0 else multiset(captions)[c]
  {
    if captions != [] {
      AvailableCaptionsCount(captions[1..], m);
      assert captions == [captions[0]] + captions[1..];
    }
  }

  /** `s.indexOf(x)`: the first position of `x`, or -1. */
  function IndexOf(s: seq<string>, x: string): (r: int)
    ensures r == -1 <==> x !in s
    ensures r != -1 ==> 0 <= r < |s| && s[r] == x && forall j :: 0 <= j < r ==> s[j] != x
  {
    if s == [] then -1
    else if s[0] == x then 0
    else var k := IndexOf(s[1..], x); if k == -1 then -1 else k + 1
  }

  /** `rows.map(row => row[idx])`, with a missing cell (`undefined`) read as the empty string: the filter drops both. */
  function ColumnCells(rows: seq<seq<string>>, idx: nat): (r: seq<string>)
    ensures |r| == |rows|
    ensures forall i :: 0 <= i < |rows| ==> r[i] == if idx < |rows[i]| then rows[i][idx] else ""
  {
    if rows == [] then [] else [if idx < |rows[0]| then rows[0][idx] else ""] + ColumnCells(rows[1..], idx)
  }

  /** `rows.map(row => row[idx]).filter(value => value && value.trim() !== '')`, with a missing cell read as `undefined`. */
  function PresentValues(rows: seq<seq<string>>, idx: nat): (r: seq<string>)
    ensures |r| <= |rows|
    ensures forall v :: v in r ==> !IsBlank(v) && exists i :: 0 <= i < |rows| && idx < |rows[i]| && rows[i][idx] == v
  {
    if rows == [] then []
    else
      var rest := PresentValues(rows[1..], idx);
      assert forall v :: v in rest ==> exists i :: 0 <= i < |rows| && idx < |rows[i]| && rows[i][idx] == v by {
        forall v | v in rest ensures exists i :: 0 <= i < |rows| && idx < |rows[i]| && rows[i][idx] == v {
          var i :| 0 <= i < |rows[1..]| && idx < |rows[1..][i]| && rows[1..][i][idx] == v;
          assert rows[i + 1] == rows[1..][i];
        }
      }
      if idx < |rows[0]| && !IsBlank(rows[0][idx]) then [rows[0][idx]] + rest else rest
  }

  /** The filter keeps every non-blank cell of the column. */
  lemma {:induction false} PresentValuesComplete(rows: seq<seq<string>>, idx: nat)
    ensures forall i :: 0 <= i < |rows| && idx < |rows[i]| && !IsBlank(rows[i][idx]) ==> rows[i][idx] in PresentValues(rows, idx)
  {
    if rows != [] {
      PresentValuesComplete(rows[1..], idx);
      forall i | 1 <= i < |rows| && idx < |rows[i]| && !IsBlank(rows[i][idx])
        ensures rows[i][idx] in PresentValues(rows, idx)
      {
        assert rows[1..][i - 1] == rows[i];
      }
    }
  }

  /** The filter keeps each non-blank value as often as the column's cells hold it, and no blank one. */
  lemma {:induction false} PresentValuesCount(rows: seq<seq<string>>, idx: nat)
    ensures forall v :: multiset(PresentValues(rows, idx))[v] == if IsBlank(v) then 0 else multiset(ColumnCells(rows, idx))[v]
  {
    if rows != [] {
      PresentValuesCount(rows[1..], idx);
      var cells := ColumnCells(rows, idx);
      assert cells == [cells[0]] + ColumnCells(rows[1..], idx);
    }
  }

  /** The filter keeps the cells in row order. */
  lemma {:induction false} PresentValuesInOrder(rows: seq<seq<string>>, idx: nat)
    ensures IsSubsequence(PresentValues(rows, idx), ColumnCells(rows, idx))
  {
    if rows != [] {
      PresentValuesInOrder(rows[1..], idx);
      var rest := PresentValues(rows[1..], idx);
      var cells := ColumnCells(rows, idx);
      assert cells[1..] == ColumnCells(rows[1..], idx);
      if !(idx < |rows[0]| && !IsBlank(rows[0][idx])) && rest != [] {
        assert rest[0] in rest;
        assert rest[0] != cells[0];
      }
    }
  }

  /** `csvData.slice(1, maxItems + 1)`: the data rows the preview looks at. */
  function PreviewRows(csvData: seq<seq<string>>, maxItems: nat): (rows: seq<seq<string>>)
    ensures |rows| <= maxItems
    ensures |csvData| >= 1 ==> |rows| == Min(maxItems + 1, |csvData|) - 1
    ensures forall i :: 0 <= i < |rows| ==> i + 1 < |csvData| && rows[i] == csvData[i + 1]
  {
    if |csvData| < 2 then [] else csvData[1..Min(maxItems + 1, |csvData|)]
  }

  /** What the filter keeps from the preview rows, stated on the rows of the whole file. */
  lemma PreviewRowsFilter(csvData: seq<seq<string>>, maxItems: nat, idx: nat)
    ensures forall v :: v in PresentValues(PreviewRows(csvData, maxItems), idx) ==>
      exists i :: 1 <= i <= maxItems && i < |csvData| && idx < |csvData[i]| && csvData[i][idx] == v
    ensures forall i :: 1 <= i <= maxItems && i < |csvData| && idx < |csvData[i]| && !IsBlank(csvData[i][idx]) ==>
      csvData[i][idx] in PresentValues(PreviewRows(csvData, maxItems), idx)
  {
    var rows := PreviewRows(csvData, maxItems);
    var r := PresentValues(rows, idx);
    PresentValuesComplete(rows, idx);
    forall v | v in r
      ensures exists i :: 1 <= i <= maxItems && i < |csvData| && idx < |csvData[i]| && csvData[i][idx] == v
    {
      var i :| 0 <= i < |rows| && idx < |rows[i]| && rows[i][idx] == v;
      assert csvData[i + 1] == rows[i];
    }
    forall i | 1 <= i <= maxItems && i < |csvData| && idx < |csvData[i]| && !IsBlank(csvData[i][idx])
      ensures csvData[i][idx] in r
    {
      assert rows[i - 1] == csvData[i];
    }
  }

  /**
   * `getColumnPreview(column, maxItems)`: the non-blank values of the column in
   * data rows 1 to `maxItems`, each as often as it occurs there and in row order;
   * nothing for an unknown column or a file without data rows.
   */
  function ColumnPreview(csvColumns: seq<string>, csvData: seq<seq<string>>, column: string, maxItems: nat): (r: seq<string>)
    ensures column !in csvColumns || |csvData| < 2 ==> r == []
    ensures |r| <= maxItems
    ensures forall v :: v in r ==> !IsBlank(v)
    ensures column in csvColumns ==> forall v :: v in r ==>
      exists i :: 1 <= i <= maxItems && i < |csvData| &&
        IndexOf(csvColumns, column) < |csvData[i]| && csvData[i][IndexOf(csvColumns, column)] == v
    ensures column in csvColumns ==> forall i ::
      (1 <= i <= maxItems && i < |csvData| &&
       IndexOf(csvColumns, column) < |csvData[i]| && !IsBlank(csvData[i][IndexOf(csvColumns, column)])) ==>
        csvData[i][IndexOf(csvColumns, column)] in r
    ensures column in csvColumns ==>
      IsSubsequence(r, ColumnCells(PreviewRows(csvData, maxItems), IndexOf(csvColumns, column)))
    ensures column in csvColumns ==> forall v ::
      multiset(r)[v] == if IsBlank(v) then 0 else multiset(ColumnCells(PreviewRows(csvData, maxItems), IndexOf(csvColumns, column)))[v]
  {
    var columnIndex := IndexOf(csvColumns, column);
    if columnIndex == -1 || |csvData| < 2 then []
    else
      var rows := PreviewRows(csvData, maxItems);
      PresentValuesInOrder(rows, columnIndex);
      PresentValuesCount(rows, columnIndex);
      PreviewRowsFilter(csvData, maxItems, columnIndex);
      PresentValues(rows, columnIndex)
  }

  /** When the column is filled in every row, the filter keeps every cell, in row order. */
  lemma {:induction false} PreviewOfFullColumn(rows: seq<seq<string>>, idx: nat)
    requires forall i :: 0 <= i < |rows| ==> idx < |rows[i]| && !IsBlank(rows[i][idx])
    ensures PresentValues(rows, idx) == seq(|rows|, i requires 0 <= i < |rows| => rows[i][idx])
  {
    if rows != [] {
      PreviewOfFullColumn(rows[1..], idx);
    }
  }

  /**
   * A column whose name is inherited from `Object.prototype` reads as mapped before
   * it is ever given a caption: with a header `constructor, id` and only `id`
   * mapped, no column is listed as unmapped and the badge says every column is mapped.
   */
  lemma InheritedNameReadsAsMapped()
    ensures UnmappedColumns(["constructor", "id"], [Entry("id", "ID")]) == []
    ensures GetMappingStatus(["constructor", "id"], [Entry("id", "ID")]) == AllColumnsMapped
  {
    var m := [Entry("id", "ID")];
    assert Get(m, "constructor") == None;
    assert IsMapped(m, "constructor") && IsMapped(m, "id");
  }

  /** The badge of the mapping panel. */
  datatype MappingStatus = NoCsvUploaded | NoMappingsCreated | AllColumnsMapped | Partial(mapped: nat, total: nat)

  /**
   * `getMappingStatus`: no columns, then no mappings, then every column mapped,
   * then "mapped/total columns mapped" counting the keys of the record.
   */
  function GetMappingStatus(csvColumns: seq<string>, m: Mapping): (r: MappingStatus)
    ensures r.NoCsvUploaded? <==> csvColumns == []
    ensures r.NoMappingsCreated? <==> csvColumns != [] && m == []
    ensures r.AllColumnsMapped? <==> csvColumns != [] && m != [] && forall c :: c in csvColumns ==> IsMapped(m, c)
    ensures r.Partial? ==> r == Partial(|Keys(m)|, |csvColumns|) && exists c :: c in csvColumns && !IsMapped(m, c)
  {
    var unmapped := UnmappedColumns(csvColumns, m);
    if |csvColumns| == 0 then NoCsvUploaded
    else if |Keys(m)| == 0 then NoMappingsCreated
    else if |unmapped| == 0 then AllColumnsMapped
    else
      assert unmapped[0] in unmapped;
      Partial(|Keys(m)|, |csvColumns|)
  }

  /** `row[columnIndex] || '-'`: a missing or empty cell shows as a dash. */
  function PreviewCell(row: seq<string>, columnIndex: int): (r: string)
    ensures r != ""
    ensures 0 <= columnIndex < |row| && row[columnIndex] != "" ==> r == row[columnIndex]
    ensures !(0 <= columnIndex < |row| && row[columnIndex] != "") ==> r == "-"
  {
    if 0 <= columnIndex < |row| && row[columnIndex] != "" then row[columnIndex] else "-"
  }

  /** The preview table: the captions as header, and one line per shown data row. */
  datatype PreviewTable = PreviewTable(header: seq<string>, rows: seq<seq<string>>)

  /**
   * The preview table, shown when there is a mapping and at least one data row:
   * the header lists the captions in key order, at most three data rows follow,
   * and each cell is the row's value at the mapped column's first position, or a dash.
   */
  function PreviewTableOf(csvColumns: seq<string>, csvData: seq<seq<string>>, m: Mapping): (r: Option<PreviewTable>)
    ensures r.Some? <==> |Keys(m)| > 0 && |csvData| > 1
    ensures r.Some? ==> r.value.header == Values(m)
    ensures r.Some? ==> |r.value.rows| == (if |csvData| < 4 then |csvData| - 1 else 3)
    ensures r.Some? ==> forall i, j :: 0 <= i < |r.value.rows| && 0 <= j < |m| ==>
      |r.value.rows[i]| == |m| && r.value.rows[i][j] == PreviewCell(csvData[i + 1], IndexOf(csvColumns, m[j].column))
  {
    if |Keys(m)| > 0 && |csvData| > 1 then
      var shown := PreviewRows(csvData, 3);
      Some(PreviewTable(
        Values(m),
        seq(|shown|, i requires 0 <= i < |shown| =>
          seq(|m|, j requires 0 <= j < |m| => PreviewCell(shown[i], IndexOf(csvColumns, m[j].column))))))
    else None
  }
}
