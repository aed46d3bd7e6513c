/** The in-memory spreadsheet used by the syncer tests (tests/mockers.js):
    a list of rows whose first row is the header. */
module SheetMocks {
  import opened Wrappers
  import opened Lists
  import opened Columns

  type Row = seq<string>

  /** `row[colIdx]`, None standing for `undefined` (no such column, or a
      row too short to have that cell). */
  function CellAt(row: Row, colIdx: Option<nat>): Option<string>
  {
    if colIdx.Some? && colIdx.value < |row| then Some(row[colIdx.value]) else None
  }

  /** The `===` test of `deleteAllRowsByColumnValue`. */
  function RowMatches(colIdx: Option<nat>, value: string): Row -> bool
  {
    (row: Row) => CellAt(row, colIdx) == Some(value)
  }

  function RowSurvives(colIdx: Option<nat>, value: string): Row -> bool
  {
    (row: Row) => CellAt(row, colIdx) != Some(value)
  }

  /** The position `splice(sheetIdx, 1)` removes, if any: a negative index
      counts from the end and is clamped at 0. */
  function SpliceStart(length: nat, sheetIdx: int): nat
  {
    if sheetIdx >= 0 then sheetIdx else if length + sheetIdx >= 0 then length + sheetIdx else 0
  }

  /** The column a header name selects: its last position in the header. */
  function ColIdxOf(header: Row, name: string): Option<nat>
  {
    var m := ColumnIndex(header);
    if name in m then Some(m[name]) else None
  }

  lemma ColIdxOfIsLastPosition(header: Row, name: string)
    ensures ColIdxOf(header, name).None? <==> name !in header
    ensures ColIdxOf(header, name).Some? ==>
      var i := ColIdxOf(header, name).value;
      && i < |header| && header[i] == name
      && forall j :: i < j < |header| ==> header[j] != name
  {
    ColumnIndexIsLastPosition(header);
    if name in header {
      var i :| 0 <= i < |header| && header[i] == name;
      assert name in (set j | 0 <= j < |header| :: header[j]);
    }
  }

  /** The pieces around the one element at position `|a|`. */
  lemma SpliceAround<T>(a: seq<T>, x: T, t: seq<T>)
    ensures |a + [x] + t| == |a| + 1 + |t|
    ensures (a + [x] + t)[|a|] == x
    ensures (a + [x] + t)[..|a|] == a && (a + [x] + t)[|a| + 1..] == t
  {
  }

  const MissingHeaderError := "Cannot read properties of undefined (reading 'length')"

  class MockSheetAPI {
    var sheetData: seq<Row>

    /** Starts from the given rows, or from an empty sheet when none are
        given. */
    constructor(initialData: Option<seq<Row>>)
      ensures sheetData == if initialData.Some? then initialData.value else []
    {
      sheetData := [];
      if initialData.Some? {
        sheetData := sheetData + initialData.value;
      }
    }

    /** Every row but the header. */
    function GetAllData(): (r: seq<Row>)
      reads this
      ensures sheetData == [] ==> r == []
      ensures sheetData != [] ==> [sheetData[0]] + r == sheetData
    {
      if sheetData == [] then [] else sheetData[1..]
    }

    method AppendRow(rowData: Row)
      modifies this
      ensures sheetData == old(sheetData) + [rowData]
    {
      sheetData := sheetData + [rowData];
    }

    /** Each header name mapped to its position, a later duplicate
        overwriting an earlier one; an empty sheet has no header and
        fails. */
    method GetColumnIndexMap() returns (r: Result<map<string, nat>>)
      ensures sheetData == [] ==> r == Failure(MissingHeaderError)
      ensures sheetData != [] ==> r == Success(ColumnIndex(sheetData[0]))
    {
      if sheetData == [] {
        return Failure(MissingHeaderError);
      }
      var columnIndexMap: map<string, nat> := map[];
      var header := sheetData[0];
      for i := 0 to |header|
        invariant columnIndexMap == ColumnIndex(header[..i])
      {
        assert header[..i + 1][..i] == header[..i];
        columnIndexMap := columnIndexMap[header[i] := i];
      }
      assert header[..|header|] == header;
      r := Success(columnIndexMap);
    }

    /** The position of the last header cell named `columnName`, None if
        there is none. */
    method GetColIdx(columnName: string) returns (r: Result<Option<nat>>)
      ensures sheetData == [] ==> r == Failure(MissingHeaderError)
      ensures sheetData != [] ==> r == Success(ColIdxOf(sheetData[0], columnName))
    {
      var m := GetColumnIndexMap();
      if m.Failure? {
        return Failure(m.error);
      }
      r := Success(if columnName in m.value then Some(m.value[columnName]) else None);
    }

    /** Removes every data row whose cell in the named column equals
        `value`, walking backwards from the last row to row 1 so that a
        removal never shifts a row still to be visited; the header and the
        order of the remaining rows are kept. */
    method DeleteAllRowsByColumnValue(columnName: string, value: string) returns (r: Result<()>)
      modifies this
      ensures old(sheetData) == [] ==> r == Failure(MissingHeaderError) && sheetData == []
      ensures old(sheetData) != [] ==>
        && r.Success?
        && sheetData == [old(sheetData)[0]] +
             Filter(old(sheetData)[1..], RowSurvives(ColIdxOf(old(sheetData)[0], columnName), value))
    {
      var found := GetColIdx(columnName);
      if found.Failure? {
        return Failure(found.error);
      }
      DeleteMatchingRows(found.value, value);
      r := Success(());
    }

    /** The backward walk of `deleteAllRowsByColumnValue` for an already
        resolved column. */
    method DeleteMatchingRows(colIdx: Option<nat>, value: string)
      requires sheetData != []
      modifies this
      ensures sheetData == [old(sheetData)[0]] + Filter(old(sheetData)[1..], RowSurvives(colIdx, value))
    {
      ghost var original := sheetData;
      ghost var keep := RowSurvives(colIdx, value);
      var index := |sheetData| - 1;
      assert original[index + 1..] == [];
      assert original[..index + 1] == original;
      while index >= 1
        invariant 0 <= index < |original|
        invariant sheetData == original[..index + 1] + Filter(original[index + 1..], keep)
      {
        ghost var head := original[..index];
        ghost var tail := Filter(original[index + 1..], keep);
        assert original[..index + 1] == head + [original[index]];
        FilterAt(original, index, keep);
        DeleteRowIfMatch(index, colIdx, value);
        SpliceAround(head, original[index], tail);
        index := index - 1;
      }
      assert original[..1] == [original[0]];
    }

    /** One step of the backward walk: the row at `index` goes when its
        cell in the column equals `value`. */
    method DeleteRowIfMatch(index: nat, colIdx: Option<nat>, value: string)
      requires index < |sheetData|
      modifies this
      ensures RowSurvives(colIdx, value)(old(sheetData)[index]) ==> sheetData == old(sheetData)
      ensures !RowSurvives(colIdx, value)(old(sheetData)[index]) ==>
        sheetData == old(sheetData)[..index] + old(sheetData)[index + 1..]
    {
      if CellAt(sheetData[index], colIdx) == Some(value) {
        DeleteRowBySheetIdx(index);
      }
    }

    /** `splice(sheetIdx, 1)`: removes one row, or nothing when the index
        is past the end. */
    method DeleteRowBySheetIdx(sheetIdx: int)
      modifies this
      ensures var start := SpliceStart(|old(sheetData)|, sheetIdx);
        sheetData == if start < |old(sheetData)| then old(sheetData)[..start] + old(sheetData)[start + 1..]
                     else old(sheetData)
    {
      var start := SpliceStart(|sheetData|, sheetIdx);
      if start < |sheetData| {
        sheetData := sheetData[..start] + sheetData[start + 1..];
      }
    }
  }
}
