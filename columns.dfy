/** The column-name index that both the spreadsheet syncer and the sheet
    mock build from a header row: a later duplicate name overwrites an
    earlier one, so each name maps to its LAST position. */
module Columns {

  function ColumnIndex<T(==)>(header: seq<T>): map<T, nat>
  {
    if header == [] then map[]
    else ColumnIndex(header[..|header| - 1])[header[|header| - 1] := |header| - 1]
  }

  /** The index has exactly the header's names as keys, and maps each to the
      position of its last occurrence. */
  lemma {:induction false} ColumnIndexIsLastPosition<T>(header: seq<T>)
    ensures ColumnIndex(header).Keys == set i | 0 <= i < |header| :: header[i]
    ensures forall name :: name in ColumnIndex(header) ==>
      && ColumnIndex(header)[name] < |header|
      && header[ColumnIndex(header)[name]] == name
      && forall j :: ColumnIndex(header)[name] < j < |header| ==> header[j] != name
  {
    if header != [] {
      var init := header[..|header| - 1];
      ColumnIndexIsLastPosition(init);
      var m := ColumnIndex(header);
      assert m == ColumnIndex(init)[header[|header| - 1] := |header| - 1];
      forall x | x in (set i | 0 <= i < |header| :: header[i])
        ensures x in m.Keys
      {
        var i :| 0 <= i < |header| && header[i] == x;
        if i < |header| - 1 {
          assert init[i] == x;
        }
      }
      forall x | x in m.Keys
        ensures x in (set i | 0 <= i < |header| :: header[i])
      {
        if x != header[|header| - 1] {
          var i := ColumnIndex(init)[x];
          assert header[i] == x;
        }
      }
    }
  }
}
