/** The two spreadsheet/calendar syncers (syncers.js). `CalendarToSheetSyncer`
    rewrites a sheet as a header row plus one row per calendar event.
    `UTCCalendarSyncer` walks the sheet's rows, pushes each row's title,
    times, description and location onto the UTC-calendar event the row's
    "UTC'd UID" cell names, clears stale "UTC'd UID" cells, and deletes every
    calendar event in the query window that no row references. The sheet is a
    list of rows of cells and the UTC calendar a dictionary from event id to
    event. */
module Syncers {
  import opened Wrappers
  import opened Columns

  /** A spreadsheet cell: text, a date-time (an instant in ms), a checkbox,
      or empty. */
  datatype Cell = Str(text: string) | Time(instant: int) | Flag(flag: bool) | Blank

  /** JavaScript truthiness of a cell value. */
  predicate Truthy(c: Cell)
  {
    match c
    case Str(s) => s != ""
    case Time(_) => true
    case Flag(b) => b
    case Blank => false
  }

  /** `row[col]`, an absent column or a cell past the row's end reading as
      empty (`undefined`). */
  function CellAt(row: seq<Cell>, col: Option<nat>): Cell
  {
    if col.Some? && col.value < |row| then row[col.value] else Blank
  }

  /** `getRange(row + 1, col + 1).setValue(v)` with 0-based `row` and `col`:
      writing past the end of a row extends it with empty cells. */
  function SetCell(sheet: seq<seq<Cell>>, row: nat, col: nat, v: Cell): (r: seq<seq<Cell>>)
    requires row < |sheet|
    ensures |r| == |sheet|
    ensures |r[row]| == if col < |sheet[row]| then |sheet[row]| else col + 1
    ensures CellAt(r[row], Some(col)) == v
    ensures forall c :: 0 <= c < |sheet[row]| && c != col ==> r[row][c] == sheet[row][c]
    ensures forall k :: 0 <= k < |sheet| && k != row ==> r[k] == sheet[k]
  {
    var current := sheet[row];
    var padded := if col < |current| then current else current + seq(col + 1 - |current|, _ => Blank);
    sheet[row := padded[col := v]]
  }

  // ---------------------------------------------------- calendar to sheet

  const SheetHeader: seq<Cell> := [
    Str("iCalUID"), Str("Event Title"), Str("Start Time (Local)"), Str("End Time (Local)"),
    Str("Start Time (GMT)"), Str("End Time (GMT)"), Str("Location"), Str("Description"),
    Str("Is All Day"), Str("Creator")]

  /** The fields of a source-calendar event that are copied into the sheet. */
  datatype CalendarEvent = CalendarEvent(
    id: string, title: string, start: int, end: int,
    location: string, description: string, allDay: bool, creators: seq<string>)

  /** One sheet row per event, in header order; `toUtcString` renders an
      instant as `Date.prototype.toUTCString` does, and an event without
      creators leaves the Creator cell empty. */
  function EventRow(e: CalendarEvent, toUtcString: int -> string): (r: seq<Cell>)
    ensures |r| == |SheetHeader|
  {
    [Str(e.id), Str(e.title), Time(e.start), Time(e.end),
     Str(toUtcString(e.start)), Str(toUtcString(e.end)),
     Str(e.location), Str(e.description), Flag(e.allDay),
     if e.creators == [] then Blank else Str(e.creators[0])]
  }

  function EventRows(events: seq<CalendarEvent>, toUtcString: int -> string): seq<seq<Cell>>
  {
    seq(|events|, i requires 0 <= i < |events| => EventRow(events[i], toUtcString))
  }

  class CalendarToSheetSyncer {
    var sheet: seq<seq<Cell>>
    const startTime: int
    const endTime: int

    constructor(initialSheet: seq<seq<Cell>>, startTime: int, endTime: int)
      ensures sheet == initialSheet && this.startTime == startTime && this.endTime == endTime
    {
      sheet := initialSheet;
      this.startTime := startTime;
      this.endTime := endTime;
    }

    /** `events` is what the source calendar returns for
        [startTime, endTime], in the order returned. */
    method Sync(events: seq<CalendarEvent>, toUtcString: int -> string)
      modifies this
      ensures sheet == [SheetHeader] + EventRows(events, toUtcString)
      ensures |sheet| == |events| + 1
      ensures forall k :: 0 <= k < |sheet| ==> |sheet[k]| == |SheetHeader|
      ensures forall i :: 0 <= i < |events| ==> sheet[i + 1][0] == Str(events[i].id)
    {
      ResetSpreadSheet();
      SyncSpreadSheet(events, toUtcString);
    }

    method ResetSpreadSheet()
      modifies this
      ensures sheet == [SheetHeader]
    {
      sheet := [];
      sheet := sheet + [SheetHeader];
    }

    method SyncSpreadSheet(events: seq<CalendarEvent>, toUtcString: int -> string)
      modifies this
      ensures sheet == old(sheet) + EventRows(events, toUtcString)
    {
      for i := 0 to |events|
        invariant sheet == old(sheet) + EventRows(events[..i], toUtcString)
      {
        assert EventRows(events[..i + 1], toUtcString) == EventRows(events[..i], toUtcString) + [EventRow(events[i], toUtcString)];
        sheet := sheet + [EventRow(events[i], toUtcString)];
      }
      assert events[..|events|] == events;
    }
  }

  // ---------------------------------------------------------- UTC calendar

  /** An event of the UTC calendar, with the fields the syncer sets. */
  datatype UtcEvent = UtcEvent(id: string, title: Cell, start: int, end: int, description: Cell, location: Cell)

  predicate ValidCalendar(calendar: map<string, UtcEvent>)
  {
    forall k :: k in calendar ==> calendar[k].id == k
  }

  const UtcUidColumn := Str("UTC'd UID")
  const ICalUidColumn := Str("iCalUID")
  const TitleColumn := Str("Event Title")
  const StartColumn := Str("Start Time (Local)")
  const EndColumn := Str("End Time (Local)")
  const LocationColumn := Str("Location")
  const DescriptionColumn := Str("Description")
  const AllDayColumn := Str("Is All Day")

  /** The calendar query of `deleteOldEvents` covers new Date(0) up to
      new Date(9999, 11, 31), taken here in UTC. */
  const BeginningOfTime: int := 0
  const EndOfTime: int := 253_402_214_400_000

  const MissingHeaderError := "Cannot read properties of undefined (reading 'length')"
  const MissingEventError := "Cannot read properties of null (reading 'getTitle')"
  const AllDayDateError := "setAllDayDate needs a date, got undefined"
  const InvalidTimeError := "setTime needs two valid dates"
  const TimeOrderError := "Event start date must be before event end date."

  function Col(cols: map<Cell, nat>, name: Cell): Option<nat>
  {
    if name in cols then Some(cols[name]) else None
  }

  /** `getEventById`: only a text cell naming a stored event finds one. */
  function EventFor(calendar: map<string, UtcEvent>, c: Cell): Option<UtcEvent>
  {
    if c.Str? && c.text in calendar then Some(calendar[c.text]) else None
  }

  datatype SyncState = SyncState(sheet: seq<seq<Cell>>, calendar: map<string, UtcEvent>)

  /** The state after a step, and the error it raised, if any (changes made
      before the error stay made). */
  datatype Outcome = Outcome(state: SyncState, error: Option<string>)

  /** `syncRow` on the update path: the event named by the row's UTC'd UID
      gets the row's title, then either the all-day call (which receives
      `undefined` and fails) or the row's start and end, then its
      description and location; finally the event's id is written back into
      the row's UTC'd UID cell. A row naming no event fails at once, since
      the create branch dereferences the missing event. */
  function SyncRowSpec(st: SyncState, cols: map<Cell, nat>, rowIndex: nat, row: seq<Cell>): (o: Outcome)
    requires rowIndex < |st.sheet|
    requires ValidCalendar(st.calendar)
    ensures ValidCalendar(o.state.calendar) && |o.state.sheet| == |st.sheet|
    ensures o.state.calendar.Keys == st.calendar.Keys
  {
    var utcCol := Col(cols, UtcUidColumn);
    match EventFor(st.calendar, CellAt(row, utcCol))
    case None => Outcome(st, Some(MissingEventError))
    case Some(e) =>
      var titled := e.(title := CellAt(row, Col(cols, TitleColumn)));
      var start := CellAt(row, Col(cols, StartColumn));
      var end := CellAt(row, Col(cols, EndColumn));
      if Truthy(CellAt(row, Col(cols, AllDayColumn))) then
        Outcome(SyncState(st.sheet, st.calendar[e.id := titled]), Some(AllDayDateError))
      else if !start.Time? || !end.Time? then
        Outcome(SyncState(st.sheet, st.calendar[e.id := titled]), Some(InvalidTimeError))
      else if start.instant > end.instant then
        Outcome(SyncState(st.sheet, st.calendar[e.id := titled]), Some(TimeOrderError))
      else
        var updated := titled.(start := start.instant, end := end.instant,
                               description := CellAt(row, Col(cols, DescriptionColumn)),
                               location := CellAt(row, Col(cols, LocationColumn)));
        Outcome(SyncState(SetCell(st.sheet, rowIndex, utcCol.value, Str(e.id)), st.calendar[e.id := updated]), None)
  }

  /** `sync`'s row loop from row `i`: stop at the end or at the first row
      whose second cell is falsy, and abort at the first failing row. */
  function SyncRowsSpec(st: SyncState, cols: map<Cell, nat>, data: seq<seq<Cell>>, i: nat): (o: Outcome)
    requires |st.sheet| == |data| && ValidCalendar(st.calendar)
    ensures ValidCalendar(o.state.calendar) && |o.state.sheet| == |data|
    decreases |data| - i
  {
    if i >= |data| || !Truthy(CellAt(data[i], Some(1))) then Outcome(st, None)
    else
      var o := SyncRowSpec(st, cols, i, data[i]);
      if o.error.Some? then o else SyncRowsSpec(o.state, cols, data, i + 1)
  }

  /** A data row whose UTC'd UID must be cleared: empty iCalUID, non-empty
      UTC'd UID. */
  predicate StaleRow(row: seq<Cell>, iCalCol: Option<nat>, utcCol: Option<nat>)
  {
    !Truthy(CellAt(row, iCalCol)) && Truthy(CellAt(row, utcCol))
  }

  function ClearedRow(row: seq<Cell>, iCalCol: Option<nat>, utcCol: Option<nat>): seq<Cell>
  {
    if StaleRow(row, iCalCol, utcCol) then row[utcCol.value := Blank] else row
  }

  /** `deleteOldUTCIds`: every stale data row loses its UTC'd UID; the header
      and every other cell stay. */
  function ClearStaleIds(sheet: seq<seq<Cell>>, iCalCol: Option<nat>, utcCol: Option<nat>): (r: seq<seq<Cell>>)
    ensures |r| == |sheet|
  {
    seq(|sheet|, k requires 0 <= k < |sheet| => if k == 0 then sheet[0] else ClearedRow(sheet[k], iCalCol, utcCol))
  }

  /** The non-empty UTC'd UID values of the data rows. */
  function Referenced(sheet: seq<seq<Cell>>, utcCol: Option<nat>): set<Cell>
  {
    set k | 1 <= k < |sheet| && Truthy(CellAt(sheet[k], utcCol)) :: CellAt(sheet[k], utcCol)
  }

  /** `getEvents(from, to)` returns the events that overlap the window. */
  predicate InWindow(e: UtcEvent)
  {
    e.start < EndOfTime && e.end > BeginningOfTime
  }

  /** The calendar without the events of the window that `keep` does not
      name. */
  function PruneCalendar(calendar: map<string, UtcEvent>, keep: set<Cell>): map<string, UtcEvent>
  {
    map k | k in calendar && (!InWindow(calendar[k]) || Str(k) in keep) :: calendar[k]
  }

  /** `deleteOldEvents`: clear stale UTC'd UIDs, then prune against the
      UTC'd UIDs that remain. */
  function DeleteOldEventsSpec(st: SyncState, cols: map<Cell, nat>): SyncState
  {
    var cleared := ClearStaleIds(st.sheet, Col(cols, ICalUidColumn), Col(cols, UtcUidColumn));
    SyncState(cleared, PruneCalendar(st.calendar, Referenced(cleared, Col(cols, UtcUidColumn))))
  }

  function ColumnsAfterSync(sheet: seq<seq<Cell>>, cols: map<Cell, nat>): map<Cell, nat>
  {
    if sheet == [] then cols else cols + ColumnIndex(sheet[0])
  }

  /** `sync`: index the header, run the row loop over a snapshot of the
      sheet, then prune. An empty sheet has no header and fails. */
  function SyncSpec(st: SyncState, cols: map<Cell, nat>): Outcome
    requires ValidCalendar(st.calendar)
  {
    if st.sheet == [] then Outcome(st, Some(MissingHeaderError))
    else
      var cols' := ColumnsAfterSync(st.sheet, cols);
      var o := SyncRowsSpec(st, cols', st.sheet, 1);
      if o.error.Some? then o else Outcome(DeleteOldEventsSpec(o.state, cols'), None)
  }

  // ------------------------------------------------- properties of the sync

  /** On the update path the id written back is the one the cell already
      held, so a successful row leaves the sheet as it was. */
  lemma SyncRowKeepsSheet(st: SyncState, cols: map<Cell, nat>, rowIndex: nat)
    requires rowIndex < |st.sheet| && ValidCalendar(st.calendar)
    ensures SyncRowSpec(st, cols, rowIndex, st.sheet[rowIndex]).error.None? ==>
      SyncRowSpec(st, cols, rowIndex, st.sheet[rowIndex]).state.sheet == st.sheet
  {
    var row := st.sheet[rowIndex];
    var utcCol := Col(cols, UtcUidColumn);
    var o := SyncRowSpec(st, cols, rowIndex, row);
    if o.error.None? {
      var c := CellAt(row, utcCol);
      assert c.Str? && c.text in st.calendar;
      var e := st.calendar[c.text];
      assert e.id == c.text;
      assert utcCol.value < |row| && row[utcCol.value] == Str(e.id);
      assert row[utcCol.value := Str(e.id)] == row;
    }
  }

  /** A row syncs without error exactly when its UTC'd UID names a stored
      event, its all-day cell is falsy and its start and end are date-times
      in order; the event then carries the row's title, start, end,
      description and location, keeps its id, and no other event changes. */
  lemma SyncRowUpdatesEvent(st: SyncState, cols: map<Cell, nat>, rowIndex: nat, row: seq<Cell>)
    requires rowIndex < |st.sheet| && ValidCalendar(st.calendar)
    ensures var o := SyncRowSpec(st, cols, rowIndex, row);
      var uid := CellAt(row, Col(cols, UtcUidColumn));
      var start := CellAt(row, Col(cols, StartColumn));
      var end := CellAt(row, Col(cols, EndColumn));
      && (o.error.None? <==>
            uid.Str? && uid.text in st.calendar
            && !Truthy(CellAt(row, Col(cols, AllDayColumn)))
            && start.Time? && end.Time? && start.instant <= end.instant)
      && (o.error.None? ==>
            && o.state.calendar[uid.text] == UtcEvent(uid.text, CellAt(row, Col(cols, TitleColumn)),
                 start.instant, end.instant,
                 CellAt(row, Col(cols, DescriptionColumn)), CellAt(row, Col(cols, LocationColumn)))
            && (forall k :: k in st.calendar && k != uid.text ==> o.state.calendar[k] == st.calendar[k]))
  {
    var uid := CellAt(row, Col(cols, UtcUidColumn));
    if uid.Str? && uid.text in st.calendar {
      assert st.calendar[uid.text].id == uid.text;
    }
  }

  /** The row loop touches only rows from `i` up to the first row with a
      falsy second cell, and never adds or removes calendar events. */
  lemma {:induction false} SyncRowsTouchesOnlyLeadingRows(st: SyncState, cols: map<Cell, nat>, data: seq<seq<Cell>>, i: nat, j: nat)
    requires |st.sheet| == |data| && ValidCalendar(st.calendar)
    requires j < |data| && (j < i || (i <= j && !Truthy(CellAt(data[j], Some(1)))) ||
                            exists b :: i <= b < j && !Truthy(CellAt(data[b], Some(1))))
    ensures SyncRowsSpec(st, cols, data, i).state.sheet[j] == st.sheet[j]
    ensures SyncRowsSpec(st, cols, data, i).state.calendar.Keys == st.calendar.Keys
    decreases |data| - i
  {
    if i >= |data| || !Truthy(CellAt(data[i], Some(1))) {
    } else {
      var o := SyncRowSpec(st, cols, i, data[i]);
      assert j != i;
      if o.error.None? {
        SyncRowsTouchesOnlyLeadingRows(o.state, cols, data, i + 1, j);
      }
    }
  }

  /** A clearing never leaves a reference to an id that only stale rows
      named: such an event is then pruned. */
  lemma StaleReferenceDropped(sheet: seq<seq<Cell>>, iCalCol: Option<nat>, utcCol: Option<nat>, id: string)
    requires forall k :: 1 <= k < |sheet| && CellAt(sheet[k], utcCol) == Str(id) ==> !Truthy(CellAt(sheet[k], iCalCol))
    ensures Str(id) !in Referenced(ClearStaleIds(sheet, iCalCol, utcCol), utcCol)
  {
    var cleared := ClearStaleIds(sheet, iCalCol, utcCol);
    forall k | 1 <= k < |cleared|
      ensures !(Truthy(CellAt(cleared[k], utcCol)) && CellAt(cleared[k], utcCol) == Str(id))
    {
      assert cleared[k] == ClearedRow(sheet[k], iCalCol, utcCol);
    }
  }

  /** After the prune, an event of the window survives exactly when a data
      row of the cleared sheet names it in its UTC'd UID; events outside the
      window are untouched. */
  lemma DeleteOldEventsKeepsExactlyReferenced(st: SyncState, cols: map<Cell, nat>, id: string)
    requires id in st.calendar
    ensures var out := DeleteOldEventsSpec(st, cols);
      id in out.calendar <==>
        !InWindow(st.calendar[id]) ||
        (id != "" && exists k :: 1 <= k < |out.sheet| && CellAt(out.sheet[k], Col(cols, UtcUidColumn)) == Str(id))
    ensures var out := DeleteOldEventsSpec(st, cols);
      id in out.calendar ==> out.calendar[id] == st.calendar[id]
  {
    var out := DeleteOldEventsSpec(st, cols);
    var utcCol := Col(cols, UtcUidColumn);
    if id != "" && exists k :: 1 <= k < |out.sheet| && CellAt(out.sheet[k], utcCol) == Str(id) {
      var k :| 1 <= k < |out.sheet| && CellAt(out.sheet[k], utcCol) == Str(id);
      assert Str(id) in Referenced(out.sheet, utcCol);
    }
  }

  // ------------------------------------------------------------ the class

  class UTCCalendarSyncer {
    var columnIndexMap: map<Cell, nat>
    var sheet: seq<seq<Cell>>
    var calendar: map<string, UtcEvent>

    ghost predicate Valid()
      reads this
    {
      ValidCalendar(calendar)
    }

    constructor(calendar: map<string, UtcEvent>, sheet: seq<seq<Cell>>)
      requires ValidCalendar(calendar)
      ensures Valid()
      ensures this.calendar == calendar && this.sheet == sheet && columnIndexMap == map[]
    {
      this.calendar := calendar;
      this.sheet := sheet;
      columnIndexMap := map[];
    }

    method Sync() returns (err: Option<string>)
      requires Valid()
      modifies this
      ensures Valid()
      ensures Outcome(SyncState(sheet, calendar), err) ==
        SyncSpec(SyncState(old(sheet), old(calendar)), old(columnIndexMap))
      ensures columnIndexMap == ColumnsAfterSync(old(sheet), old(columnIndexMap))
    {
      var data := sheet;
      if data == [] {
        return Some(MissingHeaderError);
      }
      MapColumnIndexes(data[0]);
      ghost var start := SyncState(data, calendar);
      var i := 1;
      while i < |data|
        invariant 1 <= i <= |data| && |sheet| == |data| && Valid()
        invariant columnIndexMap == ColumnsAfterSync(data, old(columnIndexMap))
        invariant SyncRowsSpec(start, columnIndexMap, data, 1) ==
          SyncRowsSpec(SyncState(sheet, calendar), columnIndexMap, data, i)
      {
        var row := data[i];
        if !Truthy(CellAt(row, Some(1))) {
          break;
        }
        err := SyncRow(i, row);
        if err.Some? {
          return;
        }
        i := i + 1;
      }
      DeleteOldEvents();
      err := None;
    }

    /** Adds each header name's position to the index, a later duplicate
        overwriting an earlier one. */
    method MapColumnIndexes(headerRow: seq<Cell>)
      modifies this
      ensures columnIndexMap == old(columnIndexMap) + ColumnIndex(headerRow)
      ensures sheet == old(sheet) && calendar == old(calendar)
    {
      for i := 0 to |headerRow|
        invariant columnIndexMap == old(columnIndexMap) + ColumnIndex(headerRow[..i])
        invariant sheet == old(sheet) && calendar == old(calendar)
      {
        assert headerRow[..i + 1][..i] == headerRow[..i];
        columnIndexMap := columnIndexMap[headerRow[i] := i];
      }
      assert headerRow[..|headerRow|] == headerRow;
    }

    method SyncRow(rowIndex: nat, row: seq<Cell>) returns (err: Option<string>)
      requires Valid() && rowIndex < |sheet|
      modifies this
      ensures Valid()
      ensures Outcome(SyncState(sheet, calendar), err) ==
        SyncRowSpec(SyncState(old(sheet), old(calendar)), columnIndexMap, rowIndex, row)
      ensures columnIndexMap == old(columnIndexMap)
    {
      var utcCol := Col(columnIndexMap, UtcUidColumn);
      var utcEventId := CellAt(row, utcCol);
      var title := CellAt(row, Col(columnIndexMap, TitleColumn));
      var localStartTime := CellAt(row, Col(columnIndexMap, StartColumn));
      var localEndTime := CellAt(row, Col(columnIndexMap, EndColumn));
      var location := CellAt(row, Col(columnIndexMap, LocationColumn));
      var description := CellAt(row, Col(columnIndexMap, DescriptionColumn));
      var isAllDay := CellAt(row, Col(columnIndexMap, AllDayColumn));

      var event := EventFor(calendar, utcEventId);
      if event.None? {
        return Some(MissingEventError);
      }
      var e := event.value;
      e := e.(title := title);
      calendar := calendar[e.id := e];
      if Truthy(isAllDay) {
        return Some(AllDayDateError);
      }
      if !localStartTime.Time? || !localEndTime.Time? {
        return Some(InvalidTimeError);
      }
      if localStartTime.instant > localEndTime.instant {
        return Some(TimeOrderError);
      }
      e := e.(start := localStartTime.instant, end := localEndTime.instant);
      calendar := calendar[e.id := e];
      e := e.(description := description);
      calendar := calendar[e.id := e];
      e := e.(location := location);
      calendar := calendar[e.id := e];
      sheet := SetCell(sheet, rowIndex, utcCol.value, Str(e.id));
      err := None;
    }

    /** Walks the data rows from the last to row 1 and empties the UTC'd
        UID cell of every stale row. */
    method DeleteOldUTCIds()
      modifies this
      ensures sheet == ClearStaleIds(old(sheet), Col(columnIndexMap, ICalUidColumn), Col(columnIndexMap, UtcUidColumn))
      ensures calendar == old(calendar) && columnIndexMap == old(columnIndexMap)
    {
      var data := sheet;
      var iCalUIDColumnIndex := Col(columnIndexMap, ICalUidColumn);
      var utcUIDColumnIndex := Col(columnIndexMap, UtcUidColumn);
      var i := |data| - 1;
      while i > 0
        invariant -1 <= i < |data| || (|data| == 0 && i == -1)
        invariant |sheet| == |data| && calendar == old(calendar) && columnIndexMap == old(columnIndexMap)
        invariant forall k :: 0 <= k < |data| ==>
          sheet[k] == if k > i && k > 0 then ClearedRow(data[k], iCalUIDColumnIndex, utcUIDColumnIndex) else data[k]
      {
        var row := data[i];
        if !Truthy(CellAt(row, iCalUIDColumnIndex)) && Truthy(CellAt(row, utcUIDColumnIndex)) {
          sheet := SetCell(sheet, i, utcUIDColumnIndex.value, Blank);
          assert sheet[i] == ClearedRow(data[i], iCalUIDColumnIndex, utcUIDColumnIndex);
        }
        i := i - 1;
      }
      assert sheet == ClearStaleIds(data, iCalUIDColumnIndex, utcUIDColumnIndex);
    }

    /** Clears stale UTC'd UIDs, collects the UTC'd UIDs still present, and
        deletes every event of the window that none of them names. */
    method DeleteOldEvents()
      requires Valid()
      modifies this
      ensures Valid()
      ensures SyncState(sheet, calendar) == DeleteOldEventsSpec(SyncState(old(sheet), old(calendar)), columnIndexMap)
      ensures columnIndexMap == old(columnIndexMap)
    {
      DeleteOldUTCIds();
      var utcCol := Col(columnIndexMap, UtcUidColumn);
      var events := set k | k in calendar && InWindow(calendar[k]);
      var sheetData := sheet;
      var sheetEventIds: set<Cell> := {};
      var i := 1;
      while i < |sheetData|
        invariant 1 <= i <= |sheetData| || (|sheetData| == 0 && i == 1)
        invariant sheet == sheetData && calendar == old(calendar) && columnIndexMap == old(columnIndexMap)
        invariant sheetEventIds == set k | 1 <= k < i && k < |sheetData| && Truthy(CellAt(sheetData[k], utcCol)) :: CellAt(sheetData[k], utcCol)
      {
        var eventId := CellAt(sheetData[i], utcCol);
        if Truthy(eventId) {
          sheetEventIds := sheetEventIds + {eventId};
        }
        i := i + 1;
      }
      assert sheetEventIds == Referenced(sheetData, utcCol);
      ghost var before := calendar;
      var pending := events;
      while pending != {}
        invariant pending <= events
        invariant sheet == sheetData && columnIndexMap == old(columnIndexMap)
        invariant calendar == map k | k in before && (k in pending || !InWindow(before[k]) || Str(k) in sheetEventIds) :: before[k]
        decreases pending
      {
        var eventId :| eventId in pending;
        if Str(eventId) !in sheetEventIds {
          calendar := calendar - {eventId};
        }
        pending := pending - {eventId};
      }
    }
  }
}
