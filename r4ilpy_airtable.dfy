/** `AirtableRecordsFilterer` (r4ilpy/airtable.py): the selection pipeline
    over fetched Airtable records, with a configurable cutoff in days and a
    minimum event count; the start instant is chosen on each `filter` call
    and remembered on the object. Fetching the records is not modelled. */
module R4ilpyAirtable {
  import opened Wrappers
  import opened Lists
  import opened EventSelection

  class AirtableRecordsFilterer {
    const records: seq<EventRecord>
    const cutoffDays: int
    const minEvents: int
    var startTime: Option<int>

    /** `__init__`; the Python defaults are 10 days and 10 events. */
    constructor(records: seq<EventRecord>, cutoffDays: int, minEvents: int)
      ensures this.records == records && this.cutoffDays == cutoffDays && this.minEvents == minEvents
      ensures startTime == None
    {
      this.records := records;
      this.cutoffDays := cutoffDays;
      this.minEvents := minEvents;
      startTime := None;
    }

    /** `filter(start_time)`: uses the given start or the current instant
        `now`, stores it, and returns the events within `cutoffDays` days
        when there are at least `minEvents` of them, otherwise the first
        `minEvents + 1` candidates. */
    method Filter(start: Option<int>, now: int) returns (selected: seq<EventRecord>)
      modifies this
      ensures startTime == Some(if start.Some? then start.value else now)
      ensures selected == Select(records, startTime.value, startTime.value + cutoffDays * MsPerDay,
                                 minEvents, minEvents + 1).events
    {
      startTime := Some(if start.Some? then start.value else now);
      var st := startTime.value;
      var sorted := SortByStart(FutureEvents(records, st));
      var deduped := FilterOutRecurringEvents(sorted);
      var eventsBeforeCutoff := EventsBeforeCutoff(deduped, st + cutoffDays * MsPerDay);
      if |eventsBeforeCutoff| >= minEvents {
        selected := eventsBeforeCutoff;
      } else {
        selected := Prefix(deduped, minEvents + 1);
      }
    }
  }
}
