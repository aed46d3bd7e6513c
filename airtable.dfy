/** `AirtableRecordsFilter` (airtable.py): the same selection pipeline, with
    the start instant fixed when the filter is built. */
module Airtable {
  import opened Wrappers
  import opened Lists
  import opened EventSelection

  class AirtableRecordsFilter {
    const records: seq<EventRecord>
    const startTime: int
    const cutoffDays: int
    const minEvents: int

    /** `__init__`: the given start instant, or the current instant `now`
        when none is given; the Python defaults are 10 days and 10 events. */
    constructor(records: seq<EventRecord>, start: Option<int>, now: int, cutoffDays: int, minEvents: int)
      ensures this.records == records && this.cutoffDays == cutoffDays && this.minEvents == minEvents
      ensures startTime == if start.Some? then start.value else now
    {
      this.records := records;
      startTime := if start.Some? then start.value else now;
      this.cutoffDays := cutoffDays;
      this.minEvents := minEvents;
    }

    /** `filter`: the events within `cutoffDays` days of the start when there
        are at least `minEvents` of them, otherwise the first
        `minEvents + 1` candidates (so a longer result lies wholly within
        the cutoff); each result is a future record of the
        input, in start order, at most one per recurring series. */
    method Filter() returns (selected: seq<EventRecord>)
      ensures selected == Select(records, startTime, startTime + cutoffDays * MsPerDay, minEvents, minEvents + 1).events
      ensures multiset(selected) <= multiset(records)
      ensures forall i :: 0 <= i < |selected| ==> IsFutureEvent(selected[i], startTime)
      ensures forall i, j :: 0 <= i < j < |selected| ==> selected[i].start <= selected[j].start
      ensures |selected| > minEvents + 1 ==>
        forall i :: 0 <= i < |selected| ==> selected[i].start <= startTime + cutoffDays * MsPerDay
    {
      var sorted := SortByStart(FutureEvents(records, startTime));
      var deduped := FilterOutRecurringEvents(sorted);
      var end := startTime + cutoffDays * MsPerDay;
      var eventsBeforeCutoff := EventsBeforeCutoff(deduped, end);
      if |eventsBeforeCutoff| >= minEvents {
        selected := eventsBeforeCutoff;
      } else {
        selected := Prefix(deduped, minEvents + 1);
      }
      SelectFromInputFutureSorted(records, startTime, end, minEvents, minEvents + 1);
      SelectCutoffRule(records, startTime, end, minEvents, minEvents + 1);
    }
  }
}
