/** The event-selection pipeline shared by the social-media poster
    (socialPosters.js) and the two Airtable record filters (airtable.py,
    r4ilpy/airtable.py): keep events dated today or later, order them by
    start, keep only the first instance of each recurring series, then take
    either every event up to a cutoff instant or, when too few fall before
    it, a fixed number of leading events. Instants are integer milliseconds
    since the epoch and dates are day numbers. */
module EventSelection {
  import opened Sorting
  import opened Lists

  const MsPerDay: int := 86_400_000

  /** The fields of an Airtable event record that the pipeline reads. A
      missing or empty "Location" or "Recurring Event ID" is "", and a
      missing "All Day" is false: the source treats all of these as falsy. */
  datatype EventRecord = EventRecord(
    title: string,
    start: int,
    allDay: bool,
    location: string,
    recurringEventId: string)

  /** The calendar day an instant falls on (floor division, so instants
      before the epoch land on negative days). */
  function DayOf(t: int): int
  {
    t / MsPerDay
  }

  /** Dated today or later: only the date part of the start counts, so an
      event earlier today still qualifies. */
  predicate IsFutureEvent(r: EventRecord, now: int)
  {
    DayOf(r.start) >= DayOf(now)
  }

  function FutureEvents(records: seq<EventRecord>, now: int): seq<EventRecord>
  {
    Filter(records, (r: EventRecord) => IsFutureEvent(r, now))
  }

  predicate StartLe(a: EventRecord, b: EventRecord)
  {
    a.start <= b.start
  }

  lemma StartLeIsTotalPreorder()
    ensures TotalPreorder(StartLe)
  {
  }

  function SortByStart(records: seq<EventRecord>): seq<EventRecord>
  {
    SortBy(records, StartLe)
  }

  predicate InSeries(r: EventRecord)
  {
    r.recurringEventId != ""
  }

  predicate Unlabelled(r: EventRecord)
  {
    r.recurringEventId == ""
  }

  /** The recurring-series filter, given the series already seen: a record
      outside any series is always kept; a record of a series is kept only
      if that series has not been seen, and marks it seen. */
  function DedupFrom(records: seq<EventRecord>, seen: set<string>): seq<EventRecord>
  {
    if records == [] then []
    else
      var id := records[0].recurringEventId;
      if id == "" then [records[0]] + DedupFrom(records[1..], seen)
      else if id in seen then DedupFrom(records[1..], seen)
      else [records[0]] + DedupFrom(records[1..], seen + {id})
  }

  function Dedup(records: seq<EventRecord>): seq<EventRecord>
  {
    DedupFrom(records, {})
  }

  /** `filterOutRecurringEvents` / `_filter_out_recurring_events`: one pass
      with a growing set of seen series ids and a growing output list. */
  method FilterOutRecurringEvents(records: seq<EventRecord>) returns (kept: seq<EventRecord>)
    ensures kept == Dedup(records)
  {
    var seen: set<string> := {};
    kept := [];
    for i := 0 to |records|
      invariant kept + DedupFrom(records[i..], seen) == Dedup(records)
    {
      var record := records[i];
      var id := record.recurringEventId;
      assert records[i..][0] == record && records[i..][1..] == records[i + 1..];
      if id == "" || id !in seen {
        kept := kept + [record];
        if id != "" {
          seen := seen + {id};
        }
      }
    }
  }

  lemma {:induction false} DedupFromSubsequence(records: seq<EventRecord>, seen: set<string>)
    ensures IsSubsequence(DedupFrom(records, seen), records)
  {
    if records != [] {
      var id := records[0].recurringEventId;
      var seen' := if id == "" || id in seen then seen else seen + {id};
      DedupFromSubsequence(records[1..], seen');
      var out := DedupFrom(records, seen);
      if id == "" || id !in seen {
        assert out[0] == records[0] && out[1..] == DedupFrom(records[1..], seen');
      }
    }
  }

  /** No kept record belongs to a series seen before, and no two kept
      records belong to the same series. */
  lemma {:induction false} DedupFromSeries(records: seq<EventRecord>, seen: set<string>)
    ensures forall i :: 0 <= i < |DedupFrom(records, seen)| && InSeries(DedupFrom(records, seen)[i]) ==>
      DedupFrom(records, seen)[i].recurringEventId !in seen
    ensures forall i, j :: 0 <= i < j < |DedupFrom(records, seen)| && InSeries(DedupFrom(records, seen)[i]) ==>
      DedupFrom(records, seen)[i].recurringEventId != DedupFrom(records, seen)[j].recurringEventId
  {
    if records != [] {
      var id := records[0].recurringEventId;
      var out := DedupFrom(records, seen);
      if id == "" {
        DedupFromSeries(records[1..], seen);
        assert out == [records[0]] + DedupFrom(records[1..], seen);
        forall i, j | 0 <= i < j < |out| && InSeries(out[i])
          ensures out[i].recurringEventId != out[j].recurringEventId
        {
          assert i > 0;
          assert out[i] == DedupFrom(records[1..], seen)[i - 1];
          assert out[j] == DedupFrom(records[1..], seen)[j - 1];
        }
      } else if id in seen {
        DedupFromSeries(records[1..], seen);
      } else {
        var rest := DedupFrom(records[1..], seen + {id});
        DedupFromSeries(records[1..], seen + {id});
        assert out == [records[0]] + rest;
        forall i | 0 <= i < |out| && InSeries(out[i])
          ensures out[i].recurringEventId !in seen
        {
          if i > 0 {
            assert out[i] == rest[i - 1];
          }
        }
        forall i, j | 0 <= i < j < |out| && InSeries(out[i])
          ensures out[i].recurringEventId != out[j].recurringEventId
        {
          assert out[j] == rest[j - 1];
          if i > 0 {
            assert out[i] == rest[i - 1];
          } else if InSeries(out[j]) {
            assert out[j].recurringEventId !in seen + {id};
          }
        }
      }
    }
  }

  /** Every record outside a series survives, in its original order. */
  lemma {:induction false} DedupFromKeepsUnlabelled(records: seq<EventRecord>, seen: set<string>)
    ensures Filter(DedupFrom(records, seen), Unlabelled) == Filter(records, Unlabelled)
  {
    if records != [] {
      var id := records[0].recurringEventId;
      var seen' := if id == "" || id in seen then seen else seen + {id};
      DedupFromKeepsUnlabelled(records[1..], seen');
      var out := DedupFrom(records, seen);
      assert records == [records[0]] + records[1..];
      FilterAppend([records[0]], records[1..], Unlabelled);
      if id == "" || id !in seen {
        assert out == [records[0]] + DedupFrom(records[1..], seen');
        FilterAppend([records[0]], DedupFrom(records[1..], seen'), Unlabelled);
      }
    }
  }

  /** Each kept series record is the first record of its series in the
      input. */
  lemma {:induction false} DedupFromKeepsFirst(records: seq<EventRecord>, seen: set<string>)
    ensures forall i :: 0 <= i < |DedupFrom(records, seen)| && InSeries(DedupFrom(records, seen)[i]) ==>
      exists j :: 0 <= j < |records| && records[j] == DedupFrom(records, seen)[i] &&
        forall k :: 0 <= k < j ==> records[k].recurringEventId != records[j].recurringEventId
  {
    if records != [] {
      var id := records[0].recurringEventId;
      var seen' := if id == "" || id in seen then seen else seen + {id};
      var rest := DedupFrom(records[1..], seen');
      DedupFromKeepsFirst(records[1..], seen');
      DedupFromSeries(records[1..], seen');
      var out := DedupFrom(records, seen);
      forall i | 0 <= i < |out| && InSeries(out[i])
        ensures exists j :: 0 <= j < |records| && records[j] == out[i] &&
                 forall k :: 0 <= k < j ==> records[k].recurringEventId != records[j].recurringEventId
      {
        if (id == "" || id !in seen) && i == 0 {
          assert records[0] == out[0];
        } else {
          var i' := if id == "" || id !in seen then i - 1 else i;
          assert out[i] == rest[i'];
          var j' :| 0 <= j' < |records[1..]| && records[1..][j'] == rest[i'] &&
            forall k :: 0 <= k < j' ==> records[1..][k].recurringEventId != records[1..][j'].recurringEventId;
          assert records[j' + 1] == out[i];
          assert id == "" || id in seen';
          assert out[i].recurringEventId !in seen';
          forall k | 0 <= k < j' + 1
            ensures records[k].recurringEventId != records[j' + 1].recurringEventId
          {
            if k > 0 {
              assert records[k] == records[1..][k - 1];
            }
          }
        }
      }
    }
  }

  /** Each series that occurs in the input is represented in the output,
      unless it was seen before. */
  lemma {:induction false} DedupFromCoversSeries(records: seq<EventRecord>, seen: set<string>, j: nat)
    requires j < |records| && InSeries(records[j]) && records[j].recurringEventId !in seen
    ensures exists i :: 0 <= i < |DedupFrom(records, seen)| &&
                        DedupFrom(records, seen)[i].recurringEventId == records[j].recurringEventId
  {
    var id := records[0].recurringEventId;
    var kept := id == "" || id !in seen;
    var seen' := if kept && id != "" then seen + {id} else seen;
    var rest := DedupFrom(records[1..], seen');
    var out := DedupFrom(records, seen);
    if records[j].recurringEventId == id {
      assert out[0] == records[0];
    } else {
      assert records[j] == records[1..][j - 1];
      DedupFromCoversSeries(records[1..], seen', j - 1);
      var i :| 0 <= i < |rest| && rest[i].recurringEventId == records[j].recurringEventId;
      if kept {
        assert out == [records[0]] + rest;
        assert out[i + 1] == rest[i];
      } else {
        assert out == rest;
      }
    }
  }

  /** The events that start no later than the cutoff instant. */
  function EventsBeforeCutoff(records: seq<EventRecord>, end: int): seq<EventRecord>
  {
    Filter(records, (r: EventRecord) => r.start <= end)
  }

  /** In a list ordered by start, the events before a cutoff form a prefix. */
  lemma {:induction false} EventsBeforeCutoffIsPrefix(records: seq<EventRecord>, end: int)
    requires SortedBy(records, StartLe)
    ensures EventsBeforeCutoff(records, end) <= records
  {
    if records != [] {
      assert SortedBy(records[1..], StartLe);
      EventsBeforeCutoffIsPrefix(records[1..], end);
      if records[0].start > end {
        forall k | 0 <= k < |records[1..]| ensures records[1..][k].start > end {
          assert StartLe(records[0], records[k + 1]);
        }
        var f := EventsBeforeCutoff(records[1..], end);
        if f != [] {
          FilterMembers(records[1..], (r: EventRecord) => r.start <= end);
          assert f[0] in f;
          assert f[0] in records[1..];
        }
      }
    }
  }

  /** The records the cutoff rule chooses from: future records, ordered by
      start, first of each series. */
  function Candidates(records: seq<EventRecord>, now: int): seq<EventRecord>
  {
    Dedup(SortByStart(FutureEvents(records, now)))
  }

  /** The chosen events, and whether the cutoff rule (rather than the
      fall-back count) chose them. */
  datatype Selection = Selection(events: seq<EventRecord>, withinCutoff: bool)

  /** The whole pipeline: if at least `minEvents` candidates start by `end`
      those are chosen, otherwise the first `fallbackCount` candidates. */
  function Select(records: seq<EventRecord>, now: int, end: int, minEvents: int, fallbackCount: int): Selection
  {
    var candidates := Candidates(records, now);
    var beforeCutoff := EventsBeforeCutoff(candidates, end);
    if |beforeCutoff| >= minEvents then Selection(beforeCutoff, true)
    else Selection(Prefix(candidates, fallbackCount), false)
  }

  lemma CandidatesOrderedSubsequence(records: seq<EventRecord>, now: int)
    ensures IsSubsequence(Candidates(records, now), SortByStart(FutureEvents(records, now)))
    ensures SortedBy(Candidates(records, now), StartLe)
    ensures multiset(Candidates(records, now)) <= multiset(records)
  {
    var future := FutureEvents(records, now);
    var sorted := SortByStart(future);
    StartLeIsTotalPreorder();
    SortBySorted(future, StartLe);
    SortByPermutation(future, StartLe);
    DedupFromSubsequence(sorted, {});
    SubsequenceSorted(Candidates(records, now), sorted, StartLe);
    SubsequenceMultiset(Candidates(records, now), sorted);
    FilterIsSubsequence(records, (r: EventRecord) => IsFutureEvent(r, now));
    SubsequenceMultiset(future, records);
  }

  /** The selection is always a leading part of the candidates. */
  lemma SelectIsPrefixOfCandidates(records: seq<EventRecord>, now: int, end: int, minEvents: int, fallbackCount: int)
    ensures Select(records, now, end, minEvents, fallbackCount).events <= Candidates(records, now)
  {
    CandidatesOrderedSubsequence(records, now);
    EventsBeforeCutoffIsPrefix(Candidates(records, now), end);
  }

  /** Every chosen event comes from the input (with multiplicity), is dated
      today or later, and the chosen events are in ascending start order. */
  lemma SelectFromInputFutureSorted(records: seq<EventRecord>, now: int, end: int, minEvents: int, fallbackCount: int)
    ensures multiset(Select(records, now, end, minEvents, fallbackCount).events) <= multiset(records)
    ensures forall i :: 0 <= i < |Select(records, now, end, minEvents, fallbackCount).events| ==>
      IsFutureEvent(Select(records, now, end, minEvents, fallbackCount).events[i], now)
    ensures SortedBy(Select(records, now, end, minEvents, fallbackCount).events, StartLe)
  {
    var sel := Select(records, now, end, minEvents, fallbackCount).events;
    var c := Candidates(records, now);
    var future := FutureEvents(records, now);
    SelectIsPrefixOfCandidates(records, now, end, minEvents, fallbackCount);
    CandidatesOrderedSubsequence(records, now);
    assert c == sel + c[|sel|..];
    assert multiset(sel) <= multiset(c);
    SortByPermutation(future, StartLe);
    SubsequenceMultiset(c, SortByStart(future));
    FilterMembers(records, (r: EventRecord) => IsFutureEvent(r, now));
    forall i | 0 <= i < |sel| ensures IsFutureEvent(sel[i], now) {
      assert sel[i] == c[i];
      assert c[i] in multiset(c);
      assert c[i] in multiset(future);
      assert c[i] in future;
    }
    forall i, j | 0 <= i < j < |sel| ensures StartLe(sel[i], sel[j]) {
      assert sel[i] == c[i] && sel[j] == c[j];
    }
  }

  /** No two chosen events belong to the same recurring series. */
  lemma SelectOnePerSeries(records: seq<EventRecord>, now: int, end: int, minEvents: int, fallbackCount: int)
    ensures var sel := Select(records, now, end, minEvents, fallbackCount).events;
      forall i, j :: 0 <= i < j < |sel| && InSeries(sel[i]) ==> sel[i].recurringEventId != sel[j].recurringEventId
  {
    var sel := Select(records, now, end, minEvents, fallbackCount).events;
    var c := Candidates(records, now);
    SelectIsPrefixOfCandidates(records, now, end, minEvents, fallbackCount);
    DedupFromSeries(SortByStart(FutureEvents(records, now)), {});
    forall i, j | 0 <= i < j < |sel| && InSeries(sel[i])
      ensures sel[i].recurringEventId != sel[j].recurringEventId
    {
      assert sel[i] == c[i] && sel[j] == c[j];
    }
  }

  /** A chosen series event is the earliest future instance of its series. */
  lemma SelectEarliestOfSeries(records: seq<EventRecord>, now: int, end: int, minEvents: int, fallbackCount: int)
    ensures var sel := Select(records, now, end, minEvents, fallbackCount).events;
      forall i, x :: (0 <= i < |sel| && InSeries(sel[i]) && x in records && IsFutureEvent(x, now) &&
                      x.recurringEventId == sel[i].recurringEventId) ==> sel[i].start <= x.start
  {
    var sel := Select(records, now, end, minEvents, fallbackCount).events;
    var c := Candidates(records, now);
    var future := FutureEvents(records, now);
    var sorted := SortByStart(future);
    SelectIsPrefixOfCandidates(records, now, end, minEvents, fallbackCount);
    DedupFromKeepsFirst(sorted, {});
    FilterMembers(records, (r: EventRecord) => IsFutureEvent(r, now));
    StartLeIsTotalPreorder();
    SortBySorted(future, StartLe);
    SortByPermutation(future, StartLe);
    forall i, x | 0 <= i < |sel| && InSeries(sel[i]) && x in records && IsFutureEvent(x, now) &&
      x.recurringEventId == sel[i].recurringEventId
      ensures sel[i].start <= x.start
    {
      assert sel[i] == c[i];
      var j :| 0 <= j < |sorted| && sorted[j] == c[i] &&
        forall k :: 0 <= k < j ==> sorted[k].recurringEventId != sorted[j].recurringEventId;
      assert x in future;
      assert x in multiset(future);
      assert x in multiset(sorted);
      var k :| 0 <= k < |sorted| && sorted[k] == x;
      if k > j {
        assert StartLe(sorted[j], sorted[k]);
      }
    }
  }

  /** The cutoff rule, both ways: the cutoff set is chosen exactly when it has
      at least `minEvents` events, and then the chosen events are exactly the
      candidates starting by `end`; otherwise the first `fallbackCount`
      candidates are chosen. */
  lemma SelectCutoffRule(records: seq<EventRecord>, now: int, end: int, minEvents: int, fallbackCount: int)
    ensures Select(records, now, end, minEvents, fallbackCount).withinCutoff <==>
      |EventsBeforeCutoff(Candidates(records, now), end)| >= minEvents
    ensures Select(records, now, end, minEvents, fallbackCount).withinCutoff ==>
      && (forall i :: 0 <= i < |Select(records, now, end, minEvents, fallbackCount).events| ==>
            Select(records, now, end, minEvents, fallbackCount).events[i].start <= end)
      && (forall i :: 0 <= i < |Candidates(records, now)| && Candidates(records, now)[i].start <= end ==>
            Candidates(records, now)[i] in Select(records, now, end, minEvents, fallbackCount).events)
    ensures !Select(records, now, end, minEvents, fallbackCount).withinCutoff ==>
      Select(records, now, end, minEvents, fallbackCount).events == Prefix(Candidates(records, now), fallbackCount)
  {
    var c := Candidates(records, now);
    FilterMembers(c, (r: EventRecord) => r.start <= end);
    var f := EventsBeforeCutoff(c, end);
    forall i | 0 <= i < |f| ensures f[i].start <= end {
      assert f[i] in f;
    }
  }

  /** Every future record outside any series, and a representative of every
      series with a future record, reach the candidates. */
  lemma CandidatesCoverFuture(records: seq<EventRecord>, now: int)
    ensures forall x :: x in records && IsFutureEvent(x, now) && !InSeries(x) ==> x in Candidates(records, now)
    ensures forall x :: x in records && IsFutureEvent(x, now) && InSeries(x) ==>
      exists i :: 0 <= i < |Candidates(records, now)| &&
        Candidates(records, now)[i].recurringEventId == x.recurringEventId
  {
    var future := FutureEvents(records, now);
    var sorted := SortByStart(future);
    var c := Candidates(records, now);
    SortByPermutation(future, StartLe);
    DedupFromKeepsUnlabelled(sorted, {});
    FilterMembers(records, (r: EventRecord) => IsFutureEvent(r, now));
    FilterMembers(sorted, Unlabelled);
    FilterMembers(c, Unlabelled);
    forall x | x in records && IsFutureEvent(x, now) && !InSeries(x)
      ensures x in c
    {
      assert x in future;
      assert x in multiset(sorted);
      var k :| 0 <= k < |sorted| && sorted[k] == x;
      assert Unlabelled(sorted[k]);
      assert x in Filter(sorted, Unlabelled);
      assert x in Filter(c, Unlabelled);
    }
    forall x | x in records && IsFutureEvent(x, now) && InSeries(x)
      ensures exists i :: 0 <= i < |c| && c[i].recurringEventId == x.recurringEventId
    {
      assert x in future;
      assert x in multiset(sorted);
      var k :| 0 <= k < |sorted| && sorted[k] == x;
      DedupFromCoversSeries(sorted, {}, k);
    }
  }
}
