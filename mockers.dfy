/** In-memory stand-ins for the external services (mockers.js): a Facebook
    page that records posts, a Twitter account that records reply-chained
    tweets, a Google calendar kept as a dictionary from event id to event,
    and an Airtable table kept as a list of records with upsert and
    delete-by-id. Fresh uuids are supplied by the caller (the calendar and
    Airtable mocks) or drawn from a counter (the Twitter mock). */
module Mockers {
  import opened Wrappers
  import opened Lists

  // ---------------------------------------------------------------- Facebook

  class MockFacebookAPI {
    var posts: seq<string>

    constructor()
      ensures posts == []
    {
      posts := [];
    }

    method Post(message: string)
      modifies this
      ensures posts == old(posts) + [message]
    {
      posts := posts + [message];
    }
  }

  // ----------------------------------------------------------------- Twitter

  /** A recorded tweet; `replyTo` is None for a tweet that replies to
      nothing (the source stores `undefined`). */
  datatype Tweet = Tweet(message: string, replyTo: Option<nat>, id: nat)

  /** The first tweet replies to nothing and every later one replies to the
      tweet just before it. */
  predicate ReplyChain(tweets: seq<Tweet>)
  {
    && (|tweets| > 0 ==> tweets[0].replyTo == None)
    && forall i :: 0 < i < |tweets| ==> tweets[i].replyTo == Some(tweets[i - 1].id)
  }

  class MockTwitterAPI {
    var tweets: seq<Tweet>
    /** Source of fresh tweet ids (the source draws a uuid). */
    var nextId: nat

    ghost predicate Valid()
      reads this
    {
      forall i :: 0 <= i < |tweets| ==> tweets[i].id < nextId
    }

    constructor()
      ensures Valid() && tweets == []
    {
      tweets := [];
      nextId := 0;
    }

    method SendSingleTweet(message: string, replyTo: Option<nat>) returns (id: nat)
      requires Valid()
      modifies this
      ensures Valid()
      ensures tweets == old(tweets) + [Tweet(message, replyTo, id)]
      ensures forall i :: 0 <= i < |old(tweets)| ==> old(tweets)[i].id != id
      ensures old(nextId) <= id < nextId
    {
      id := nextId;
      nextId := nextId + 1;
      tweets := tweets + [Tweet(message, replyTo, id)];
    }

    /** One tweet per message, in order, each replying to the previous one;
        the ids are returned in the same order. */
    method SendTweetThread(messages: seq<string>) returns (ids: seq<nat>)
      requires Valid()
      modifies this
      ensures Valid()
      ensures |ids| == |messages|
      ensures |tweets| == |old(tweets)| + |messages| && tweets[..|old(tweets)|] == old(tweets)
      ensures forall i :: 0 <= i < |messages| ==>
        tweets[|old(tweets)| + i].message == messages[i] && tweets[|old(tweets)| + i].id == ids[i]
      ensures ReplyChain(tweets[|old(tweets)|..])
      ensures forall i, j :: 0 <= i < j < |ids| ==> ids[i] < ids[j]
      ensures forall i, k :: 0 <= i < |ids| && 0 <= k < |old(tweets)| ==> old(tweets)[k].id != ids[i]
    {
      ids := [];
      ghost var start := |tweets|;
      for i := 0 to |messages|
        invariant Valid()
        invariant |ids| == i && |tweets| == start + i && tweets[..start] == old(tweets)
        invariant forall k :: 0 <= k < i ==> tweets[start + k].message == messages[k] && tweets[start + k].id == ids[k]
        invariant ReplyChain(tweets[start..])
        invariant forall k, l :: 0 <= k < l < i ==> ids[k] < ids[l]
        invariant forall k :: 0 <= k < i ==> old(nextId) <= ids[k] < nextId
        invariant old(nextId) <= nextId
      {
        var lastTweetId := if ids == [] then None else Some(ids[|ids| - 1]);
        ghost var before := tweets;
        var id := SendSingleTweet(messages[i], lastTweetId);
        assert tweets[start..] == before[start..] + [Tweet(messages[i], lastTweetId, id)];
        ids := ids + [id];
      }
    }
  }

  // ---------------------------------------------------------------- Calendar

  /** A start or end: an all-day `date` or a timed `dateTime`, both as
      instants (None stands for an absent or empty value). */
  datatype When = When(date: Option<int>, dateTime: Option<int>)

  /** Everything the caller supplies for an event (the source copies the
      whole object; id and iCalUID are then overwritten). */
  datatype EventBody = EventBody(summary: string, start: Option<When>, end: Option<When>)

  datatype CalendarEvent = CalendarEvent(id: string, iCalUID: string, body: EventBody)

  /** The dictionary built from a list of events: keyed by id, a later
      event with the same id replacing an earlier one. */
  function EventsListToMap(events: seq<CalendarEvent>): map<string, CalendarEvent>
  {
    if events == [] then map[]
    else EventsListToMap(events[..|events| - 1])[events[|events| - 1].id := events[|events| - 1]]
  }

  /** The ids of a list of events in order of first occurrence: the order in
      which the dictionary's keys were inserted. */
  function KeysInOrder(events: seq<CalendarEvent>): seq<string>
  {
    if events == [] then []
    else
      var keys := KeysInOrder(events[..|events| - 1]);
      if events[|events| - 1].id in keys then keys else keys + [events[|events| - 1].id]
  }

  /** For every id, the dictionary holds the last event of the list with
      that id. */
  lemma {:induction false} EventsListToMapLastWins(events: seq<CalendarEvent>)
    ensures forall k :: k in EventsListToMap(events) <==> exists i :: 0 <= i < |events| && events[i].id == k
    ensures forall k :: k in EventsListToMap(events) ==>
      exists i :: 0 <= i < |events| && events[i] == EventsListToMap(events)[k] &&
                  forall j :: i < j < |events| ==> events[j].id != k
  {
    if events != [] {
      var init := events[..|events| - 1];
      var last := events[|events| - 1];
      EventsListToMapLastWins(init);
      var m := EventsListToMap(events);
      forall k | k in m
        ensures exists i :: 0 <= i < |events| && events[i] == m[k] &&
                            forall j :: i < j < |events| ==> events[j].id != k
      {
        if k == last.id {
          assert events[|events| - 1] == m[k];
        } else {
          assert k in EventsListToMap(init);
          var i :| 0 <= i < |init| && init[i] == EventsListToMap(init)[k] &&
            forall j :: i < j < |init| ==> init[j].id != k;
          assert events[i] == m[k];
        }
      }
      forall k | exists i :: 0 <= i < |events| && events[i].id == k
        ensures k in m
      {
        var i :| 0 <= i < |events| && events[i].id == k;
        if i < |events| - 1 {
          assert init[i].id == k;
        }
      }
    }
  }

  /** `s` with every occurrence of `x` removed. */
  function RemoveKey(s: seq<string>, x: string): (r: seq<string>)
    ensures forall k :: k in r <==> k in s && k != x
    ensures IsSubsequence(r, s)
  {
    if s == [] then []
    else if s[0] == x then RemoveKey(s[1..], x)
    else [s[0]] + RemoveKey(s[1..], x)
  }

  predicate Distinct(s: seq<string>)
  {
    forall i, j :: 0 <= i < j < |s| ==> s[i] != s[j]
  }

  lemma {:induction false} RemoveKeyDistinct(s: seq<string>, x: string)
    requires Distinct(s)
    ensures Distinct(RemoveKey(s, x))
  {
    if s != [] {
      assert Distinct(s[1..]);
      RemoveKeyDistinct(s[1..], x);
      if s[0] != x {
        var r := RemoveKey(s, x);
        forall i, j | 0 <= i < j < |r| ensures r[i] != r[j] {
          if i == 0 {
            assert r[j] in RemoveKey(s[1..], x);
            assert s[0] !in s[1..];
          } else {
            assert r[i] == RemoveKey(s[1..], x)[i - 1] && r[j] == RemoveKey(s[1..], x)[j - 1];
          }
        }
      }
    }
  }

  /** The instant an event starts, read as `start.date || start.dateTime`. */
  function StartInstant(w: When): Option<int>
  {
    if w.date.Some? then w.date else w.dateTime
  }

  /** The range test of `getEventsInRange`: half-open, and false when the
      start has neither a date nor a dateTime (an invalid Date compares
      false). */
  predicate StartsIn(e: CalendarEvent, from: int, to: int)
  {
    && e.body.start.Some?
    && StartInstant(e.body.start.value).Some?
    && from <= StartInstant(e.body.start.value).value < to
  }

  const MissingStartError := "Cannot read properties of undefined (reading 'date')"
  const MissingEventError := "Cannot read properties of undefined (reading 'id')"

  class MockCalendarAPI {
    var events: map<string, CalendarEvent>
    /** The keys of `events` in insertion order, which is the order in which
        `Object.values` lists the events. */
    var order: seq<string>

    ghost predicate Valid()
      reads this
    {
      && Distinct(order)
      && (forall k :: k in events <==> k in order)
      && (forall k :: k in events ==> events[k].id == k)
    }

    constructor(initialEvents: seq<CalendarEvent>)
      ensures Valid()
      ensures events == EventsListToMap(initialEvents) && order == KeysInOrder(initialEvents)
    {
      var m: map<string, CalendarEvent> := map[];
      var keys: seq<string> := [];
      for i := 0 to |initialEvents|
        invariant m == EventsListToMap(initialEvents[..i]) && keys == KeysInOrder(initialEvents[..i])
        invariant Distinct(keys) && (forall k :: k in m <==> k in keys) && (forall k :: k in m ==> m[k].id == k)
      {
        var event := initialEvents[i];
        assert initialEvents[..i + 1][..i] == initialEvents[..i];
        if event.id !in keys {
          keys := keys + [event.id];
        }
        m := m[event.id := event];
      }
      assert initialEvents[..|initialEvents|] == initialEvents;
      events := m;
      order := keys;
    }

    /** Every stored event exactly once, in insertion order. */
    function GetAllEvents(): (r: seq<CalendarEvent>)
      requires Valid()
      reads this
      ensures |r| == |order|
      ensures forall e :: e in r <==> e in events.Values
      ensures forall i, j :: 0 <= i < j < |r| ==> r[i].id != r[j].id
      ensures forall i :: 0 <= i < |r| ==> order[i] in events && r[i] == events[order[i]]
    {
      var m := events;
      var keys := order;
      assert forall i :: 0 <= i < |keys| ==> keys[i] in m;
      var r := seq(|keys|, i requires 0 <= i < |keys| && keys[i] in m => m[keys[i]]);
      assert forall e :: e in events.Values ==> e in r by {
        forall e | e in events.Values ensures e in r {
          var k :| k in events && events[k] == e;
          var i :| 0 <= i < |keys| && keys[i] == k;
          assert r[i] == e;
        }
      }
      r
    }

    /** Adds one event under the fresh id, with iCalUID id + "@google.com";
        every other event is unchanged. */
    method CreateEvent(event: EventBody, uuid: string) returns (created: CalendarEvent)
      requires Valid() && uuid !in events
      modifies this
      ensures Valid()
      ensures created == CalendarEvent(uuid, uuid + "@google.com", event)
      ensures events == old(events)[uuid := created] && order == old(order) + [uuid]
    {
      created := CalendarEvent(uuid, uuid + "@google.com", event);
      events := events[uuid := created];
      order := order + [uuid];
    }

    /** Replaces the whole event stored under `eventId`, keeping its id; the
        new iCalUID is the old one with "@google.com" appended once more.
        An unknown id fails (the source dereferences the missing event). */
    method UpdateEvent(eventId: string, eventOptions: EventBody) returns (r: Result<CalendarEvent>)
      requires Valid()
      modifies this
      ensures Valid()
      ensures eventId !in old(events) ==> r == Failure(MissingEventError) && events == old(events)
      ensures eventId in old(events) ==>
        && r == Success(CalendarEvent(eventId, old(events)[eventId].iCalUID + "@google.com", eventOptions))
        && events == old(events)[eventId := r.value]
      ensures order == old(order)
    {
      if eventId !in events {
        return Failure(MissingEventError);
      }
      var oldEvent := events[eventId];
      var updated := CalendarEvent(oldEvent.id, oldEvent.iCalUID + "@google.com", eventOptions);
      events := events[eventId := updated];
      r := Success(updated);
    }

    /** Removes the event stored under `eventId`, if any, and nothing else. */
    method DeleteEvent(eventId: string)
      requires Valid()
      modifies this
      ensures Valid()
      ensures events == old(events) - {eventId}
      ensures order == RemoveKey(old(order), eventId)
    {
      RemoveKeyDistinct(order, eventId);
      events := events - {eventId};
      order := RemoveKey(order, eventId);
    }

    function GetEventById(eventId: string): (r: Option<CalendarEvent>)
      requires Valid()
      reads this
      ensures r.Some? <==> eventId in events
      ensures r.Some? ==> r.value.id == eventId && r.value in events.Values
    {
      if eventId in events then Some(events[eventId]) else None
    }

    /** The events whose start lies in [from, to), in insertion order; an
        event with no start at all makes the query fail. */
    function GetEventsInRange(from: int, to: int): (r: Result<seq<CalendarEvent>>)
      requires Valid()
      reads this
      ensures r.Success? <==> forall e :: e in events.Values ==> e.body.start.Some?
      ensures r.Success? ==> forall e :: e in r.value <==> e in events.Values && StartsIn(e, from, to)
      ensures r.Success? ==> IsSubsequence(r.value, GetAllEvents())
    {
      var all := GetAllEvents();
      if exists i :: 0 <= i < |all| && all[i].body.start.None? then
        Failure(MissingStartError)
      else
        FilterIsSubsequence(all, (e: CalendarEvent) => StartsIn(e, from, to));
        FilterMembers(all, (e: CalendarEvent) => StartsIn(e, from, to));
        Success(Filter(all, (e: CalendarEvent) => StartsIn(e, from, to)))
    }
  }

  // ---------------------------------------------------------------- Airtable

  /** A field value; `===` on these is structural equality. */
  datatype Value = Text(text: string) | Number(number: int) | Checkbox(checked: bool)

  datatype AirtableRecord = AirtableRecord(id: string, createdTime: int, fields: map<string, Value>)

  /** `fields[name]`, None standing for `undefined`. */
  function Lookup(fields: map<string, Value>, name: string): Option<Value>
  {
    if name in fields then Some(fields[name]) else None
  }

  /** Every merge field has the same value (or is missing) in both. */
  predicate MatchesOn(fields: map<string, Value>, incoming: map<string, Value>, mergeOn: seq<string>)
  {
    forall i :: 0 <= i < |mergeOn| ==> Lookup(fields, mergeOn[i]) == Lookup(incoming, mergeOn[i])
  }

  /** The positions of the stored records that match, ascending. */
  function MatchIndices(data: seq<AirtableRecord>, incoming: map<string, Value>, mergeOn: seq<string>): (r: seq<nat>)
    ensures forall i :: 0 <= i < |r| ==> r[i] < |data| && MatchesOn(data[r[i]].fields, incoming, mergeOn)
    ensures forall k: nat :: k < |data| && MatchesOn(data[k].fields, incoming, mergeOn) ==> k in r
    ensures forall i, j :: 0 <= i < j < |r| ==> r[i] < r[j]
  {
    if data == [] then []
    else
      var init := data[..|data| - 1];
      var earlier := MatchIndices(init, incoming, mergeOn);
      var last := if MatchesOn(data[|data| - 1].fields, incoming, mergeOn) then [|data| - 1] else [];
      assert forall i :: 0 <= i < |earlier| ==> earlier[i] < |data| - 1 && data[earlier[i]] == init[earlier[i]];
      earlier + last
  }

  lemma {:induction false} NoMatchIndices(data: seq<AirtableRecord>, incoming: map<string, Value>, mergeOn: seq<string>)
    requires forall j :: 0 <= j < |data| ==> !MatchesOn(data[j].fields, incoming, mergeOn)
    ensures MatchIndices(data, incoming, mergeOn) == []
  {
    if data != [] {
      var init := data[..|data| - 1];
      assert forall j :: 0 <= j < |init| ==> init[j] == data[j];
      NoMatchIndices(init, incoming, mergeOn);
    }
  }

  lemma {:induction false} UniqueMatchIndices(data: seq<AirtableRecord>, incoming: map<string, Value>, mergeOn: seq<string>, k: nat)
    requires k < |data| && MatchesOn(data[k].fields, incoming, mergeOn)
    requires forall j :: 0 <= j < |data| && j != k ==> !MatchesOn(data[j].fields, incoming, mergeOn)
    ensures MatchIndices(data, incoming, mergeOn) == [k]
  {
    var init := data[..|data| - 1];
    assert forall j :: 0 <= j < |init| ==> init[j] == data[j];
    if k == |data| - 1 {
      NoMatchIndices(init, incoming, mergeOn);
    } else {
      UniqueMatchIndices(init, incoming, mergeOn, k);
    }
  }

  const UpsertError := "Upsert Error: Multiple matching records found"

  /** What one upsert returns and the table it leaves. */
  datatype UpsertOutcome = UpsertOutcome(result: Result<AirtableRecord>, data: seq<AirtableRecord>)

  /** The upsert rule: several matches fail and change nothing, one match
      gets the incoming fields merged over its own, no match appends a new
      record with the fresh id. */
  function Upsert(data: seq<AirtableRecord>, incoming: map<string, Value>, mergeOn: seq<string>,
                  freshId: string, now: int): UpsertOutcome
  {
    var matches := MatchIndices(data, incoming, mergeOn);
    if |matches| > 1 then UpsertOutcome(Failure(UpsertError), data)
    else if |matches| == 1 then
      assert matches[0] in matches;
      var updated := data[matches[0]].(fields := data[matches[0]].fields + incoming);
      UpsertOutcome(Success(updated), data[matches[0] := updated])
    else
      var created := AirtableRecord(freshId, now, incoming);
      UpsertOutcome(Success(created), data + [created])
  }

  lemma UpsertAmbiguous(data: seq<AirtableRecord>, incoming: map<string, Value>, mergeOn: seq<string>,
                        freshId: string, now: int, i: nat, j: nat)
    requires i < j < |data|
    requires MatchesOn(data[i].fields, incoming, mergeOn) && MatchesOn(data[j].fields, incoming, mergeOn)
    ensures Upsert(data, incoming, mergeOn, freshId, now) == UpsertOutcome(Failure(UpsertError), data)
  {
    var matches := MatchIndices(data, incoming, mergeOn);
    var a :| 0 <= a < |matches| && matches[a] == i;
    var b :| 0 <= b < |matches| && matches[b] == j;
    assert a != b;
  }

  /** With exactly one matching record: that record keeps its id and
      creation time, its fields become the old ones overridden by the new
      ones, every other record is untouched and nothing is added. */
  lemma UpsertUniqueMatch(data: seq<AirtableRecord>, incoming: map<string, Value>, mergeOn: seq<string>,
                          freshId: string, now: int, k: nat)
    requires k < |data| && MatchesOn(data[k].fields, incoming, mergeOn)
    requires forall j :: 0 <= j < |data| && j != k ==> !MatchesOn(data[j].fields, incoming, mergeOn)
    ensures var out := Upsert(data, incoming, mergeOn, freshId, now);
      && |out.data| == |data|
      && out.data[k].id == data[k].id && out.data[k].createdTime == data[k].createdTime
      && (forall name :: name in out.data[k].fields <==> name in data[k].fields || name in incoming)
      && (forall name :: name in incoming ==> out.data[k].fields[name] == incoming[name])
      && (forall name :: name in data[k].fields && name !in incoming ==> out.data[k].fields[name] == data[k].fields[name])
      && (forall j :: 0 <= j < |data| && j != k ==> out.data[j] == data[j])
      && out.result == Success(out.data[k])
  {
    UniqueMatchIndices(data, incoming, mergeOn, k);
  }

  /** With no matching record: one new record with the fresh id is appended
      and the existing records are untouched. */
  lemma UpsertNoMatch(data: seq<AirtableRecord>, incoming: map<string, Value>, mergeOn: seq<string>,
                      freshId: string, now: int)
    requires forall j :: 0 <= j < |data| ==> !MatchesOn(data[j].fields, incoming, mergeOn)
    ensures Upsert(data, incoming, mergeOn, freshId, now) ==
      UpsertOutcome(Success(AirtableRecord(freshId, now, incoming)), data + [AirtableRecord(freshId, now, incoming)])
  {
    NoMatchIndices(data, incoming, mergeOn);
  }

  /** The outcome of the remaining upserts, with the results already
      collected put in front of a successful one. */
  function PrependResults(done: seq<AirtableRecord>, outcome: (Result<seq<AirtableRecord>>, seq<AirtableRecord>))
    : (Result<seq<AirtableRecord>>, seq<AirtableRecord>)
  {
    if outcome.0.Failure? then outcome else (Success(done + outcome.0.value), outcome.1)
  }

  lemma PrependResultsTwice(a: seq<AirtableRecord>, b: seq<AirtableRecord>,
                            outcome: (Result<seq<AirtableRecord>>, seq<AirtableRecord>))
    ensures PrependResults(a, PrependResults(b, outcome)) == PrependResults(a + b, outcome)
  {
    if outcome.0.Success? {
      assert a + (b + outcome.0.value) == (a + b) + outcome.0.value;
    }
  }

  /** `upsertRecords` as a map over the incoming records: each upsert sees
      the table the previous ones left; the first failure is raised and the
      earlier upserts stay applied. */
  function UpsertAll(data: seq<AirtableRecord>, records: seq<map<string, Value>>, mergeOn: seq<string>,
                     freshIds: seq<string>, now: int): (Result<seq<AirtableRecord>>, seq<AirtableRecord>)
    requires |freshIds| == |records|
    decreases |records|
  {
    if records == [] then (Success([]), data)
    else
      var first := Upsert(data, records[0], mergeOn, freshIds[0], now);
      if first.result.Failure? then (Failure(first.result.error), first.data)
      else
        PrependResults([first.result.value], UpsertAll(first.data, records[1..], mergeOn, freshIds[1..], now))
  }

  function KeepUnlisted(recordIds: seq<string>): AirtableRecord -> bool
  {
    (r: AirtableRecord) => r.id !in recordIds
  }

  class MockAirtableAPI {
    var data: seq<AirtableRecord>
    const upsertFieldsToMergeOn: seq<string>

    constructor(initialData: seq<AirtableRecord>, mergeOn: seq<string>)
      ensures data == initialData && upsertFieldsToMergeOn == mergeOn
    {
      data := initialData;
      upsertFieldsToMergeOn := mergeOn;
    }

    method CreateRecord(fields: map<string, Value>, freshId: string, now: int) returns (created: AirtableRecord)
      modifies this
      ensures created == AirtableRecord(freshId, now, fields)
      ensures data == old(data) + [created]
    {
      created := AirtableRecord(freshId, now, fields);
      data := data + [created];
    }

    method CreateRecords(records: seq<map<string, Value>>, freshIds: seq<string>, now: int)
      requires |freshIds| == |records|
      modifies this
      ensures |data| == |old(data)| + |records| && data[..|old(data)|] == old(data)
      ensures forall i :: 0 <= i < |records| ==>
        data[|old(data)| + i] == AirtableRecord(freshIds[i], now, records[i])
    {
      for i := 0 to |records|
        invariant |data| == |old(data)| + i && data[..|old(data)|] == old(data)
        invariant forall k :: 0 <= k < i ==> data[|old(data)| + k] == AirtableRecord(freshIds[k], now, records[k])
      {
        var _ := CreateRecord(records[i], freshIds[i], now);
      }
    }

    /** Merges the new fields over those of the record at `index`. */
    method UpdateRecord(index: nat, newFields: map<string, Value>) returns (updated: AirtableRecord)
      requires index < |data|
      modifies this
      ensures updated == old(data)[index].(fields := old(data)[index].fields + newFields)
      ensures data == old(data)[index := updated]
    {
      updated := data[index].(fields := data[index].fields + newFields);
      data := data[index := updated];
    }

    method UpsertRecord(incoming: map<string, Value>, freshId: string, now: int) returns (r: Result<AirtableRecord>)
      modifies this
      ensures UpsertOutcome(r, data) == Upsert(old(data), incoming, upsertFieldsToMergeOn, freshId, now)
    {
      var oldRecords := MatchIndices(data, incoming, upsertFieldsToMergeOn);
      assert forall i :: 0 <= i < |oldRecords| ==> oldRecords[i] < |data|;
      if |oldRecords| > 1 {
        r := Failure(UpsertError);
      } else if |oldRecords| == 1 {
        var updated := UpdateRecord(oldRecords[0], incoming);
        r := Success(updated);
      } else {
        var created := CreateRecord(incoming, freshId, now);
        r := Success(created);
      }
    }

    method UpsertRecords(records: seq<map<string, Value>>, freshIds: seq<string>, now: int)
      returns (r: Result<seq<AirtableRecord>>)
      requires |freshIds| == |records|
      modifies this
      ensures (r, data) == UpsertAll(old(data), records, upsertFieldsToMergeOn, freshIds, now)
    {
      var results: seq<AirtableRecord> := [];
      var i := 0;
      assert records[0..] == records && freshIds[0..] == freshIds;
      assert forall v: seq<AirtableRecord> :: [] + v == v;
      while i < |records|
        invariant 0 <= i <= |records|
        invariant UpsertAll(old(data), records, upsertFieldsToMergeOn, freshIds, now) ==
          PrependResults(results, UpsertAll(data, records[i..], upsertFieldsToMergeOn, freshIds[i..], now))
      {
        assert records[i..][1..] == records[i + 1..] && freshIds[i..][1..] == freshIds[i + 1..];
        ghost var rest := UpsertAll(data, records[i..], upsertFieldsToMergeOn, freshIds[i..], now);
        var one := UpsertRecord(records[i], freshIds[i], now);
        if one.Failure? {
          assert rest == (Failure(one.error), data);
          return Failure(one.error);
        }
        ghost var after := UpsertAll(data, records[i + 1..], upsertFieldsToMergeOn, freshIds[i + 1..], now);
        assert rest == PrependResults([one.value], after);
        PrependResultsTwice(results, [one.value], after);
        results := results + [one.value];
        i := i + 1;
      }
      assert records[i..] == [] && results + [] == results;
      r := Success(results);
    }

    /** Removes exactly the records whose id is listed, walking backwards
        so that removals do not shift records still to be visited. */
    method DeleteRecords(recordIds: seq<string>)
      modifies this
      ensures data == Filter(old(data), KeepUnlisted(recordIds))
    {
      var index := |data|;
      ghost var original := data;
      ghost var keep := KeepUnlisted(recordIds);
      assert original[|original|..] == [];
      while index > 0
        invariant 0 <= index <= |original|
        invariant data == original[..index] + Filter(original[index..], keep)
      {
        index := index - 1;
        ghost var tail := Filter(original[index + 1..], keep);
        assert original[..index + 1] == original[..index] + [original[index]];
        assert data == original[..index] + [original[index]] + tail;
        FilterAt(original, index, keep);
        var record := data[index];
        assert record == original[index];
        if record.id in recordIds {
          data := data[..index] + data[index + 1..];
          assert data == original[..index] + tail;
        }
      }
      assert original[0..] == original;
    }
  }
}
