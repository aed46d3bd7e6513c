/** The social-media poster (socialPosters.js): selects the upcoming events,
    renders an intro and one message per event, sends them as a tweet
    thread and as a single Facebook post. Date and time rendering
    (`toLocaleDateString`, `toLocaleTimeString`) are parameters. */
module SocialPosters {
  import opened Wrappers
  import opened Text
  import opened EventSelection
  import opened Mockers

  datatype PostType = TenDays | FiveEvents

  /** The cutoff rule of `getAirtableRecords`: at least 5 events within 10
      days, otherwise the first 6. */
  const CutoffDays: int := 10
  const MinEvents: int := 5
  const FallbackCount: int := 6

  const IntroBase := "Upcoming rallies for Israel, the Jewish community, and the hostages' release"
  const TenDaysNote := " (next 10 days)"
  const IntroArrow := " \U{2935}\U{FE0F}"
  const CalendarLine := "\U{1F517} Check out rally4israel.com/calendar for more details."
  const SubmitLine := "\U{1F449} Know about an event not listed here? Send us the info!"

  function IntroFirstLine(postType: PostType): string
  {
    "\U{1F1EE}\U{1F1F1} " + IntroBase + (if postType == TenDays then TenDaysNote else "") + IntroArrow
  }

  /** `getIntroMessage`: three lines joined by "\n". */
  function IntroMessage(postType: PostType): string
  {
    Join([IntroFirstLine(postType), CalendarLine, SubmitLine], "\n")
  }

  /** The intro's first line announces "(next 10 days)" exactly for a
      ten-day post, and that note is the only difference between the two
      intros. */
  lemma IntroFirstLineNote(postType: PostType)
    ensures EndsWith(IntroFirstLine(postType), TenDaysNote + IntroArrow) <==> postType == TenDays
  {
    var first := IntroFirstLine(postType);
    if postType == FiveEvents {
      var suffix := TenDaysNote + IntroArrow;
      assert first[|first| - |suffix|] == IntroBase[|IntroBase| - |TenDaysNote|];
    }
  }

  /** The intro's layout, for any pieces. */
  lemma IntroLayout(head: string, note: string, arrow: string, second: string, third: string)
    ensures Join([head + note + arrow, second, third], "\n") == head + note + (arrow + "\n" + second + "\n" + third)
  {
    JoinThree(head + note + arrow, second, third, "\n");
  }

  /** The two intros differ only by the "(next 10 days)" note. */
  lemma IntroMessageNote(postType: PostType)
    ensures var head := "\U{1F1EE}\U{1F1F1} " + IntroBase;
      var tail := IntroArrow + "\n" + CalendarLine + "\n" + SubmitLine;
      IntroMessage(postType) == head + (if postType == TenDays then TenDaysNote else "") + tail
  {
    IntroLayout("\U{1F1EE}\U{1F1F1} " + IntroBase, if postType == TenDays then TenDaysNote else "", IntroArrow, CalendarLine, SubmitLine);
  }

  /** The lines of `airtableRecordToMessage`: the title, the date, the time
      unless the event is all-day, and the location when it is non-empty. */
  function MessageLines(r: EventRecord, formatDate: int -> string, formatTime: int -> string): seq<string>
  {
    [r.title, "\U{1F5D3}\U{FE0F} " + formatDate(r.start)]
    + (if !r.allDay then ["\U{1F552} " + formatTime(r.start)] else [])
    + (if r.location != "" then ["\U{1F4CC} " + r.location] else [])
  }

  function RecordToMessage(r: EventRecord, formatDate: int -> string, formatTime: int -> string): string
  {
    Join(MessageLines(r, formatDate, formatTime), "\n")
  }

  /** A message has 2 to 4 lines in a fixed order; when no piece contains a
      newline, splitting the message recovers exactly those lines. */
  lemma {:induction false} RecordToMessageLayout(r: EventRecord, formatDate: int -> string, formatTime: int -> string)
    requires '\n' !in r.title && '\n' !in r.location
    requires '\n' !in formatDate(r.start) && '\n' !in formatTime(r.start)
    ensures var lines := Split(RecordToMessage(r, formatDate, formatTime), '\n');
      && |lines| == 2 + (if r.allDay then 0 else 1) + (if r.location == "" then 0 else 1)
      && lines[0] == r.title
      && lines[1] == "\U{1F5D3}\U{FE0F} " + formatDate(r.start)
      && (!r.allDay ==> lines[2] == "\U{1F552} " + formatTime(r.start))
      && (r.location != "" ==> lines[|lines| - 1] == "\U{1F4CC} " + r.location)
  {
    var lines := MessageLines(r, formatDate, formatTime);
    assert forall i :: 0 <= i < |lines| ==> '\n' !in lines[i];
    SplitJoin(lines, '\n');
  }

  function Messages(records: seq<EventRecord>, formatDate: int -> string, formatTime: int -> string): (r: seq<string>)
    ensures |r| == |records|
  {
    seq(|records|, i requires 0 <= i < |records| => RecordToMessage(records[i], formatDate, formatTime))
  }

  class SocialPoster {
    var postType: PostType
    var startTime: Option<int>
    const twitter: MockTwitterAPI
    const facebook: MockFacebookAPI

    constructor(twitter: MockTwitterAPI, facebook: MockFacebookAPI)
      ensures postType == TenDays && startTime == None
      ensures this.twitter == twitter && this.facebook == facebook
    {
      this.twitter := twitter;
      this.facebook := facebook;
      postType := TenDays;
      startTime := None;
    }

    /** `getAirtableRecords` on the records the Airtable API returned: the
        pipeline with the 10-day / 5-event / 6-event rule; falling back
        switches the post type to FiveEvents for good. */
    method GetAirtableRecords(records: seq<EventRecord>) returns (selected: seq<EventRecord>)
      requires startTime.Some?
      modifies this
      ensures startTime == old(startTime)
      ensures var sel := Select(records, startTime.value, startTime.value + CutoffDays * MsPerDay, MinEvents, FallbackCount);
        && selected == sel.events
        && postType == (if sel.withinCutoff then old(postType) else FiveEvents)
    {
      var now := startTime.value;
      var sorted := SortByStart(FutureEvents(records, now));
      var deduped := FilterOutRecurringEvents(sorted);
      var eventsBeforeCutoff := EventsBeforeCutoff(deduped, now + CutoffDays * MsPerDay);
      if |eventsBeforeCutoff| >= MinEvents {
        selected := eventsBeforeCutoff;
      } else {
        postType := FiveEvents;
        selected := Lists.Prefix(deduped, FallbackCount);
      }
    }

    /** `post` at instant `now`: nothing is sent when no event is selected;
        otherwise the thread is the intro followed by one message per
        selected event, in selection order, and the Facebook post is the
        same list joined by blank lines. */
    method Post(records: seq<EventRecord>, now: int, formatDate: int -> string, formatTime: int -> string)
      requires twitter.Valid()
      modifies this, twitter, facebook
      ensures twitter.Valid()
      ensures startTime == Some(now)
      ensures var sel := Select(records, now, now + CutoffDays * MsPerDay, MinEvents, FallbackCount);
        && postType == (if sel.withinCutoff then old(postType) else FiveEvents)
        && (sel.events == [] ==> twitter.tweets == old(twitter.tweets) && facebook.posts == old(facebook.posts))
        && (sel.events != [] ==>
              var thread := [IntroMessage(postType)] + Messages(sel.events, formatDate, formatTime);
              && |twitter.tweets| == |old(twitter.tweets)| + |thread|
              && twitter.tweets[..|old(twitter.tweets)|] == old(twitter.tweets)
              && (forall i :: 0 <= i < |thread| ==> twitter.tweets[|old(twitter.tweets)| + i].message == thread[i])
              && ReplyChain(twitter.tweets[|old(twitter.tweets)|..])
              && facebook.posts == old(facebook.posts) + [Join(thread, "\n\n")])
    {
      startTime := Some(now);
      var airtableRecords := GetAirtableRecords(records);
      if |airtableRecords| < 1 {
        return;
      }
      var eventMessages := Messages(airtableRecords, formatDate, formatTime);
      var intro := IntroMessage(postType);
      var _ := twitter.SendTweetThread([intro] + eventMessages);
      var facebookSubMessages := [intro] + eventMessages;
      facebook.Post(Join(facebookSubMessages, "\n\n"));
    }
  }
}
