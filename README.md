# Rally4Israel scripts in Dafny

This project models the logic of the Rally4Israel automation scripts. Those scripts:

- read events from Airtable and Google Calendar;
- post upcoming rallies to Twitter, Facebook and Instagram;
- keep a spreadsheet and a "UTC" calendar in step.

The model covers these parts:

- **Event selection** (`EventSelection`, `SocialPosters`, `R4ilpyAirtable`, `Airtable`). The JavaScript social poster and the two Python Airtable filters all:
  - keep records dated today or later;
  - sort them by start;
  - keep only the first instance of each recurring series;
  - then pick either every event up to a cutoff instant, or a fixed number of leading events when too few fall before the cutoff.

  The poster also builds the intro and one message per event. It sends them as a tweet thread and as one Facebook post.
- **In-memory service stand-ins** (`Mockers`, `SheetMocks`):
  - a Facebook page;
  - a reply-chained Twitter account;
  - a calendar kept as a dictionary in insertion order;
  - an Airtable table with upsert and delete-by-id;
  - a spreadsheet whose matching rows are deleted by a backward walk.
- **Syncers** (`Syncers`):
  - `CalendarToSheetSyncer` rewrites a sheet as a header plus one row per event;
  - `UTCCalendarSyncer` pushes each row onto the UTC-calendar event it names, clears stale "UTC'd UID" cells, and deletes every calendar event no row references.
- **HTTP clients** (`Apis`):
  - the Airtable client's bounded retry on HTTP 429, its offset pagination and its batches of ten;
  - the Google Calendar client's status check, page-token pagination and swallowed errors;
  - the Twitter client's reply chaining.

  The network is an oracle `Server = nat -> Response`: the k-th fetch of a run receives `server(k)`.
- **Instagram poster** (`Instagram`, `InstagramImages`):
  - batches of 19 events;
  - the image-name scheme;
  - the listing filter and ordering that turn a batch folder into an album.
- **Airtable record to `Event`** (`Events`). This covers the `%I:%M%p` and `%Y-%m-%d` parses as `strptime` performs them.
- **Twemoji file names** (`EmojiSources`).
- **Shared helpers.** `Text` has split, join, ASCII lower-casing and lexicographic order. `Digits` has decimal and `zfill`. `Lists` has filter, map and subsequences. `Sorting` has a stable insertion sort, standing in for `Array.prototype.sort` and `sorted`. `Batching` has chunks. `Columns` has the header index. `Wrappers` has `Option` and `Result`.

## Representation

**Times and dates.** Instants are integer milliseconds since the epoch. Calendar days are `instant / 86400000`, taken in UTC. Rendered dates and times are function parameters, for example `formatDate: int -> string` and `toUtcString`.

**State.** State that the source changes in place is held in Dafny classes whose methods state the whole new state. These classes are the mocks, the syncers, the poster and the Instagram poster. Lists and dictionaries become `seq` and `map` fields.

**Oracles.** Fresh uuids come from callers, under freshness preconditions, or from a counter in the Twitter mock. Directory listings are a function `listDir: string -> seq<string>`.

**Loops without a bound.** These are the pagination loops. They take a `fuel` bound: a run with enough fuel is the whole run.

**Differences between the code and its tests.** Where the code and its tests disagree, the model follows the code:

- `InstagramPoster.get_events` returns 25 copies of a fixed event before its Airtable lines (r4ilpy/instagram.py:72-75). So `post` uploads two albums (`Instagram.PostUploadsTwoAlbums`), although r4ilpy/tests/instagram/test_instagram_poster.py:61-65 expects one.
- `MockCalendarAPI.updateEvent` sets the new iCalUID to the old iCalUID plus "@google.com" (mockers.js:76). So every update appends the suffix once more. The model keeps that.

## Model

| member | source | states |
|---|---|---|
| EventSelection.FilterOutRecurringEvents | socialPosters.js:72-85 | the seen-set loop returns exactly the recurring-series filter `Dedup` of its input |
| EventSelection.DedupFromSubsequence | airtable.py:67-76 | the series filter keeps records in their input order and invents none (its output is a subsequence of the input) |
| EventSelection.DedupFromSeries | r4ilpy/airtable.py:67-76 | no kept record belongs to an already seen series, and no two kept records share a non-empty recurring event id |
| EventSelection.DedupFromKeepsUnlabelled | socialPosters.js:76-78 | every record without a recurring event id survives, in order: the unlabelled part of the output equals the unlabelled part of the input |
| EventSelection.DedupFromKeepsFirst | socialPosters.js:79-83 | each kept series record is the first record of its series in the input |
| EventSelection.DedupFromCoversSeries | r4ilpy/airtable.py:67-76 | every series occurring in the input and not seen before is represented in the output |
| EventSelection.StartLeIsTotalPreorder | socialPosters.js:68-70 | ordering by start is total and transitive, so the sort is well defined |
| EventSelection.EventsBeforeCutoffIsPrefix | socialPosters.js:52-59 | in a list ordered by start, the events starting no later than the cutoff form a prefix |
| EventSelection.CandidatesOrderedSubsequence | r4ilpy/airtable.py:39-42 | the candidates are a subsequence of the sorted future records, ordered by start, and a sub-multiset of the input |
| EventSelection.CandidatesCoverFuture | airtable.py:39-42 | every future unlabelled record, and some record of every series with a future record, reaches the candidates |
| EventSelection.SelectIsPrefixOfCandidates | airtable.py:44-48 | the selection is always a leading part of the candidates |
| EventSelection.SelectFromInputFutureSorted | r4ilpy/airtable.py:39-48 | every chosen event comes from the input with multiplicity, is dated today or later, and the chosen events ascend by start |
| EventSelection.SelectOnePerSeries | r4ilpy/airtable.py:39-48 | no two chosen events share a non-empty recurring event id |
| EventSelection.SelectEarliestOfSeries | socialPosters.js:40-42 | a chosen series event starts no later than any future input record of the same series |
| EventSelection.SelectCutoffRule | r4ilpy/airtable.py:44-56 | the cutoff set is chosen iff it has at least `minEvents` events; then the result is exactly the candidates starting by the cutoff; otherwise it is the first `fallbackCount` candidates |
| R4ilpyAirtable.AirtableRecordsFilterer.constructor | r4ilpy/airtable.py:32-35 | stores the records, cutoff days and minimum count, with no start time yet |
| R4ilpyAirtable.AirtableRecordsFilterer.Filter | r4ilpy/airtable.py:37-48 | stores the given start or the current instant, and returns the selection with cutoff `start + cutoffDays` days, minimum `minEvents` and fallback `minEvents + 1` |
| Airtable.AirtableRecordsFilter.constructor | airtable.py:32-36 | the start instant is the given one or the current instant, fixed at construction |
| Airtable.AirtableRecordsFilter.Filter | airtable.py:38-48 | returns the selection for the fixed start; each result is a future input record in start order; a result longer than `minEvents + 1` lies wholly within the cutoff |
| SocialPosters.IntroFirstLineNote | socialPosters.js:25-31 | the intro's first line ends with "(next 10 days)" and the arrow iff the post type is TenDays |
| SocialPosters.IntroMessageNote | socialPosters.js:25-36 | the two intros differ only by the "(next 10 days)" note |
| SocialPosters.RecordToMessageLayout | socialPosters.js:87-115 | splitting a message at "\n" gives the title, the dated line, the clock line exactly when not all-day, and the pinned location exactly when it is non-empty |
| SocialPosters.Messages | socialPosters.js:18 | one message per selected record |
| SocialPosters.SocialPoster.constructor | socialPosters.js:7-12 | the post type starts as TenDays, with no start time |
| SocialPosters.SocialPoster.GetAirtableRecords | socialPosters.js:38-50 | returns the selection with the 10-day, 5-event, 6-event rule; falling back switches the post type to FiveEvents |
| SocialPosters.SocialPoster.Post | socialPosters.js:14-23 | nothing is sent when nothing is selected; otherwise the thread is the intro followed by one message per event, in order and reply-chained, and the Facebook post is the same list joined by "\n\n" |
| Columns.ColumnIndexIsLastPosition | syncers.js:74-78 | the header index has exactly the header's names as keys and maps each to its last position |
| Mockers.MockFacebookAPI.constructor | mockers.js:12-15 | starts with no posts |
| Mockers.MockFacebookAPI.Post | mockers.js:17-19 | appends exactly the message |
| Mockers.MockTwitterAPI.constructor | mockers.js:22-25 | starts with no tweets |
| Mockers.MockTwitterAPI.SendSingleTweet | mockers.js:26-35 | appends one tweet with the message, the reply target and a fresh id, and returns that id |
| Mockers.MockTwitterAPI.SendTweetThread | mockers.js:36-43 | one fresh id per message; one tweet per message appended in order; the first replies to nothing and each later one to the previous tweet |
| Mockers.EventsListToMapLastWins | mockers.js:51-57 | the dictionary's keys are exactly the listed ids, and each maps to the last listed event with that id |
| Mockers.RemoveKey | mockers.js:81-83 | exactly the keys other than the deleted one remain, as a subsequence of the key order (order kept, nothing else removed) |
| Mockers.RemoveKeyDistinct | mockers.js:81-83 | deleting a key keeps the key order free of duplicates |
| Mockers.MockCalendarAPI.constructor | mockers.js:47-57 | the events are the dictionary built from the list, with keys in first-insertion order |
| Mockers.MockCalendarAPI.GetAllEvents | mockers.js:59-61 | every stored event exactly once, the i-th being the event stored under the i-th key in insertion order |
| Mockers.MockCalendarAPI.CreateEvent | mockers.js:63-70 | adds one event under the fresh id with iCalUID id + "@google.com", other events unchanged |
| Mockers.MockCalendarAPI.UpdateEvent | mockers.js:72-79 | replaces only the targeted event wholesale, keeping its id; a missing id fails and changes nothing |
| Mockers.MockCalendarAPI.DeleteEvent | mockers.js:81-83 | removes only the targeted id |
| Mockers.MockCalendarAPI.GetEventById | mockers.js:85-87 | finds an event iff the id is stored, and that event carries the id |
| Mockers.MockCalendarAPI.GetEventsInRange | mockers.js:89-97 | exactly the stored events whose start lies in [from, to), in insertion order; fails iff some event has no start |
| Mockers.MatchIndices | mockers.js:143-147 | exactly the positions of the stored records that agree on every merge field, ascending |
| Mockers.NoMatchIndices | mockers.js:143-147 | no agreeing record gives no match |
| Mockers.UniqueMatchIndices | mockers.js:143-147 | exactly one agreeing record gives that one match |
| Mockers.UpsertAmbiguous | mockers.js:149-150 | two matching records raise the upsert error and change nothing |
| Mockers.UpsertUniqueMatch | mockers.js:151-153 | a unique match is updated in place: new fields override, other fields stay, id kept, no record added, others untouched |
| Mockers.UpsertNoMatch | mockers.js:154-156 | no match appends one record with the fresh id and the incoming fields |
| Mockers.PrependResultsTwice | mockers.js:138-140 | collecting results in two steps equals collecting them at once |
| Mockers.MockAirtableAPI.constructor | mockers.js:101-103 | stores the data and the merge fields |
| Mockers.MockAirtableAPI.CreateRecord | mockers.js:130-136 | appends one record with the fresh id and creation time, and returns it |
| Mockers.MockAirtableAPI.CreateRecords | mockers.js:126-128 | appends one record per input, in order, earlier data unchanged |
| Mockers.MockAirtableAPI.UpdateRecord | mockers.js:159-162 | merges the new fields over the record's own, nothing else changes |
| Mockers.MockAirtableAPI.UpsertRecord | mockers.js:142-157 | the table and result are those of the upsert rule |
| Mockers.MockAirtableAPI.UpsertRecords | mockers.js:138-140 | the upserts in order, each seeing the table the previous one left; the first failure is thrown |
| Mockers.MockAirtableAPI.DeleteRecords | mockers.js:164-174 | the backward splice walk removes exactly the listed ids and keeps the rest in order |
| SheetMocks.ColIdxOfIsLastPosition | tests/mockers.js:17-28 | a name's column is its last header position, and absent iff the name is not in the header |
| SheetMocks.SpliceAround | tests/mockers.js:40-42 | removing the element at `|a|` leaves exactly the pieces around it |
| SheetMocks.MockSheetAPI.constructor | tests/mockers.js:2-7 | the given rows, or an empty sheet |
| SheetMocks.MockSheetAPI.GetAllData | tests/mockers.js:9-11 | every row but the header; [] for an empty sheet |
| SheetMocks.MockSheetAPI.AppendRow | tests/mockers.js:13-15 | exactly one row added at the end |
| SheetMocks.MockSheetAPI.GetColumnIndexMap | tests/mockers.js:17-24 | the header index, or the missing-header error on an empty sheet |
| SheetMocks.MockSheetAPI.GetColIdx | tests/mockers.js:26-28 | the last position of the name in the header, or the missing-header error |
| SheetMocks.MockSheetAPI.DeleteAllRowsByColumnValue | tests/mockers.js:30-38 | keeps the header and exactly the data rows whose cell differs from the value, in order |
| SheetMocks.MockSheetAPI.DeleteMatchingRows | tests/mockers.js:32-37 | the backward loop skips no matching row, even adjacent ones |
| SheetMocks.MockSheetAPI.DeleteRowIfMatch | tests/mockers.js:33-36 | one step removes the row iff it matches |
| SheetMocks.MockSheetAPI.DeleteRowBySheetIdx | tests/mockers.js:40-42 | `splice(i, 1)`, negative indexes counted from the end, out of range removes nothing |
| Syncers.SetCell | syncers.js:117-118 | writing one cell changes only that cell, extending the row when needed |
| Syncers.EventRow | syncers.js:35-49 | one row per event with the header's ten columns |
| Syncers.CalendarToSheetSyncer.constructor | syncers.js:2-8 | stores the sheet and the window |
| Syncers.CalendarToSheetSyncer.Sync | syncers.js:10-15 | the sheet becomes the 10-column header followed by one row per event, in the order returned, each starting with the event id |
| Syncers.CalendarToSheetSyncer.ResetSpreadSheet | syncers.js:23-29 | the sheet becomes exactly the header |
| Syncers.CalendarToSheetSyncer.SyncSpreadSheet | syncers.js:31-51 | appends one row per event, in order |
| Syncers.SyncRowSpec | syncers.js:80-119 | a row never creates or deletes an event: the calendar keeps its ids and stays keyed by id, and the sheet keeps its length |
| Syncers.SyncRowsSpec | syncers.js:66-70 | the row loop keeps the sheet's length and the calendar valid |
| Syncers.ClearStaleIds | syncers.js:121-138 | the clearing keeps every row |
| Syncers.SyncRowKeepsSheet | syncers.js:117-118 | a successful row writes back the id its cell already held, so the sheet is unchanged |
| Syncers.SyncRowUpdatesEvent | syncers.js:80-102 | a row succeeds iff its UTC'd UID names an event, it is not all-day and its start and end are ordered date-times; the event then carries the row's title, start, end, description and location, and no other event changes |
| Syncers.SyncRowsTouchesOnlyLeadingRows | syncers.js:66-70 | rows before the start, from the first falsy title on, and after it are not touched, and the calendar's ids stay the same |
| Syncers.StaleReferenceDropped | syncers.js:131-134 | an id referenced only from rows with an empty iCalUID is no longer referenced after the clearing |
| Syncers.DeleteOldEventsKeepsExactlyReferenced | syncers.js:140-172 | after the prune an event survives iff it lies outside the query window or a data row still references its id, and survivors are unchanged |
| Syncers.UTCCalendarSyncer.constructor | syncers.js:55-59 | stores the calendar and sheet, with an empty column index |
| Syncers.UTCCalendarSyncer.Sync | syncers.js:61-72 | the new sheet, calendar and error are those of `SyncSpec`: index the header, run the row loop, then prune |
| Syncers.UTCCalendarSyncer.MapColumnIndexes | syncers.js:74-78 | each header name is mapped to its last position, over the earlier index |
| Syncers.UTCCalendarSyncer.SyncRow | syncers.js:80-119 | the new sheet, calendar and error are those of the update-path rule |
| Syncers.UTCCalendarSyncer.DeleteOldUTCIds | syncers.js:121-138 | the backward walk clears exactly the stale UTC'd UID cells |
| Syncers.UTCCalendarSyncer.DeleteOldEvents | syncers.js:140-172 | clears stale ids, then deletes exactly the window's events that no row references |
| Apis.AttemptsFromFacts | apis.js:483-491 | the retry counter's bounds, from a given attempt on |
| Apis.RateLimitedFacts | apis.js:481-493 | at most 5 fetches; every fetch but the last got 429; the result is the first non-429 body, or the rate-limit error after five 429 responses |
| Apis.CrawlStopped | apis.js:350 | once `hasMorePages` is false the loop state no longer changes |
| Apis.CrawlStep | apis.js:350-366 | a running pass requests one page at a cost of one to five fetches |
| Apis.CrawlFetches | apis.js:346-368 | at most one page per pass, each costing one to five fetches |
| Apis.CrawlPageUrls | apis.js:347-357 | the first page is the base URL, and every later one is an offset URL built from the base, never from the previous URL |
| Apis.OffsetUrlQueryMarks | apis.js:355-357 | an offset URL has exactly one "?" when the base had none, and no more than the base otherwise |
| Apis.BatchAt | apis.js:380-381 | a batch holds one to ten items |
| Apis.BatchCount | apis.js:380 | one batch per started group of ten |
| Apis.BatchStep | apis.js:390-399 | a running pass sends the next batch's request at a cost of one to five fetches; a page adds its records, anything else stops the loop with the results unchanged |
| Apis.BatchesStopAtFirstFailure | apis.js:396-399 | one request per pass until a batch fails; a run without failure sends a request for every batch |
| Apis.BatchesSendBatches | apis.js:380-382 | the i-th request sent carries the i-th batch |
| Apis.BatchesStopped | apis.js:398 | after the `break` or the last batch, the loop state no longer changes |
| Apis.ChunksAt | apis.js:380-381 | the b-th batch is `items.slice(10 * b, 10 * b + 10)` |
| Apis.ChunksCountTen | apis.js:380 | the number of chunks of ten is one per started group of ten |
| Apis.BatchesFollowPlan | apis.js:380-399 | the requests sent are a prefix of the planned consecutive batches, and all of them unless a batch fails, so every item goes out in exactly one batch |
| Apis.JoinWithPrefix | apis.js:459 | prefixing each part equals prefixing the whole and the separator |
| Apis.AirtableAPI.constructor | apis.js:330-334 | stores the URL and merge fields |
| Apis.AirtableAPI.FetchWithRateLimit | apis.js:481-493 | the retry loop returns the first non-429 body within five fetches, or the rate-limit error after five 429 responses |
| Apis.AirtableAPI.FetchPage | apis.js:351-365 | one pass of `getAllRecords` is one step of the crawl specification |
| Apis.AirtableAPI.GetAllRecords | apis.js:336-369 | the records of each page in order, following `offset` until none, stopping with the records so far on an error |
| Apis.AirtableAPI.SendBatch | apis.js:381-399 | one pass of a batch loop is one step of the batch specification |
| Apis.AirtableAPI.SendInBatches | apis.js:380-400 | the batch loop's results, requests and fetch count are those of the batch specification |
| Apis.AirtableAPI.CreateRecords | apis.js:371-403 | POSTs consecutive batches of ten in order, stopping at the first failure, returning the created records |
| Apis.AirtableAPI.UpsertRecords | apis.js:406-444 | PATCHes consecutive batches of ten naming the merge fields, stopping at the first failure |
| Apis.AirtableAPI.DeleteRecords | apis.js:446-479 | one DELETE per batch of ten ids, stopping at the first failure |
| Apis.AirtableAPI.DeleteUrlParameters | apis.js:459 | the delete URL is the table URL, "?", then one `records[]=id` per id joined by "&" |
| Apis.FetchApi | apis.js:215-232 | the parsed body iff the status is in [200, 300); otherwise the "API request failed" error |
| Apis.ParamsPageToken | apis.js:239-250 | the page token is sent iff one is set, as the last parameter, after the three fixed parameters |
| Apis.PrependTwice | apis.js:253 | collecting items in two steps equals collecting them at once |
| Apis.ListFromFailsOnAnyError | apis.js:234-259 | a listing fetches at most `fuel` pages, the first with the base query, and succeeds only if every fetched page had a 2xx status |
| Apis.Swallow | apis.js:292-301 | the body iff the fetch succeeded, nothing otherwise |
| Apis.GCalAPI.constructor | apis.js:209-213 | the base URL is built from the calendar id |
| Apis.GCalAPI.ListEvents | apis.js:238-256 | the do-while page loop's events and URLs are those of the listing specification |
| Apis.GCalAPI.GetAllEvents | apis.js:234-259 | the listing without a time range |
| Apis.GCalAPI.GetEventsInRange | apis.js:261-289 | the listing with `timeMin` and `timeMax` |
| Apis.GCalAPI.CreateEvent | apis.js:291-302 | POST to the collection; a result iff the fetch succeeded, never an error |
| Apis.GCalAPI.UpdateEvent | apis.js:304-315 | PUT to the event's URL; a result iff the fetch succeeded, never an error |
| Apis.GCalAPI.DeleteEvent | apis.js:317-326 | DELETE to the event's URL; nothing returned either way |
| Apis.SingleTweetPayload | apis.js:115-124 | an empty text becomes the default; a reply only for a truthy id |
| Apis.ThreadPayloads | apis.js:100-107 | one payload per message |
| Apis.ThreadPayloadsReplyChain | apis.js:100-107 | each message goes out as its own text, the first replies to nothing, and each later one replies to the previous id when that id is truthy |
| Apis.TwitterAPI.SendTweetThread | apis.js:100-107 | one id per message, from successive requests, with the payloads of the reply chain |
| Batching.ChunksFlatten | r4ilpy/instagram.py:55-58 | concatenating the batches gives the input |
| Batching.ChunksSizes | r4ilpy/instagram.py:55-58 | every batch is non-empty and at most the batch size, and only the last may be shorter |
| Batching.ChunksCount | r4ilpy/instagram.py:77-79 | the number of batches is ceil(n / size) |
| Batching.FlattenAppend | r4ilpy/instagram.py:55-58 | concatenation distributes over appended batch lists |
| Instagram.ChunksFirst | r4ilpy/instagram.py:57 | the first batch is the first `min(size, n)` items, followed by the batches of the rest |
| Instagram.Batched | r4ilpy/instagram.py:55-58 | the `islice` loop yields exactly the chunks of the input (none for batch size 0) |
| Instagram.GetEventsBatches | r4ilpy/instagram.py:60-72 | the 25 fixed events form a batch of 19 and a batch of 6 |
| Instagram.ImagesDir | r4ilpy/instagram.py:83 | a batch folder name ends in "/" |
| Instagram.EventImageRequests | r4ilpy/instagram.py:95-99 | one event image request per event |
| Instagram.InstagramPoster.constructor | r4ilpy/instagram.py:26-31 | no cached batches, no requests, no uploads |
| Instagram.InstagramPoster.BatchedEvents | r4ilpy/instagram.py:51-61 | the chunks of the events by 19, cached |
| Instagram.InstagramPoster.TotalEventBatches | r4ilpy/instagram.py:77-79 | the number of batches, cached |
| Instagram.InstagramPoster.GenerateBatchImages | r4ilpy/instagram.py:91-99 | requests the intro image and one image per event, named event_image_NN.jpg from 01 |
| Instagram.InstagramPoster.PostEventBatch | r4ilpy/instagram.py:81-89 | generates the batch's images and uploads one album from the batch folder with caption "Batch n" |
| Instagram.InstagramPoster.Post | r4ilpy/instagram.py:47-49 | handles the batches in order, numbered from 1 |
| Instagram.EventsOfAppend | r4ilpy/instagram.py:95-99 | the events imaged by two request lists are those of each, in order |
| Instagram.EventsOfEventImages | r4ilpy/instagram.py:95-99 | the event images of a batch are requested for exactly its events, in order |
| Instagram.BatchImagesCoverBatch | r4ilpy/instagram.py:91-99 | the intro image comes first, then the images of exactly the batch's events |
| Instagram.PostedImagesCoverEvents | r4ilpy/instagram.py:47-49 | the first k batches image exactly their events, in order |
| Instagram.PostCoversAllEvents | r4ilpy/instagram.py:47-61 | `post` requests one event image per event `get_events` returns, in order |
| Instagram.PostedAlbumsNumbered | r4ilpy/instagram.py:48 | the k-th album belongs to batch k + 1 |
| Instagram.PostUploadsTwoAlbums | r4ilpy/instagram.py:63-75 | `post` uploads two albums, "Batch 1" and "Batch 2" |
| Instagram.AlbumOrder | r4ilpy/instagram.py:81-89 | a folder holding exactly a batch's images (at most 99) gives an album of the intro image then the event images in event order |
| Instagram.PostedBatchesFitTwoDigits | r4ilpy/instagram.py:60 | every batch `post` makes has 1 to 19 events |
| InstagramImages.EventImageNames | r4ilpy/instagram.py:95-99 | one name per event |
| InstagramImages.DirPrefix | r4ilpy/instagram.py:109 | what `os.path.join` puts before a name is empty or ends in "/" |
| InstagramImages.Basename | r4ilpy/instagram.py:116 | a basename has no "/" |
| InstagramImages.HasImageExtensionIgnoresCase | r4ilpy/instagram.py:107-111 | the extension test ignores the case of ASCII letters |
| InstagramImages.ImageExtensionExamples | r4ilpy/instagram.py:107-111 | ".JPG" and ".Png" names are images; ".txt" and ".gif" names are not |
| InstagramImages.ImagePathsKeepImages | r4ilpy/instagram.py:148-159 | the module-level function keeps exactly the image names, in listing order, each joined to the directory |
| InstagramImages.OrderedImagePathsPermutation | r4ilpy/instagram.py:114-125 | the ordered list is a permutation of the filtered list |
| InstagramImages.OrderedImagePathsOrder | r4ilpy/instagram.py:114-125 | intro images come first, and the other paths ascend |
| InstagramImages.LexLeTotalPreorder | r4ilpy/instagram.py:118 | string order is a total, antisymmetric preorder |
| InstagramImages.TwoDigitsOrdered | r4ilpy/instagram.py:96 | the two-digit form of a smaller number sorts first |
| InstagramImages.EventImageNamesOrdered | r4ilpy/instagram.py:95-99 | up to 99, event image names sort in event order and are distinct |
| InstagramImages.EventImageNameIsImage | r4ilpy/instagram.py:98 | an event image name has no "/", is an image, and is not the intro name |
| InstagramImages.JpgIsImage | r4ilpy/instagram.py:107 | every ".jpg" name is an image |
| InstagramImages.IntroImageNameIsImage | r4ilpy/instagram.py:116 | "intro_image.jpg" has no "/" and is an image |
| InstagramImages.BasenameAfterPrefix | r4ilpy/instagram.py:116 | the basename of a directory prefix plus a slash-free name is the name |
| InstagramImages.BasenamePathJoin | r4ilpy/instagram.py:109-116 | joining a slash-free name and taking the basename gives the name back |
| InstagramImages.JoinedEventNamesSorted | r4ilpy/instagram.py:118-124 | event image paths in one folder are already sorted |
| InstagramImages.JoinedEventNamesAreOthers | r4ilpy/instagram.py:115-124 | no event image path is an intro path |
| InstagramImages.BatchNamesAreImages | r4ilpy/instagram.py:107-112 | every generated name is an image name |
| InstagramImages.BatchListingAllImages | r4ilpy/instagram.py:108-112 | the extension filter keeps a listing of generated names whole |
| InstagramImages.BatchPathsSplit | r4ilpy/instagram.py:114-124 | the joined generated paths split into the intro path and the event paths |
| InstagramImages.IntroPathInDir | r4ilpy/instagram.py:109 | joining to a folder ending in "/" is concatenation, for the intro name |
| InstagramImages.EventPathsInDir | r4ilpy/instagram.py:109 | joining to a folder ending in "/" is concatenation, for the event names |
| InstagramImages.BatchFolderPaths | r4ilpy/instagram.py:109 | the intro path and event paths of a folder ending in "/" |
| InstagramImages.BatchFolderOrder | r4ilpy/instagram.py:101-125 | a folder listing that is any permutation of a batch's generated names gives the intro path then the event paths in event order |
| Events.DaysInMonth | python/events.py:20 | 28 to 31 days |
| Events.IndexOf | python/events.py:17 | the first position of a character, absent iff it does not occur |
| Events.IndexOfAt | python/events.py:17 | the first occurrence is found |
| Events.OneToTwelveValue | python/events.py:17 | an accepted `%I` field has a value from 1 to 12 |
| Events.MinuteValue | python/events.py:17 | an accepted `%M` field is below 60 |
| Events.ParseTime12Valid | python/events.py:17 | a parsed time is a valid time of day |
| Events.Hour12 | python/events.py:17 | the 12-hour clock reading converts back to the 24-hour hour |
| Events.FormatTime12 | python/events.py:17 | a written-out time has seven characters |
| Events.ParseTime12Parts | python/events.py:17 | the hour, minute and marker fields are read as written |
| Events.ParseFormatTime12 | python/events.py:17 | every time of day written as "%I:%M%p" parses back to itself |
| Events.FourDigits | python/events.py:20 | four digit characters |
| Events.FormatIsoDate | python/events.py:20 | ten characters |
| Events.FourDigitsValue | python/events.py:20 | four digits read back to the number |
| Events.TwoDigitDayText | python/events.py:20 | a two-digit day is an accepted `%d` field |
| Events.ParseIsoDateParts | python/events.py:20 | the year, month and day fields are read as written |
| Events.ParseFormatIsoDate | python/events.py:20 | every valid date written as "%Y-%m-%d" parses back to itself |
| Events.ParseIsoDateValid | python/events.py:20 | a parsed date exists in the calendar |
| Events.Get | python/events.py:15 | `dict.get`: a value iff the key is present |
| Events.AirtableRecordToEventSucceeds | python/events.py:13-27 | an event is built iff the record has fields, a parsable start time or none, and a parsable date |
| Events.AirtableRecordToEventFields | python/events.py:13-27 | title and location copied verbatim, the parsed date, and a start time exactly when "Start Time" is non-empty |
| Events.AirtableRecordToEventRoundTrip | python/events.py:13-27 | every event with a valid date and time comes back unchanged from its own record |
| Events.ParseTime12NineAm | r4ilpy/tests/events/test_airtable_record_to_event.py:20-29 | "9:00am" is 09:00 |
| Events.ParseTime12HalfPastMidnight | python/events.py:17 | "12:30am" is 00:30 |
| Events.ParseTime12AfterNoon | python/events.py:17 | "12:05PM" is 12:05 |
| Events.ParseTime12RejectsThirteen | python/events.py:17 | "13:00pm" is rejected |
| Events.ParseTime12RejectsNoMarker | python/events.py:17 | "9:00" is rejected |
| Events.ParseIsoDateSecondOfJanuary | r4ilpy/tests/events/test_airtable_record_to_event.py:43-52 | "2024-01-02" is 2 January 2024 |
| Events.ParseIsoDateLeapDay | python/events.py:20 | "2024-02-29" is accepted |
| Events.ParseIsoDateNoLeapDay | python/events.py:20 | "2023-02-29" is rejected |
| EmojiSources.LowerHex | r4ilpy/emoji_sources.py:33 | `f"{n:x}"` is non-empty lower-case hexadecimal |
| EmojiSources.LowerHexRoundTrip | r4ilpy/emoji_sources.py:33 | reading a component back as hexadecimal gives the code point |
| EmojiSources.LowerHexNoLeadingZero | r4ilpy/emoji_sources.py:33 | only zero starts with "0" |
| EmojiSources.LowerHexInjective | r4ilpy/emoji_sources.py:33 | different code points give different components |
| EmojiSources.Components | r4ilpy/emoji_sources.py:32-36 | one component per kept code point |
| EmojiSources.ComponentsHaveNoDash | r4ilpy/emoji_sources.py:33 | no component contains "-" |
| EmojiSources.KeptCodepointsAreTheOthers | r4ilpy/emoji_sources.py:32-36 | the kept code points are exactly the characters other than U+FE0F, in input order |
| EmojiSources.NoVariationSelectorComponent | r4ilpy/emoji_sources.py:35 | U+FE0F never contributes a component |
| EmojiSources.EmojiToFilenameShape | r4ilpy/emoji_sources.py:37 | ends in ".png"; one "-" fewer than kept code points; just ".png" when none is kept |
| EmojiSources.FilenameRoundTrip | r4ilpy/emoji_sources.py:25-37 | splitting the name at "-" before ".png" and reading each piece as hexadecimal gives back the kept code points |
| Sorting.SortByPermutation | socialPosters.js:41 | sorting by start returns a permutation of the records |
| Sorting.SortBySorted | r4ilpy/airtable.py:64-65 | under a total preorder the sorted list is in order |
| Digits.Decimal | r4ilpy/instagram.py:96 | `str(n)` is a non-empty string of digits |
| Digits.DecimalNoLeadingZero | r4ilpy/instagram.py:96 | `str(n)` starts with "0" only for zero |
| Digits.ZFill | r4ilpy/instagram.py:96 | `zfill` pads to the width, leaving longer strings as they are |
| Digits.ZFillTwoDigits | r4ilpy/instagram.py:96 | `str(n).zfill(2)` below 100 is the two-digit form of n |
| Digits.DecimalRoundTrip | r4ilpy/instagram.py:96 | `str(n)` reads back to n |
| Text.SplitJoin | socialPosters.js:95 | joining lines that lack the separator, then splitting, gives the lines back |
| Text.LowerAscii | r4ilpy/instagram.py:111 | lower-casing keeps the length and lower-cases each character in place |

## Left out

- Time zones and locales. `toLocaleDateString` and `toLocaleTimeString` (socialPosters.js:117-132) and `toUTCString` are function parameters. Local-time date truncation (socialPosters.js:61-66) is taken in UTC. Python's `start_time.date()` comparisons are also taken in UTC.
- `setDate` month rollover (socialPosters.js:53-54) is not modelled. The cutoff is `now + 10 * 86400000` ms, read from the same clock reading as the start, whereas the source reads the clock twice.
- Date parsing of Airtable "Start" strings (`new Date(...)`, `datetime.fromisoformat`) is not modelled. Records carry the parsed instant, so a record whose start does not parse is not modelled either.
- OAuth, PKCE and JWT signing (apis.js:43-98, apis.js:148-205) and the Facebook HTTP client (apis.js:2-32) are not modelled. They need randomness, hashing and signing.
- `UrlFetchApp`, `Utilities.sleep`, `CalendarApp` and `SpreadsheetApp` are oracles or plain values. The 30-second sleep between retries is not modelled.
- `getUUID` (mockers.js:1-10) is not modelled; fresh ids are parameters under freshness preconditions. The Twitter mock draws ids from a counter.
- Creation times are a parameter `now`.
- `os.listdir` is the parameter `listDir`. The instagrapi client, its login and `album_upload` are recorded as `AlbumUpload` values, not performed.
- Image rendering (r4ilpy/image_generators.py, image_generator.py) is not modelled. `generate_batch_images` is recorded as a list of image requests.
- Instagram.InstagramPoster.GenerateBatchImages: the shown generator constructors (r4ilpy/image_generators.py:16, 231) accept no `batch_no`, so the calls as written would raise `TypeError`. The model records the requests the code makes.
- `TwemojiEmojiSource.get_emoji` (r4ilpy/emoji_sources.py:18-23) is file I/O with a fallback and is not modelled.
- EmojiSources.EmojiToFilename: `unicodedata.name` raises for unnamed characters. The model assumes every character is named and tests U+FE0F by code point, the only character named "VARIATION SELECTOR-16".
- InstagramImages.HasImageExtension: Python's `str.lower` lower-cases all of Unicode. The model lower-cases ASCII letters only, which decides every name ending in ".jpg", ".jpeg" or ".png".
- Events.ParseTime12: `strptime`'s `%I`, `%M` and `%d` accept one or two digits and its `%p` compares case-insensitively. The model follows the C locale. Non-ASCII digits, which Python's `\d` would accept, are not modelled.
- Events.AirtableRecordToEvent: error texts are fixed strings standing for the exceptions raised. Python's `date` and `time` objects are the `Date` and `Time` datatypes.
- Error message texts elsewhere are fixed strings standing for the JavaScript exceptions, which are not reproduced byte for byte.
- Apis.AirtableAPI.GetAllRecords and Apis.GCalAPI.ListEvents take a page budget `fuel`, because the source loops do not terminate on a server that always returns a next page. A run that ends within its budget is the source's whole run.
- A parsed Airtable body without a `records` list is treated like an unparsable body, so the page loop stops. In the source, `concat(undefined)` appends an `undefined` entry.
- Apis.AirtableAPI.CreateRecords: a 2xx body without a `records` list stops the batch loop in the model. In the source (apis.js:395), `concat(undefined)` appends an `undefined` entry and the next batch is still sent. Upsert and delete stop there in both.
- Apis.AirtableAPI.FetchWithRateLimit: the HTTP oracle stands for a fetch with `muteHttpExceptions` set, which returns every status. The source's Airtable options (apis.js:384-388, apis.js:484) do not set it, so in Apps Script a status of 400 or more, 429 included, throws out of the fetch and the 429 retry is never reached. The model keeps the retry as written.
- Apis.TwitterAPI.SendTweetThread: the tweet oracle returns an id or nothing. In the source (apis.js:138-139), an error body with no `data` makes `result.data.id` throw a `TypeError`, which ends the thread and `post`. That throw is not modelled.
- EventSelection.DedupFrom, EventSelection.FilterOutRecurringEvents and Mockers.MockAirtableAPI.DeleteRecords: JavaScript's `in` on a plain object (socialPosters.js:79, mockers.js:170) also finds inherited keys such as `"constructor"` or `"toString"`. The model's membership tests see only the keys that were stored, so a series id or record id that names an `Object.prototype` property is treated differently.
- `encodeURIComponent` is the identity in the model. Query values are taken as already URL-safe.
- `Object.keys` order for integer-like keys is not modelled. The calendar mock keeps ids in insertion order, which is JavaScript's order for non-numeric keys such as uuids.
- `structuredClone` copies and aliasing between the mocks' stored objects and their callers are not modelled, since records are values.
- Mockers.MockAirtableAPI.CreateRecord: the incoming record is taken to carry only `fields`. Other top-level keys it might carry, which the spread would copy over `id`, are not modelled.
- Mockers.MockCalendarAPI.UpdateEvent: an unknown id raises a `TypeError` in the source (reading `id` of `undefined`). The model returns that as a failure and changes nothing.
- Syncers.UTCCalendarSyncer.SyncRow: the create branch (syncers.js:104-116) dereferences the missing event before creating it, so it always fails. Only the update path is modelled as succeeding.
- On the all-day path, `setAllDayDate` receives `undefined` (syncers.js:97) and is modelled as a failure after the title was set.
- Cells other than date-times in the start and end columns make `setTime` fail. Date strings in those cells are not parsed.
- Syncers.InWindow: `getEvents(from, to)` is taken as returning the events that overlap the window, with the window end `new Date(9999, 11, 31)` taken in UTC.
- The export of an undefined `SheetCalendarSyncer` (syncers.js:177) and the reconciling syncers that only the tests name are not part of this model.
- The test helpers' mismatches are not part of this model: tests/testMockers/MockSheetAPI.test.js:5 calls `getAllRecords`, and tests/testMockers/MockCalendarAPI.test.js:1 imports a class tests/mockers.js does not export.
- api.js, Code.js and the top-level instagram.py are thin wrappers and entry points and are not modelled. So is `main` in r4ilpy/instagram.py:128-142.
- The `airtable_conn` fetch in `get_events` (r4ilpy/instagram.py:73-75) is unreachable and is not modelled.
- Event image names sort in event order only up to 99 events (`InstagramImages.EventImageNamesOrdered`). Batches hold at most 19.
