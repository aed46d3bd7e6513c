/** The Instagram poster (r4ilpy/instagram.py): the events are split into
    batches of 19; for each batch, numbered from 1, an intro image and one
    image per event are requested from the image generators, and the image
    files of the batch folder are uploaded as one album, intro image first.
    The image generators and the Instagram client are recorded as the lists
    of requests they receive; `os.listdir` is a function from a directory to
    its listing. */
module Instagram {
  import opened Wrappers
  import opened Digits
  import opened Lists
  import opened Batching
  import opened Events
  import opened InstagramImages

  const BatchSize: nat := 19
  const BasePath: string := "img/instagram/"

  /** The one event `get_events` returns, 25 times over. */
  const DePaulRally: Event := Event(
    Some("Chicago (DePaul): Stop the Hate: Rally for Jewish Students"),
    Date(2024, 11, 21),
    Some(Time(17, 0)),
    Some("DePaul University - Lincoln Park Student Center, 2250 N. Sheffield Ave."))

  /** `get_events`: it returns before reading any Airtable record. */
  function GetEvents(): seq<Event>
  {
    seq(25, _ => DePaulRally)
  }

  function Min(a: nat, b: nat): nat
  {
    if a <= b then a else b
  }

  /** The first batch is the first `n` items (or all of them), the rest
      are the batches of what follows. */
  lemma ChunksFirst<T>(s: seq<T>, n: nat)
    requires n > 0 && s != []
    ensures Chunks(s, n) == [s[..Min(n, |s|)]] + Chunks(s[Min(n, |s|)..], n)
  {
    if |s| <= n {
      assert s[..|s|] == s;
      assert s[|s|..] == [];
    }
  }

  /** The `batched` generator: `islice` takes up to `batchSize` items at a
      time until it comes back empty, so a size of 0 gives no batch. */
  method Batched<T>(items: seq<T>, batchSize: nat) returns (batches: seq<seq<T>>)
    ensures batchSize == 0 ==> batches == []
    ensures batchSize > 0 ==> batches == Chunks(items, batchSize)
  {
    batches := [];
    var position := 0;
    var batch := items[..Min(batchSize, |items|)];
    while batch != []
      invariant position <= |items|
      invariant batch == items[position..position + Min(batchSize, |items| - position)]
      invariant batchSize == 0 ==> batches == []
      invariant batchSize > 0 ==> batches + Chunks(items[position..], batchSize) == Chunks(items, batchSize)
      decreases |items| - position
    {
      ChunksFirst(items[position..], batchSize);
      assert items[position..][..|batch|] == batch;
      assert items[position..][|batch|..] == items[position + |batch|..];
      batches := batches + [batch];
      position := position + |batch|;
      batch := items[position..position + Min(batchSize, |items| - position)];
    }
    if batchSize > 0 {
      assert items[position..] == [];
    }
  }

  /** The 25 events make two batches: 19 events, then 6. */
  lemma GetEventsBatches()
    ensures Chunks(GetEvents(), BatchSize) == [seq(19, _ => DePaulRally), seq(6, _ => DePaulRally)]
  {
    var events := GetEvents();
    assert events[..19] == seq(19, _ => DePaulRally);
    assert events[19..] == seq(6, _ => DePaulRally);
    assert Chunks(events[19..], BatchSize) == [events[19..]];
  }

  /** A call to one of the image generators. */
  datatype ImageRequest =
    | IntroImage(batchNo: nat, totalBatches: nat)
    | EventImage(event: Event, batchNo: nat, filename: string)

  /** A call to `album_upload`. */
  datatype AlbumUpload = AlbumUpload(paths: seq<string>, caption: string, coauthorIds: seq<string>)

  /** `f"{base_path}batches/{batch_number}/"`. */
  function ImagesDir(batchNumber: nat): (dir: string)
    ensures dir != [] && dir[|dir| - 1] == '/'
  {
    BasePath + "batches/" + Decimal(batchNumber) + "/"
  }

  function Caption(batchNumber: nat): string
  {
    "Batch " + Decimal(batchNumber) + ": testing something..."
  }

  /** The event images of a batch: one per event, numbered from 1. */
  function EventImageRequests(batchNumber: nat, batch: seq<Event>): (requests: seq<ImageRequest>)
    ensures |requests| == |batch|
  {
    seq(|batch|, k requires 0 <= k < |batch| => EventImage(batch[k], batchNumber, EventImageName(k + 1)))
  }

  /** What `generate_batch_images` asks for: the intro image, then the
      event images. */
  function BatchImageRequests(batchNumber: nat, totalBatches: nat, batch: seq<Event>): seq<ImageRequest>
  {
    [IntroImage(batchNumber, totalBatches)] + EventImageRequests(batchNumber, batch)
  }

  /** The album `post_event_batch` uploads for a batch folder. */
  function Album(batchNumber: nat, listDir: string -> seq<string>): AlbumUpload
  {
    var dir := ImagesDir(batchNumber);
    AlbumUpload(OrderedImagePaths(dir, listDir(dir)), Caption(batchNumber), [])
  }

  /** The image requests of the first `k` batches, in batch order. */
  function PostedImages(batches: seq<seq<Event>>, k: nat): seq<ImageRequest>
    requires k <= |batches|
  {
    if k == 0 then []
    else PostedImages(batches, k - 1) + BatchImageRequests(k, |batches|, batches[k - 1])
  }

  /** The albums of the first `k` batches, in batch order. */
  function PostedAlbums(batches: seq<seq<Event>>, k: nat, listDir: string -> seq<string>): seq<AlbumUpload>
    requires k <= |batches|
  {
    if k == 0 then [] else PostedAlbums(batches, k - 1, listDir) + [Album(k, listDir)]
  }

  class InstagramPoster {
    /** The `cached_property` slots: None until first read. */
    var batchedEventsCache: Option<seq<seq<Event>>>
    var totalEventBatchesCache: Option<nat>
    /** The calls made to the image generators, in order. */
    var imageRequests: seq<ImageRequest>
    /** The calls made to `album_upload`, in order. */
    var uploads: seq<AlbumUpload>

    /** A filled cache holds what computing the property gives, and the
        batch count is only cached once the batches are. */
    ghost predicate Valid()
      reads this
    {
      && (batchedEventsCache.Some? ==> batchedEventsCache.value == Chunks(GetEvents(), BatchSize))
      && (totalEventBatchesCache.Some? ==>
            batchedEventsCache.Some? && totalEventBatchesCache.value == |Chunks(GetEvents(), BatchSize)|)
    }

    constructor()
      ensures Valid()
      ensures batchedEventsCache == None && totalEventBatchesCache == None
      ensures imageRequests == [] && uploads == []
    {
      batchedEventsCache := None;
      totalEventBatchesCache := None;
      imageRequests := [];
      uploads := [];
    }

    /** `batched_events`: computed on first use, then read from the cache. */
    method BatchedEvents() returns (batches: seq<seq<Event>>)
      requires Valid()
      modifies this
      ensures Valid()
      ensures batches == Chunks(GetEvents(), BatchSize)
      ensures batchedEventsCache == Some(batches)
      ensures totalEventBatchesCache == old(totalEventBatchesCache)
      ensures imageRequests == old(imageRequests) && uploads == old(uploads)
    {
      if batchedEventsCache.Some? {
        batches := batchedEventsCache.value;
      } else {
        batches := Batched(GetEvents(), BatchSize);
        batchedEventsCache := Some(batches);
      }
    }

    /** `total_event_batches`: the number of batches, cached. */
    method TotalEventBatches() returns (total: nat)
      requires Valid()
      modifies this
      ensures Valid()
      ensures total == |Chunks(GetEvents(), BatchSize)|
      ensures totalEventBatchesCache == Some(total)
      ensures batchedEventsCache == Some(Chunks(GetEvents(), BatchSize))
      ensures imageRequests == old(imageRequests) && uploads == old(uploads)
    {
      if totalEventBatchesCache.Some? {
        total := totalEventBatchesCache.value;
      } else {
        var batches := BatchedEvents();
        total := |batches|;
        totalEventBatchesCache := Some(total);
      }
    }

    /** `generate_batch_images`. */
    method GenerateBatchImages(batchNumber: nat, batch: seq<Event>)
      requires Valid()
      modifies this
      ensures Valid()
      ensures imageRequests == old(imageRequests)
                + BatchImageRequests(batchNumber, |Chunks(GetEvents(), BatchSize)|, batch)
      ensures uploads == old(uploads)
      ensures batchedEventsCache == Some(Chunks(GetEvents(), BatchSize))
    {
      var total := TotalEventBatches();
      imageRequests := imageRequests + [IntroImage(batchNumber, total)];
      ghost var start := imageRequests;
      for k := 0 to |batch|
        invariant Valid() && batchedEventsCache == Some(Chunks(GetEvents(), BatchSize))
        invariant imageRequests == start + EventImageRequests(batchNumber, batch[..k])
        invariant uploads == old(uploads)
      {
        var filename := EventImageName(k + 1);
        imageRequests := imageRequests + [EventImage(batch[k], batchNumber, filename)];
        assert EventImageRequests(batchNumber, batch[..k + 1])
            == EventImageRequests(batchNumber, batch[..k]) + [EventImage(batch[k], batchNumber, filename)];
      }
      assert batch[..|batch|] == batch;
    }

    /** `post_event_batch`: generate the images, then upload the image files
        of the batch folder as one album. */
    method PostEventBatch(batchNumber: nat, batch: seq<Event>, listDir: string -> seq<string>)
      requires Valid()
      modifies this
      ensures Valid()
      ensures imageRequests == old(imageRequests)
                + BatchImageRequests(batchNumber, |Chunks(GetEvents(), BatchSize)|, batch)
      ensures uploads == old(uploads) + [Album(batchNumber, listDir)]
      ensures batchedEventsCache == Some(Chunks(GetEvents(), BatchSize))
    {
      GenerateBatchImages(batchNumber, batch);
      var imagesDir := ImagesDir(batchNumber);
      var imagePaths := OrderedImagePaths(imagesDir, listDir(imagesDir));
      uploads := uploads + [AlbumUpload(imagePaths, Caption(batchNumber), [])];
    }

    /** `post`: every batch in order, numbered from 1. */
    method Post(listDir: string -> seq<string>)
      requires Valid()
      modifies this
      ensures Valid()
      ensures var batches := Chunks(GetEvents(), BatchSize);
        && imageRequests == old(imageRequests) + PostedImages(batches, |batches|)
        && uploads == old(uploads) + PostedAlbums(batches, |batches|, listDir)
    {
      var batches := BatchedEvents();
      for i := 0 to |batches|
        invariant Valid() && batchedEventsCache == Some(batches)
        invariant imageRequests == old(imageRequests) + PostedImages(batches, i)
        invariant uploads == old(uploads) + PostedAlbums(batches, i, listDir)
      {
        PostEventBatch(i + 1, batches[i], listDir);
      }
    }
  }

  /** The events that get an event image, in request order. */
  function EventsOf(requests: seq<ImageRequest>): seq<Event>
  {
    if requests == [] then []
    else (if requests[0].EventImage? then [requests[0].event] else []) + EventsOf(requests[1..])
  }

  lemma {:induction false} EventsOfAppend(a: seq<ImageRequest>, b: seq<ImageRequest>)
    ensures EventsOf(a + b) == EventsOf(a) + EventsOf(b)
  {
    if a != [] {
      assert (a + b)[1..] == a[1..] + b;
      EventsOfAppend(a[1..], b);
    } else {
      assert a + b == b;
    }
  }

  lemma {:induction false} EventsOfEventImages(batchNumber: nat, batch: seq<Event>)
    ensures EventsOf(EventImageRequests(batchNumber, batch)) == batch
    decreases |batch|
  {
    if batch != [] {
      var requests := EventImageRequests(batchNumber, batch);
      var last := |batch| - 1;
      assert requests == EventImageRequests(batchNumber, batch[..last]) + [requests[last]];
      EventsOfAppend(EventImageRequests(batchNumber, batch[..last]), [requests[last]]);
      EventsOfEventImages(batchNumber, batch[..last]);
      assert batch[..last] + [batch[last]] == batch;
    }
  }

  /** A batch gets exactly one event image per event, in order. */
  lemma BatchImagesCoverBatch(batchNumber: nat, totalBatches: nat, batch: seq<Event>)
    ensures EventsOf(BatchImageRequests(batchNumber, totalBatches, batch)) == batch
    ensures BatchImageRequests(batchNumber, totalBatches, batch)[0] == IntroImage(batchNumber, totalBatches)
  {
    EventsOfAppend([IntroImage(batchNumber, totalBatches)], EventImageRequests(batchNumber, batch));
    EventsOfEventImages(batchNumber, batch);
  }

  /** Over the first `k` batches every event of those batches gets exactly
      one event image, in event order. */
  lemma {:induction false} PostedImagesCoverEvents(batches: seq<seq<Event>>, k: nat)
    requires k <= |batches|
    ensures EventsOf(PostedImages(batches, k)) == Flatten(batches[..k])
  {
    if k > 0 {
      PostedImagesCoverEvents(batches, k - 1);
      EventsOfAppend(PostedImages(batches, k - 1), BatchImageRequests(k, |batches|, batches[k - 1]));
      BatchImagesCoverBatch(k, |batches|, batches[k - 1]);
      assert batches[..k] == batches[..k - 1] + [batches[k - 1]];
      FlattenAppend(batches[..k - 1], [batches[k - 1]]);
      assert Flatten([batches[k - 1]]) == batches[k - 1] + Flatten([]);
    }
  }

  /** `post` requests one event image for each event `get_events` returns,
      in order. */
  lemma PostCoversAllEvents()
    ensures var batches := Chunks(GetEvents(), BatchSize);
      EventsOf(PostedImages(batches, |batches|)) == GetEvents()
  {
    var batches := Chunks(GetEvents(), BatchSize);
    PostedImagesCoverEvents(batches, |batches|);
    assert batches[..|batches|] == batches;
    ChunksFlatten(GetEvents(), BatchSize);
  }

  /** The `k`-th album uploaded belongs to batch `k + 1`. */
  lemma {:induction false} PostedAlbumsNumbered(batches: seq<seq<Event>>, n: nat, listDir: string -> seq<string>)
    requires n <= |batches|
    ensures |PostedAlbums(batches, n, listDir)| == n
    ensures forall k :: 0 <= k < n ==> PostedAlbums(batches, n, listDir)[k] == Album(k + 1, listDir)
  {
    if n > 0 {
      PostedAlbumsNumbered(batches, n - 1, listDir);
    }
  }

  /** `post` uploads two albums, captioned "Batch 1" and "Batch 2". */
  lemma PostUploadsTwoAlbums(listDir: string -> seq<string>)
    ensures var batches := Chunks(GetEvents(), BatchSize);
      var albums := PostedAlbums(batches, |batches|, listDir);
      && |albums| == 2
      && albums[0].caption == Caption(1) && albums[1].caption == Caption(2)
  {
    GetEventsBatches();
    var batches := Chunks(GetEvents(), BatchSize);
    PostedAlbumsNumbered(batches, |batches|, listDir);
  }

  /** When a batch folder holds exactly the images generated for a batch of
      at most 99 events, its album is the intro image followed by the event
      images in event order. */
  lemma AlbumOrder(batchNumber: nat, eventCount: nat, listDir: string -> seq<string>)
    requires eventCount <= 99
    requires multiset(listDir(ImagesDir(batchNumber))) == multiset([IntroImageName] + EventImageNames(eventCount))
    ensures var dir := ImagesDir(batchNumber);
      Album(batchNumber, listDir).paths
        == [dir + IntroImageName] + seq(eventCount, j requires 0 <= j < eventCount => dir + EventImageName(j + 1))
  {
    var dir := ImagesDir(batchNumber);
    BatchFolderOrder(dir, listDir(dir), eventCount);
    BatchFolderPaths(dir, eventCount);
  }

  /** Every batch `post` makes has at most 19 events, so each album is in
      event order once its folder holds the generated images. */
  lemma PostedBatchesFitTwoDigits()
    ensures var batches := Chunks(GetEvents(), BatchSize);
      forall k :: 0 <= k < |batches| ==> 0 < |batches[k]| <= BatchSize
  {
    ChunksSizes(GetEvents(), BatchSize);
  }
}
