/** The image files of an Instagram album (r4ilpy/instagram.py): the names
    the batch image generators are given, and `get_image_paths`, which
    keeps the image files of a directory listing and puts the intro image
    first and the others in alphabetical order. */
module InstagramImages {
  import opened Text
  import opened Digits
  import opened Sorting
  import opened Lists

  const IntroImageName: string := "intro_image.jpg"

  /** `f"event_image_{str(event_no).zfill(2)}.jpg"`. */
  function EventImageName(eventNo: nat): string
  {
    "event_image_" + ZFill(Decimal(eventNo), 2) + ".jpg"
  }

  /** The names of the event images of a batch of `n` events, numbered from 1. */
  function EventImageNames(n: nat): (names: seq<string>)
    ensures |names| == n
  {
    seq(n, i requires 0 <= i < n => EventImageName(i + 1))
  }

  /** Ends in ".jpg", ".jpeg" or ".png" once lower-cased. */
  predicate HasImageExtension(name: string)
  {
    var lower := LowerAscii(name);
    EndsWith(lower, ".jpg") || EndsWith(lower, ".jpeg") || EndsWith(lower, ".png")
  }

  /** What `os.path.join` puts in front of a relative name: the directory,
      followed by "/" unless it is empty or already ends in one. */
  function DirPrefix(directory: string): (p: string)
    ensures p == [] || p[|p| - 1] == '/'
  {
    if directory == [] || directory[|directory| - 1] == '/' then directory
    else directory + "/"
  }

  /** POSIX `os.path.join(directory, name)`: an absolute name replaces the
      directory. */
  function PathJoin(directory: string, name: string): string
  {
    if name != [] && name[0] == '/' then name else DirPrefix(directory) + name
  }

  function Joiner(directory: string): string -> string
  {
    name => PathJoin(directory, name)
  }

  /** `os.path.basename`: everything after the last "/". */
  function Basename(path: string): (b: string)
    ensures '/' !in b
  {
    if path == [] || path[|path| - 1] == '/' then []
    else Basename(path[..|path| - 1]) + [path[|path| - 1]]
  }

  predicate IsIntroPath(path: string)
  {
    Basename(path) == IntroImageName
  }

  predicate IsOtherPath(path: string)
  {
    !IsIntroPath(path)
  }

  /** The module-level `get_image_paths`: the image files of `listing`
      (what `os.listdir(directory)` returned), joined to the directory, in
      listing order. */
  function ImagePaths(directory: string, listing: seq<string>): seq<string>
  {
    MapSeq(Filter(listing, HasImageExtension), Joiner(directory))
  }

  /** `InstagramPoster.get_image_paths`: the intro image first, then the
      other image paths sorted. */
  function OrderedImagePaths(directory: string, listing: seq<string>): seq<string>
  {
    var paths := ImagePaths(directory, listing);
    Filter(paths, IsIntroPath) + SortBy(Filter(paths, IsOtherPath), LexLe)
  }

  lemma LowerCharIdempotent(c: char)
    ensures LowerChar(LowerChar(c)) == LowerChar(c)
  {
  }

  /** The extension test ignores the case of ASCII letters. */
  lemma HasImageExtensionIgnoresCase(name: string)
    ensures HasImageExtension(LowerAscii(name)) == HasImageExtension(name)
  {
    var lower := LowerAscii(name);
    forall i | 0 <= i < |name|
      ensures LowerAscii(lower)[i] == lower[i]
    {
      LowerCharIdempotent(name[i]);
    }
    assert LowerAscii(lower) == lower;
  }

  /** "PHOTO.JPG" and "photo.Png" are images; "notes.txt" and "clip.gif" are not. */
  lemma ImageExtensionExamples(stem: string)
    ensures HasImageExtension(stem + ".JPG")
    ensures HasImageExtension(stem + ".Png")
    ensures !HasImageExtension(stem + ".txt")
    ensures !HasImageExtension(stem + ".gif")
  {
    var jpg, png := LowerAscii(stem + ".JPG"), LowerAscii(stem + ".Png");
    assert jpg[|jpg| - 4..] == ".jpg";
    assert png[|png| - 4..] == ".png";
    var txt, gif := LowerAscii(stem + ".txt"), LowerAscii(stem + ".gif");
    assert txt[|txt| - 1] == 't' && gif[|gif| - 1] == 'f';
  }

  /** The module-level function keeps exactly the image files of the
      listing, in listing order, each joined to the directory. */
  lemma ImagePathsKeepImages(directory: string, listing: seq<string>)
    ensures var kept := Filter(listing, HasImageExtension);
      && (forall name :: name in kept <==> name in listing && HasImageExtension(name))
      && IsSubsequence(kept, listing)
      && |ImagePaths(directory, listing)| == |kept|
      && forall i :: 0 <= i < |kept| ==> ImagePaths(directory, listing)[i] == PathJoin(directory, kept[i])
  {
    FilterMembers(listing, HasImageExtension);
    FilterIsSubsequence(listing, HasImageExtension);
  }

  /** The ordered list holds the same paths as the unordered one. */
  lemma OrderedImagePathsPermutation(directory: string, listing: seq<string>)
    ensures multiset(OrderedImagePaths(directory, listing)) == multiset(ImagePaths(directory, listing))
  {
    var paths := ImagePaths(directory, listing);
    var intro, others := Filter(paths, IsIntroPath), Filter(paths, IsOtherPath);
    SortByPermutation(others, LexLe);
    forall x
      ensures multiset(intro)[x] + multiset(others)[x] == multiset(paths)[x]
    {
      FilterMultiplicity(paths, IsIntroPath, x);
      FilterMultiplicity(paths, IsOtherPath, x);
    }
    MultisetExtensional(multiset(intro) + multiset(others), multiset(paths));
  }

  lemma LexLeTotalPreorder()
    ensures TotalPreorder(LexLe)
    ensures Antisymmetric(LexLe)
  {
    forall a, b
      ensures LexLe(a, b) || LexLe(b, a)
    {
      LexLeTotal(a, b);
    }
    forall a, b, c | LexLe(a, b) && LexLe(b, c)
      ensures LexLe(a, c)
    {
      LexLeTransitive(a, b, c);
    }
    forall a, b | LexLe(a, b) && LexLe(b, a)
      ensures a == b
    {
      LexLeAntisymmetric(a, b);
    }
  }

  /** Intro images come first and the other paths after them in
      alphabetical order. */
  lemma OrderedImagePathsOrder(directory: string, listing: seq<string>)
    ensures var r := OrderedImagePaths(directory, listing);
      forall i, j :: 0 <= i < j < |r| ==>
        (IsIntroPath(r[j]) ==> IsIntroPath(r[i])) && (IsOtherPath(r[i]) ==> LexLe(r[i], r[j]))
  {
    var paths := ImagePaths(directory, listing);
    var intro, others := Filter(paths, IsIntroPath), Filter(paths, IsOtherPath);
    var sorted := SortBy(others, LexLe);
    var r := intro + sorted;
    FilterMembers(paths, IsIntroPath);
    FilterMembers(paths, IsOtherPath);
    LexLeTotalPreorder();
    SortBySorted(others, LexLe);
    SortByPermutation(others, LexLe);
    forall i, j | 0 <= i < j < |r|
      ensures (IsIntroPath(r[j]) ==> IsIntroPath(r[i])) && (IsOtherPath(r[i]) ==> LexLe(r[i], r[j]))
    {
      if i < |intro| {
        assert r[i] == intro[i] && r[i] in intro;
      } else {
        assert r[i] == sorted[i - |intro|] && r[j] == sorted[j - |intro|];
        assert r[j] in multiset(others);
      }
    }
  }

  /** Two-digit forms of smaller numbers come first, whatever follows them. */
  lemma TwoDigitsOrdered(i: nat, j: nat, tail: string)
    requires i < j < 100
    ensures LexLe(TwoDigits(i) + tail, TwoDigits(j) + tail)
    ensures TwoDigits(i) + tail != TwoDigits(j) + tail
  {
    var a, b := TwoDigits(i) + tail, TwoDigits(j) + tail;
    assert a[0] == DigitChar(i / 10) && b[0] == DigitChar(j / 10);
    assert i / 10 <= j / 10;
    if i / 10 == j / 10 {
      assert i % 10 < j % 10;
      assert a[1] == DigitChar(i % 10) && b[1] == DigitChar(j % 10);
      assert a[1..][0] < b[1..][0];
    } else {
      assert a[0] < b[0];
    }
  }

  /** Below 100, event image names sort in event order. */
  lemma EventImageNamesOrdered(i: nat, j: nat)
    requires 1 <= i < j <= 99
    ensures LexLe(EventImageName(i), EventImageName(j))
    ensures EventImageName(i) != EventImageName(j)
  {
    ZFillTwoDigits(i);
    ZFillTwoDigits(j);
    var a, b := TwoDigits(i), TwoDigits(j);
    assert EventImageName(i) == "event_image_" + (a + ".jpg");
    assert EventImageName(j) == "event_image_" + (b + ".jpg");
    LexLeCommonPrefix("event_image_", a + ".jpg", b + ".jpg");
    TwoDigitsOrdered(i, j, ".jpg");
  }

  /** An event image name has no "/", is an image file and is not the intro image. */
  lemma EventImageNameIsImage(eventNo: nat)
    requires 1 <= eventNo <= 99
    ensures '/' !in EventImageName(eventNo)
    ensures HasImageExtension(EventImageName(eventNo))
    ensures EventImageName(eventNo) != IntroImageName
  {
    ZFillTwoDigits(eventNo);
    var name := EventImageName(eventNo);
    var d := TwoDigits(eventNo);
    assert name == "event_image_" + d + ".jpg";
    assert |name| == 18 != |IntroImageName|;
    assert forall k :: 0 <= k < 12 ==> name[k] == "event_image_"[k];
    assert forall k :: 14 <= k < 18 ==> name[k] == ".jpg"[k - 14];
    assert name[12] == d[0] && name[13] == d[1];
    assert name == "event_image_" + d + ".jpg";
    JpgIsImage("event_image_" + d);
  }

  /** Every ".jpg" file is an image file. */
  lemma JpgIsImage(stem: string)
    ensures HasImageExtension(stem + ".jpg")
  {
    var lower := LowerAscii(stem + ".jpg");
    assert lower[|lower| - 4..] == ".jpg";
  }

  lemma IntroImageNameIsImage()
    ensures '/' !in IntroImageName
    ensures HasImageExtension(IntroImageName)
  {
    var name := IntroImageName;
    assert |name| == 15;
    assert forall k :: 0 <= k < 15 ==> name[k] != '/';
    assert name == "intro_image" + ".jpg";
    JpgIsImage("intro_image");
  }

  /** The basename of a joined path is the name joined. */
  lemma {:induction false} BasenameAfterPrefix(p: string, name: string)
    requires p == [] || p[|p| - 1] == '/'
    requires '/' !in name
    ensures Basename(p + name) == name
  {
    if name == [] {
      assert p + name == p;
    } else {
      var last := name[|name| - 1];
      BasenameAfterPrefix(p, name[..|name| - 1]);
      assert (p + name)[..|p + name| - 1] == p + name[..|name| - 1];
      assert name[..|name| - 1] + [last] == name;
    }
  }

  lemma BasenamePathJoin(directory: string, name: string)
    requires '/' !in name
    ensures PathJoin(directory, name) == DirPrefix(directory) + name
    ensures Basename(PathJoin(directory, name)) == name
  {
    BasenameAfterPrefix(DirPrefix(directory), name);
  }

  /** Joining the event image names to one directory keeps them in order. */
  lemma JoinedEventNamesSorted(directory: string, n: nat)
    requires n <= 99
    ensures SortedBy(MapSeq(EventImageNames(n), Joiner(directory)), LexLe)
  {
    var names := EventImageNames(n);
    var paths := MapSeq(names, Joiner(directory));
    forall i, j | 0 <= i < j < n
      ensures LexLe(paths[i], paths[j])
    {
      EventImageNamesOrdered(i + 1, j + 1);
      EventImageNameIsImage(i + 1);
      EventImageNameIsImage(j + 1);
      BasenamePathJoin(directory, names[i]);
      BasenamePathJoin(directory, names[j]);
      LexLeCommonPrefix(DirPrefix(directory), names[i], names[j]);
    }
  }

  /** No joined event image path is an intro path. */
  lemma JoinedEventNamesAreOthers(directory: string, n: nat)
    requires n <= 99
    ensures Filter(MapSeq(EventImageNames(n), Joiner(directory)), IsIntroPath) == []
    ensures Filter(MapSeq(EventImageNames(n), Joiner(directory)), IsOtherPath) == MapSeq(EventImageNames(n), Joiner(directory))
  {
    var names := EventImageNames(n);
    var paths := MapSeq(names, Joiner(directory));
    forall i | 0 <= i < n
      ensures IsOtherPath(paths[i])
    {
      EventImageNameIsImage(i + 1);
      BasenamePathJoin(directory, names[i]);
    }
    FilterNone(paths, IsIntroPath);
    FilterAll(paths, IsOtherPath);
  }

  /** The only list whose multiset is a single element is that element alone. */
  lemma SingletonFromMultiset<T>(s: seq<T>, x: T)
    requires multiset(s) == multiset{x}
    ensures s == [x]
  {
    assert |s| == |multiset(s)| == 1;
    assert s[0] in multiset(s);
  }

  /** A listing that is a permutation of the intro image and event images
      1 to n consists of image files only. */
  lemma BatchNamesAreImages(n: nat)
    requires n <= 99
    ensures var expected := [IntroImageName] + EventImageNames(n);
      forall k :: 0 <= k < |expected| ==> HasImageExtension(expected[k])
  {
    var names := EventImageNames(n);
    var expected := [IntroImageName] + names;
    forall k | 0 <= k < |expected|
      ensures HasImageExtension(expected[k])
    {
      if k == 0 {
        IntroImageNameIsImage();
      } else {
        assert expected[k] == names[k - 1];
        EventImageNameIsImage(k);
      }
    }
  }

  lemma BatchListingAllImages(listing: seq<string>, n: nat)
    requires n <= 99
    requires multiset(listing) == multiset([IntroImageName] + EventImageNames(n))
    ensures Filter(listing, HasImageExtension) == listing
  {
    var expected := [IntroImageName] + EventImageNames(n);
    BatchNamesAreImages(n);
    forall i | 0 <= i < |listing|
      ensures HasImageExtension(listing[i])
    {
      assert listing[i] in multiset(listing);
      assert listing[i] in expected;
    }
    FilterAll(listing, HasImageExtension);
  }

  /** The paths of the intro image and event images 1 to n, joined to a
      directory, split into the intro path and the event paths. */
  lemma BatchPathsSplit(directory: string, n: nat)
    requires n <= 99
    ensures var paths := MapSeq([IntroImageName] + EventImageNames(n), Joiner(directory));
      && Filter(paths, IsIntroPath) == [PathJoin(directory, IntroImageName)]
      && Filter(paths, IsOtherPath) == MapSeq(EventImageNames(n), Joiner(directory))
  {
    var join := Joiner(directory);
    var introPath := PathJoin(directory, IntroImageName);
    var eventPaths := MapSeq(EventImageNames(n), join);
    MapSeqAppend([IntroImageName], EventImageNames(n), join);
    assert MapSeq([IntroImageName], join) == [introPath];
    IntroImageNameIsImage();
    BasenamePathJoin(directory, IntroImageName);
    JoinedEventNamesAreOthers(directory, n);
    FilterAppend([introPath], eventPaths, IsIntroPath);
    FilterAppend([introPath], eventPaths, IsOtherPath);
    assert Filter([introPath], IsIntroPath) == [introPath];
    assert Filter([introPath], IsOtherPath) == [];
  }

  lemma IntroPathInDir(directory: string)
    requires directory != [] && directory[|directory| - 1] == '/'
    ensures PathJoin(directory, IntroImageName) == directory + IntroImageName
  {
    IntroImageNameIsImage();
    BasenamePathJoin(directory, IntroImageName);
  }

  lemma EventPathsInDir(directory: string, n: nat)
    requires n <= 99
    requires directory != [] && directory[|directory| - 1] == '/'
    ensures MapSeq(EventImageNames(n), Joiner(directory))
         == seq(n, j requires 0 <= j < n => directory + EventImageName(j + 1))
  {
    var joined := MapSeq(EventImageNames(n), Joiner(directory));
    forall j | 0 <= j < n
      ensures joined[j] == directory + EventImageName(j + 1)
    {
      EventImageNameIsImage(j + 1);
      BasenamePathJoin(directory, EventImageName(j + 1));
    }
  }

  /** In a directory whose name ends in "/", the intro and event image
      paths are the directory name followed by the image name. */
  lemma BatchFolderPaths(directory: string, n: nat)
    requires n <= 99
    requires directory != [] && directory[|directory| - 1] == '/'
    ensures [PathJoin(directory, IntroImageName)] + MapSeq(EventImageNames(n), Joiner(directory))
         == [directory + IntroImageName] + seq(n, j requires 0 <= j < n => directory + EventImageName(j + 1))
  {
    IntroPathInDir(directory);
    EventPathsInDir(directory, n);
  }

  /** A batch folder holding the intro image and the images of events 1 to
      n, listed in any order, is uploaded as the intro image followed by
      the event images in event order. */
  lemma BatchFolderOrder(directory: string, listing: seq<string>, n: nat)
    requires n <= 99
    requires multiset(listing) == multiset([IntroImageName] + EventImageNames(n))
    ensures OrderedImagePaths(directory, listing)
         == [PathJoin(directory, IntroImageName)] + MapSeq(EventImageNames(n), Joiner(directory))
  {
    var join := Joiner(directory);
    var expectedPaths := MapSeq([IntroImageName] + EventImageNames(n), join);
    var eventPaths := MapSeq(EventImageNames(n), join);
    BatchListingAllImages(listing, n);
    var paths := ImagePaths(directory, listing);
    assert paths == MapSeq(listing, join);
    MapSeqPermutation(listing, [IntroImageName] + EventImageNames(n), join);
    BatchPathsSplit(directory, n);
    FilterPermutation(paths, expectedPaths, IsIntroPath);
    SingletonFromMultiset(Filter(paths, IsIntroPath), PathJoin(directory, IntroImageName));
    var others := Filter(paths, IsOtherPath);
    FilterPermutation(paths, expectedPaths, IsOtherPath);
    LexLeTotalPreorder();
    SortBySorted(others, LexLe);
    SortByPermutation(others, LexLe);
    JoinedEventNamesSorted(directory, n);
    SortedUnique(SortBy(others, LexLe), eventPaths, LexLe);
  }
}
