/** The application store (src/stores/useAppStore.ts): the loaded images, the
    triage cursor, the mode, the classification ledger and the recent-folders
    list, updated in place by the store's actions, plus its pure selectors. */
module AppStore {
  import opened Optional
  import opened Seqs
  import opened JsRecord

  datatype Classification = Keep | Maybe | Yeet

  datatype AppMode = Landing | Browse | Triage | Review

  datatype Dimensions = Dimensions(width: int, height: int)

  datatype ImageFile = ImageFile(
    id: string,
    path: string,
    name: string,
    thumbnailUrl: Option<string>,
    size: int,
    dimensions: Option<Dimensions>)

  /** The three buckets in display order, as the selector returns them. */
  datatype Buckets = Buckets(keep: seq<ImageFile>, maybe: seq<ImageFile>, yeet: seq<ImageFile>)
  {
    function Of(c: Classification): seq<ImageFile> {
      match c
      case Keep => keep
      case Maybe => maybe
      case Yeet => yeet
    }
  }

  datatype Progress = Progress(current: int, total: int)

  /** Length cap of the recent-folders list. */
  const MaxRecentFolders: nat := 10

  function Min(a: int, b: int): int { if a <= b then a else b }

  /** The recent-folders list after opening `folder`: moved (or added) to the
      front, every other entry kept in order, the list cut to ten. */
  function RecentAfterAdd(recent: seq<string>, folder: string): (r: seq<string>)
    ensures 1 <= |r| <= MaxRecentFolders && r[0] == folder
    ensures multiset(r)[folder] == 1
    ensures r[1..] <= RemoveAll(recent, folder)
    ensures |r| == Min(MaxRecentFolders, 1 + |RemoveAll(recent, folder)|)
  {
    var others := RemoveAll(recent, folder);
    var n := Min(MaxRecentFolders, 1 + |others|);
    MovedToFront(folder, others, n);
    ([folder] + others)[..n]
  }

  /** The entries kept behind the new one stay in their old order, and a list
      without duplicates stays without duplicates. */
  lemma RecentKeepsOrder(recent: seq<string>, folder: string)
    ensures IsSubseq(RecentAfterAdd(recent, folder)[1..], recent)
    ensures NoDup(recent) ==> NoDup(RecentAfterAdd(recent, folder))
  {
    var others := RemoveAll(recent, folder);
    var n := Min(MaxRecentFolders, 1 + |others|);
    MovedToFront(folder, others, n);
    SubseqPrefix(others, recent, n - 1);
    if NoDup(recent) {
      RemoveAllNoDup(recent, folder);
      MovedToFrontNoDup(folder, others, n);
    }
  }

  /** The first `n` elements of `x` followed by `others`, with `x` not in
      `others`: `x` comes first and once, the rest is a prefix of `others`. */
  lemma MovedToFront<T>(x: T, others: seq<T>, n: nat)
    requires x !in others && 1 <= n <= 1 + |others|
    ensures var r := ([x] + others)[..n];
      |r| == n && r[0] == x && r[1..] == others[..n - 1] && multiset(r)[x] == 1
  {
    var r := ([x] + others)[..n];
    assert r == [x] + others[..n - 1];
    var kept := others[..n - 1];
    forall k | 0 <= k < |kept| ensures kept[k] != x {
      assert others[k] in others;
    }
  }

  /** Putting a new element in front of a duplicate-free list and cutting it
      keeps it duplicate-free. */
  lemma MovedToFrontNoDup<T>(x: T, others: seq<T>, n: nat)
    requires x !in others && NoDup(others) && 1 <= n <= 1 + |others|
    ensures NoDup(([x] + others)[..n])
  {
    var r := ([x] + others)[..n];
    forall i, j | 0 <= i < j < n ensures r[i] != r[j] {
      assert r[j] == others[j - 1];
      if i > 0 {
        assert r[i] == others[i - 1];
      } else {
        assert others[j - 1] in others;
      }
    }
  }

  /** `images.map(img => img.id === id ? { ...img, thumbnailUrl } : img)`:
      only images with that id change, and only their thumbnail. */
  function WithThumbnail(images: seq<ImageFile>, id: string, url: string): (r: seq<ImageFile>)
    ensures |r| == |images|
    ensures forall i :: 0 <= i < |images| ==>
      r[i].(thumbnailUrl := images[i].thumbnailUrl) == images[i]
    ensures forall i :: 0 <= i < |images| && images[i].id == id ==> r[i].thumbnailUrl == Some(url)
    ensures forall i :: 0 <= i < |images| && images[i].id != id ==> r[i] == images[i]
  {
    seq(|images|, i requires 0 <= i < |images| =>
      if images[i].id == id then images[i].(thumbnailUrl := Some(url)) else images[i])
  }

  /** `images.filter(img => classifications[img.id] === c)`. */
  function Bucket(images: seq<ImageFile>, classifications: Record<Classification>, c: Classification): (r: seq<ImageFile>)
    ensures forall img :: img in r <==> img in images && Get(classifications, img.id) == Some(c)
    ensures IsSubseq(r, images)
  {
    if images == [] then []
    else
      var rest := Bucket(images[1..], classifications, c);
      assert images == [images[0]] + images[1..];
      if Get(classifications, images[0].id) == Some(c) then [images[0]] + rest else rest
  }

  /** The filter keeps every occurrence: an image occurs in its bucket as
      often as in the list, and not at all in the other buckets. */
  lemma {:induction false} BucketCounts(images: seq<ImageFile>, classifications: Record<Classification>, c: Classification)
    ensures forall img ::
      multiset(Bucket(images, classifications, c))[img] ==
        if Get(classifications, img.id) == Some(c) then multiset(images)[img] else 0
  {
    if images != [] {
      BucketCounts(images[1..], classifications, c);
      assert images == [images[0]] + images[1..];
    }
  }

  /** The `useClassifiedImages` selector. */
  function ClassifiedImages(images: seq<ImageFile>, classifications: Record<Classification>): (b: Buckets)
    ensures forall c, img :: img in b.Of(c) <==> img in images && Get(classifications, img.id) == Some(c)
  {
    Buckets(Bucket(images, classifications, Keep), Bucket(images, classifications, Maybe),
            Bucket(images, classifications, Yeet))
  }

  /** How many images have an entry in the ledger. */
  function ClassifiedCount(images: seq<ImageFile>, classifications: Record<Classification>): nat {
    if images == [] then 0
    else (if Get(classifications, images[0].id).Some? then 1 else 0) + ClassifiedCount(images[1..], classifications)
  }

  /** The three buckets partition the classified images: together they are
      exactly as long as the list of classified images, and no image is in two. */
  lemma {:induction false} ClassifiedImagesPartition(images: seq<ImageFile>, classifications: Record<Classification>)
    ensures var b := ClassifiedImages(images, classifications);
      |b.keep| + |b.maybe| + |b.yeet| == ClassifiedCount(images, classifications) <= |images|
    ensures var b := ClassifiedImages(images, classifications);
      forall img :: !(img in b.keep && img in b.maybe) && !(img in b.keep && img in b.yeet)
        && !(img in b.maybe && img in b.yeet)
  {
    if images != [] {
      ClassifiedImagesPartition(images[1..], classifications);
    }
  }

  /** The store. Fields are those of the source's state; actions update them in place. */
  class Store {
    var currentFolder: Option<string>
    var recentFolders: seq<string>
    var images: seq<ImageFile>
    var selectedIndex: int
    var mode: AppMode
    var sessionName: Option<string>
    var classifications: Record<Classification>
    var triageIndex: int

    /** The ledger never holds an id twice. */
    ghost predicate Valid()
      reads this
    {
      DistinctKeys(classifications)
    }

    /** Both indices point at an image (or are 0 when there is none). */
    ghost predicate InBounds()
      reads this
    {
      0 <= selectedIndex && 0 <= triageIndex &&
      (|images| == 0 ==> selectedIndex == 0 && triageIndex == 0) &&
      (|images| > 0 ==> selectedIndex < |images| && triageIndex < |images|)
    }

    /** The initial state. */
    constructor ()
      ensures Valid() && InBounds()
      ensures currentFolder == None && recentFolders == [] && images == [] && selectedIndex == 0
      ensures mode == Landing && sessionName == None && classifications == [] && triageIndex == 0
    {
      currentFolder := None;
      recentFolders := [];
      images := [];
      selectedIndex := 0;
      mode := Landing;
      sessionName := None;
      classifications := [];
      triageIndex := 0;
    }

    /** `useCurrentImage`: `images[selectedIndex]`, undefined when out of range. */
    function CurrentImage(): (img: Option<ImageFile>)
      reads this
      ensures img.Some? <==> 0 <= selectedIndex < |images|
      ensures img.Some? ==> img.value in images
      ensures InBounds() && |images| > 0 ==> img.Some?
    {
      if 0 <= selectedIndex < |images| then Some(images[selectedIndex]) else None
    }

    /** `useTriageProgress`: the one-based position of the cursor and the image count. */
    function TriageProgress(): (p: Progress)
      reads this
      ensures p.total == |images|
      ensures InBounds() && |images| > 0 ==> 1 <= p.current <= p.total
      ensures p.current - 1 == triageIndex
    {
      Progress(triageIndex + 1, |images|)
    }

    method SetCurrentFolder(folder: Option<string>)
      modifies this
      ensures currentFolder == folder
      ensures recentFolders == old(recentFolders) && images == old(images)
      ensures selectedIndex == old(selectedIndex) && mode == old(mode) && sessionName == old(sessionName)
      ensures classifications == old(classifications) && triageIndex == old(triageIndex)
    {
      currentFolder := folder;
    }

    method AddRecentFolder(folder: string)
      modifies this
      ensures recentFolders == RecentAfterAdd(old(recentFolders), folder)
      ensures currentFolder == old(currentFolder) && images == old(images)
      ensures selectedIndex == old(selectedIndex) && mode == old(mode) && sessionName == old(sessionName)
      ensures classifications == old(classifications) && triageIndex == old(triageIndex)
    {
      recentFolders := RecentAfterAdd(recentFolders, folder);
    }

    /** Replaces the image list and selects the first image; the triage cursor
        is left alone, so it is in bounds only if the new list is long enough. */
    method SetImages(newImages: seq<ImageFile>)
      requires Valid()
      modifies this
      ensures Valid()
      ensures images == newImages && selectedIndex == 0
      ensures currentFolder == old(currentFolder) && recentFolders == old(recentFolders)
      ensures mode == old(mode) && sessionName == old(sessionName)
      ensures classifications == old(classifications) && triageIndex == old(triageIndex)
      ensures InBounds() <==> (0 <= triageIndex < |images| || (triageIndex == 0 && images == []))
    {
      images := newImages;
      selectedIndex := 0;
    }

    method UpdateImageThumbnail(id: string, url: string)
      requires Valid()
      modifies this
      ensures Valid()
      ensures images == WithThumbnail(old(images), id, url)
      ensures old(InBounds()) ==> InBounds()
      ensures currentFolder == old(currentFolder) && recentFolders == old(recentFolders)
      ensures selectedIndex == old(selectedIndex) && mode == old(mode) && sessionName == old(sessionName)
      ensures classifications == old(classifications) && triageIndex == old(triageIndex)
    {
      images := WithThumbnail(images, id, url);
    }

    /** Out-of-range indices are ignored. */
    method SelectImage(index: int)
      requires Valid()
      modifies this
      ensures Valid()
      ensures selectedIndex == if 0 <= index < |images| then index else old(selectedIndex)
      ensures old(InBounds()) ==> InBounds()
      ensures currentFolder == old(currentFolder) && recentFolders == old(recentFolders) && images == old(images)
      ensures mode == old(mode) && sessionName == old(sessionName)
      ensures classifications == old(classifications) && triageIndex == old(triageIndex)
    {
      if 0 <= index < |images| {
        selectedIndex := index;
      }
    }

    /** In triage mode the cursor and the selection advance together; otherwise
        only the selection does; neither passes the last image. */
    method NavigateNext()
      requires Valid()
      modifies this
      ensures Valid()
      ensures old(mode) == Triage ==>
        if old(triageIndex) + 1 < |images|
        then triageIndex == selectedIndex == old(triageIndex) + 1
        else triageIndex == old(triageIndex) && selectedIndex == old(selectedIndex)
      ensures old(mode) != Triage ==>
        triageIndex == old(triageIndex) &&
        selectedIndex == if old(selectedIndex) < |images| - 1 then old(selectedIndex) + 1 else old(selectedIndex)
      ensures old(InBounds()) ==> InBounds()
      ensures currentFolder == old(currentFolder) && recentFolders == old(recentFolders) && images == old(images)
      ensures mode == old(mode) && sessionName == old(sessionName) && classifications == old(classifications)
    {
      if mode == Triage {
        var nextIndex := triageIndex + 1;
        if nextIndex < |images| {
          triageIndex, selectedIndex := nextIndex, nextIndex;
        }
      } else {
        if selectedIndex < |images| - 1 {
          selectedIndex := selectedIndex + 1;
        }
      }
    }

    /** The mirror image of NavigateNext: neither index goes below 0. */
    method NavigatePrev()
      requires Valid()
      modifies this
      ensures Valid()
      ensures old(mode) == Triage ==>
        if old(triageIndex) - 1 >= 0
        then triageIndex == selectedIndex == old(triageIndex) - 1
        else triageIndex == old(triageIndex) && selectedIndex == old(selectedIndex)
      ensures old(mode) != Triage ==>
        triageIndex == old(triageIndex) &&
        selectedIndex == if old(selectedIndex) > 0 then old(selectedIndex) - 1 else old(selectedIndex)
      ensures old(InBounds()) ==> InBounds()
      ensures currentFolder == old(currentFolder) && recentFolders == old(recentFolders) && images == old(images)
      ensures mode == old(mode) && sessionName == old(sessionName) && classifications == old(classifications)
    {
      if mode == Triage {
        var prevIndex := triageIndex - 1;
        if prevIndex >= 0 {
          triageIndex, selectedIndex := prevIndex, prevIndex;
        }
      } else {
        if selectedIndex > 0 {
          selectedIndex := selectedIndex - 1;
        }
      }
    }

    method SetMode(m: AppMode)
      modifies this
      ensures mode == m
      ensures currentFolder == old(currentFolder) && recentFolders == old(recentFolders) && images == old(images)
      ensures selectedIndex == old(selectedIndex) && sessionName == old(sessionName)
      ensures classifications == old(classifications) && triageIndex == old(triageIndex)
    {
      mode := m;
    }

    /** Starts a session: empty ledger, cursor and selection on the first image. */
    method StartTriage(name: string)
      modifies this
      ensures Valid() && InBounds()
      ensures mode == Triage && sessionName == Some(name) && classifications == []
      ensures triageIndex == 0 && selectedIndex == 0
      ensures currentFolder == old(currentFolder) && recentFolders == old(recentFolders) && images == old(images)
    {
      mode := Triage;
      sessionName := Some(name);
      classifications := [];
      triageIndex := 0;
      selectedIndex := 0;
    }

    /** Records `c` for the image under the cursor. Before the last image the
        cursor and selection advance and the mode is triage; on the last image
        both stay and the mode becomes review, so classifying again overwrites
        that image's entry. Without an image under the cursor nothing happens. */
    method Classify(c: Classification)
      requires Valid()
      modifies this
      ensures Valid()
      ensures !(0 <= old(triageIndex) < |old(images)|) ==>
        classifications == old(classifications) && triageIndex == old(triageIndex) &&
        selectedIndex == old(selectedIndex) && mode == old(mode)
      ensures 0 <= old(triageIndex) < |old(images)| ==>
        classifications == Put(old(classifications), old(images)[old(triageIndex)].id, c)
      ensures 0 <= old(triageIndex) < |old(images)| ==>
        Get(classifications, old(images)[old(triageIndex)].id) == Some(c)
      ensures 0 <= old(triageIndex) < |old(images)| ==>
        forall k :: k != old(images)[old(triageIndex)].id ==> Get(classifications, k) == Get(old(classifications), k)
      ensures 0 <= old(triageIndex) < |old(images)| ==>
        && (old(triageIndex) + 1 < |images| ==>
              triageIndex == selectedIndex == old(triageIndex) + 1 && mode == Triage)
        && (old(triageIndex) + 1 >= |images| ==>
              triageIndex == selectedIndex == old(triageIndex) && mode == Review)
      ensures old(InBounds()) ==> InBounds()
      ensures currentFolder == old(currentFolder) && recentFolders == old(recentFolders) && images == old(images)
      ensures sessionName == old(sessionName)
    {
      if !(0 <= triageIndex < |images|) {
        return;
      }
      var id := images[triageIndex].id;
      PutKeepsKeysDistinct(classifications, id, c);
      classifications := Put(classifications, id, c);
      Advance();
    }

    /** The cursor step of `classify`: to the next image in triage mode, or,
        on the last image, stay there and switch to review. */
    method Advance()
      requires 0 <= triageIndex < |images|
      modifies this
      ensures old(triageIndex) + 1 < |images| ==>
        triageIndex == selectedIndex == old(triageIndex) + 1 && mode == Triage
      ensures old(triageIndex) + 1 >= |images| ==>
        triageIndex == selectedIndex == old(triageIndex) && mode == Review
      ensures InBounds()
      ensures classifications == old(classifications) && images == old(images)
      ensures currentFolder == old(currentFolder) && recentFolders == old(recentFolders)
      ensures sessionName == old(sessionName)
    {
      var nextIndex := triageIndex + 1;
      if nextIndex >= |images| {
        selectedIndex, mode := triageIndex, Review;
      } else {
        triageIndex, selectedIndex, mode := nextIndex, nextIndex, Triage;
      }
    }

    /** Overwrites the entry for `imageId`, whether or not it changes, and nothing else. */
    method Reclassify(imageId: string, c: Classification)
      requires Valid()
      modifies this
      ensures Valid()
      ensures classifications == Put(old(classifications), imageId, c)
      ensures Get(classifications, imageId) == Some(c)
      ensures forall k :: k != imageId ==> Get(classifications, k) == Get(old(classifications), k)
      ensures currentFolder == old(currentFolder) && recentFolders == old(recentFolders) && images == old(images)
      ensures selectedIndex == old(selectedIndex) && mode == old(mode) && sessionName == old(sessionName)
      ensures triageIndex == old(triageIndex)
    {
      PutKeepsKeysDistinct(classifications, imageId, c);
      classifications := Put(classifications, imageId, c);
    }

    method FinishTriage()
      modifies this
      ensures mode == Review
      ensures currentFolder == old(currentFolder) && recentFolders == old(recentFolders) && images == old(images)
      ensures selectedIndex == old(selectedIndex) && sessionName == old(sessionName)
      ensures classifications == old(classifications) && triageIndex == old(triageIndex)
    {
      mode := Review;
    }

    /** Leaves triage: empty ledger, cursor back to 0, selection untouched. */
    method ResetTriage()
      modifies this
      ensures Valid()
      ensures mode == Browse && sessionName == None && classifications == [] && triageIndex == 0
      ensures old(InBounds()) ==> InBounds()
      ensures currentFolder == old(currentFolder) && recentFolders == old(recentFolders) && images == old(images)
      ensures selectedIndex == old(selectedIndex)
    {
      mode := Browse;
      sessionName := None;
      classifications := [];
      triageIndex := 0;
    }

    /** Back to the initial state, the in-memory recent-folders list included. */
    method Reset()
      modifies this
      ensures Valid() && InBounds()
      ensures currentFolder == None && recentFolders == [] && images == [] && selectedIndex == 0
      ensures mode == Landing && sessionName == None && classifications == [] && triageIndex == 0
    {
      currentFolder := None;
      recentFolders := [];
      images := [];
      selectedIndex := 0;
      mode := Landing;
      sessionName := None;
      classifications := [];
      triageIndex := 0;
    }
  }
}
