/** The gallery of a project's output (src/hooks/useGallerySession.ts): a
    keep tab and a maybe tab, each with its own image list and its own
    selected index. The asynchronous load is not modelled; its synchronous
    steps are: clearing both lists when there is no project, storing a
    loaded list in the tab it was loaded for, and patching one thumbnail. */
module GallerySession {
  import opened Optional
  import opened AppStore

  datatype GalleryTab = KeepTab | MaybeTab

  /** One record of `listOutputImages`. */
  datatype OutputImage = OutputImage(id: string, path: string, name: string, size: int,
                                     width: Option<int>, height: Option<int>)

  /** A JavaScript number is truthy unless it is missing or 0. */
  predicate TruthyNumber(n: Option<int>) {
    n.Some? && n.value != 0
  }

  /** The `outputImages.map(...)` conversion: no thumbnail yet, and
      dimensions only when both width and height are truthy. */
  function ToImageFile(info: OutputImage): (img: ImageFile)
    ensures img.id == info.id && img.path == info.path && img.name == info.name && img.size == info.size
    ensures img.thumbnailUrl == None
    ensures img.dimensions.Some? <==> TruthyNumber(info.width) && TruthyNumber(info.height)
    ensures img.dimensions.Some? ==> img.dimensions.value == Dimensions(info.width.value, info.height.value)
  {
    var dimensions := if TruthyNumber(info.width) && TruthyNumber(info.height)
                      then Some(Dimensions(info.width.value, info.height.value)) else None;
    ImageFile(info.id, info.path, info.name, None, info.size, dimensions)
  }

  function ToImageFiles(infos: seq<OutputImage>): (r: seq<ImageFile>)
    ensures |r| == |infos| && forall i :: 0 <= i < |infos| ==> r[i] == ToImageFile(infos[i])
  {
    if infos == [] then [] else [ToImageFile(infos[0])] + ToImageFiles(infos[1..])
  }

  /** `images.reduce((sum, img) => sum + img.size, 0)`. */
  function SumSizes(images: seq<ImageFile>): int {
    if images == [] then 0 else SumSizes(images[..|images| - 1]) + images[|images| - 1].size
  }

  /** The sum adds up the parts. */
  lemma {:induction false} SumSizesConcat(a: seq<ImageFile>, b: seq<ImageFile>)
    ensures SumSizes(a + b) == SumSizes(a) + SumSizes(b)
  {
    if b != [] {
      SumSizesConcat(a, b[..|b| - 1]);
      assert (a + b)[..|a + b| - 1] == a + b[..|b| - 1];
    } else {
      assert a + b == a;
    }
  }

  /** Two lists whose images agree on everything but the thumbnail have the same total size. */
  lemma {:induction false} SumSizesIgnoresThumbnails(a: seq<ImageFile>, b: seq<ImageFile>)
    requires |a| == |b|
    requires forall i :: 0 <= i < |a| ==> a[i].size == b[i].size
    ensures SumSizes(a) == SumSizes(b)
  {
    if a != [] {
      SumSizesIgnoresThumbnails(a[..|a| - 1], b[..|b| - 1]);
    }
  }

  /** A thumbnail patch leaves the total size alone. */
  lemma PatchKeepsTotalSize(images: seq<ImageFile>, id: string, url: string)
    ensures SumSizes(WithThumbnail(images, id, url)) == SumSizes(images)
  {
    var r := WithThumbnail(images, id, url);
    forall i | 0 <= i < |images| ensures r[i].size == images[i].size {
      assert r[i].(thumbnailUrl := images[i].thumbnailUrl) == images[i];
    }
    SumSizesIgnoresThumbnails(r, images);
  }

  /** `Math.min(prev + 1, images.length - 1)`. */
  function NextIndex(prev: int, len: nat): (r: int)
    ensures r == prev + 1 || r == len - 1
    ensures r <= prev + 1 && r <= len - 1
    ensures len > 0 && prev >= -1 ==> 0 <= r < len
  {
    if prev + 1 <= len - 1 then prev + 1 else len - 1
  }

  /** `Math.max(prev - 1, 0)`. */
  function PrevIndex(prev: int, len: nat): (r: int)
    ensures r == prev - 1 || r == 0
    ensures r >= prev - 1 && r >= 0
    ensures prev <= len ==> r <= len - 1 || len == 0
  {
    if prev - 1 >= 0 then prev - 1 else 0
  }

  class Gallery {
    var tab: GalleryTab
    var keepImages: seq<ImageFile>
    var maybeImages: seq<ImageFile>
    /** `selectedIndexes.keep` and `selectedIndexes.maybe`: any number, as
        `selectImage` stores its argument unchecked. */
    var keepIndex: int
    var maybeIndex: int
    var loadKey: nat

    /** The initial state: keep tab, no images, both indexes 0. */
    constructor ()
      ensures tab == KeepTab && keepImages == [] && maybeImages == []
      ensures keepIndex == 0 && maybeIndex == 0 && loadKey == 0
    {
      tab := KeepTab;
      keepImages := [];
      maybeImages := [];
      keepIndex := 0;
      maybeIndex := 0;
      loadKey := 0;
    }

    /** The list shown: the active tab's. */
    function Images(): (images: seq<ImageFile>)
      reads this
      ensures tab == KeepTab ==> images == keepImages
      ensures tab == MaybeTab ==> images == maybeImages
    {
      if tab == KeepTab then keepImages else maybeImages
    }

    /** The index shown: the active tab's. */
    function SelectedIndex(): (i: int)
      reads this
      ensures tab == KeepTab ==> i == keepIndex
      ensures tab == MaybeTab ==> i == maybeIndex
    {
      if tab == KeepTab then keepIndex else maybeIndex
    }

    /** `images[selectedIndex]`, `undefined` out of range. */
    function CurrentImage(): (img: Option<ImageFile>)
      reads this
      ensures img.Some? <==> 0 <= SelectedIndex() < |Images()|
      ensures img.Some? ==> img.value == Images()[SelectedIndex()]
    {
      var images := Images();
      var i := SelectedIndex();
      if 0 <= i < |images| then Some(images[i]) else None
    }

    /** The total size of the active tab's images. */
    function TotalSize(): (n: int)
      reads this
      ensures tab == KeepTab ==> n == SumSizes(keepImages)
      ensures tab == MaybeTab ==> n == SumSizes(maybeImages)
    {
      SumSizes(Images())
    }

    method SetTab(t: GalleryTab)
      modifies this
      ensures tab == t
      ensures keepImages == old(keepImages) && maybeImages == old(maybeImages)
      ensures keepIndex == old(keepIndex) && maybeIndex == old(maybeIndex) && loadKey == old(loadKey)
    {
      tab := t;
    }

    /** Sets the active tab's index, unchecked; the other tab's index stays. */
    method SelectImage(index: int)
      modifies this
      ensures SelectedIndex() == index
      ensures tab == KeepTab ==> maybeIndex == old(maybeIndex)
      ensures tab == MaybeTab ==> keepIndex == old(keepIndex)
      ensures tab == old(tab) && keepImages == old(keepImages) && maybeImages == old(maybeImages)
      ensures loadKey == old(loadKey)
    {
      if tab == KeepTab {
        keepIndex := index;
      } else {
        maybeIndex := index;
      }
    }

    /** Moves the active tab's index one forward, stopping at the last image. */
    method NavigateNext()
      modifies this
      ensures SelectedIndex() == NextIndex(old(SelectedIndex()), |Images()|)
      ensures tab == KeepTab ==> maybeIndex == old(maybeIndex)
      ensures tab == MaybeTab ==> keepIndex == old(keepIndex)
      ensures tab == old(tab) && keepImages == old(keepImages) && maybeImages == old(maybeImages)
      ensures loadKey == old(loadKey)
    {
      var len := |Images()|;
      if tab == KeepTab {
        keepIndex := if keepIndex + 1 <= len - 1 then keepIndex + 1 else len - 1;
      } else {
        maybeIndex := if maybeIndex + 1 <= len - 1 then maybeIndex + 1 else len - 1;
      }
    }

    /** Moves the active tab's index one back, stopping at 0. */
    method NavigatePrev()
      modifies this
      ensures SelectedIndex() == PrevIndex(old(SelectedIndex()), |Images()|)
      ensures tab == KeepTab ==> maybeIndex == old(maybeIndex)
      ensures tab == MaybeTab ==> keepIndex == old(keepIndex)
      ensures tab == old(tab) && keepImages == old(keepImages) && maybeImages == old(maybeImages)
      ensures loadKey == old(loadKey)
    {
      if tab == KeepTab {
        keepIndex := if keepIndex - 1 >= 0 then keepIndex - 1 else 0;
      } else {
        maybeIndex := if maybeIndex - 1 >= 0 then maybeIndex - 1 else 0;
      }
    }

    /** Bumps the load key, which asks for a reload. */
    method Refresh()
      modifies this
      ensures loadKey == old(loadKey) + 1
      ensures tab == old(tab) && keepImages == old(keepImages) && maybeImages == old(maybeImages)
      ensures keepIndex == old(keepIndex) && maybeIndex == old(maybeIndex)
    {
      loadKey := loadKey + 1;
    }

    /** The load effect without a project path: both lists are emptied. */
    method ClearForNoProject()
      modifies this
      ensures keepImages == [] && maybeImages == []
      ensures tab == old(tab) && keepIndex == old(keepIndex) && maybeIndex == old(maybeIndex)
      ensures loadKey == old(loadKey)
    {
      keepImages := [];
      maybeImages := [];
    }

    /** A finished load for tab `loadedFor` replaces that tab's list only. */
    method ApplyLoadedImages(loadedFor: GalleryTab, infos: seq<OutputImage>)
      modifies this
      ensures loadedFor == KeepTab ==> keepImages == ToImageFiles(infos) && maybeImages == old(maybeImages)
      ensures loadedFor == MaybeTab ==> maybeImages == ToImageFiles(infos) && keepImages == old(keepImages)
      ensures tab == old(tab) && keepIndex == old(keepIndex) && maybeIndex == old(maybeIndex)
      ensures loadKey == old(loadKey)
    {
      var imageFiles := ToImageFiles(infos);
      if loadedFor == KeepTab {
        keepImages := imageFiles;
      } else {
        maybeImages := imageFiles;
      }
    }

    /** A thumbnail arriving for tab `loadedFor`: only that tab's list is
        patched, and only the image with that id changes; the total size of
        every tab stays. */
    method PatchThumbnail(loadedFor: GalleryTab, id: string, url: string)
      modifies this
      ensures loadedFor == KeepTab ==> keepImages == WithThumbnail(old(keepImages), id, url) && maybeImages == old(maybeImages)
      ensures loadedFor == MaybeTab ==> maybeImages == WithThumbnail(old(maybeImages), id, url) && keepImages == old(keepImages)
      ensures SumSizes(keepImages) == SumSizes(old(keepImages)) && SumSizes(maybeImages) == SumSizes(old(maybeImages))
      ensures tab == old(tab) && keepIndex == old(keepIndex) && maybeIndex == old(maybeIndex)
      ensures loadKey == old(loadKey)
    {
      if loadedFor == KeepTab {
        PatchKeepsTotalSize(keepImages, id, url);
        keepImages := WithThumbnail(keepImages, id, url);
      } else {
        PatchKeepsTotalSize(maybeImages, id, url);
        maybeImages := WithThumbnail(maybeImages, id, url);
      }
    }
  }

  /** The index after a sequence of arrow presses (`true` for next, `false`
      for previous) on a list of `len` images. */
  function Walk(prev: int, len: nat, presses: seq<bool>): int
    decreases |presses|
  {
    if presses == [] then prev
    else Walk(if presses[0] then NextIndex(prev, len) else PrevIndex(prev, len), len, presses[1..])
  }

  /** On a non-empty list, any number of `navigateNext` and `navigatePrev`
      presses from an index in range keeps the index in range. */
  lemma {:induction false} NavigationStaysInRange(prev: int, len: nat, presses: seq<bool>)
    requires len > 0 && 0 <= prev < len
    ensures 0 <= Walk(prev, len, presses) < len
    decreases |presses|
  {
    if presses != [] {
      NavigationStaysInRange(if presses[0] then NextIndex(prev, len) else PrevIndex(prev, len), len, presses[1..]);
    }
  }
}
