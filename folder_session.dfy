/** One folder tab of a project (src/hooks/useFolderSession.ts): the images,
    loading flag and error derived from the store's folder cache, and a
    local selected index. The cache entry is an input, since the store shown
    does not define the cache. */
module FolderSession {
  import opened Optional
  import opened AppStore
  import GallerySession

  datatype LoadStatus = Loading | Ready | Failed

  /** One entry of the folder cache. */
  datatype CacheEntry = CacheEntry(status: LoadStatus, images: seq<ImageFile>, error: Option<string>)

  /** `folderId ? folderCache[folderId] : undefined`: no entry without a
      truthy folder id. */
  function CacheEntryFor(cache: map<string, CacheEntry>, folderId: Option<string>): (e: Option<CacheEntry>)
    ensures e.Some? <==> folderId.Some? && folderId.value != "" && folderId.value in cache
    ensures e.Some? ==> e.value == cache[folderId.value]
  {
    if folderId.Some? && folderId.value != "" && folderId.value in cache then Some(cache[folderId.value]) else None
  }

  /** The images shown: the entry's, or none. */
  function FolderImages(entry: Option<CacheEntry>): (images: seq<ImageFile>)
    ensures entry.Some? ==> images == entry.value.images
    ensures entry.None? ==> images == []
  {
    if entry.Some? then entry.value.images else []
  }

  /** Loading while the entry says so, or while a folder is chosen and has no entry yet. */
  function IsLoading(entry: Option<CacheEntry>, folderId: Option<string>): (b: bool)
    ensures b <==> (entry.Some? && entry.value.status == Loading) ||
                   (entry.None? && folderId.Some? && folderId.value != "")
  {
    match entry
    case Some(e) => e.status == Loading
    case None => folderId.Some? && folderId.value != ""
  }

  /** The error shown: the entry's message when its status is an error,
      "Failed to load" when it has none. */
  function ErrorText(entry: Option<CacheEntry>): (err: Option<string>)
    ensures err.Some? <==> entry.Some? && entry.value.status == Failed
    ensures err.Some? && entry.value.error.Some? ==> err.value == entry.value.error.value
    ensures err.Some? && entry.value.error.None? ==> err.value == "Failed to load"
  {
    if entry.Some? && entry.value.status == Failed then Some(entry.value.error.GetOr("Failed to load")) else None
  }

  /** The load effect asks the store for a refresh only when both the folder
      id and the source path are truthy and there is no entry. */
  function ShouldLoad(entry: Option<CacheEntry>, folderId: Option<string>, sourcePath: Option<string>): (b: bool)
    ensures b <==> folderId.Some? && folderId.value != "" && sourcePath.Some? && sourcePath.value != "" && entry.None?
  {
    folderId.Some? && folderId.value != "" && sourcePath.Some? && sourcePath.value != "" && entry.None?
  }

  /** A folder is never shown loading and erroneous at once, and a chosen
      folder without an entry is loading exactly when a load is requested
      or the source path is missing. */
  lemma DerivedStateConsistent(cache: map<string, CacheEntry>, folderId: Option<string>, sourcePath: Option<string>)
    ensures var e := CacheEntryFor(cache, folderId);
      !(IsLoading(e, folderId) && ErrorText(e).Some?)
    ensures var e := CacheEntryFor(cache, folderId);
      ShouldLoad(e, folderId, sourcePath) ==> IsLoading(e, folderId) && FolderImages(e) == []
    ensures var e := CacheEntryFor(cache, folderId);
      folderId.None? ==> !IsLoading(e, folderId) && ErrorText(e).None? && !ShouldLoad(e, folderId, sourcePath)
  {
  }

  /** The tab's local selection. */
  class FolderTab {
    var folderId: Option<string>
    var selectedIndex: int

    constructor (id: Option<string>)
      ensures folderId == id && selectedIndex == 0
    {
      folderId := id;
      selectedIndex := 0;
    }

    /** The reset effect: a different folder id puts the selection back to 0. */
    method SetFolder(id: Option<string>)
      modifies this
      ensures folderId == id
      ensures id != old(folderId) ==> selectedIndex == 0
      ensures id == old(folderId) ==> selectedIndex == old(selectedIndex)
    {
      if id != folderId {
        selectedIndex := 0;
      }
      folderId := id;
    }

    /** Stores the index without a bounds check. */
    method SelectImage(index: int)
      modifies this
      ensures selectedIndex == index && folderId == old(folderId)
    {
      selectedIndex := index;
    }

    method NavigateNext(images: seq<ImageFile>)
      modifies this
      ensures selectedIndex == GallerySession.NextIndex(old(selectedIndex), |images|)
      ensures selectedIndex <= old(selectedIndex) + 1
      ensures |images| > 0 && old(selectedIndex) >= -1 ==> 0 <= selectedIndex < |images|
      ensures folderId == old(folderId)
    {
      selectedIndex := if selectedIndex + 1 <= |images| - 1 then selectedIndex + 1 else |images| - 1;
    }

    method NavigatePrev()
      modifies this
      ensures selectedIndex == GallerySession.PrevIndex(old(selectedIndex), 0) && selectedIndex >= 0
      ensures folderId == old(folderId)
    {
      selectedIndex := if selectedIndex - 1 >= 0 then selectedIndex - 1 else 0;
    }

    /** `images[selectedIndex]`, `undefined` out of range. */
    function CurrentImage(images: seq<ImageFile>): (img: Option<ImageFile>)
      reads this
      ensures img.Some? <==> 0 <= selectedIndex < |images|
      ensures img.Some? ==> img.value == images[selectedIndex]
    {
      if 0 <= selectedIndex < |images| then Some(images[selectedIndex]) else None
    }
  }
}
