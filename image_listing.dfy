/** `list_images` and `scan_directory_for_images` (src-tauri/src/lib.rs):
    the image files of a directory, sorted by lower-cased name. The directory
    scan is an input: the entries `read_dir` yields, each with what the file
    system and the image decoder report about it, and the `hash_path` id of
    its path. */
module ImageListing {
  import opened Optional
  import opened Text
  import opened RustPath
  import opened Naming

  /** One directory entry as the scan sees it. `size` is `None` when its
      metadata cannot be read; `dimensions` is `None` when the image header
      cannot be decoded. */
  datatype DirEntry = DirEntry(path: string, isFile: bool, hashId: string, size: Option<nat>,
                               dimensions: Option<(nat, nat)>)

  datatype ImageInfo = ImageInfo(id: string, path: string, name: string, size: nat,
                                 width: Option<nat>, height: Option<nat>)

  /** The entries the scan keeps: regular files with a supported extension. */
  predicate IsImageEntry(e: DirEntry) {
    e.isFile && IsImageFile(e.path)
  }

  /** The record pushed for one kept entry: the name is the path's file name
      (empty when it has none), a missing size is 0, and both dimensions are
      missing together. */
  function ToInfo(e: DirEntry): (info: ImageInfo)
    ensures info.id == e.hashId && info.path == e.path
    ensures info.name == FileName(e.path).GetOr("")
    ensures info.size == e.size.GetOr(0)
    ensures info.width.Some? <==> info.height.Some?
    ensures info.width.Some? <==> e.dimensions.Some?
  {
    var (width, height) := if e.dimensions.Some? then (Some(e.dimensions.value.0), Some(e.dimensions.value.1))
                           else (None, None);
    ImageInfo(e.hashId, e.path, FileName(e.path).GetOr(""), e.size.GetOr(0), width, height)
  }

  /** The records of the kept entries, in the order the scan meets them. */
  function Scanned(entries: seq<DirEntry>): (r: seq<ImageInfo>)
    ensures |r| <= |entries|
    ensures forall info :: info in r <==> exists e :: e in entries && IsImageEntry(e) && ToInfo(e) == info
  {
    if entries == [] then []
    else
      var e := entries[|entries| - 1];
      var front := entries[..|entries| - 1];
      assert entries == front + [e];
      if IsImageEntry(e) then Scanned(front) + [ToInfo(e)] else Scanned(front)
  }

  /** Every kept record names an image file whose file name is its name. */
  lemma ScannedAreImages(entries: seq<DirEntry>, info: ImageInfo)
    requires info in Scanned(entries)
    ensures IsImageFile(info.path) && FileName(info.path) == Some(info.name)
  {
    var e :| e in entries && IsImageEntry(e) && ToInfo(e) == info;
  }

  /** String order of Rust's `str::cmp`: lexicographic by character. */
  predicate LexLe(a: string, b: string) {
    a == [] || (b != [] && (a[0] < b[0] || (a[0] == b[0] && LexLe(a[1..], b[1..]))))
  }

  lemma {:induction false} LexLeTotal(a: string, b: string)
    ensures LexLe(a, b) || LexLe(b, a)
  {
    if a != [] && b != [] && a[0] == b[0] {
      LexLeTotal(a[1..], b[1..]);
    }
  }

  lemma {:induction false} LexLeTrans(a: string, b: string, c: string)
    requires LexLe(a, b) && LexLe(b, c)
    ensures LexLe(a, c)
  {
    if a != [] && b != [] && c != [] && a[0] == b[0] && b[0] == c[0] {
      LexLeTrans(a[1..], b[1..], c[1..]);
    }
  }

  /** The sort key: the name with its letters lower-cased. */
  function Key(info: ImageInfo): string {
    LowerAscii(info.name)
  }

  predicate SortedByName(s: seq<ImageInfo>) {
    forall i, j :: 0 <= i < j < |s| ==> LexLe(Key(s[i]), Key(s[j]))
  }

  /** Inserts one record into a list sorted by name. */
  function InsertByName(x: ImageInfo, s: seq<ImageInfo>): (r: seq<ImageInfo>)
    requires SortedByName(s)
    ensures SortedByName(r)
    ensures multiset(r) == multiset(s) + multiset{x}
    ensures forall y :: y in r <==> y == x || y in s
  {
    if s == [] then [x]
    else if LexLe(Key(x), Key(s[0])) then
      forall j | 0 <= j < |s| ensures LexLe(Key(x), Key(s[j])) {
        if j > 0 {
          LexLeTrans(Key(x), Key(s[0]), Key(s[j]));
        }
      }
      [x] + s
    else
      assert SortedByName(s[1..]);
      var rest := InsertByName(x, s[1..]);
      LexLeTotal(Key(x), Key(s[0]));
      forall y | y in rest ensures LexLe(Key(s[0]), Key(y)) {
        if y != x {
          var j :| 1 <= j < |s| && s[j] == y;
        }
      }
      assert s == [s[0]] + s[1..];
      [s[0]] + rest
  }

  /** `images.sort_by(|a, b| a.name.to_lowercase().cmp(&b.name.to_lowercase()))`:
      the records in name order, with the same records as before. */
  function SortByName(s: seq<ImageInfo>): (r: seq<ImageInfo>)
    ensures SortedByName(r)
    ensures multiset(r) == multiset(s)
  {
    if s == [] then []
    else
      assert s == s[..|s| - 1] + [s[|s| - 1]];
      InsertByName(s[|s| - 1], SortByName(s[..|s| - 1]))
  }

  /** The scanning loop shared by both commands: one record per kept entry. */
  method ScanEntries(entries: seq<DirEntry>) returns (images: seq<ImageInfo>)
    ensures images == Scanned(entries)
  {
    images := [];
    for i := 0 to |entries|
      invariant images == Scanned(entries[..i])
    {
      var e := entries[i];
      assert entries[..i + 1] == entries[..i] + [e];
      if e.isFile && IsImageFile(e.path) {
        images := images + [ToInfo(e)];
      }
    }
    assert entries[..|entries|] == entries;
  }

  /** `list_images`: a folder that is not a directory is an error, and so is
      a directory `read_dir` cannot open (`listing` is what `read_dir` gave,
      with its I/O message on failure); otherwise its image files, sorted by
      lower-cased name. */
  method ListImages(folderIsDir: bool, listing: Result<seq<DirEntry>, string>)
    returns (r: Result<seq<ImageInfo>, string>)
    ensures !folderIsDir ==> r == Err("Folder does not exist")
    ensures folderIsDir && listing.Err? ==> r == Err(listing.error)
    ensures r.Ok? <==> folderIsDir && listing.Ok?
    ensures r.Ok? ==> SortedByName(r.value) && multiset(r.value) == multiset(Scanned(listing.value))
  {
    if !folderIsDir {
      return Err("Folder does not exist");
    }
    if listing.Err? {
      return Err(listing.error);
    }
    var images := ScanEntries(listing.value);
    r := Ok(SortByName(images));
  }

  /** `scan_directory_for_images`: a missing directory has no images, a
      directory `read_dir` cannot open is an error, and otherwise its image
      files sorted by lower-cased name. */
  method ScanDirectoryForImages(dirIsDir: bool, listing: Result<seq<DirEntry>, string>)
    returns (r: Result<seq<ImageInfo>, string>)
    ensures !dirIsDir ==> r == Ok([])
    ensures dirIsDir && listing.Err? ==> r == Err(listing.error)
    ensures r.Err? <==> dirIsDir && listing.Err?
    ensures dirIsDir && listing.Ok? ==>
      r.Ok? && SortedByName(r.value) && multiset(r.value) == multiset(Scanned(listing.value))
  {
    if !dirIsDir {
      return Ok([]);
    }
    if listing.Err? {
      return Err(listing.error);
    }
    var images := ScanEntries(listing.value);
    r := Ok(SortByName(images));
  }

  /** Every record listed is an image file of the directory, named by its file name. */
  lemma ListedAreImages(entries: seq<DirEntry>, listed: seq<ImageInfo>, info: ImageInfo)
    requires multiset(listed) == multiset(Scanned(entries))
    requires info in listed
    ensures IsImageFile(info.path) && FileName(info.path) == Some(info.name)
  {
    assert info in multiset(listed);
    assert info in Scanned(entries);
    ScannedAreImages(entries, info);
  }
}
