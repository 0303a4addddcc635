/** The review screen's own logic (src/views/ReviewView.tsx): the three
    columns derived from the classification order lists, click selection,
    drag-and-drop reclassification and the triage commit. The order lists
    and the current folder are inputs: the store shown does not define them. */
module ReviewView {
  import opened Optional
  import opened Seqs
  import opened JsRecord
  import opened AppStore
  import opened Projects
  import ReviewKeys

  /** The per-bucket id lists that fix each column's display order. */
  datatype ClassificationOrder = ClassificationOrder(keep: seq<string>, maybe: seq<string>, yeet: seq<string>)

  /** Counts shown on the result screen and in the header. */
  datatype TriageResult = TriageResult(keep: nat, maybe: nat, yeet: nat)

  /** The arguments of one `executeTriage` call. */
  datatype ExecuteCall = ExecuteCall(projectPath: string, folderId: string, sourceFolder: string,
                                     outputMode: string, keepFiles: seq<string>,
                                     maybeFiles: seq<string>, yeetFiles: seq<string>)

  /** The position of the last image with the given id. */
  function LastIndexOf(images: seq<ImageFile>, id: string): (r: Option<nat>)
    ensures r.None? <==> forall i :: 0 <= i < |images| ==> images[i].id != id
    ensures r.Some? ==> r.value < |images| && images[r.value].id == id
    ensures r.Some? ==> forall j :: r.value < j < |images| ==> images[j].id != id
  {
    if images == [] then None
    else if images[|images| - 1].id == id then Some(|images| - 1)
    else LastIndexOf(images[..|images| - 1], id)
  }

  /** `new Map(images.map(img => [img.id, img])).get(id)`: building the map
      lets a later image overwrite an earlier one with the same id. */
  function ImageLookup(images: seq<ImageFile>, id: string): (r: Option<ImageFile>)
    ensures r.None? <==> forall i :: 0 <= i < |images| ==> images[i].id != id
    ensures r.Some? ==> r.value in images && r.value.id == id
    ensures r.Some? ==> LastIndexOf(images, id).Some? && r.value == images[LastIndexOf(images, id).value]
  {
    match LastIndexOf(images, id)
    case None => None
    case Some(i) => Some(images[i])
  }

  /** The ids of a list of images, in order. */
  function Ids(images: seq<ImageFile>): (ids: seq<string>)
    ensures |ids| == |images| && forall i {:trigger ids[i]} :: 0 <= i < |images| ==> ids[i] == images[i].id
  {
    if images == [] then [] else [images[0].id] + Ids(images[1..])
  }

  /** The paths of a list of images, in order. */
  function Paths(images: seq<ImageFile>): (ps: seq<string>)
    ensures |ps| == |images| && forall i {:trigger ps[i]} :: 0 <= i < |images| ==> ps[i] == images[i].path
  {
    if images == [] then [] else [images[0].path] + Paths(images[1..])
  }

  /** One column: the order list mapped to images, ids without an image dropped. */
  function OrderedImages(order: seq<string>, images: seq<ImageFile>): (r: seq<ImageFile>)
    ensures |r| <= |order|
    ensures forall img :: img in r ==> ImageLookup(images, img.id) == Some(img)
    ensures forall id :: id in order && ImageLookup(images, id).Some? ==> ImageLookup(images, id).value in r
    ensures IsSubseq(Ids(r), order)
  {
    if order == [] then []
    else
      var rest := OrderedImages(order[1..], images);
      match ImageLookup(images, order[0])
      case None =>
        assert order == [order[0]] + order[1..];
        SubseqCons(Ids(rest), order[1..], order[0]);
        rest
      case Some(img) =>
        assert Ids([img] + rest) == [order[0]] + Ids(rest);
        [img] + rest
  }

  /** Mapping and filtering keep every occurrence: an id occurs in a column
      as often as in its order list when it has an image, and not at all otherwise. */
  lemma {:induction false} OrderedImagesCounts(order: seq<string>, images: seq<ImageFile>)
    ensures forall id ::
      multiset(Ids(OrderedImages(order, images)))[id] ==
        if ImageLookup(images, id).Some? then multiset(order)[id] else 0
  {
    if order != [] {
      OrderedImagesCounts(order[1..], images);
      var rest := OrderedImages(order[1..], images);
      assert order == [order[0]] + order[1..];
      match ImageLookup(images, order[0])
      case None =>
      case Some(img) =>
        assert Ids([img] + rest) == [order[0]] + Ids(rest);
    }
  }

  /** When every id in an order list has an image, the column is exactly as long as the list. */
  lemma {:induction false} OrderedImagesComplete(order: seq<string>, images: seq<ImageFile>)
    requires forall id :: id in order ==> ImageLookup(images, id).Some?
    ensures |OrderedImages(order, images)| == |order|
    ensures Ids(OrderedImages(order, images)) == order
  {
    if order != [] {
      OrderedImagesComplete(order[1..], images);
      var rest := OrderedImages(order[1..], images);
      var img := ImageLookup(images, order[0]).value;
      assert OrderedImages(order, images) == [img] + rest;
      assert Ids([img] + rest) == [img.id] + Ids(rest);
    }
  }

  /** The `classifiedImages` memo: the three columns in display order. */
  function ClassifiedColumns(order: ClassificationOrder, images: seq<ImageFile>): (b: Buckets)
    ensures forall c :: IsSubseq(Ids(b.Of(c)), if c == Keep then order.keep else if c == Maybe then order.maybe else order.yeet)
    ensures forall c, img :: img in b.Of(c) ==> ImageLookup(images, img.id) == Some(img)
    ensures |b.keep| <= |order.keep| && |b.maybe| <= |order.maybe| && |b.yeet| <= |order.yeet|
  {
    Buckets(OrderedImages(order.keep, images), OrderedImages(order.maybe, images),
            OrderedImages(order.yeet, images))
  }

  /** The header and result-screen counts. */
  function Stats(b: Buckets): (s: TriageResult)
    ensures s.keep + s.maybe + s.yeet == |b.keep| + |b.maybe| + |b.yeet|
    ensures s.keep == |b.Of(Keep)| && s.maybe == |b.Of(Maybe)| && s.yeet == |b.Of(Yeet)|
  {
    TriageResult(|b.keep|, |b.maybe|, |b.yeet|)
  }

  /** The commit handed to the executor, or `None` when the folder or the
      project path is missing (`""` counts as missing). */
  function AcceptCall(folder: Option<Folder>, projectPath: Option<string>, b: Buckets): (call: Option<ExecuteCall>)
    ensures call.None? <==> folder.None? || !ReviewKeys.Truthy(projectPath)
    ensures call.Some? ==>
      && call.value.projectPath == projectPath.value
      && call.value.folderId == folder.value.id
      && call.value.sourceFolder == folder.value.sourcePath
      && call.value.outputMode == folder.value.outputMode
      && |call.value.keepFiles| == |b.keep| && |call.value.maybeFiles| == |b.maybe| && |call.value.yeetFiles| == |b.yeet|
      && (forall i :: 0 <= i < |b.keep| ==> call.value.keepFiles[i] == b.keep[i].path)
      && (forall i :: 0 <= i < |b.maybe| ==> call.value.maybeFiles[i] == b.maybe[i].path)
      && (forall i :: 0 <= i < |b.yeet| ==> call.value.yeetFiles[i] == b.yeet[i].path)
  {
    if folder.None? || !ReviewKeys.Truthy(projectPath) then None
    else Some(ExecuteCall(projectPath.value, folder.value.id, folder.value.sourcePath, folder.value.outputMode,
                          Paths(b.keep), Paths(b.maybe), Paths(b.yeet)))
  }

  /** The review screen's local state. */
  class ReviewState {
    /** `selectedImageIds`, a `Set` in insertion order. */
    var selection: seq<string>
    /** `focusedImageId`. */
    var focus: Option<string>
    /** The image under the pointer while dragging. */
    var activeImage: Option<ImageFile>
    var triageResult: Option<TriageResult>

    ghost predicate Valid()
      reads this
    {
      NoDup(selection)
    }

    constructor ()
      ensures Valid()
      ensures selection == [] && focus == None && activeImage == None && triageResult == None
    {
      selection := [];
      focus := None;
      activeImage := None;
      triageResult := None;
    }

    /** A click: with the modifier, toggles the id in the selection;
        without it, the selection becomes just that id. Focus follows the click. */
    method HandleSelectImage(imageId: string, addToSelection: bool)
      requires Valid()
      modifies this
      ensures Valid()
      ensures addToSelection ==> selection == Toggle(old(selection), imageId)
      ensures addToSelection ==> (imageId in selection <==> imageId !in old(selection))
      ensures addToSelection ==> forall x :: x != imageId ==> (x in selection <==> x in old(selection))
      ensures !addToSelection ==> selection == [imageId]
      ensures focus == Some(imageId)
      ensures activeImage == old(activeImage) && triageResult == old(triageResult)
    {
      if addToSelection {
        selection := Toggle(selection, imageId);
      } else {
        selection := [imageId];
      }
      focus := Some(imageId);
    }

    /** Drag start: the first image with the dragged id, if any. */
    method HandleDragStart(images: seq<ImageFile>, activeId: string)
      modifies this
      ensures activeImage.None? <==> forall i :: 0 <= i < |images| ==> images[i].id != activeId
      ensures activeImage.Some? ==> activeImage.value.id == activeId
      ensures activeImage.Some? ==> var k := ReviewKeys.FindIndex(images, activeId);
        k.Some? && activeImage.value == images[k.value]
      ensures selection == old(selection) && focus == old(focus) && triageResult == old(triageResult)
    {
      var found := ReviewKeys.FindIndex(images, activeId);
      activeImage := if found.Some? then Some(images[found.value]) else None;
    }

    /** Drag end: clears the dragged image; when dropped on a column other
        than the image's current classification, reclassifies it. */
    method HandleDragEnd(store: Store, imageId: string, over: Option<Classification>)
      requires store.Valid()
      modifies this, store
      ensures store.Valid()
      ensures activeImage == None
      ensures selection == old(selection) && focus == old(focus) && triageResult == old(triageResult)
      ensures over.None? || over == Get(old(store.classifications), imageId) ==>
        store.classifications == old(store.classifications)
      ensures over.Some? ==> Get(store.classifications, imageId) == over
      ensures forall k :: k != imageId ==> Get(store.classifications, k) == Get(old(store.classifications), k)
      ensures store.currentFolder == old(store.currentFolder) && store.recentFolders == old(store.recentFolders)
      ensures store.images == old(store.images) && store.selectedIndex == old(store.selectedIndex)
      ensures store.mode == old(store.mode) && store.sessionName == old(store.sessionName)
      ensures store.triageIndex == old(store.triageIndex)
    {
      activeImage := None;
      if over.None? {
        return;
      }
      var newClassification := over.value;
      var currentClassification := Get(store.classifications, imageId);
      if Some(newClassification) != currentClassification {
        store.Reclassify(imageId, newClassification);
      }
    }

    /** Accept: issues the commit when a folder and a project path are known;
        when the executor succeeds (`executorOk`), records the three counts. */
    method HandleAccept(folder: Option<Folder>, projectPath: Option<string>, b: Buckets, executorOk: bool)
      returns (call: Option<ExecuteCall>)
      modifies this
      ensures call == AcceptCall(folder, projectPath, b)
      ensures triageResult == if call.Some? && executorOk then Some(Stats(b)) else old(triageResult)
      ensures selection == old(selection) && focus == old(focus) && activeImage == old(activeImage)
    {
      call := None;
      if folder.None? || !ReviewKeys.Truthy(projectPath) {
        return;
      }
      call := Some(ExecuteCall(projectPath.value, folder.value.id, folder.value.sourcePath,
                               folder.value.outputMode, Paths(b.keep), Paths(b.maybe), Paths(b.yeet)));
      if executorOk {
        triageResult := Some(TriageResult(|b.keep|, |b.maybe|, |b.yeet|));
      }
    }
  }
}
