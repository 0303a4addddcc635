/** The "last classification" indicator (src/hooks/useLastClassification.ts):
    each time the classification ledger changes, the value of the first
    entry (in `Object.entries` order) that is new or differs from the
    previous snapshot becomes the last classification, and the snapshot is
    replaced by a copy of the ledger. */
module LastClassification {
  import opened Optional
  import opened JsRecord
  import opened AppStore

  /** The index of the first entry of `current` whose value differs from
      the snapshot's value for that key (absent counts as different). */
  function FirstChanged(prev: Record<Classification>, current: Record<Classification>): (r: Option<nat>)
    ensures r.Some? ==> r.value < |current| && Get(prev, current[r.value].0) != Some(current[r.value].1)
    ensures r.Some? ==> forall j :: 0 <= j < r.value ==> Get(prev, current[j].0) == Some(current[j].1)
    ensures r.None? <==> forall j :: 0 <= j < |current| ==> Get(prev, current[j].0) == Some(current[j].1)
  {
    if current == [] then None
    else if Get(prev, current[0].0) != Some(current[0].1) then Some(0)
    else match FirstChanged(prev, current[1..])
      case None => None
      case Some(i) => Some(i + 1)
  }

  /** Removals alone change nothing: when every entry of the ledger is in
      the snapshot with the same value, no entry counts as changed. */
  lemma {:induction false} SubledgerUnchanged(prev: Record<Classification>, current: Record<Classification>)
    requires DistinctKeys(prev)
    requires forall e :: e in current ==> e in prev
    ensures FirstChanged(prev, current).None?
  {
    forall j | 0 <= j < |current| ensures Get(prev, current[j].0) == Some(current[j].1) {
      assert current[j] in current;
      var i :| 0 <= i < |prev| && prev[i] == current[j];
      GetAt(prev, i);
    }
  }

  /** A classification written with `Put` on top of the snapshot is the one reported. */
  lemma {:induction false} PutIsReported(prev: Record<Classification>, k: string, c: Classification)
    requires DistinctKeys(prev)
    requires Get(prev, k) != Some(c)
    ensures var current := Put(prev, k, c);
      FirstChanged(prev, current).Some? &&
      current[FirstChanged(prev, current).value] == (k, c)
  {
    var current := Put(prev, k, c);
    PutKeepsKeysDistinct(prev, k, c);
    assert k in Keys(current);
    var at :| 0 <= at < |current| && current[at].0 == k;
    GetAt(current, at);
    assert Get(prev, current[at].0) != Some(current[at].1);
    var i := FirstChanged(prev, current).value;
    GetAt(current, i);
    assert current[i].0 == k;
  }

  class ClassificationTracker {
    var lastClassification: Option<Classification>
    /** `prevClassificationsRef.current`. */
    var snapshot: Record<Classification>

    constructor ()
      ensures lastClassification == None && snapshot == []
    {
      lastClassification := None;
      snapshot := [];
    }

    /** The effect run after the ledger changes. */
    method Update(current: Record<Classification>)
      modifies this
      ensures FirstChanged(old(snapshot), current).Some? ==>
        lastClassification == Some(current[FirstChanged(old(snapshot), current).value].1)
      ensures FirstChanged(old(snapshot), current).None? ==> lastClassification == old(lastClassification)
      ensures snapshot == current
    {
      var prev := snapshot;
      var i := 0;
      while i < |current|
        invariant 0 <= i <= |current|
        invariant forall j :: 0 <= j < i ==> Get(prev, current[j].0) == Some(current[j].1)
        invariant lastClassification == old(lastClassification)
      {
        var (imageId, classification) := current[i];
        if Get(prev, imageId) != Some(classification) {
          lastClassification := Some(classification);
          break;
        }
        i := i + 1;
      }
      snapshot := current;
    }

    /** `Object.keys(classifications).length`. */
    function ClassificationCount(current: Record<Classification>): (n: nat)
      ensures DistinctKeys(current) ==> n == |set k | k in Keys(current)|
      ensures n == |Keys(current)|
    {
      KeyCountWhenDistinct(current);
      |current|
    }
  }

  /** The store and the indicator together: classifying the image under the
      cursor with a value it did not have, then running the indicator's
      effect on the new ledger, reports that value. */
  method ClassifyThenUpdate(store: Store, tracker: ClassificationTracker, c: Classification)
    requires store.Valid() && tracker.snapshot == store.classifications
    requires 0 <= store.triageIndex < |store.images|
    requires Get(store.classifications, store.images[store.triageIndex].id) != Some(c)
    modifies store, tracker
    ensures tracker.lastClassification == Some(c)
    ensures tracker.snapshot == store.classifications
  {
    PutIsReported(store.classifications, store.images[store.triageIndex].id, c);
    store.Classify(c);
    tracker.Update(store.classifications);
  }

  lemma KeyCountWhenDistinct(current: Record<Classification>)
    ensures DistinctKeys(current) ==> |set k | k in Keys(current)| == |current|
  {
    if DistinctKeys(current) {
      KeyCount(current);
    }
  }
}
