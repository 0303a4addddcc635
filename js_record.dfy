/** The two JavaScript collections the front end keys by image id:
    a plain object used as a dictionary (`Record<string, V>`), whose entries
    iterate in key-insertion order, and a `Set<string>`, which iterates in
    insertion order too. Both are sequences here so that the order is part
    of the model. */
module JsRecord {
  import opened Optional
  import opened Seqs

  /** Entries of a string-keyed object, in `Object.entries` order. */
  type Record<V> = seq<(string, V)>

  predicate DistinctKeys<V>(r: Record<V>) {
    forall i, j :: 0 <= i < j < |r| ==> r[i].0 != r[j].0
  }

  function Keys<V>(r: Record<V>): (ks: seq<string>)
    ensures |ks| == |r| && forall i {:trigger ks[i]} :: 0 <= i < |r| ==> ks[i] == r[i].0
  {
    if r == [] then [] else [r[0].0] + Keys(r[1..])
  }

  /** `r[k]`, with `None` for `undefined`. */
  function Get<V>(r: Record<V>, k: string): (v: Option<V>)
    ensures v.None? <==> k !in Keys(r)
    ensures v.Some? ==> (k, v.value) in r
  {
    if r == [] then None
    else if r[0].0 == k then Some(r[0].1)
    else Get(r[1..], k)
  }

  /** With distinct keys, looking up a stored key finds its own entry. */
  lemma {:induction false} GetAt<V>(r: Record<V>, i: nat)
    requires DistinctKeys(r) && i < |r|
    ensures Get(r, r[i].0) == Some(r[i].1)
  {
    if i > 0 {
      assert DistinctKeys(r[1..]);
      GetAt(r[1..], i - 1);
    }
  }

  /** `{ ...r, [k]: v }`: an existing key keeps its place and takes the new
      value; a new key is appended. */
  function Put<V>(r: Record<V>, k: string, v: V): (r': Record<V>)
    ensures Get(r', k) == Some(v)
    ensures forall k' :: k' != k ==> Get(r', k') == Get(r, k')
    ensures k in Keys(r) ==> Keys(r') == Keys(r)
    ensures k !in Keys(r) ==> r' == r + [(k, v)]
  {
    if r == [] then [(k, v)]
    else if r[0].0 == k then
      var r' := [(k, v)] + r[1..];
      assert r'[1..] == r[1..];
      r'
    else
      var rest := Put(r[1..], k, v);
      var r' := [r[0]] + rest;
      assert r'[0] == r[0] && r'[1..] == rest;
      assert k in Keys(r) ==> Keys(r') == Keys(r) by {
        if k in Keys(r) {
          assert k in Keys(r[1..]);
          KeysCons(r[0], rest);
        }
      }
      assert k !in Keys(r) ==> r' == r + [(k, v)] by {
        if k !in Keys(r) {
          assert k !in Keys(r[1..]);
          ConsSplit(r, [(k, v)]);
        }
      }
      r'
  }

  /** The keys of an entry in front of a record. */
  lemma KeysCons<V>(e: (string, V), r: Record<V>)
    ensures Keys([e] + r) == [e.0] + Keys(r)
  {
    assert ([e] + r)[1..] == r;
  }

  /** Overwriting or appending one key never creates a duplicate key. */
  lemma PutKeepsKeysDistinct<V>(r: Record<V>, k: string, v: V)
    requires DistinctKeys(r)
    ensures DistinctKeys(Put(r, k, v))
  {
    var r' := Put(r, k, v);
    forall i, j | 0 <= i < j < |r'| ensures r'[i].0 != r'[j].0 {
      if k in Keys(r) {
        assert r'[i].0 == Keys(r')[i] == Keys(r)[i] == r[i].0;
        assert r'[j].0 == Keys(r')[j] == Keys(r)[j] == r[j].0;
      } else if j < |r| {
        assert r'[i] == r[i] && r'[j] == r[j];
      } else {
        assert r'[i].0 == r[i].0 == Keys(r)[i];
      }
    }
  }

  /** `Object.keys(r).length` counts distinct keys. */
  lemma {:induction false} KeyCount<V>(r: Record<V>)
    requires DistinctKeys(r)
    ensures |set k | k in Keys(r)| == |r|
  {
    if r != [] {
      assert DistinctKeys(r[1..]);
      KeyCount(r[1..]);
      assert Keys(r) == [r[0].0] + Keys(r[1..]);
      assert (set k | k in Keys(r)) == {r[0].0} + (set k | k in Keys(r[1..]));
    }
  }

  // ----- Set<string> in insertion order -----

  /** `new Set(s).add(x)`. */
  function SetAdd(s: seq<string>, x: string): (r: seq<string>)
    ensures forall y :: y in r <==> y in s || y == x
    ensures |s| <= |r| <= |s| + 1 && r[..|s|] == s
    ensures NoDup(s) ==> NoDup(r)
  {
    if x in s then s else s + [x]
  }

  /** `new Set(s).delete(x)`: every other member keeps its place. */
  function SetDelete(s: seq<string>, x: string): (r: seq<string>)
    ensures forall y :: y in r <==> y in s && y != x
    ensures IsSubseq(r, s)
    ensures NoDup(s) ==> NoDup(r) && |r| == if x in s then |s| - 1 else |s|
  {
    var r := RemoveAll(s, x);
    assert NoDup(s) ==> NoDup(r) && |r| == if x in s then |s| - 1 else |s| by {
      if NoDup(s) {
        RemoveAllNoDup(s, x);
        NoDupCount(s, x);
        assert |r| == |multiset(r)| == |multiset(s)| - multiset(s)[x];
      }
    }
    r
  }

  /** A click with the selection modifier: remove a member, add a non-member. */
  function Toggle(s: seq<string>, x: string): (r: seq<string>)
    ensures x in r <==> x !in s
    ensures forall y :: y != x ==> (y in r <==> y in s)
    ensures NoDup(s) ==> NoDup(r)
  {
    if x in s then SetDelete(s, x) else SetAdd(s, x)
  }

  /** Toggling a non-member twice gives back the same selection, order included. */
  lemma ToggleTwice(s: seq<string>, x: string)
    requires x !in s
    ensures Toggle(Toggle(s, x), x) == s
  {
    var t := s + [x];
    assert Toggle(s, x) == t;
    RemoveAppended(s, x);
  }

  lemma {:induction false} RemoveAppended(s: seq<string>, x: string)
    requires x !in s
    ensures RemoveAll(s + [x], x) == s
  {
    if s == [] {
      assert RemoveAll([x], x) == RemoveAll([x][1..], x);
    } else {
      assert (s + [x])[1..] == s[1..] + [x];
      RemoveAppended(s[1..], x);
      assert s == [s[0]] + s[1..];
    }
  }
}
