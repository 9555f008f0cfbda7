/** Choosing the authoritative SOCI index among those recorded for an image: the collected
    descriptor list is sorted ascending by creation time, in place, and its last element wins. */
module IndexSelection {
  import opened Results

  /** An OCI content descriptor (ocispec.Descriptor), kept opaque. */
  datatype Descriptor = Descriptor(mediaType: string, digest: string, size: int)

  /** One entry of the collection the index builder reports: a descriptor and its creation time.
      Time is an integer; `Before` is `<`. */
  datatype IndexDescriptorInfo = IndexDescriptorInfo(descriptor: Descriptor, createdAt: int)

  /** The error `buildIndex` creates when the collection is empty. */
  const NoIndicesFound := Error("No SOCI indices found in OCI store")

  /** `time.Time.Before`, the less-than of the sort. */
  predicate Before(x: IndexDescriptorInfo, y: IndexDescriptorInfo) {
    x.createdAt < y.createdAt
  }

  /** The latest creation time in a non-empty collection: an independent reference for the selection. */
  function MaxCreatedAt(infos: seq<IndexDescriptorInfo>): (m: int)
    requires |infos| > 0
    ensures forall j :: 0 <= j < |infos| ==> infos[j].createdAt <= m
    ensures exists i :: 0 <= i < |infos| && infos[i].createdAt == m
  {
    if |infos| == 1 then infos[0].createdAt
    else
      var rest := MaxCreatedAt(infos[1..]);
      assert forall j :: 1 <= j < |infos| ==> infos[j] == infos[1..][j - 1];
      if infos[0].createdAt < rest then rest else infos[0].createdAt
  }

  /** `d` is the descriptor of an entry of `infos` that no other entry postdates. */
  predicate IsLatest(infos: seq<IndexDescriptorInfo>, d: Descriptor) {
    |infos| > 0 &&
    exists i :: 0 <= i < |infos| && infos[i].descriptor == d && infos[i].createdAt == MaxCreatedAt(infos)
  }

  /** Ascending by creation time: no entry is `Before` an earlier one. */
  predicate SortedByCreatedAt(s: seq<IndexDescriptorInfo>) {
    forall i, j :: 0 <= i < j < |s| ==> s[i].createdAt <= s[j].createdAt
  }

  /** `sort.Slice(infos, Before)`: an (unstable) in-place sort, here by insertion. Only its contract,
      sorted and a permutation of the input, is used by the rest of the model. */
  method SortByCreatedAt(a: array<IndexDescriptorInfo>)
    modifies a
    ensures SortedByCreatedAt(a[..])
    ensures multiset(a[..]) == old(multiset(a[..]))
  {
    var i := 0;
    while i < a.Length
      invariant 0 <= i <= a.Length
      invariant SortedByCreatedAt(a[..i])
      invariant multiset(a[..]) == old(multiset(a[..]))
    {
      InsertLast(a, i);
      i := i + 1;
    }
    assert a[..a.Length] == a[..];
  }

  /** One round of the insertion sort: moves `a[i]` left past every entry it is `Before`,
      extending the sorted prefix by one. */
  method InsertLast(a: array<IndexDescriptorInfo>, i: int)
    requires 0 <= i < a.Length && SortedByCreatedAt(a[..i])
    modifies a
    ensures SortedByCreatedAt(a[..i + 1])
    ensures multiset(a[..]) == old(multiset(a[..]))
    ensures a[i + 1..] == old(a[i + 1..])
  {
    var j := i;
    while j > 0 && Before(a[j], a[j - 1])
      invariant 0 <= j <= i
      invariant forall p, q :: 0 <= p < q <= i && p != j && q != j ==> a[p].createdAt <= a[q].createdAt
      invariant forall q :: j < q <= i ==> a[j].createdAt <= a[q].createdAt
      invariant multiset(a[..]) == old(multiset(a[..]))
      invariant a[i + 1..] == old(a[i + 1..])
    {
      a[j - 1], a[j] := a[j], a[j - 1];
      j := j - 1;
    }
  }

  /** The last entry of a sorted permutation of a non-empty collection is a latest entry of it. */
  lemma {:induction false} SortedLastIsLatest(infos: seq<IndexDescriptorInfo>, sorted: seq<IndexDescriptorInfo>)
    requires |infos| > 0
    requires SortedByCreatedAt(sorted) && multiset(sorted) == multiset(infos)
    ensures |sorted| == |infos|
    ensures IsLatest(infos, sorted[|sorted| - 1].descriptor)
  {
    assert |sorted| == |multiset(sorted)| == |multiset(infos)| == |infos|;
    var last := sorted[|sorted| - 1];
    assert last in multiset(infos);
    var i :| 0 <= i < |infos| && infos[i] == last;
    var k :| 0 <= k < |infos| && infos[k].createdAt == MaxCreatedAt(infos);
    assert infos[k] in multiset(sorted);
    var t :| 0 <= t < |sorted| && sorted[t] == infos[k];
    assert t == |sorted| - 1 || sorted[t].createdAt <= last.createdAt;
    assert infos[i].createdAt == MaxCreatedAt(infos);
  }

  /** The tail of `buildIndex`: an empty collection is an error and is never indexed; otherwise the
      collection (a fresh slice) is sorted in place and its last descriptor returned. Which of several
      entries with the same time is returned is left open, as `sort.Slice` is not stable. */
  method SelectLatest(infos: seq<IndexDescriptorInfo>) returns (r: Result<Descriptor>)
    ensures r.Err? <==> |infos| == 0
    ensures r.Err? ==> r.error == NoIndicesFound
    ensures r.Ok? ==> IsLatest(infos, r.value)
    ensures |infos| == 1 ==> r == Ok(infos[0].descriptor)
  {
    if |infos| == 0 {
      return Err(NoIndicesFound);
    }
    var a := new IndexDescriptorInfo[|infos|](k requires 0 <= k < |infos| => infos[k]);
    assert a[..] == infos;
    SortByCreatedAt(a);
    SortedLastIsLatest(infos, a[..]);
    r := Ok(a[a.Length - 1].descriptor);
  }

  /** Being latest means: an element of the collection whose creation time is not before any other's. */
  lemma {:induction false} LatestIsMemberNotBeforeAny(infos: seq<IndexDescriptorInfo>, d: Descriptor)
    requires IsLatest(infos, d)
    ensures exists i :: 0 <= i < |infos| && infos[i].descriptor == d &&
                        (forall j :: 0 <= j < |infos| ==> !Before(infos[i], infos[j]))
  {
    var i :| 0 <= i < |infos| && infos[i].descriptor == d && infos[i].createdAt == MaxCreatedAt(infos);
    assert forall j :: 0 <= j < |infos| ==> !Before(infos[i], infos[j]);
  }

  /** When creation times are pairwise distinct (the builder's expectation), the latest descriptor
      is unique, so the unspecified tie-break never matters. */
  lemma {:induction false} LatestUniqueWhenTimesDistinct(infos: seq<IndexDescriptorInfo>, d1: Descriptor, d2: Descriptor)
    requires forall i, j :: 0 <= i < j < |infos| ==> infos[i].createdAt != infos[j].createdAt
    requires IsLatest(infos, d1) && IsLatest(infos, d2)
    ensures d1 == d2
  {
    var i1 :| 0 <= i1 < |infos| && infos[i1].descriptor == d1 && infos[i1].createdAt == MaxCreatedAt(infos);
    var i2 :| 0 <= i2 < |infos| && infos[i2].descriptor == d2 && infos[i2].createdAt == MaxCreatedAt(infos);
    assert i1 == i2;
  }
}
