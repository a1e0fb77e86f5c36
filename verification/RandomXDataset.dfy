/** How dataset initialisation is divided among threads (src/crypto/rx-slow-hash.c, me_rx_init_dataset). */
module RandomXDataset {
  import opened Basics

  /** Two cores are left for other work. */
  function SliceCount(maxThreads: nat): (k: nat)
    ensures k >= 1
  {
    if maxThreads < 4 then 1 else maxThreads - 2
  }

  /** Items per slice, but for the last. */
  function Share(items: nat, k: nat): (delta: nat)
    requires k >= 1
  {
    items / k
  }

  function SliceStart(items: nat, k: nat, j: nat): (start: nat)
    requires j < k
  {
    j * Share(items, k)
  }

  /** The last slice takes the remainder. */
  function SliceEnd(items: nat, k: nat, j: nat): (end: nat)
    requires j < k
  {
    if j == k - 1 then items else j * Share(items, k) + Share(items, k)
  }

  /** The slice an item falls into. */
  function SliceOf(items: nat, k: nat, x: nat): (j: nat)
    requires x < items && 1 <= k
    ensures j < k
  {
    var delta := Share(items, k);
    if delta == 0 || x / delta >= k then k - 1 else x / delta
  }

  lemma SliceStartInRange(items: nat, k: nat, j: nat)
    requires j < k
    ensures SliceStart(items, k, j) <= SliceEnd(items, k, j) <= items
  {
    var delta := Share(items, k);
    assert items == k * (items / k) + items % k;
    MulMonotone(j + 1, k, delta);
    assert (j + 1) * delta == j * delta + delta;
  }

  /** The slices tile the dataset: every item lies in exactly one of them. */
  lemma SlicesTile(items: nat, k: nat, x: nat, j: nat)
    requires x < items && j < k
    ensures SliceStart(items, k, j) <= x < SliceEnd(items, k, j) <==> SliceOf(items, k, x) == j
  {
    var delta := Share(items, k);
    if delta > 0 {
      DivBounds(x, delta);
      MultiplesBracket(x / delta, x, j, delta);
    }
  }

  /** Where x lies among the multiples of delta, given its quotient. */
  lemma MultiplesBracket(q: nat, x: nat, j: nat, delta: nat)
    requires q * delta <= x < q * delta + delta
    ensures j * delta <= x <==> j <= q
    ensures x < j * delta + delta <==> q <= j
  {
    assert (q + 1) * delta == q * delta + delta && (j + 1) * delta == j * delta + delta;
    if j <= q {
      MulMonotone(j, q, delta);
    } else {
      MulMonotone(q + 1, j, delta);
    }
    if q <= j {
      MulMonotone(q, j, delta);
    } else {
      MulMonotone(j + 1, q, delta);
    }
  }

  datatype Slice = Slice(start: nat, count: nat)

  /** The loop that fills the seedinfo array. */
  method PlanSlices(items: nat, maxThreads: nat) returns (si: array<Slice>)
    ensures si.Length == SliceCount(maxThreads)
    ensures forall j :: 0 <= j < si.Length ==> SliceIs(si[j], items, si.Length, j)
  {
    hide SliceStart, SliceEnd, SliceIs, Share;
    var k := SliceCount(maxThreads);
    si := new Slice[k];
    var delta := Share(items, k);
    var start := 0;
    var i := 0;
    FirstSlice(items, k);
    while i < k - 1
      invariant 0 <= i <= k - 1 && start == SliceStart(items, k, i)
      invariant forall j :: 0 <= j < i ==> SliceIs(si[j], items, k, j)
    {
      si[i] := Slice(start, delta);
      InnerSlice(items, k, i);
      start := start + delta;
      i := i + 1;
    }
    LastSlice(items, k);
    si[k - 1] := Slice(start, items - start);
    assert forall j :: 0 <= j < si.Length ==> SliceIs(si[j], items, k, j);
  }

  predicate SliceIs(s: Slice, items: nat, k: nat, j: nat)
    requires j < k
  {
    s.start == SliceStart(items, k, j) && s.start + s.count == SliceEnd(items, k, j)
  }

  lemma FirstSlice(items: nat, k: nat)
    requires k >= 1
    ensures SliceStart(items, k, 0) == 0
  {
  }

  lemma InnerSlice(items: nat, k: nat, i: nat)
    requires i + 1 < k
    ensures SliceIs(Slice(SliceStart(items, k, i), Share(items, k)), items, k, i)
    ensures SliceStart(items, k, i + 1) == SliceStart(items, k, i) + Share(items, k)
  {
    Distribute(i, Share(items, k));
  }

  lemma Distribute(i: nat, delta: nat)
    ensures (i + 1) * delta == i * delta + delta
  {
  }

  lemma LastSlice(items: nat, k: nat)
    requires k >= 1
    ensures SliceStart(items, k, k - 1) <= items
    ensures SliceIs(Slice(SliceStart(items, k, k - 1), items - SliceStart(items, k, k - 1)), items, k, k - 1)
  {
    SliceStartInRange(items, k, k - 1);
    LastEnd(items, k);
    hide SliceStart, SliceEnd;
  }

  lemma LastEnd(items: nat, k: nat)
    requires k >= 1
    ensures SliceEnd(items, k, k - 1) == items
  {
  }
}
