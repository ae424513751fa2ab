/** core/queue/priority_queue.go: a min-heap in a slice, with the operations of Go's container/heap that it uses. */
module PriorityQueue {
  import opened Wrappers

  datatype Entry<V> = Entry(value: V, priority: nat)

  function Parent(i: nat): (p: nat)
    requires 0 < i
    ensures p < i
  {
    (i - 1) / 2
  }

  /** The entry at i is not below its parent. */
  predicate Fits<V>(h: seq<Entry<V>>, i: nat)
    requires 0 < i < |h|
  {
    h[Parent(i)].priority <= h[i].priority
  }

  /** The first n entries are in heap order. */
  ghost predicate OrderedTo<V>(h: seq<Entry<V>>, n: nat) {
    n <= |h| && forall i :: 0 < i < n ==> Fits(h, i)
  }

  ghost predicate Ordered<V>(h: seq<Entry<V>>) {
    OrderedTo(h, |h|)
  }

  /** g is h with the first n entries in another order. */
  ghost predicate Rearranged<V>(h: seq<Entry<V>>, g: seq<Entry<V>>, n: nat) {
    n <= |h| == |g| && g[n..] == h[n..] && multiset(g[..n]) == multiset(h[..n])
  }

  /** g ends in entry i of h and holds the others before it. */
  ghost predicate MovedToEnd<V>(h: seq<Entry<V>>, g: seq<Entry<V>>, i: nat) {
    i < |h| == |g| && g[|h| - 1] == h[i] && multiset(g[..|h| - 1]) == multiset(h) - multiset{h[i]}
  }

  /** The root is a minimum. */
  lemma {:induction false} RootIsMinimum<V>(h: seq<Entry<V>>, i: nat)
    requires Ordered(h) && i < |h|
    ensures h[0].priority <= h[i].priority
    decreases i
  {
    if i != 0 {
      assert Fits(h, i);
      RootIsMinimum(h, Parent(i));
    }
  }

  function Swapped<V>(h: seq<Entry<V>>, i: nat, j: nat): (r: seq<Entry<V>>)
    requires i < |h| && j < |h|
    ensures |r| == |h|
  {
    h[i := h[j]][j := h[i]]
  }

  lemma SwappedKeepsEntries<V>(h: seq<Entry<V>>, i: nat, j: nat)
    requires i < |h| && j < |h|
    ensures multiset(Swapped(h, i, j)) == multiset(h)
  {}

  lemma SwappedWithin<V>(h: seq<Entry<V>>, i: nat, j: nat, n: nat)
    requires i < n <= |h| && j < n
    ensures multiset(Swapped(h, i, j)[..n]) == multiset(h[..n]) && Swapped(h, i, j)[n..] == h[n..]
  {
    SwappedKeepsEntries(h[..n], i, j);
    assert Swapped(h, i, j)[..n] == Swapped(h[..n], i, j);
  }

  lemma AllEntries<V>(h: seq<Entry<V>>, n: nat)
    requires n <= |h|
    ensures multiset(h) == multiset(h[..n]) + multiset(h[n..])
  {
    assert h == h[..n] + h[n..];
  }

  /** The first n entries are ordered but for the entry at j, which may be below its parent; what is under j is not. */
  ghost predicate RisingAt<V>(h: seq<Entry<V>>, j: nat, n: nat) {
    && j < n <= |h|
    && (forall i :: 0 < i < n && i != j ==> Fits(h, i))
    && (forall i :: 0 < i < n && 0 < j && Parent(i) == j ==> h[Parent(j)].priority <= h[i].priority)
  }

  /** The first n entries are ordered but for the entries under i, which may be below it; they fit above i. */
  ghost predicate SinkingAt<V>(h: seq<Entry<V>>, i: nat, n: nat) {
    && i < n <= |h|
    && (forall k :: 0 < k < n && Parent(k) != i ==> Fits(h, k))
    && (forall k :: 0 < k < n && 0 < i && Parent(k) == i ==> h[Parent(i)].priority <= h[k].priority)
  }

  /** The entries under i, among the first n, are not below it. */
  ghost predicate SettledAt<V>(h: seq<Entry<V>>, i: nat, n: nat) {
    i < n <= |h| && forall k :: 0 < k < n && Parent(k) == i ==> Fits(h, k)
  }

  lemma RiseStep<V>(h: seq<Entry<V>>, j: nat, n: nat)
    requires RisingAt(h, j, n) && 0 < j && h[j].priority < h[Parent(j)].priority
    ensures RisingAt(Swapped(h, Parent(j), j), Parent(j), n)
  {
    var p := Parent(j);
    var r := Swapped(h, p, j);
    forall i | 0 < i < n && i != p ensures Fits(r, i) {
      if i != j {
        assert Fits(h, i);
      }
    }
    if 0 < p {
      assert Fits(h, p);
      forall i | 0 < i < n && Parent(i) == p ensures r[Parent(p)].priority <= r[i].priority {
        if i != j {
          assert Fits(h, i);
        }
      }
    }
  }

  lemma SinkStep<V>(h: seq<Entry<V>>, i: nat, j: nat, n: nat)
    requires SinkingAt(h, i, n) && 0 < j < n && Parent(j) == i && h[j].priority < h[i].priority
    requires forall k :: 0 < k < n && Parent(k) == i ==> h[j].priority <= h[k].priority
    ensures SinkingAt(Swapped(h, i, j), j, n)
  {
    var r := Swapped(h, i, j);
    forall k | 0 < k < n && Parent(k) != j ensures Fits(r, k) {
      if Parent(k) != i && k != i {
        assert Fits(h, k);
      }
    }
    forall k | 0 < k < n && Parent(k) == j ensures r[Parent(j)].priority <= r[k].priority {
      assert Fits(h, k);
    }
  }

  lemma Children(k: nat, i: nat)
    requires 0 < k
    ensures Parent(k) == i <==> k == 2 * i + 1 || k == 2 * i + 2
  {}

  /** The child of i, among the first n, that down compares it with. */
  function LeastChild<V>(h: seq<Entry<V>>, i: nat, n: nat): (j: nat)
    requires 2 * i + 1 < n <= |h|
    ensures i < j < n
  {
    if 2 * i + 2 < n && h[2 * i + 2].priority < h[2 * i + 1].priority then 2 * i + 2 else 2 * i + 1
  }

  lemma LeastChildIsLeast<V>(h: seq<Entry<V>>, i: nat, n: nat)
    requires 2 * i + 1 < n <= |h|
    ensures Parent(LeastChild(h, i, n)) == i
    ensures forall k :: 0 < k < n && Parent(k) == i ==> h[LeastChild(h, i, n)].priority <= h[k].priority
  {
    Children(LeastChild(h, i, n), i);
    forall k | 0 < k < n && Parent(k) == i ensures h[LeastChild(h, i, n)].priority <= h[k].priority {
      Children(k, i);
    }
  }

  /** There is nothing under i, or nothing below it: down stops. */
  predicate StopsAt<V>(h: seq<Entry<V>>, i: nat, n: nat)
    requires i < n <= |h|
  {
    2 * i + 1 >= n || h[i].priority <= h[LeastChild(h, i, n)].priority
  }

  lemma StopsWhenSettled<V>(h: seq<Entry<V>>, i: nat, n: nat)
    requires i < n <= |h|
    ensures StopsAt(h, i, n) <==> SettledAt(h, i, n)
  {
    if 2 * i + 1 < n {
      LeastChildIsLeast(h, i, n);
      assert Fits(h, LeastChild(h, i, n)) <==> h[i].priority <= h[LeastChild(h, i, n)].priority;
    } else {
      forall k | 0 < k < n ensures Parent(k) != i { Children(k, i); }
    }
  }

  lemma SunkIsOrdered<V>(h: seq<Entry<V>>, i: nat, n: nat)
    requires SinkingAt(h, i, n) && SettledAt(h, i, n)
    ensures OrderedTo(h, n)
  {}

  lemma SinkDown<V>(h: seq<Entry<V>>, i: nat, n: nat)
    requires i < n <= |h| && !StopsAt(h, i, n)
    ensures SinkingAt(h, i, n) ==> SinkingAt(Swapped(h, i, LeastChild(h, i, n)), LeastChild(h, i, n), n)
  {
    hide SinkingAt;
    LeastChildIsLeast(h, i, n);
    if SinkingAt(h, i, n) {
      SinkStep(h, i, LeastChild(h, i, n), n);
    }
  }

  lemma RearrangedOn<V>(h: seq<Entry<V>>, g: seq<Entry<V>>, i: nat, j: nat, n: nat)
    requires Rearranged(h, g, n) && i < n && j < n
    ensures Rearranged(h, Swapped(g, i, j), n)
  {
    SwappedWithin(g, i, j, n);
  }

  class PriorityQueue<V(==)> {
    var heap: seq<Entry<V>>

    ghost predicate Valid()
      reads this
    {
      Ordered(heap)
    }

    constructor ()
      ensures Valid() && heap == []
    {
      heap := [];
    }

    /** up of container/heap; only the first n entries are involved */
    method Up(start: nat, ghost n: nat)
      requires RisingAt(heap, start, n)
      modifies this
      ensures Rearranged(old(heap), heap, n) && OrderedTo(heap, n)
    {
      var j := start;
      while true
        invariant RisingAt(heap, j, n) && Rearranged(old(heap), heap, n)
        decreases j
      {
        if j == 0 || !(heap[j].priority < heap[Parent(j)].priority) {
          break;
        }
        RiseStep(heap, j, n);
        SwappedWithin(heap, Parent(j), j, n);
        heap := Swapped(heap, Parent(j), j);
        j := Parent(j);
      }
      assert j == 0 || Fits(heap, j);
    }

    /** down of container/heap, on the first n entries */
    method Down(start: nat, n: nat) returns (moved: bool)
      requires SinkingAt(heap, start, n) || SettledAt(heap, start, n)
      modifies this
      ensures Rearranged(old(heap), heap, n)
      ensures SinkingAt(old(heap), start, n) ==> OrderedTo(heap, n)
      ensures !moved ==> heap == old(heap)
      ensures SettledAt(old(heap), start, n) ==> !moved
    {
      assert start < n <= |heap| && Rearranged(heap, heap, n);
      hide SinkingAt, SettledAt, Rearranged, StopsAt;
      var i := start;
      while true
        invariant start <= i < n <= |heap| && Rearranged(old(heap), heap, n)
        invariant i == start ==> heap == old(heap)
        invariant SinkingAt(old(heap), start, n) ==> SinkingAt(heap, i, n)
        invariant SettledAt(old(heap), start, n) ==> i == start
        decreases n - i
      {
        StopsWhenSettled(heap, i, n);
        var stop, j := Choose(i, n);
        if stop {
          break;
        }
        SinkDown(heap, i, n);
        RearrangedOn(old(heap), heap, i, j, n);
        heap := Swapped(heap, i, j);
        i := j;
      }
      if SinkingAt(old(heap), start, n) {
        SunkIsOrdered(heap, i, n);
      }
      moved := i > start;
    }

    /** One turn of the loop of down: the child to swap with, if any. */
    method Choose(i: nat, n: nat) returns (stop: bool, j: nat)
      requires i < n <= |heap|
      ensures stop <==> StopsAt(heap, i, n)
      ensures !stop ==> 2 * i + 1 < n && j == LeastChild(heap, i, n)
    {
      var j1 := 2 * i + 1;
      if j1 >= n {
        return true, j1;
      }
      j := j1;
      var j2 := j1 + 1;
      if j2 < n && heap[j2].priority < heap[j1].priority {
        j := j2;
      }
      stop := !(heap[j].priority < heap[i].priority);
    }

    method Enqueue(priority: nat, value: V)
      requires Valid()
      modifies this
      ensures Valid() && multiset(heap) == multiset(old(heap)) + multiset{Entry(value, priority)}
    {
      heap := heap + [Entry(value, priority)];
      ghost var n := |heap|;
      forall i | 0 < i < n && i != n - 1 ensures Fits(heap, i) {
        assert Fits(old(heap), i);
      }
      ghost var g := heap;
      Up(|heap| - 1, n);
      assert heap[..n] == heap && g[..n] == g;
    }

    method Peek() returns (r: Option<Entry<V>>)
      requires Valid()
      ensures r.None? <==> heap == []
      ensures r.Some? ==> r.value in multiset(heap) && forall e | e in multiset(heap) :: r.value.priority <= e.priority
    {
      if heap == [] {
        return None;
      }
      Minimum(heap);
      r := Some(heap[0]);
    }

    /** heap.Pop */
    method Dequeue() returns (r: Option<Entry<V>>)
      requires Valid()
      modifies this
      ensures Valid() && (r.None? <==> old(heap) == []) && (r.None? ==> heap == [])
      ensures r.Some? ==> r.value in multiset(old(heap)) && multiset(heap) == multiset(old(heap)) - multiset{r.value}
      ensures r.Some? ==> forall e | e in multiset(old(heap)) :: r.value.priority <= e.priority
    {
      if heap == [] {
        return None;
      }
      Minimum(heap);
      r := DequeueIndex(0);
    }

    /** heap.Remove: the last entry takes the place of the one removed and moves down, or up. */
    method DequeueIndex(index: nat) returns (r: Option<Entry<V>>)
      requires Valid() && (heap == [] || index < |heap|)
      modifies this
      ensures Valid()
      ensures old(heap) == [] ==> r == None && heap == []
      ensures old(heap) != [] ==> r == Some(old(heap)[index])
      ensures old(heap) != [] ==> multiset(heap) == multiset(old(heap)) - multiset{old(heap)[index]}
    {
      if heap == [] {
        return None;
      }
      var n := |heap| - 1;
      MoveToEnd(index);
      r := Some(heap[n]);
      PrefixOrdered(heap, n);
      heap := heap[..n];
    }

    method MoveToEnd(index: nat)
      requires Valid() && index < |heap|
      modifies this
      ensures MovedToEnd(old(heap), heap, index) && OrderedTo(heap, |old(heap)| - 1)
    {
      hide Fits, SinkingAt, SettledAt, RisingAt, Rearranged, MovedToEnd;
      var n := |heap| - 1;
      ghost var h := heap;
      if n != index {
        heap := Swapped(heap, index, n);
        ghost var g := heap;
        Displaced(h, index);
        var moved := Down(index, n);
        if !moved {
          FitsAll(heap, index, n);
          Up(index, n);
        }
        Removed(h, g, heap, index);
      } else {
        LastMovedToEnd(h);
      }
    }
  }

  /** When the last entry has taken place i, it is either not below its parent, and only what is under it may be
      wrong, or it is below its parent, and so below everything under it. */
  lemma Displaced<V>(h: seq<Entry<V>>, i: nat)
    requires Ordered(h) && i < |h| - 1
    ensures var n := |h| - 1; var g := Swapped(h, i, n);
            if i == 0 || Fits(g, i) then SinkingAt(g, i, n) else SettledAt(g, i, n) && RisingAt(g, i, n)
  {
    var n := |h| - 1;
    var g := Swapped(h, i, n);
    OthersFit(h, i);
    UnderPlace(h, i);
  }

  lemma OthersFit<V>(h: seq<Entry<V>>, i: nat)
    requires Ordered(h) && i < |h| - 1
    ensures forall k :: 0 < k < |h| - 1 && Parent(k) != i && k != i ==> Fits(Swapped(h, i, |h| - 1), k)
  {
    forall k | 0 < k < |h| - 1 && Parent(k) != i && k != i ensures Fits(Swapped(h, i, |h| - 1), k) {
      assert Fits(h, k);
    }
  }

  lemma UnderPlace<V>(h: seq<Entry<V>>, i: nat)
    requires Ordered(h) && i < |h| - 1
    ensures var g := Swapped(h, i, |h| - 1);
            forall k :: 0 < k < |h| - 1 && 0 < i && Parent(k) == i ==> g[Parent(i)].priority <= g[k].priority
  {
    assert 0 < i ==> Fits(h, i);
    forall k | 0 < k < |h| - 1 && Parent(k) == i ensures h[i].priority <= h[k].priority {
      assert Fits(h, k);
    }
  }

  lemma FitsAll<V>(h: seq<Entry<V>>, j: nat, n: nat)
    requires j < n <= |h|
    requires RisingAt(h, j, n) || OrderedTo(h, n)
    ensures RisingAt(h, j, n)
  {
    if OrderedTo(h, n) {
      forall i | 0 < i < n && 0 < j && Parent(i) == j ensures h[Parent(j)].priority <= h[i].priority {
        assert Fits(h, i) && Fits(h, j);
      }
    }
  }

  lemma PrefixOrdered<V>(h: seq<Entry<V>>, n: nat)
    requires OrderedTo(h, n)
    ensures Ordered(h[..n])
  {
    forall k | 0 < k < n ensures Fits(h[..n], k) {
      assert Fits(h, k);
    }
  }

  lemma Removed<V>(h: seq<Entry<V>>, g: seq<Entry<V>>, k: seq<Entry<V>>, i: nat)
    requires i < |h| && g == Swapped(h, i, |h| - 1) && Rearranged(g, k, |h| - 1)
    ensures MovedToEnd(h, k, i)
  {
    var n := |h| - 1;
    assert g[n] == h[i];
    assert k[n] == k[n..][0] == g[n..][0] == g[n];
    SwappedKeepsEntries(h, i, n);
    hide Swapped;
    LastEntry(g);
  }

  lemma LastMovedToEnd<V>(h: seq<Entry<V>>)
    requires Ordered(h) && h != []
    ensures MovedToEnd(h, h, |h| - 1) && OrderedTo(h, |h| - 1)
  {
    LastEntry(h);
  }

  lemma LastEntry<V>(g: seq<Entry<V>>)
    requires g != []
    ensures multiset(g[..|g| - 1]) == multiset(g) - multiset{g[|g| - 1]}
  {
    AllEntries(g, |g| - 1);
    assert g[|g| - 1..] == [g[|g| - 1]];
  }

  lemma Minimum<V>(h: seq<Entry<V>>)
    requires Ordered(h) && h != []
    ensures forall e | e in multiset(h) :: h[0].priority <= e.priority
  {
    forall e | e in multiset(h) ensures h[0].priority <= e.priority {
      var i :| 0 <= i < |h| && h[i] == e;
      RootIsMinimum(h, i);
    }
  }
}
