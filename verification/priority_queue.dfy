/** `PriorityQueue<T>` (PriorityQueue.cs): a binary max-heap kept in a list, where the
    parent of slot `i >= 1` is slot `i / 2`. Slot 0 therefore has the single child 1, and
    slot `k >= 1` has the children `2k` and `2k + 1`. Elements are compared through
    `CompareTo`, modelled as an integer key; the payload rides along. */
module PriorityQueue {
  import opened Wrappers

  datatype Entry<V> = Entry(key: int, value: V)

  /** `Peek` and `Dequeue` on an empty list index out of range. */
  datatype QueueError = EmptyQueue

  /** Every slot's key is at most its parent's. */
  predicate Heap<V>(a: seq<Entry<V>>)
  {
    forall i :: 1 <= i < |a| ==> a[i].key <= a[i / 2].key
  }

  /** Slot `i` is a child of slot `k`. */
  predicate ChildOf(i: nat, k: nat)
  {
    1 <= i && i / 2 == k
  }

  /** Following parents from any slot reaches the root through keys that never decrease. */
  lemma {:induction false} HeapRootIsMax<V>(a: seq<Entry<V>>, j: nat)
    requires Heap(a) && j < |a|
    ensures a[j].key <= a[0].key
    decreases j
  {
    if j > 0 {
      HeapRootIsMax(a, j / 2);
    }
  }

  lemma HeapRootIsMaxAll<V>(a: seq<Entry<V>>)
    requires Heap(a) && |a| > 0
    ensures forall j :: 0 <= j < |a| ==> a[j].key <= a[0].key
  {
    forall j | 0 <= j < |a| {
      HeapRootIsMax(a, j);
    }
  }

  /** `Peek()`: the root, which is a greatest element of a heap. */
  function Peek<V>(a: seq<Entry<V>>): (r: Result<Entry<V>, QueueError>)
    requires Heap(a)
    ensures r.Err? <==> |a| == 0
    ensures r.Ok? ==> r.value in a && forall j :: 0 <= j < |a| ==> a[j].key <= r.value.key
  {
    if |a| == 0 then Err(EmptyQueue)
    else
      HeapRootIsMaxAll(a);
      Ok(a[0])
  }

  /** `Swap(left, right)`. */
  function Swap<V>(a: seq<Entry<V>>, i: nat, j: nat): (r: seq<Entry<V>>)
    requires i < |a| && j < |a|
    ensures |r| == |a| && multiset(r) == multiset(a)
    ensures r[i] == a[j] && r[j] == a[i]
    ensures forall n :: 0 <= n < |a| && n != i && n != j ==> r[n] == a[n]
  {
    a[i := a[j]][j := a[i]]
  }

  /** A heap but for slot `c`, which may exceed its parent; `c`'s children are still at most
      `c`'s parent, so swapping `c` upwards repairs the edge without breaking another. */
  predicate HeapExceptUp<V>(a: seq<Entry<V>>, c: nat)
  {
    && c < |a|
    && (forall i :: 1 <= i < |a| && i != c ==> a[i].key <= a[i / 2].key)
    && (c >= 1 ==> forall i :: 1 <= i < |a| && i / 2 == c ==> a[i].key <= a[c / 2].key)
  }

  /** One swap of slot `c` with its larger-keyed parent moves the fault to the parent. */
  lemma SwapUp<V>(a: seq<Entry<V>>, c: nat)
    requires HeapExceptUp(a, c) && c >= 1 && a[c / 2].key < a[c].key
    ensures HeapExceptUp(Swap(a, c, c / 2), c / 2)
  {
    var p := c / 2;
    var b := Swap(a, c, p);
    forall i | 1 <= i < |b| && i != p
      ensures b[i].key <= b[i / 2].key
    {
      if i == c {
      } else if i / 2 == c {
      } else if i / 2 == p {
      } else {
        assert b[i] == a[i] && b[i / 2] == a[i / 2];
      }
    }
    if p >= 1 {
      forall i | 1 <= i < |b| && i / 2 == p
        ensures b[i].key <= b[p / 2].key
      {
        assert b[p / 2] == a[p / 2];
        assert a[p].key <= a[p / 2].key;
      }
    }
  }

  /** The loop of `Enqueue`: the new element is swapped upwards while its parent's key is
      smaller, stopping after a swap with the root. */
  method SiftUp<V>(a0: seq<Entry<V>>, c0: nat) returns (a: seq<Entry<V>>)
    requires HeapExceptUp(a0, c0)
    ensures Heap(a) && |a| == |a0| && multiset(a) == multiset(a0)
  {
    a := a0;
    var child: nat := c0;
    var parent: nat := child / 2;
    while a[parent].key < a[child].key
      invariant child < |a| == |a0| && parent == child / 2
      invariant multiset(a) == multiset(a0)
      invariant HeapExceptUp(a, child)
      decreases child
    {
      SwapUp(a, child);
      a := Swap(a, child, parent);
      if parent == 0 {
        break;
      }
      child := parent;
      parent := parent / 2;
    }
  }

  /** `Enqueue(item)`: the queue gains exactly `item` and stays a heap. */
  method Enqueue<V>(a: seq<Entry<V>>, item: Entry<V>) returns (r: seq<Entry<V>>)
    requires Heap(a)
    ensures Heap(r) && |r| == |a| + 1
    ensures multiset(r) == multiset(a) + multiset{item}
  {
    var b := a + [item];
    assert forall i :: 1 <= i < |b| && i / 2 == |a| ==> false;
    r := SiftUp(b, |a|);
  }

  /** A heap but for slot `k`, which may be below a child; `k`'s children are still at most
      `k`'s parent, so swapping `k` with its larger child repairs the edge. */
  predicate HeapExceptDown<V>(a: seq<Entry<V>>, k: nat)
  {
    && k < |a|
    && (forall i :: 1 <= i < |a| && i / 2 != k ==> a[i].key <= a[i / 2].key)
    && (k >= 1 ==> forall i :: 1 <= i < |a| && i / 2 == k ==> a[i].key <= a[k / 2].key)
  }

  /** The child of `k` with the largest key, or `k` itself when `k` has no child. */
  function LargestChild<V>(a: seq<Entry<V>>, k: nat): (m: nat)
    requires k < |a|
    ensures m < |a|
    ensures m == k <==> forall i :: 1 <= i < |a| ==> i / 2 != k
    ensures m != k ==> ChildOf(m, k) && forall i :: 1 <= i < |a| && i / 2 == k ==> a[i].key <= a[m].key
  {
    NoChildIff(|a|, k);
    if k == 0 then (if |a| > 1 then 1 else 0)
    else if 2 * k < |a| then
      (if 2 * k + 1 < |a| && a[2 * k].key < a[2 * k + 1].key then 2 * k + 1 else 2 * k)
    else k
  }

  /** Slot `k` of an `n`-slot heap has no child exactly when its first child slot (slot 1
      for the root, `2k` otherwise) is past the end. */
  lemma NoChildIff(n: nat, k: nat)
    ensures (forall i :: 1 <= i < n ==> i / 2 != k) <==> (if k == 0 then n <= 1 else 2 * k >= n)
  {
    if k == 0 && n > 1 {
      assert 1 / 2 == k;
    } else if k > 0 && 2 * k < n {
      assert (2 * k) / 2 == k;
    }
  }

  /** One swap of slot `k` with its larger, larger-keyed child moves the fault to the child. */
  lemma SwapDown<V>(a: seq<Entry<V>>, k: nat)
    requires HeapExceptDown(a, k)
    requires LargestChild(a, k) != k && a[k].key < a[LargestChild(a, k)].key
    ensures HeapExceptDown(Swap(a, k, LargestChild(a, k)), LargestChild(a, k))
  {
    var m := LargestChild(a, k);
    var b := Swap(a, k, m);
    forall i | 1 <= i < |b| && i / 2 != m
      ensures b[i].key <= b[i / 2].key
    {
      if i == m {
      } else if i == k {
        assert b[k / 2] == a[k / 2];
      } else if i / 2 == k {
      } else {
        assert b[i] == a[i] && b[i / 2] == a[i / 2];
      }
    }
    forall i | 1 <= i < |b| && i / 2 == m
      ensures b[i].key <= b[m / 2].key
    {
      assert b[i] == a[i];
    }
  }

  /** With the fault at `k` and no child above `k`, the whole sequence is a heap. */
  lemma SettledIsHeap<V>(a: seq<Entry<V>>, k: nat)
    requires HeapExceptDown(a, k)
    requires LargestChild(a, k) == k || a[LargestChild(a, k)].key <= a[k].key
    ensures Heap(a)
  {
  }

  /** Sinking slot `k0` by swaps with its larger child until no child is larger. */
  method SiftDown<V>(a0: seq<Entry<V>>, k0: nat) returns (a: seq<Entry<V>>)
    requires HeapExceptDown(a0, k0)
    ensures Heap(a) && |a| == |a0| && multiset(a) == multiset(a0)
  {
    a := a0;
    var k := k0;
    while true
      invariant |a| == |a0| && multiset(a) == multiset(a0)
      invariant HeapExceptDown(a, k)
      decreases |a| - k
    {
      var m := LargestChild(a, k);
      if m == k || a[m].key <= a[k].key {
        SettledIsHeap(a, k);
        return;
      }
      SwapDown(a, k);
      a := Swap(a, k, m);
      k := m;
    }
  }

  /** `Dequeue()` as the source writes it: the root is removed by moving a hole down along
      the larger child (at the root, slots 1 and 2 are compared) until the hole has at most
      one child, moving that child up, and then dropping the last slot. The last element is
      dropped even when the hole stopped elsewhere. Returns the state of the walk. */
  function Descend<V>(a: seq<Entry<V>>, parent: nat, child: nat): (r: (seq<Entry<V>>, nat, nat))
    requires parent < |a| && 1 <= child && parent < child
    ensures |r.0| == |a| && r.1 < |a| && r.1 < r.2 && |a| <= r.2 + 1
    decreases |a| - child
  {
    if child + 1 < |a| then
      var c := if a[child].key < a[child + 1].key then child + 1 else child;
      Descend(a[parent := a[c]], c, 2 * c)
    else
      (a, parent, child)
  }

  function DequeueAsWritten<V>(a: seq<Entry<V>>): (r: Result<(Entry<V>, seq<Entry<V>>), QueueError>)
    ensures r.Err? <==> |a| == 0
    ensures r.Ok? ==> r.value.0 == a[0] && |r.value.1| == |a| - 1
  {
    if |a| == 0 then Err(EmptyQueue)
    else
      var d := Descend(a, 0, 1);
      var b := if d.2 < |a| then d.0[d.1 := d.0[d.2]] else d.0;
      Ok((a[0], b[..|a| - 1]))
  }

  /** Dequeuing the heap 5, 4, 3, 2 as written leaves 4, 3, 3: the hole stops at slot 2,
      whose old key is now duplicated, and the 2 in the last slot is lost. */
  lemma DequeueAsWrittenLosesLast()
    ensures var a := [Entry(5, 'a'), Entry(4, 'b'), Entry(3, 'c'), Entry(2, 'd')];
      && Heap(a)
      && DequeueAsWritten(a) == Ok((Entry(5, 'a'), [Entry(4, 'b'), Entry(3, 'c'), Entry(3, 'c')]))
      && multiset(DequeueAsWritten(a).value.1) + multiset{Entry(5, 'a')} != multiset(a)
  {
    var a := [Entry(5, 'a'), Entry(4, 'b'), Entry(3, 'c'), Entry(2, 'd')];
    var a1 := a[0 := a[1]];
    var a2 := a1[1 := a1[2]];
    assert Descend(a, 0, 1) == Descend(a1, 1, 2);
    assert Descend(a1, 1, 2) == Descend(a2, 2, 4);
    assert Descend(a2, 2, 4) == (a2, 2, 4);
    assert a2 == [Entry(4, 'b'), Entry(3, 'c'), Entry(3, 'c'), Entry(2, 'd')];
    assert a2[..3] == [Entry(4, 'b'), Entry(3, 'c'), Entry(3, 'c')];
    assert DequeueAsWritten(a) == Ok((a[0], a2[..3]));
    assert Entry(2, 'd') !in multiset([Entry(4, 'b'), Entry(3, 'c'), Entry(3, 'c')]) + multiset{Entry(5, 'a')};
  }

  /** `Dequeue()` corrected: the last element fills the root and sinks, so the queue loses
      exactly the root, a greatest element, and stays a heap. */
  method Dequeue<V>(a: seq<Entry<V>>) returns (r: Result<(Entry<V>, seq<Entry<V>>), QueueError>)
    requires Heap(a)
    ensures r.Err? <==> |a| == 0
    ensures r.Ok? ==> r.value.0 == a[0] && forall j :: 0 <= j < |a| ==> a[j].key <= r.value.0.key
    ensures r.Ok? ==> Heap(r.value.1) && multiset(r.value.1) + multiset{r.value.0} == multiset(a)
  {
    if |a| == 0 {
      return Err(EmptyQueue);
    }
    HeapRootIsMaxAll(a);
    var last := a[|a| - 1];
    var rest := a[..|a| - 1];
    assert a == rest + [last];
    if |rest| == 0 {
      return Ok((a[0], []));
    }
    var b := rest[0 := last];
    assert multiset(b) == multiset(rest) - multiset{a[0]} + multiset{last};
    var c := SiftDown(b, 0);
    return Ok((a[0], c));
  }

  /** `ToPriorityQueue()`: the list is adopted as the queue's storage, in place and without
      reordering, so the result is a queue exactly when the list is already heap-ordered;
      the empty and one-element lists are. */
  function ToPriorityQueue<V>(list: seq<Entry<V>>): (r: seq<Entry<V>>)
    ensures r == list
    ensures |list| <= 1 ==> Heap(r)
  {
    list
  }
}
