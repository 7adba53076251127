// The selection pass of src/generator.rs: score every candidate of the
// search list against the search vector, push each scored entry into the
// heap, then drain the heap.
//
// The metric (`AlgorithmFunc`) and the heap chosen for it (`init_heap`) are
// not defined in the source, so both are parameters here: `algorithmFunction`
// is any score function and `order` says which of the two heaps is used.

module Generator {
  import opened Types

  /** The entries a pass over `searchList` pushes, in iteration order. */
  function Scored<V>(searchVector: V, searchList: seq<V>, algorithmFunction: (V, V) -> int): seq<NonNanF64> {
    seq(|searchList|, i requires 0 <= i < |searchList| => NonNanF64(i, algorithmFunction(searchVector, searchList[i])))
  }

  /** Stands for `algorithm.init_heap(n)`: an empty heap of the requested kind (the capacity is not used). */
  method InitHeap(order: Order) returns (h: AlgorithmHeapType)
    ensures fresh(h.Heap())
    ensures h.Kind() == order && h.Contents() == multiset{}
  {
    if order == Ascending {
      var minHeap := new MinHeap();
      h := Min(minHeap);
    } else {
      var maxHeap := new MaxHeap();
      h := Max(maxHeap);
    }
  }

  /**
   * KNearestN::find_similar_n, with the final drain done by `get_max_n(n)`.
   * `pushed` is the sequence of entries pushed, in order.
   */
  method FindSimilarN<V>(searchVector: V, searchList: seq<V>, algorithmFunction: (V, V) -> int, order: Order, n: nat)
    returns (result: seq<NonNanF64>, ghost pushed: seq<NonNanF64>)
    ensures pushed == Scored(searchVector, searchList, algorithmFunction)
    ensures |result| == Smaller(n + 1, |searchList|)
    ensures searchList == [] ==> result == []
    ensures multiset(result) <= multiset(pushed)
    ensures forall e | e in result ::
              e.vector < |searchList| && e.score == algorithmFunction(searchVector, searchList[e.vector])
    ensures Ordered(order, result)
    ensures forall x, y | x in result && y in multiset(pushed) - multiset(result) :: Outranks(order, x, y)
  {
    var heapType := InitHeap(order);
    pushed := [];
    for i := 0 to |searchList|
      invariant pushed == Scored(searchVector, searchList, algorithmFunction)[..i]
      invariant heapType.Contents() == multiset(pushed)
    {
      var similarity := algorithmFunction(searchVector, searchList[i]);
      var heapValue := NonNanF64(i, similarity);
      heapType.Push(heapValue);
      pushed := pushed + [heapValue];
    }
    assert pushed == Scored(searchVector, searchList, algorithmFunction);
    result := heapType.GetMaxN(n);
    forall e | e in result
      ensures e.vector < |searchList| && e.score == algorithmFunction(searchVector, searchList[e.vector])
    {
      assert e in multiset(pushed);
      var i :| 0 <= i < |pushed| && pushed[i] == e;
    }
  }

  /** The test's `while let Some(value) = heap.pop()`: pops until the heap is empty. */
  method PopAll(heap: MinHeap) returns (popped: seq<NonNanF64>)
    modifies heap
    ensures multiset(popped) == old(heap.heap) && heap.heap == multiset{}
    ensures Ordered(Ascending, popped)
  {
    popped := [];
    while true
      invariant multiset(popped) + heap.heap == old(heap.heap)
      invariant Ordered(Ascending, popped)
      invariant forall x, y | x in popped && y in heap.heap :: Outranks(Ascending, x, y)
      decreases |heap.heap|
    {
      var value := heap.Pop();
      match value {
        case Some(v) =>
          popped := popped + [v];
        case None =>
          break;
      }
    }
  }

  /**
   * The test of find_similar_n's heap: push two entries into a MinHeap,
   * check its size, then pop until empty; every popped entry is one of the
   * two pushed.
   */
  method PushTwoThenPopAll(first: NonNanF64, second: NonNanF64) returns (size: nat, popped: seq<NonNanF64>)
    ensures size == 2
    ensures multiset(popped) == multiset{first, second}
    ensures forall v | v in popped :: v == first || v == second
    ensures Ordered(Ascending, popped)
  {
    var heap := new MinHeap();
    heap.Push(first);
    heap.Push(second);
    size := |heap.heap|;
    popped := PopAll(heap);
    forall v | v in popped
      ensures v == first || v == second
    {
      assert v in multiset(popped);
    }
  }
}
