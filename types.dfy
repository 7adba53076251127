// The scored-candidate wrapper, its ordering, and the two priority queues
// (min and max) that the selection engine feeds, as in src/types.rs.
//
// Scores are an abstract totally ordered value (`int`): the f64 scores of the
// source are assumed never to be NaN, so `partial_cmp(..).unwrap()` always
// succeeds and is modelled as a total comparison. A candidate vector is an
// opaque identity: its position in the search list.

module Types {

  datatype Option<T> = None | Some(value: T)

  /** std::cmp::Ordering */
  datatype Ordering = Less | Equal | Greater {
    function Reverse(): Ordering {
      match this
      case Less => Greater
      case Equal => Equal
      case Greater => Less
    }
  }

  /** f64::partial_cmp on two non-NaN scores, already unwrapped. */
  function CompareScores(x: int, y: int): Ordering {
    if x < y then Less else if x == y then Equal else Greater
  }

  /**
   * The pair the source wraps: a reference to a candidate vector (here its
   * position in the search list) and the score computed for it. Equality
   * compares both components, like the derived PartialEq, but positions
   * are finer than Rust's comparison of the referenced arrays by value.
   */
  datatype NonNanF64 = NonNanF64(vector: nat, score: int)

  /** Ord::cmp: compares the scores only, `self` against `other`. */
  function Cmp(a: NonNanF64, b: NonNanF64): (r: Ordering)
    ensures r == Less <==> a.score < b.score
    ensures r == Equal <==> a.score == b.score
    ensures r == Greater <==> a.score > b.score
  {
    CompareScores(a.score, b.score)
  }

  /**
   * PartialOrd::partial_cmp as written: it compares `other` against `self`,
   * so it always answers the reverse of `cmp`.
   */
  function PartialCmp(a: NonNanF64, b: NonNanF64): (r: Option<Ordering>)
    ensures r == Some(Cmp(a, b).Reverse())
    ensures r == Some(Cmp(b, a))
  {
    Some(CompareScores(b.score, a.score))
  }

  /** `cmp` is a total preorder on entries: reversal, reflexivity, transitivity. */
  lemma CmpIsTotalPreorder(a: NonNanF64, b: NonNanF64, c: NonNanF64)
    ensures Cmp(a, b) == Cmp(b, a).Reverse()
    ensures Cmp(a, a) == Equal
    ensures Cmp(a, b) != Greater && Cmp(b, c) != Greater ==> Cmp(a, c) != Greater
    ensures Cmp(a, b) == Equal && Cmp(b, c) == Equal ==> Cmp(a, c) == Equal
  {
  }

  /** `cmp` looks at the two scores and nothing else. */
  lemma CmpDependsOnlyOnScores(a: NonNanF64, b: NonNanF64, c: NonNanF64, d: NonNanF64)
    requires a.score == c.score && b.score == d.score
    ensures Cmp(a, b) == Cmp(c, d)
  {
  }

  /**
   * The derived equality implies `cmp` answers Equal, but not conversely:
   * two different candidates with the same score compare Equal.
   */
  lemma EqualityRefinesCmp(a: NonNanF64, b: NonNanF64)
    ensures a == b ==> Cmp(a, b) == Equal
    ensures Cmp(a, b) == Equal && a.vector == b.vector ==> a == b
  {
  }

  lemma CmpEqualForDistinctCandidates()
    ensures var a, b := NonNanF64(0, 7), NonNanF64(1, 7); a != b && Cmp(a, b) == Equal
  {
  }

  /** `partial_cmp` and `cmp` agree exactly when the two scores tie. */
  lemma PartialCmpAgreesOnlyOnTies(a: NonNanF64, b: NonNanF64)
    ensures PartialCmp(a, b) == Some(Cmp(a, b)) <==> a.score == b.score
  {
  }

  // ---------------------------------------------------------------------
  // The order in which a heap hands out its entries, stated with `cmp`.

  /** Ascending: smallest score first (MinHeap). Descending: largest first (MaxHeap). */
  datatype Order = Ascending | Descending

  /** `a` may be handed out before `b` under `order`. */
  predicate Outranks(order: Order, a: NonNanF64, b: NonNanF64) {
    match order
    case Ascending => Cmp(a, b) != Greater
    case Descending => Cmp(a, b) != Less
  }

  /** `x` is a first entry of `m` under `order`. */
  predicate IsBest(order: Order, x: NonNanF64, m: multiset<NonNanF64>) {
    forall y | y in m :: Outranks(order, x, y)
  }

  /** The entries of `s` come out in `order`. */
  predicate Ordered(order: Order, s: seq<NonNanF64>) {
    forall i, j | 0 <= i < j < |s| :: Outranks(order, s[i], s[j])
  }

  function Smaller(a: int, b: int): int {
    if a <= b then a else b
  }

  /** Every non-empty heap has an entry that may be popped first. */
  lemma {:induction false} BestExists(order: Order, m: multiset<NonNanF64>)
    requires m != multiset{}
    ensures exists x :: x in m && IsBest(order, x, m)
    decreases |m|
  {
    var y :| y in m;
    var rest := m - multiset{y};
    assert m == rest + multiset{y};
    if rest == multiset{} {
      assert IsBest(order, y, m);
    } else {
      BestExists(order, rest);
      var z :| z in rest && IsBest(order, z, rest);
      if Outranks(order, y, z) {
        assert IsBest(order, y, m);
      } else {
        assert IsBest(order, z, m);
      }
    }
  }

  // ---------------------------------------------------------------------
  // The heaps as written. std's BinaryHeap sifts with the operators `<=`
  // and `>=`, which come from PartialOrd (through `partial_cmp`), not from
  // Ord. With `partial_cmp` reversed, a BinaryHeap of these entries pops
  // the smallest score first, and one of `Reverse`d entries the largest.

  /** Rust's default `a <= b` on PartialOrd: `partial_cmp(a, b)` is Less or Equal. */
  predicate PartialLe(a: NonNanF64, b: NonNanF64) {
    PartialCmp(a, b) == Some(Less) || PartialCmp(a, b) == Some(Equal)
  }

  /** std's `Reverse(a) <= Reverse(b)`, which is `b <= a`. */
  predicate ReverseLe(a: NonNanF64, b: NonNanF64) {
    PartialLe(b, a)
  }

  /** `x` may come out first of a max-heap that compares with `<=`. */
  predicate PoppedAsWritten(x: NonNanF64, m: multiset<NonNanF64>) {
    forall y | y in m :: PartialLe(y, x)
  }

  /** `x` may come out first of a max-heap of `Reverse`d entries. */
  predicate ReversePoppedAsWritten(x: NonNanF64, m: multiset<NonNanF64>) {
    forall y | y in m :: ReverseLe(y, x)
  }

  /** As written, MaxHeap pops an entry of smallest score. */
  lemma AsWrittenMaxHeapPopsLeast(x: NonNanF64, m: multiset<NonNanF64>)
    requires x in m
    ensures PoppedAsWritten(x, m) <==> IsBest(Ascending, x, m)
  {
  }

  /** As written, MinHeap pops an entry of largest score. */
  lemma AsWrittenMinHeapPopsGreatest(x: NonNanF64, m: multiset<NonNanF64>)
    requires x in m
    ensures ReversePoppedAsWritten(x, m) <==> IsBest(Descending, x, m)
  {
  }

  /** Two entries with scores 1 and 2: as written MaxHeap pops score 1 first, MinHeap score 2. */
  lemma AsWrittenHeapsCounterexample()
    ensures var lo, hi := NonNanF64(0, 1), NonNanF64(1, 2);
            var m := multiset{lo, hi};
            && PoppedAsWritten(lo, m) && !PoppedAsWritten(hi, m)
            && IsBest(Descending, hi, m) && !IsBest(Descending, lo, m)
            && ReversePoppedAsWritten(hi, m) && !ReversePoppedAsWritten(lo, m)
            && IsBest(Ascending, lo, m) && !IsBest(Ascending, hi, m)
  {
  }

  // ---------------------------------------------------------------------
  // The two heaps. The binary-heap layout of std's BinaryHeap is not
  // modelled: each heap is the multiset of its entries, and `pop` extracts
  // an entry that comes first under `cmp` (largest score for MaxHeap,
  // smallest score for MinHeap through `Reverse`). This is the intended
  // order; the order as written is the reverse (see the lemmas above).
  // Neither heap has a capacity: `push` always inserts.

  class MinHeap {
    /** The entries in the queue; the source stores each wrapped in `Reverse`. */
    var heap: multiset<NonNanF64>

    constructor ()
      ensures heap == multiset{}
    {
      heap := multiset{};
    }

    method Push(item: NonNanF64)
      modifies this
      ensures heap == old(heap) + multiset{item}
    {
      heap := heap + multiset{item};
    }

    /** Removes and returns an entry of smallest score; None when empty. */
    method Pop() returns (r: Option<NonNanF64>)
      modifies this
      ensures old(heap) == multiset{} ==> r == None && heap == old(heap)
      ensures old(heap) != multiset{} ==>
                r.Some? && r.value in old(heap) && IsBest(Ascending, r.value, old(heap))
                && heap == old(heap) - multiset{r.value}
    {
      if heap == multiset{} {
        r := None;
      } else {
        BestExists(Ascending, heap);
        var x :| x in heap && IsBest(Ascending, x, heap);
        heap := heap - multiset{x};
        r := Some(x);
      }
    }

    /**
     * Pops while `count <= n`, stopping early when the heap runs dry, so it
     * hands out up to n + 1 entries, smallest score first.
     */
    method GetN(n: nat) returns (output: seq<NonNanF64>)
      modifies this
      ensures |output| == Smaller(n + 1, |old(heap)|)
      ensures multiset(output) + heap == old(heap)
      ensures Ordered(Ascending, output)
      ensures forall x, y | x in output && y in heap :: Outranks(Ascending, x, y)
    {
      output := [];
      var count: nat := 0;
      while count <= n
        invariant count == |output| <= n + 1
        invariant multiset(output) + heap == old(heap)
        invariant Ordered(Ascending, output)
        invariant forall x, y | x in output && y in heap :: Outranks(Ascending, x, y)
        decreases n + 1 - count
      {
        var value := Pop();
        match value {
          case Some(v) =>
            output := output + [v];
          case None =>
            break;
        }
        count := count + 1;
      }
      assert |multiset(output)| + |heap| == |old(heap)|;
    }
  }

  class MaxHeap {
    /** The entries in the queue. */
    var heap: multiset<NonNanF64>

    constructor ()
      ensures heap == multiset{}
    {
      heap := multiset{};
    }

    method Push(item: NonNanF64)
      modifies this
      ensures heap == old(heap) + multiset{item}
    {
      heap := heap + multiset{item};
    }

    /** Removes and returns an entry of largest score; None when empty. */
    method Pop() returns (r: Option<NonNanF64>)
      modifies this
      ensures old(heap) == multiset{} ==> r == None && heap == old(heap)
      ensures old(heap) != multiset{} ==>
                r.Some? && r.value in old(heap) && IsBest(Descending, r.value, old(heap))
                && heap == old(heap) - multiset{r.value}
    {
      if heap == multiset{} {
        r := None;
      } else {
        BestExists(Descending, heap);
        var x :| x in heap && IsBest(Descending, x, heap);
        heap := heap - multiset{x};
        r := Some(x);
      }
    }

    /**
     * Pops while `count <= n`, stopping early when the heap runs dry, so it
     * hands out up to n + 1 entries, largest score first.
     */
    method GetN(n: nat) returns (output: seq<NonNanF64>)
      modifies this
      ensures |output| == Smaller(n + 1, |old(heap)|)
      ensures multiset(output) + heap == old(heap)
      ensures Ordered(Descending, output)
      ensures forall x, y | x in output && y in heap :: Outranks(Descending, x, y)
    {
      output := [];
      var count: nat := 0;
      while count <= n
        invariant count == |output| <= n + 1
        invariant multiset(output) + heap == old(heap)
        invariant Ordered(Descending, output)
        invariant forall x, y | x in output && y in heap :: Outranks(Descending, x, y)
        decreases n + 1 - count
      {
        var value := Pop();
        match value {
          case Some(v) =>
            output := output + [v];
          case None =>
            break;
        }
        count := count + 1;
      }
      assert |multiset(output)| + |heap| == |old(heap)|;
    }
  }

  /** The heap a selection runs on: a plain two-way dispatch. */
  datatype AlgorithmHeapType = Min(minHeap: MinHeap) | Max(maxHeap: MaxHeap) {

    function Heap(): object {
      if Min? then minHeap else maxHeap
    }

    /** The order in which the wrapped heap hands out its entries. */
    function Kind(): Order {
      if Min? then Ascending else Descending
    }

    ghost function Contents(): multiset<NonNanF64>
      reads Heap()
    {
      if Min? then minHeap.heap else maxHeap.heap
    }

    method Push(item: NonNanF64)
      modifies Heap()
      ensures Contents() == old(Contents()) + multiset{item}
    {
      match this
      case Max(h) => h.Push(item);
      case Min(h) => h.Push(item);
    }

    /** Pops from the wrapped heap and discards the entry. */
    method Pop()
      modifies Heap()
      ensures old(Contents()) == multiset{} ==> Contents() == old(Contents())
      ensures old(Contents()) != multiset{} ==>
                exists x :: x in old(Contents()) && IsBest(Kind(), x, old(Contents()))
                            && Contents() == old(Contents()) - multiset{x}
    {
      match this
      case Min(h) => { var _ := h.Pop(); }
      case Max(h) => { var _ := h.Pop(); }
    }

    method GetMaxN(n: nat) returns (output: seq<NonNanF64>)
      modifies Heap()
      ensures |output| == Smaller(n + 1, |old(Contents())|)
      ensures multiset(output) + Contents() == old(Contents())
      ensures Ordered(Kind(), output)
      ensures forall x, y | x in output && y in Contents() :: Outranks(Kind(), x, y)
    {
      match this
      case Min(h) => output := h.GetN(n);
      case Max(h) => output := h.GetN(n);
    }
  }

  /** The metric a selection uses; its score function and heap are supplied by the caller. */
  datatype Algorithm = DotProduct | Euclidean | Cosine
}
