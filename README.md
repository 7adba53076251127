# Top-N similarity selection: a Dafny model

This project models the selection machinery of `sim_functions_for_ahnlich`, a
small Rust crate that scores candidate vectors against a search vector and
keeps the best ones in a priority queue:

- `src/types.rs`: `NonNanF64`, the pair of a candidate vector and its f64
  score, with its equality and its two orderings (`cmp` and `partial_cmp`).
  Also the two queues `MinHeap` and `MaxHeap`, with `push`, `pop` and `get_n`,
  and the two-way dispatch `AlgorithmHeapType`.
- `src/generator.rs`: `KNearestN::find_similar_n`. It makes one pass over the
  search list, scores each candidate, pushes the scored entry into the heap
  and then drains the heap. The file's test pushes two entries and pops them
  back.

Modelling choices:

- A score is an `int`. Only its total order matters, and scores are assumed
  never to be NaN, so `partial_cmp(..).unwrap()` inside `cmp` always succeeds.
- A candidate vector is an opaque identity: its position in the search list.
  `NonNanF64(vector, score)` is the pair, and Dafny's equality on it compares
  both components. Rust's derived `PartialEq` also compares both components,
  but it compares the referenced arrays by value. The model's equality is
  therefore finer: two positions holding equal vectors with equal scores are
  equal in Rust and distinct here.
- A heap is a class whose `heap` field is the multiset of its entries. `Pop`
  removes an entry that comes first under `cmp`. That is a largest score for
  `MaxHeap`, and a smallest score for `MinHeap`, whose `Reverse` wrapper is
  modelled as this extraction order rather than stored. This is the evidently
  intended order, not the order as written: as written, `partial_cmp` is
  reversed, and the heaps hand out their entries the other way round (see
  "## Findings"). The binary-heap layout is not modelled. The abstract order
  is stated once, by `Outranks`, `IsBest` and `Ordered` in `types.dfy`.
- `AlgorithmHeapType` is a datatype over references to the two heap classes.
  Its methods act on the wrapped heap, seen through `Contents()`.
- The score function (`AlgorithmFunc`) and the heap kind chosen by
  `init_heap` are not defined in the source, so `FindSimilarN` takes both as
  parameters. The missing `output()` drain is `GetMaxN(n)`.

The crate's intended behaviour is a top-K selection: a heap bounded to K
entries, a result of `min(k, |candidates|)` entries, a fixed heap direction
per metric, and errors for malformed input. Where that intended behaviour and
the code disagree, the model follows the code, with one exception: the drain
order, where the model uses the evidently intended `cmp` order and records the
order as written under "## Findings".

- A bounded top-K heap would hold at most K entries and evict the weakest.
  In the code nothing bounds the heaps. `MinHeap::new()` and
  `MaxHeap::new()` take no capacity, and `push` always inserts. The
  capacity `n` passed to `init_heap` (src/generator.rs:28) has no visible
  effect.
- A top-K selection would return `min(k, |candidates|)` entries. As
  written, `get_n` loops `while count <= n` (src/types.rs:52, :89), so it
  returns `min(n + 1, size)` entries. One entry comes back even for `n = 0`.
  `GetN`, `GetMaxN` and `FindSimilarN` state exactly this.
- A top-K selection would bind each metric to a heap direction. The code has
  no such binding, so it is a parameter here.
- The error kinds a top-K selection would report (dimension mismatch, zero
  magnitude, invalid selector, invalid capacity) do not exist in this code.
  Every candidate is scored and pushed.

## Model

| member | source | states |
|---|---|---|
| `Types.Cmp` | src/types.rs:22-26 | Less, Equal or Greater exactly when the first score is below, equal to or above the second; the vectors play no part |
| `Types.CmpIsTotalPreorder` | src/types.rs:22-26 | `cmp` is antisymmetric (swapping the arguments reverses the answer), reflexive and transitive |
| `Types.CmpDependsOnlyOnScores` | src/types.rs:22-26 | two pairs of entries with the same scores compare the same, whatever their vectors |
| `Types.EqualityRefinesCmp` | src/types.rs:6-7 | derived equality (vector and score) implies `cmp` is Equal; `cmp` Equal with the same vector implies equality |
| `Types.CmpEqualForDistinctCandidates` | src/types.rs:6-26 | two different candidates with the same score are unequal yet compare Equal |
| `Types.PartialCmp` | src/types.rs:16-20 | `partial_cmp(a, b)` is always `Some` of the reverse of `cmp(a, b)`, that is `cmp(b, a)` |
| `Types.PartialCmpAgreesOnlyOnTies` | src/types.rs:16-26 | `partial_cmp` and `cmp` give the same answer if and only if the two scores are equal |
| `Types.AsWrittenMaxHeapPopsLeast` | src/types.rs:16-20 | under the `<=` that PartialOrd derives from this `partial_cmp`, the entry a max-heap pops first is exactly an entry of smallest score |
| `Types.AsWrittenMinHeapPopsGreatest` | src/types.rs:16-20 | under `Reverse`'s `<=` built on this `partial_cmp`, the entry a max-heap of `Reverse`d entries pops first is exactly an entry of largest score |
| `Types.AsWrittenHeapsCounterexample` | src/types.rs:16-20 | for scores 1 and 2, as written MaxHeap pops score 1 first and MinHeap pops score 2 first, the opposite of `cmp` |
| `Types.BestExists` | src/types.rs:41-47 | every non-empty heap holds an entry that comes first in its order, so `pop` on a non-empty heap always has an entry to return |
| `Types.MinHeap.constructor` | src/types.rs:33-37 | a new MinHeap is empty |
| `Types.MinHeap.Push` | src/types.rs:38-40 | the heap's multiset grows by exactly the pushed entry; there is no capacity check |
| `Types.MinHeap.Pop` | src/types.rs:41-47 | on an empty heap, None and no change; otherwise an entry of the heap whose score is at most every other score, removed once |
| `Types.MinHeap.GetN` | src/types.rs:48-65 | returns min(n + 1, size) entries; output plus remaining heap is the original multiset; scores non-decreasing under the intended `cmp` order (as written the order is reversed, see Findings); no output score exceeds a remaining score |
| `Types.MaxHeap.constructor` | src/types.rs:73-77 | a new MaxHeap is empty |
| `Types.MaxHeap.Push` | src/types.rs:78-80 | the heap's multiset grows by exactly the pushed entry; there is no capacity check |
| `Types.MaxHeap.Pop` | src/types.rs:81-83 | on an empty heap, None and no change; otherwise an entry of the heap whose score is at least every other score, removed once |
| `Types.MaxHeap.GetN` | src/types.rs:85-102 | returns min(n + 1, size) entries; output plus remaining heap is the original multiset; scores non-increasing under the intended `cmp` order (as written the order is reversed, see Findings); no remaining score exceeds an output score |
| `Types.AlgorithmHeapType.Push` | src/types.rs:111-116 | the wrapped heap's multiset grows by exactly the pushed entry |
| `Types.AlgorithmHeapType.Pop` | src/types.rs:118-123 | on a non-empty wrapped heap, exactly one first-in-order entry is removed and discarded; an empty one is unchanged |
| `Types.AlgorithmHeapType.GetMaxN` | src/types.rs:125-133 | the wrapped heap's `get_n`: min(n + 1, size) entries in the heap's intended `cmp` order, output plus remainder equal to the original, output outranking the remainder |
| `Generator.InitHeap` | src/generator.rs:28 | a fresh, empty heap of the requested kind |
| `Generator.FindSimilarN` | src/generator.rs:21-39 | one entry per candidate is pushed, in iteration order, carrying the candidate's score; the result has min(n + 1, number of candidates) entries, is a sub-multiset of the pushed entries, refers only to candidates of the search list with their own scores, is in the heap's intended `cmp` order, and outranks every pushed entry left out under that order |
| `Generator.PopAll` | src/generator.rs:89-94 | popping until None returns every pushed entry exactly once, smallest score first under the intended `cmp` order, and empties the heap |
| `Generator.PushTwoThenPopAll` | src/generator.rs:61-95 | after two pushes the heap holds two entries, and the drained entries are exactly the two pushed, each popped value being one of them |

## Left out

- Types.MinHeap.GetN: its ordering ensures (`Ordered`, `Outranks`) describe the intended `cmp` order. As written, the reversed `partial_cmp` makes `MaxHeap` drain smallest score first and `MinHeap` largest first (see "## Findings"). Its length and multiset ensures hold either way.
- Types.MaxHeap.GetN: its ordering ensures (`Ordered`, `Outranks`) describe the intended `cmp` order. As written, the reversed `partial_cmp` makes `MaxHeap` drain smallest score first and `MinHeap` largest first (see "## Findings"). Its length and multiset ensures hold either way.
- Types.AlgorithmHeapType.GetMaxN: its ordering ensures (`Ordered`, `Outranks`) describe the intended `cmp` order. As written, the reversed `partial_cmp` makes `MaxHeap` drain smallest score first and `MinHeap` largest first (see "## Findings"). Its length and multiset ensures hold either way.
- Generator.FindSimilarN: its ordering ensures (`Ordered`, `Outranks`) describe the intended `cmp` order. As written, the reversed `partial_cmp` makes `MaxHeap` drain smallest score first and `MinHeap` largest first (see "## Findings"). Its length and multiset ensures hold either way.
- Generator.PopAll: its ordering ensures (`Ordered`, `Outranks`) describe the intended `cmp` order. As written, the reversed `partial_cmp` makes `MaxHeap` drain smallest score first and `MinHeap` largest first (see "## Findings"). Its length and multiset ensures hold either way.
- Generator.PushTwoThenPopAll: its ordering ensures (`Ordered`, `Outranks`) describe the intended `cmp` order. As written, the reversed `partial_cmp` makes `MaxHeap` drain smallest score first and `MinHeap` largest first (see "## Findings"). Its length and multiset ensures hold either way.
- Candidate identity is a position in the search list, so the model's equality on `NonNanF64` is finer than Rust's derived `PartialEq`, which compares the referenced arrays by value. `Types.EqualityRefinesCmp` holds of both; in Rust, `Types.CmpEqualForDistinctCandidates`'s "unequal" holds only when the two vectors differ in content.
- The metric functions of `src/lib.rs` (`cosine_similarity`, `dot_product`, `euclidean_distance`): f64 arithmetic, `sqrt` and ndarray products. The score function is a parameter instead. As written, `euclidean_distance` zips the two vectors and so silently ignores the tail of the longer one (src/lib.rs:68). `cosine_similarity` divides by the product of the magnitudes, which may be zero (src/lib.rs:34).
- `word_to_vector` (src/generator.rs:7-13) reads and parses a JSON file, and `sim_py/vectors.py` trains and writes vectors: both are I/O.
- The `From` impl for `NonNanF64` (src/types.rs:9-13) calls `value.into()` on its own argument, which recurses forever. The model builds the pair directly, as `NonNanF64(i, similarity)`.
- NaN scores: scores are integers, so the panic of `cmp`'s `unwrap` on a NaN is not modelled.
- Integer width: `n` and `count` are unbounded naturals. The overflow of `count += 1` at `usize::MAX` would need more than 2^64 entries and is not modelled.
- The layout and sift operations of std's `BinaryHeap`: `Pop` may return any of several entries that tie on score. Which one the real heap returns first is not modelled, so the model states no tie order and no idempotence of tie order.
- Borrowing, lifetimes and `to_owned`: the output pairs carry the candidate's index, not an owned copy of the vector.
- `init_heap`, `AlgorithmFunc`, `output`, `len` and `MinHeap::new(n)` are referenced but not defined in the source. `InitHeap` takes the heap kind and ignores the capacity. The drain is `GetMaxN`. The test's `heap.len()` reads the size of the multiset.
- `Algorithm` (src/types.rs:136-140) is declared, but its binding to a score function and a heap kind is not in the source, so both are parameters of `FindSimilarN`.

## Findings

| source | as written | input that shows it | evidently intended | confidence | as-written member | corrected member |
|---|---|---|---|---|---|---|
| src/types.rs:16-20 | `partial_cmp` compares `other` against `self`, the reverse of `cmp`. std's `BinaryHeap` sifts with `<=` and `>=`, which come from `PartialOrd`, so `MaxHeap` pops the smallest score first | a MaxHeap holding scores 1 and 2 pops the entry of score 1 first | `partial_cmp(a, b) == Some(cmp(a, b))`, so that `MaxHeap` pops a largest score | medium; not executed; relies on std's `BinaryHeap` comparing through `PartialOrd` | `Types.AsWrittenMaxHeapPopsLeast` | `Types.MaxHeap.Pop` |
| src/types.rs:16-20, src/types.rs:29 | `Reverse`'s `<=` is `b <= a` on the reversed `partial_cmp`, which orders by plain score, so `MinHeap` pops the largest score first | a MinHeap holding scores 1 and 2 pops the entry of score 2 first | `MinHeap` pops a smallest score, as `Reverse` over a consistent order gives | medium; not executed; relies on std's `BinaryHeap` and `Reverse` comparing through `PartialOrd` | `Types.AsWrittenMinHeapPopsGreatest` | `Types.MinHeap.Pop` |
