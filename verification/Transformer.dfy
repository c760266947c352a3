/** The decoder-only model as the worker sees it.  The numerics are left symbolic: a `Vec`
    or `KV` is the term that says how a value was computed, so two equal terms are equal
    values under every choice of weights, rotary embedding, softmax and rounding.  What the
    model keeps is which entries each position reads.  `States`, `FullCache` and
    `FullLogits` are the reference: one unpadded, uncached, causal pass over everything. */
module Transformer {

  /** A hidden state. */
  datatype Vec =
    | Embedding(token: int)
      // Layer `layer` (norms, projections, rotation, residuals, MLP) applied to `h` at `pos`
      // when softmax weighs exactly the entries `seen`.
    | Attended(layer: nat, h: Vec, pos: nat, seen: seq<KV>)
      // The same when every key is masked: softmax of a constant row over all of them.
    | Blind(layer: nat, h: Vec, pos: nat, all: seq<KV>)

  /** The K and V rows (all heads) that one position leaves in one layer's cache. */
  datatype KV =
    | Pad                                   // a zero-filled slot
    | Entry(layer: nat, h: Vec, pos: nat)   // projected from `h`, the key rotated to `pos`

  /** The logits of a position are a function of its last hidden state. */
  datatype Logits = Logits(h: Vec)

  /** Hidden state of position `i` before layer `l` in one full pass over `ids`: each
      layer attends to the entries of the positions up to and including `i`. */
  function State(ids: seq<int>, l: nat, i: nat): Vec
    requires i < |ids|
    decreases l, 0, 0
  {
    if l == 0 then Embedding(ids[i])
    else Attended(l - 1, State(ids, l - 1, i), i, Cache(ids, l - 1, i + 1))
  }

  /** The first `n` entries that the full pass leaves in layer `l`'s cache. */
  function Cache(ids: seq<int>, l: nat, n: nat): (r: seq<KV>)
    requires n <= |ids|
    ensures |r| == n
    ensures forall i :: 0 <= i < n ==> r[i] == Entry(l, State(ids, l, i), i)
    decreases l, 1, n
  {
    if n == 0 then [] else Cache(ids, l, n - 1) + [Entry(l, State(ids, l, n - 1), n - 1)]
  }

  function FullCache(ids: seq<int>, l: nat): (r: seq<KV>)
    ensures |r| == |ids|
  {
    Cache(ids, l, |ids|)
  }

  /** Logits of the last position of the full pass of a model with `depth` layers. */
  function FullLogits(depth: nat, ids: seq<int>): Logits
    requires ids != []
  {
    Logits(State(ids, depth, |ids| - 1))
  }

  lemma {:induction false} CacheTake(ids: seq<int>, l: nat, k: nat, n: nat)
    requires k <= n <= |ids|
    ensures Cache(ids, l, n)[..k] == Cache(ids, l, k)
  {
  }

  /** Causality: a position's state depends on its own prefix only. */
  lemma {:induction false} StateOfPrefix(ids: seq<int>, n: nat, l: nat, i: nat)
    requires i < n <= |ids|
    ensures State(ids[..n], l, i) == State(ids, l, i)
    decreases l, 0, 0
  {
    if l > 0 {
      StateOfPrefix(ids, n, l - 1, i);
      CacheOfPrefix(ids, n, l - 1, i + 1);
    }
  }

  lemma {:induction false} CacheOfPrefix(ids: seq<int>, n: nat, l: nat, k: nat)
    requires k <= n <= |ids|
    ensures Cache(ids[..n], l, k) == Cache(ids, l, k)
    decreases l, 1, k
  {
    if k > 0 {
      CacheOfPrefix(ids, n, l, k - 1);
      StateOfPrefix(ids, n, l, k - 1);
    }
  }

  /** The entry that the last token of `prefix` leaves in layer `l`: by causality, the
      entry of that position in every sequence starting with `prefix`. */
  function Truth(prefix: seq<int>, l: nat): KV {
    if prefix == [] then Pad else Entry(l, State(prefix, l, |prefix| - 1), |prefix| - 1)
  }

  lemma FullCacheIsTruth(ids: seq<int>, l: nat, i: nat)
    requires i < |ids|
    ensures FullCache(ids, l)[i] == Truth(ids[..i + 1], l)
  {
    StateOfPrefix(ids, i + 1, l, i);
  }
}
