/** From the results of a model call to the caches as objects: what the class methods store is
    what the pool invariant and the full pass are about. */
module CacheLinks {
  import opened Wrappers
  import opened Transformer
  import opened PoolSystem
  import opened PagedCaches
  import opened PoolCapacity
  import opened PrefixIndex
  import opened ModelCalls
  import BlockPool
  import B = BlockManagers
  import P = PagedKvCaches
  import K = KvCache

  /** The manager's fields are the pool of the system, and its tensors exist once any table is in
      use. */
  ghost predicate Linked(m: B.BlockManager, s: System)
    reads m, m.onEvict, m.Arrays()
  {
    && m.Valid() && m.State() == s.pool && m.numLayers > 0 && Inv(s)
    && (m.Materialised() || forall i :: 0 <= i < |s.owners| ==> s.owners[i].table == [])
  }

  ghost predicate Owns(c: P.PagedKVCache, s: System, i: nat)
    reads c
  {
    i < |s.owners| && s.owners[i] == Owner(c.blockTable, c.length)
  }

  /** The pool invariant is all that the methods of a paged cache ask for. */
  lemma LinkedIsValid(c: P.PagedKVCache, s: System, i: nat)
    requires Linked(c.m, s) && Owns(c, s, i)
    ensures c.Valid() && c.CanCopy() && c.length / c.m.blockSize <= |c.blockTable|
  {
    hide OpenUnsealed, Bijective, IndexTrue;
    forall b | b in c.blockTable ensures P.Held(s.pool, b) {
      TotalHas(s.owners, i);
      assert b in multiset(s.owners[i].table);
      assert BlockPool.Ref(s.pool, b) == Total(s.owners)[b];
    }
  }

  lemma LayersOfPass(depth: nat, ids: seq<int>, pad: nat, b: nat, logits: seq<seq<Logits>>, kv: seq<seq<seq<KV>>>)
    requires RowIsFullPass(depth, ids, pad, b, logits, kv)
    ensures |kv| == depth && forall l :: 0 <= l < depth ==> b < |kv[l]| && |kv[l][b]| == pad + |ids|
    ensures forall l :: 0 <= l < depth ==> kv[l][b][pad..] == FullCache(ids, l)
  {
    hide FullLogits, FullCache;
    forall l | 0 <= l < depth ensures LayerIsFullCache(ids, l, pad, b, kv[l]) {
    }
  }

  // ------------------------------------------------------------------------ paged

  /** The right end of a full-pass row is the correct columns. */
  lemma {:induction false} RowIsTruth(depth: nat, ids: seq<int>, pad: nat, b: nat, logits: seq<seq<Logits>>, kv: seq<seq<seq<KV>>>, n: nat)
    requires RowIsFullPass(depth, ids, pad, b, logits, kv) && n <= |ids|
    ensures P.IsRow(kv, b, pad + n, pad + |ids|, TruthColumns(ids, n, |ids|, depth))
    decreases |ids| - n
  {
    hide RowIsFullPass, FullLogits;
    if n < |ids| {
      RowIsTruth(depth, ids, pad, b, logits, kv, n + 1);
      SlotOfRow(depth, ids, pad, b, logits, kv, n);
      var cols := TruthColumns(ids, n, |ids|, depth);
      assert cols[1..] == TruthColumns(ids, n + 1, |ids|, depth);
    }
  }

  lemma SlotOfRow(depth: nat, ids: seq<int>, pad: nat, b: nat, logits: seq<seq<Logits>>, kv: seq<seq<seq<KV>>>, n: nat)
    requires RowIsFullPass(depth, ids, pad, b, logits, kv) && n < |ids|
    ensures P.IsSlot(kv, b, pad + n, TruthColumn(ids, n, depth))
  {
    hide FullLogits, LayerIsFullCache;
    SlotIsTruth(depth, ids, pad, b, logits, kv, n);
  }

  lemma TruthGrows(cs: seq<seq<KV>>, ids: seq<int>, depth: nat)
    requires ContentsTrue(cs, ids, depth)
    ensures ContentsTrue(cs + TruthColumns(ids, |cs|, |ids|, depth), ids, depth)
  {
    hide TruthColumn, TruthColumns;
  }

  /** A prefill stored in a paged cache that may have adopted a prefix: it raises exactly when
      the pool lacks the blocks, and otherwise the cache is correct for the whole prompt and no
      other cache has changed. */
  method StorePrefill(c: P.PagedKVCache, ids: seq<int>, pad: nat, b: nat, ghost logits: seq<seq<Logits>>, kv: seq<seq<seq<KV>>>,
                      ghost s: System, ghost i: nat) returns (ok: bool, ghost s': System)
    requires Linked(c.m, s) && Owns(c, s, i) && c.length <= |ids|
    requires RowIsFullPass(c.m.numLayers, ids, pad, b, logits, kv)
    modifies c, c.m`refcount, c.m`free, c.m`pools, c.m`store, c.m.onEvict, c.m.Arrays()
    ensures ok <==> Needed(s, i, |ids| - old(c.length)) <= |s.pool.free|
    ensures ok ==> Linked(c.m, s') && Owns(c, s', i) && c.length == |ids| && OthersKept(s, s', i)
    ensures ok && ContentsTrue(Contents(s, i), ids, c.m.numLayers) ==> ContentsTrue(Contents(s', i), ids, c.m.numLayers)
  {
    hide RowIsFullPass, ContentsTrue, Inv, Needed, AppendAll, BlockPool.WriteColumns, Contents, OthersKept;
    LinkedIsValid(c, s, i);
    ghost var cols := TruthColumns(ids, c.length, |ids|, c.m.numLayers);
    RowIsTruth(c.m.numLayers, ids, pad, b, logits, kv, c.length);
    P.AppendAllIsWriteColumns(s, i, cols);
    AppendAllIsListAppend(s, i, cols);
    assert |kv| == c.m.numLayers by {
      LayersOfPass(c.m.numLayers, ids, pad, b, logits, kv);
    }
    AppendNone(s, i);
    ok := c.InitFromPrefill(kv, |ids|, b, pad + |ids|, cols);
    s' := s;
    if ok {
      s' := AppendAll(s, i, cols).value;
      if ContentsTrue(Contents(s, i), ids, c.m.numLayers) {
        TruthGrows(Contents(s, i), ids, c.m.numLayers);
      }
    }
  }

  lemma AppendNone(s: System, i: nat)
    requires s.pool.blockSize > 0 && i < |s.owners|
    ensures AppendAll(s, i, []) == Some(s)
  {
  }

  /** One decoded token stored in a paged cache: it raises exactly when a block is needed and
      none is free. */
  method StoreStep(c: P.PagedKVCache, ids: seq<int>, pad: nat, b: nat, ghost logits: seq<seq<Logits>>, kv: seq<seq<seq<KV>>>,
                   ghost s: System, ghost i: nat) returns (ok: bool, ghost s': System)
    requires Linked(c.m, s) && Owns(c, s, i) && c.length + 1 == |ids|
    requires RowIsFullPass(c.m.numLayers, ids, pad, b, logits, kv)
    modifies c, c.m`refcount, c.m`free, c.m`pools, c.m`store, c.m.onEvict, c.m.Arrays()
    ensures ok <==> !(NeedsBlock(s, i) && s.pool.free == [])
    ensures ok ==> Linked(c.m, s') && Owns(c, s', i) && c.length == |ids| && OthersKept(s, s', i)
    ensures ok && ContentsTrue(Contents(s, i), ids, c.m.numLayers) ==> ContentsTrue(Contents(s', i), ids, c.m.numLayers)
  {
    hide RowIsFullPass, ContentsTrue, Inv, NeedsBlock, BlockPool.WriteLayers, Contents, OthersKept;
    LinkedIsValid(c, s, i);
    ghost var es := TruthColumn(ids, c.length, c.m.numLayers);
    SlotOfRow(c.m.numLayers, ids, pad, b, logits, kv, c.length);
    AppendIsListAppend(s, i, es);
    LayersOfPass(c.m.numLayers, ids, pad, b, logits, kv);
    ok := c.AppendFromOutput(kv, b, pad + |ids|, es);
    s' := s;
    if ok {
      s' := Append(s, i, es).value;
      if ContentsTrue(Contents(s, i), ids, c.m.numLayers) {
        TruthGrows(Contents(s, i), ids, c.m.numLayers);
        assert TruthColumns(ids, |ids| - 1, |ids|, c.m.numLayers) == [es];
      }
    }
  }

  // ------------------------------------------------------------------- contiguous

  /** The cache holds the full cache of `ids`, layer by layer. */
  ghost predicate HoldsFull(c: K.KVCache, ids: seq<int>)
    requires c.Valid()
    reads c, c.layers
  {
    c.length == |ids| && forall l :: 0 <= l < |c.layers| ==> c.layers[l][..c.length] == FullCache(ids, l)
  }

  /** The same for a contiguous cache, which never fails. */
  method FillPrefill(c: K.KVCache, depth: nat, ids: seq<int>, pad: nat, b: nat, ghost logits: seq<seq<Logits>>, kv: seq<seq<seq<KV>>>)
    requires RowIsFullPass(depth, ids, pad, b, logits, kv)
    modifies c
    ensures c.Valid() && |c.layers| == depth && fresh(c.layers) && HoldsFull(c, ids)
  {
    hide RowIsFullPass, FullCache;
    LayersOfPass(depth, ids, pad, b, logits, kv);
    assert ids != [] by {
      PassIsNotEmpty(depth, ids, pad, b, logits, kv);
    }
    var ok := c.InitFromPrefill(kv, |ids|, b);
  }

  method FillStep(c: K.KVCache, depth: nat, ids: seq<int>, pad: nat, b: nat, ghost logits: seq<seq<Logits>>, kv: seq<seq<seq<KV>>>)
    requires RowIsFullPass(depth, ids, pad, b, logits, kv)
    requires c.Valid() && |c.layers| == depth && ids != [] && HoldsFull(c, ids[..|ids| - 1])
    modifies c, c.layers
    ensures c.Valid() && |c.layers| == depth && HoldsFull(c, ids)
  {
    hide RowIsFullPass, FullCache;
    LayersOfPass(depth, ids, pad, b, logits, kv);
    ghost var view := seq(depth, l requires 0 <= l < depth => FullCache(ids[..|ids| - 1], l));
    c.AppendFromOutput(kv, b, view);
    forall l | 0 <= l < depth ensures c.layers[l][..c.length] == FullCache(ids, l) {
      assert kv[l][b][pad..][|ids| - 1] == kv[l][b][|kv[l][b]| - 1];
      CacheSnoc(ids, l);
    }
  }

  lemma PassIsNotEmpty(depth: nat, ids: seq<int>, pad: nat, b: nat, logits: seq<seq<Logits>>, kv: seq<seq<seq<KV>>>)
    requires RowIsFullPass(depth, ids, pad, b, logits, kv)
    ensures ids != []
  {
  }

  /** One more id leaves the entries of the earlier ones alone. */
  lemma CacheSnoc(ids: seq<int>, l: nat)
    requires ids != []
    ensures FullCache(ids, l) == FullCache(ids[..|ids| - 1], l) + [FullCache(ids, l)[|ids| - 1]]
  {
    hide FullCache, Truth;
    var before := ids[..|ids| - 1];
    forall k | 0 <= k < |before| ensures FullCache(ids, l)[k] == FullCache(before, l)[k] {
      FullCacheIsTruth(ids, l, k);
      FullCacheIsTruth(before, l, k);
      assert ids[..k + 1] == before[..k + 1];
    }
  }
}
