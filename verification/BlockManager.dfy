/** The block manager, its prefix cache and the paged caches as objects that update their
    fields in place.  Each method is the corresponding function of module BlockPool on the
    state before the call. */
module BlockManagers {
  import opened Wrappers
  import opened Transformer
  import opened BlockPool
  import PoolSystem
  import opened PoolSharing
  import opened PrefixIndex

  /** The prefix index (`_map` kept in LRU order, and its inverse `_rev`). */
  class BlockPrefixCache {
    var byKey: map<Key, nat>
    var lru: seq<Key>
    var keyOf: map<nat, Key>
    const m: BlockManager
    const maxBlocks: nat

    /** Registers itself with the manager, which has no other listener. */
    constructor (m: BlockManager, maxBlocks: nat)
      requires m.Valid() && m.onEvict == null
      modifies m`onEvict
      ensures byKey == map[] && lru == [] && keyOf == map[]
      ensures this.m == m && this.maxBlocks == maxBlocks && m.Valid() && m.onEvict == this
    {
      byKey, lru, keyOf := map[], [], map[];
      this.m, this.maxBlocks := m, maxBlocks;
      new;
      forall k | 0 <= k < |m.pools| ensures m.LayerMatches(k) {
        assert old(m.LayerMatches(k));
      }
      m.SetOnEvict(this);
    }

    /** The manager notifies this index, and every indexed block exists. */
    ghost predicate Attached()
      reads this, m, m.Arrays()
    {
      && m.Valid() && m.onEvict == this
      && (forall k :: k in byKey ==> byKey[k] < m.numBlocks)
    }

    /** Takes a reference to the block of an indexed key, which becomes the newest. */
    method Take(k: Key) returns (b: nat)
      requires Attached() && k in byKey
      modifies this`lru, m`refcount, m`free
      ensures Attached() && b == byKey[k] && m.State() == Incref(Touch(old(m.State()), k), b)
    {
      lru := Remove(lru, k) + [k];
      b := byKey[k];
      forall k | 0 <= k < |m.pools| ensures m.LayerMatches(k) {
        assert old(m.LayerMatches(k));
      }
      m.IncrefLocked(b);
    }

    /** Takes the block of key `child`, the next one of the chain behind `parent`. */
    method TakeNext(parent: Key, child: Key, tokens: seq<int>, start: nat, ids: seq<nat>, ghost rest: seq<int>)
      returns (end: nat, ids': seq<nat>, ghost rest': seq<int>)
      requires Attached() && start + m.blockSize < |tokens| && rest == tokens[start..]
      requires child == BlockHash(parent, rest[..m.blockSize]) && child in byKey
      modifies this`lru, m`refcount, m`free
      ensures Attached() && byKey == old(byKey) && |ids'| == |ids| + 1
      ensures end == start + m.blockSize && rest' == tokens[end..]
      ensures Behind(ids, MatchFrom(old(m.State()), parent, rest)) == Behind(ids', MatchFrom(m.State(), child, rest'))
    {
      var bid := Take(child);
      end, ids', rest' := start + m.blockSize, ids + [bid], rest[m.blockSize..];
      BehindOne(ids, bid, MatchFrom(m.State(), child, rest'));
    }

    /** `match`: the longest chain of indexed blocks, leaving a token to prefill. */
    method Match(tokens: seq<int>) returns (matched: nat, ids: seq<nat>)
      requires Attached()
      modifies this`lru, m`refcount, m`free
      ensures Attached() && MatchFrom(old(m.State()), Root, tokens) == (m.State(), ids)
      ensures matched == |ids| * m.blockSize
    {
      var bs, n := m.blockSize, |tokens|;
      var maxFull := (n - 1) / bs * bs;
      var parent, b, start := Root, 0, 0;
      ids := [];
      ghost var rest, result := tokens, MatchFrom(m.State(), Root, tokens);
      BehindNone(ids, m.State(), result);
      while start + bs <= maxFull
        invariant Attached() && start == b * bs <= n && |ids| == b && rest == tokens[start..]
        invariant result == Behind(ids, MatchFrom(m.State(), parent, rest))
        decreases n - start
      {
        RoomForBlock(n, start, b, bs);
        var toks := tokens[start..start + bs];
        assert toks == rest[..bs];
        var child := BlockHash(parent, toks);
        if child !in byKey {
          BehindNone(ids, m.State(), (m.State(), []));
          return b * bs, ids;
        }
        start, ids, rest := TakeNext(parent, child, tokens, start, ids, rest);
        PoolSystem.SuccTimes(b, bs);
        parent, b := child, b + 1;
      }
      NoRoomForBlock(n, start, b, bs);
      BehindNone(ids, m.State(), (m.State(), []));
      matched := b * bs;
    }

    /** Adds the pair unless the key or the block is taken. */
    method RegisterBlock(k: Key, b: nat)
      requires m.onEvict == this
      modifies this
      ensures m.State() == Register(old(m.State()), k, b)
    {
      if k in byKey {
        lru := Remove(lru, k) + [k];
      } else if b !in keyOf {
        byKey, keyOf, lru := byKey[k := b], keyOf[b := k], lru + [k];
      }
    }

    method PopOldest()
      requires m.onEvict == this && lru != []
      modifies this
      ensures m.State() == DropOldest(old(m.State()))
    {
      var k := lru[0];
      lru := lru[1..];
      if k in byKey {
        var b := byKey[k];
        if b in keyOf && keyOf[b] == k {
          keyOf := keyOf - {b};
        }
      }
      byKey := byKey - {k};
    }

    /** Pops the oldest keys until the bound holds. */
    method Shrink()
      requires m.onEvict == this
      modifies this
      ensures m.State() == EvictTo(old(m.State()), maxBlocks)
    {
      while |lru| > maxBlocks
        invariant EvictTo(old(m.State()), maxBlocks) == EvictTo(m.State(), maxBlocks)
        decreases |lru|
      {
        PopOldest();
      }
    }

    /** Registers block `id` under the key behind `parent`; `rest`, `slots` and `n` are what
        remains before the call. */
    method InsertBlock(parent: Key, tokens: seq<int>, start: nat, id: nat, ghost rest: seq<int>, ghost slots: seq<nat>, ghost n: nat)
      returns (child: Key, end: nat, ghost rest': seq<int>, ghost slots': seq<nat>, ghost n': nat)
      requires m.blockSize > 0 && m.onEvict == this && start + m.blockSize <= |tokens|
      requires rest == tokens[start..] && slots != [] && slots[0] == id && n > 0
      modifies this
      ensures end == start + m.blockSize && rest' == tokens[end..] && slots' == slots[1..] && n' == n - 1
      ensures InsertFrom(old(m.State()), parent, rest, slots, n) == InsertFrom(m.State(), child, rest', slots', n')
    {
      end := start + m.blockSize;
      var toks := tokens[start..end];
      assert toks == rest[..m.blockSize];
      child, rest', slots', n' := BlockHash(parent, toks), rest[m.blockSize..], slots[1..], n - 1;
      RegisterBlock(child, id);
    }

    /** Registers the first `total` blocks of the table under the chain of `tokens`. */
    method InsertBlocks(tokens: seq<int>, table: seq<nat>, total: nat)
      requires m.blockSize > 0 && m.onEvict == this
      requires total <= |table| && total * m.blockSize <= |tokens|
      modifies this
      ensures m.State() == InsertFrom(old(m.State()), Root, tokens, table, total)
    {
      var parent, start := Root, 0;
      ghost var rest, slots, n, result := tokens, table, total, InsertFrom(m.State(), Root, tokens, table, total);
      for b := 0 to total
        invariant start == b * m.blockSize <= |tokens| && rest == tokens[start..]
        invariant n == total - b && slots == table[b..]
        invariant result == InsertFrom(m.State(), parent, rest, slots, n)
      {
        BlockFits(b, total, m.blockSize, |tokens|);
        parent, start, rest, slots, n := InsertBlock(parent, tokens, start, table[b], rest, slots, n);
      }
    }

    /** `insert`: registers the complete blocks of a finished cache, then shrinks. */
    method Insert(tokens: seq<int>, table: seq<nat>, length: nat)
      requires m.blockSize > 0 && m.onEvict == this
      modifies this
      ensures if table == [] then m.State() == old(m.State()) else
        m.State() == EvictTo(InsertFrom(old(m.State()), Root, tokens, table,
          Min(Min(length, |tokens|), |table| * m.blockSize) / m.blockSize), maxBlocks)
    {
      if table == [] {
        return;
      }
      var n := Min(Min(length, |tokens|), |table| * m.blockSize);
      WholeBlocks(n, |table|, m.blockSize);
      InsertBlocks(tokens, table, n / m.blockSize);
      Shrink();
    }

    /** `_drop_bid`. */
    method DropBid(b: nat)
      modifies this
      ensures b in old(keyOf) ==>
        keyOf == old(keyOf) - {b} && byKey == old(byKey) - {old(keyOf)[b]} && lru == Remove(old(lru), old(keyOf)[b])
      ensures b !in old(keyOf) ==> keyOf == old(keyOf) && byKey == old(byKey) && lru == old(lru)
    {
      if b in keyOf {
        var child := keyOf[b];
        keyOf := keyOf - {b};
        byKey := byKey - {child};
        lru := Remove(lru, child);
      }
    }
  }

  class BlockManager {
    const numBlocks: nat
    const numLayers: nat
    const blockSize: nat
    var pools: seq<array2?<KV>>
    var refcount: seq<int>
    var free: seq<nat>
    var onEvict: BlockPrefixCache?
    ghost var store: Store

    /** The manager and its listener as one value. */
    ghost function State(): Pool
      reads this, onEvict
    {
      if onEvict == null then Pool(blockSize, numLayers, refcount, free, store, map[], [], map[])
      else Pool(blockSize, numLayers, refcount, free, store, onEvict.byKey, onEvict.lru, onEvict.keyOf)
    }

    ghost function Arrays(): set<object>
      reads this`pools
    {
      set l | 0 <= l < |pools| && pools[l] != null :: pools[l]
    }

    /** Layer `l`'s tensor holds the model's cells; before the first write it does not exist. */
    ghost predicate LayerMatches(l: nat)
      requires l < |pools|
      reads this`pools, this`store, Arrays()
    {
      if pools[l] == null then
        forall b: nat, o: nat :: Get(store, l, b, o) == Pad
      else
        && pools[l].Length0 == numBlocks && pools[l].Length1 == blockSize
        && forall b: nat, o: nat :: b < numBlocks && o < blockSize ==> Get(store, l, b, o) == pools[l][b, o]
    }

    ghost predicate Valid()
      reads this, Arrays()
    {
      && blockSize > 0 && |pools| == numLayers && |refcount| == numBlocks
      && (forall b :: b in free ==> b < numBlocks)
      && (forall l, k :: 0 <= l < k < |pools| && pools[l] != null ==> pools[l] != pools[k])
      && (forall l :: 0 <= l < |pools| ==> LayerMatches(l))
    }

    constructor (numBlocks: nat, numLayers: nat, blockSize: nat)
      requires blockSize > 0
      ensures Valid() && onEvict == null && Arrays() == {}
      ensures |free| == |refcount| == numBlocks && (forall i :: 0 <= i < numBlocks ==> free[i] == i && refcount[i] == 0)
      ensures store == map[] && this.numBlocks == numBlocks && this.numLayers == numLayers && this.blockSize == blockSize
    {
      this.numBlocks, this.numLayers, this.blockSize := numBlocks, numLayers, blockSize;
      pools := seq(numLayers, _ => null);
      refcount := seq(numBlocks, _ => 0);
      free := seq(numBlocks, i requires 0 <= i < numBlocks => i);
      onEvict := null;
      store := map[];
    }

    method SetOnEvict(listener: BlockPrefixCache)
      requires Valid()
      modifies this`onEvict
      ensures Valid() && onEvict == listener
    {
      onEvict := listener;
      forall k | 0 <= k < |pools| ensures LayerMatches(k) {
        assert old(LayerMatches(k));
      }
    }

    /** `_alloc_locked`; false stands for OutOfBlocks. */
    method AllocLocked() returns (ok: bool, b: nat)
      requires Valid()
      modifies this`refcount, this`free, onEvict
      ensures Valid()
      ensures if ok then Alloc(old(State())) == Some((State(), b)) && b < numBlocks
              else Alloc(old(State())) == None && State() == old(State())
    {
      if free == [] {
        return false, 0;
      }
      ok, b := true, free[0];
      assert b in free && forall f :: f in free[1..] ==> f in free;
      free := free[1..];
      refcount := refcount[b := 1];
      if onEvict != null {
        onEvict.DropBid(b);
      }
      forall k | 0 <= k < |pools| ensures LayerMatches(k) {
        assert old(LayerMatches(k));
      }
    }

    method IncrefLocked(b: nat)
      requires Valid() && b < numBlocks
      modifies this`refcount, this`free
      ensures Valid() && State() == Incref(old(State()), b)
    {
      if b in free {
        free := Remove(free, b);
      }
      refcount := refcount[b := refcount[b] + 1];
      forall k | 0 <= k < |pools| ensures LayerMatches(k) {
        assert old(LayerMatches(k));
      }
    }

    method DecrefLocked(b: nat)
      requires Valid() && b < numBlocks
      modifies this`refcount, this`free
      ensures Valid() && State() == Decref(old(State()), b)
    {
      refcount := refcount[b := refcount[b] - 1];
      if refcount[b] <= 0 {
        refcount := refcount[b := 0];
        free := Remove(free, b) + [b];
      }
      forall k | 0 <= k < |pools| ensures LayerMatches(k) {
        assert old(LayerMatches(k));
      }
    }

    /** The layer's tensor, created full of zeros on first use. */
    method PoolLocked(l: nat) returns (pool: array2<KV>)
      requires Valid() && l < numLayers
      modifies this`pools
      ensures Valid() && pool == pools[l]
      ensures fresh(Arrays() - old(Arrays()))
      ensures forall k :: 0 <= k < |pools| && k != l ==> pools[k] == old(pools[k])
      ensures old(pools[l]) != null ==> pools == old(pools)
    {
      if pools[l] == null {
        pool := new KV[numBlocks, blockSize]((_, _) => Pad);
        pools := pools[l := pool];
        forall k | 0 <= k < |pools| ensures LayerMatches(k) {
          if k == l {
            assert old(LayerMatches(l));
          } else {
            assert pools[k] == old(pools[k]) && old(LayerMatches(k));
          }
        }
      } else {
        pool := pools[l];
      }
    }

    /** `write` of one position, the form every caller uses. */
    method Write(b: nat, l: nat, o: nat, e: KV)
      requires Valid() && l < numLayers && b < numBlocks && o < blockSize
      modifies this`pools, this`store, Arrays()
      ensures Valid() && fresh(Arrays() - old(Arrays()))
      ensures State() == old(State()).(store := Put(old(store), l, b, o, e))
      ensures pools[l] != null && forall k :: 0 <= k < |pools| && k != l ==> pools[k] == old(pools[k])
    {
      var pool := PoolLocked(l);
      assert LayerMatches(l);
      label before:
      pool[b, o] := e;
      store := Put(store, l, b, o, e);
      forall k | 0 <= k < |pools| ensures LayerMatches(k) {
        assert old@before(LayerMatches(k));
      }
    }

    /** Every layer has been written to at least once. */
    ghost predicate Materialised()
      reads this`pools
    {
      forall l :: 0 <= l < |pools| ==> pools[l] != null
    }

    /** Layer `l` of block `from` copied to block `to`. */
    method CopyLayer(l: nat, from: nat, to: nat)
      requires Valid() && l < numLayers && pools[l] != null && from < numBlocks && to < numBlocks && from != to
      modifies this`store, Arrays()
      ensures Valid() && Materialised() == old(Materialised())
      ensures State() == old(State()).(store := CopyCells(old(store), l, from, to, blockSize))
    {
      var pool := pools[l];
      assert LayerMatches(l);
      label before:
      forall o | 0 <= o < blockSize {
        pool[to, o] := pool[from, o];
      }
      store := CopyCells(store, l, from, to, blockSize);
      forall k | 0 <= k < |pools| ensures LayerMatches(k) {
        assert old@before(LayerMatches(k));
      }
    }

    /** `copy_on_write`: a private copy of the shared block `b`.  It fails without a free block,
        and at the first layer never written to; then the block taken stays half copied. */
    method CopyOnWrite(b: nat) returns (ok: bool, b': nat)
      requires Valid() && b < numBlocks && b !in free
      modifies this`refcount, this`free, this`store, onEvict, Arrays()
      ensures Valid() && (ok <==> old(free) != [] && Materialised())
      ensures ok ==> BlockPool.CopyOnWrite(old(State()), b) == Some((State(), b')) && b' < numBlocks
      ensures old(free) == [] ==> BlockPool.CopyOnWrite(old(State()), b) == None && State() == old(State())
      ensures !ok && old(free) != [] ==> exists l: nat :: l < |pools| && pools[l] == null && State() == HalfCopied(old(State()), b, l)
    {
      ok, b' := AllocLocked();
      if !ok {
        return;
      }
      label reserved:
      for layer := 0 to numLayers
        invariant Valid() && onEvict == old(onEvict) && forall l :: 0 <= l < layer ==> pools[l] != null
        invariant State() == old@reserved(State()).(store := CopyBlock(old(store), layer, b, b', blockSize))
      {
        if pools[layer] == null {
          return false, b';
        }
        CopyLayer(layer, b, b');
      }
      DecrefLocked(b);
    }

    /** Copies slot `bi` of the table to its place in `out`. */
    method FillSlot(out: array<KV>, table: seq<nat>, l: nat, bi: nat)
      requires Valid() && l < numLayers && pools[l] != null && bi < |table| && table[bi] < numBlocks
      requires bi * blockSize < out.Length && out !in Arrays()
      modifies out
      ensures forall k :: 0 <= k < out.Length ==>
        out[k] == (if bi * blockSize <= k < bi * blockSize + blockSize then Lookup(State(), table, l, k) else old(out[k]))
    {
      var pool := pools[l];
      var start := bi * blockSize;
      var take := Min(blockSize, out.Length - start);
      assert LayerMatches(l);
      forall k | start <= k < start + take ensures Lookup(State(), table, l, k) == pool[table[bi], k - start] {
        PoolSystem.QuotientIs(k, blockSize, bi, k - start);
      }
      forall k | start <= k < start + take {
        out[k] := pool[table[bi], k - start];
      }
    }

    /** Fills `out` slot by slot until the table or the length is used up. */
    method GatherInto(out: array<KV>, table: seq<nat>, l: nat)
      requires Valid() && l < numLayers && pools[l] != null && out !in Arrays()
      requires forall i :: 0 <= i < |table| ==> table[i] < numBlocks
      requires forall k :: 0 <= k < out.Length ==> out[k] == Pad
      modifies out
      ensures forall k :: 0 <= k < out.Length ==> out[k] == Lookup(State(), table, l, k)
    {
      ghost var p := State();
      var bi, start := 0, 0;
      while bi < |table| && start < out.Length
        invariant bi <= |table| && start == bi * blockSize
        invariant forall k :: 0 <= k < out.Length ==> out[k] == (if k < start then Lookup(p, table, l, k) else Pad)
        decreases |table| - bi
      {
        FillSlot(out, table, l, bi);
        PoolSystem.SuccTimes(bi, blockSize);
        bi, start := bi + 1, start + blockSize;
      }
      BeyondTable(p, table, out.Length, l, bi);
    }

    /** `gather`: the entries of a table cut to `length`; `ok` is false (an exception) if
        the layer was never written. */
    method Gather(table: seq<nat>, length: nat, l: nat) returns (ok: bool, out: array<KV>)
      requires Valid() && l < numLayers && forall i :: 0 <= i < |table| ==> table[i] < numBlocks
      ensures Valid() && State() == old(State())
      ensures ok == (pools[l] != null) && fresh(out)
      ensures ok ==> out.Length == length && forall k :: 0 <= k < length ==> out[k] == Lookup(State(), table, l, k)
    {
      ok := pools[l] != null;
      out := new KV[if ok then length else 0](_ => Pad);
      forall k | 0 <= k < |pools| ensures LayerMatches(k) {
        assert old(LayerMatches(k));
      }
      if ok {
        GatherInto(out, table, l);
      }
      forall k | 0 <= k < |pools| ensures LayerMatches(k) {
        assert old(LayerMatches(k));
      }
    }
  }

  /** A match result behind the blocks already found. */
  ghost function Behind(ids: seq<nat>, r: (Pool, seq<nat>)): (Pool, seq<nat>) {
    (r.0, ids + r.1)
  }

  lemma BehindNone(ids: seq<nat>, p: Pool, r: (Pool, seq<nat>))
    ensures Behind([], r) == r && Behind(ids, (p, [])) == (p, ids)
  {
    assert [] + r.1 == r.1 && ids + [] == ids;
  }

  lemma BehindOne(ids: seq<nat>, b: nat, r: (Pool, seq<nat>))
    ensures Behind(ids, Behind([b], r)) == Behind(ids + [b], r)
  {
    assert ids + ([b] + r.1) == ids + [b] + r.1;
  }

  /** `(b + 1) * bs <= ((n - 1) / bs) * bs` says that a token is left behind block `b`. */
  lemma RoomForBlock(n: nat, start: nat, b: nat, bs: nat)
    requires bs > 0 && start == b * bs && start + bs <= (n - 1) / bs * bs
    ensures start + bs < n
  {
  }

  lemma NoRoomForBlock(n: nat, start: nat, b: nat, bs: nat)
    requires bs > 0 && start == b * bs && start + bs > (n - 1) / bs * bs
    ensures n <= start + bs
  {
    if start + bs < n {
      PoolSystem.SuccTimes(b, bs);
      PoolSystem.QuotientIs((b + 1) * bs, bs, b + 1, 0);
      PoolSystem.TimesMonotone(b + 1, (n - 1) / bs, bs);
    }
  }

  lemma BlockFits(b: nat, total: nat, bs: nat, n: nat)
    requires b < total && total * bs <= n
    ensures (b + 1) * bs == b * bs + bs <= n
  {
    PoolSystem.TimesMonotone(b + 1, total, bs);
  }

  lemma WholeBlocks(n: nat, slots: nat, bs: nat)
    requires bs > 0 && n <= slots * bs
    ensures 0 <= n / bs <= slots && n / bs * bs <= n
  {
    if slots < n / bs {
      PoolSystem.MulStep(slots, n / bs, bs);
    }
  }

  /** Positions behind a table hold nothing. */
  lemma BeyondTable(p: Pool, table: seq<nat>, length: nat, l: nat, bi: nat)
    requires p.blockSize > 0 && bi <= |table| && (bi == |table| || bi * p.blockSize >= length)
    ensures forall k :: bi * p.blockSize <= k < length ==> Lookup(p, table, l, k) == Pad
  {
    forall k | bi * p.blockSize <= k < length ensures Lookup(p, table, l, k) == Pad {
      if k / p.blockSize < bi {
        PoolSystem.MulStep(k / p.blockSize, bi, p.blockSize);
      }
    }
  }
}
