/** One sequence's paged cache: a block table over a shared manager. */
module PagedKvCaches {
  import opened Wrappers
  import opened Transformer
  import opened BlockPool
  import opened BlockManagers
  import opened PagedCaches
  import opened PoolSharing
  import PoolSystem
  import KvCache

  /** The table's blocks are allocated, and the free list names each block once. */
  ghost predicate TableHeld(p: Pool, table: seq<nat>) {
    NoDup(p.free) && forall b :: b in table ==> Held(p, b)
  }

  ghost predicate Held(p: Pool, b: nat) {
    b < |p.refs| && b !in p.free && p.refs[b] >= 1
  }

  ghost predicate Unshared(p: Pool, table: seq<nat>) {
    forall b :: b in table ==> Ref(p, b) == 1
  }

  lemma AllocHolds(p: Pool, b: nat)
    requires NoDup(p.free) && Alloc(p).Some? && p.free[0] < |p.refs|
    ensures var (p', b') := Alloc(p).value;
      NoDup(p'.free) && Held(p', b') && Ref(p', b') == 1 &&
      (Held(p, b) ==> Held(p', b) && b != b' && Ref(p', b) == Ref(p, b))
  {
    var q := p.(free := p.free[1..], refs := SetRef(p.refs, p.free[0], 1));
    assert p.free == [p.free[0]] + p.free[1..];
    assert DropBlock(q, p.free[0]).free == q.free && DropBlock(q, p.free[0]).refs == q.refs;
  }

  lemma ExtendHolds(p: Pool, table: seq<nat>, j: nat)
    requires TableHeld(p, table) && (forall b :: b in p.free ==> b < |p.refs|) && Extend(p, table, j).Some?
    ensures var (p', t') := Extend(p, table, j).value;
      TableHeld(p', t') && (Unshared(p, table) ==> Unshared(p', t'))
  {
    if j == |table| {
      assert p.free[0] in p.free;
      var (p', b') := Alloc(p).value;
      forall b | b in table + [b'] ensures Held(p', b) && (b in table ==> Ref(p', b) == Ref(p, b)) {
        AllocHolds(p, b);
      }
      AllocHolds(p, 0);
    }
  }

  lemma UnshareHolds(p: Pool, table: seq<nat>, j: nat)
    requires TableHeld(p, table) && (forall b :: b in p.free ==> b < |p.refs|) && Unshare(p, table, j).Some?
    ensures var (p', t') := Unshare(p, table, j).value;
      TableHeld(p', t') && |t'| == |table| && (Unshared(p, table) ==> p' == p && t' == table)
  {
    if Ref(p, table[j]) > 1 {
      assert p.free[0] in p.free && table[j] in table;
      var (p1, b') := Alloc(p).value;
      var p' := CopyOnWrite(p, table[j]).value.0;
      forall b | b in table[j := b'] ensures Held(p', b) {
        AllocHolds(p, b);
        AllocHolds(p, table[j]);
      }
      AllocHolds(p, 0);
    }
  }

  lemma LayerWritten(p: Pool, t: seq<nat>, pos: nat, es: seq<KV>, l: nat)
    requires p.blockSize > 0 && l < |es|
    ensures WriteLayers(p, t, pos, es, l) ==
      var r := BlockPool.WriteAt(p, t, pos, l, es[l]);
      if r.Some? && r.value.0.blockSize > 0 then WriteLayers(r.value.0, r.value.1, pos, es, l + 1) else None
  {
    hide BlockPool.WriteAt;
  }

  lemma AllLayersWritten(p: Pool, t: seq<nat>, pos: nat, es: seq<KV>)
    requires p.blockSize > 0
    ensures WriteLayers(p, t, pos, es, |es|) == Some((p, t))
  {
  }

  /** How the remaining columns are written once the first one is. */
  lemma ColumnWritten(p: Pool, t: seq<nat>, pos: nat, cols: seq<seq<KV>>)
    requires p.blockSize > 0 && cols != []
    ensures WriteColumns(p, t, pos, []) == Some((p, t))
    ensures WriteColumns(p, t, pos, cols) ==
      var r := WriteLayers(p, t, pos, cols[0], 0);
      if r.Some? && r.value.0.blockSize > 0 then WriteColumns(r.value.0, r.value.1, pos + 1, cols[1..]) else None
  {
  }

  /** `es` is slot `src` of row `row`, layer by layer. */
  ghost predicate IsSlot(past: seq<seq<seq<KV>>>, row: nat, src: nat, es: seq<KV>) {
    && |es| == |past|
    && forall l :: 0 <= l < |past| ==> row < |past[l]| && src < |past[l][row]| && es[l] == past[l][row][src]
  }

  /** `cols` are the slots of row `row` from `src` to its end at `width`. */
  ghost predicate IsRow(past: seq<seq<seq<KV>>>, row: nat, src: nat, width: nat, cols: seq<seq<KV>>)
    decreases width - src
  {
    if src >= width then cols == [] else
      cols != [] && IsSlot(past, row, src, cols[0]) && IsRow(past, row, src + 1, width, cols[1..])
  }

  class PagedKVCache {
    const m: BlockManager
    var blockTable: seq<nat>
    var length: nat

    constructor (m: BlockManager)
      ensures this.m == m && blockTable == [] && length == 0
    {
      this.m, blockTable, length := m, [], 0;
    }

    ghost predicate Valid()
      reads this, m, m.onEvict, m.Arrays()
    {
      m.Valid() && TableHeld(m.State(), blockTable)
    }

    /** Copying a shared block needs every layer's tensor; a private block is never copied. */
    ghost predicate CanCopy()
      reads this, m, m.onEvict
    {
      m.Materialised() || Unshared(m.State(), blockTable)
    }

    /** Appends a new block if slot `bi` lies just behind the table. */
    method Grow(bi: nat) returns (ok: bool)
      requires Valid() && CanCopy() && bi <= |blockTable|
      modifies this`blockTable, m`refcount, m`free, m.onEvict
      ensures m.Valid() && (ok ==> Valid() && CanCopy() && bi < |blockTable|)
      ensures Extend(old(m.State()), old(blockTable), bi) == if ok then Some((m.State(), blockTable)) else None
    {
      ok := true;
      if bi == |blockTable| {
        ghost var p := m.State();
        var b;
        ok, b := m.AllocLocked();
        if ok {
          label allocd:
          blockTable := blockTable + [b];
          forall k | 0 <= k < |m.pools| ensures m.LayerMatches(k) {
            assert old@allocd(m.LayerMatches(k));
          }
          ExtendHolds(p, old(blockTable), bi);
        }
      }
    }

    /** Replaces a shared block in slot `bi` by a private copy. */
    method MakePrivate(bi: nat) returns (ok: bool)
      requires Valid() && CanCopy() && bi < |blockTable|
      modifies this`blockTable, m`refcount, m`free, m`store, m.onEvict, m.Arrays()
      ensures m.Valid() && (ok ==> Valid() && CanCopy() && |blockTable| == old(|blockTable|))
      ensures Unshare(old(m.State()), old(blockTable), bi) == if ok then Some((m.State(), blockTable)) else None
    {
      ok := true;
      var bid := blockTable[bi];
      assert Held(m.State(), bid);
      if m.refcount[bid] > 1 {
        ghost var p := m.State();
        ok, bid := m.CopyOnWrite(bid);
        if ok {
          label copied:
          blockTable := blockTable[bi := bid];
          forall k | 0 <= k < |m.pools| ensures m.LayerMatches(k) {
            assert old@copied(m.LayerMatches(k));
          }
          UnshareHolds(p, old(blockTable), bi);
        }
      }
    }

    /** `_write_at`; false stands for OutOfBlocks. */
    method WriteAt(pos: nat, l: nat, e: KV) returns (ok: bool)
      requires Valid() && CanCopy() && l < m.numLayers && pos / m.blockSize <= |blockTable|
      modifies this`blockTable, m`refcount, m`free, m`pools, m`store, m.onEvict, m.Arrays()
      ensures m.Valid() && fresh(m.Arrays() - old(m.Arrays()))
      ensures ok ==> Valid() && CanCopy() && pos / m.blockSize < |blockTable|
      ensures ok ==> m.pools[l] != null && forall k :: 0 <= k < |m.pools| && k != l ==> m.pools[k] == old(m.pools[k])
      ensures BlockPool.WriteAt(old(m.State()), old(blockTable), pos, l, e) ==
        if ok then Some((m.State(), blockTable)) else None
    {
      hide Extend, Unshare, Put;
      var bi, off := pos / m.blockSize, pos % m.blockSize;
      ok := Grow(bi);
      if ok {
        ok := MakePrivate(bi);
        if ok {
          assert Held(m.State(), blockTable[bi]);
          m.Write(blockTable[bi], l, off, e);
        }
      }
    }

    /** Writes slot `src` of a row, layer by layer, at position `pos`. */
    method WriteColumn(pos: nat, past: seq<seq<seq<KV>>>, row: nat, src: nat, ghost es: seq<KV>) returns (ok: bool)
      requires Valid() && CanCopy() && |past| <= m.numLayers && pos / m.blockSize <= |blockTable|
      requires IsSlot(past, row, src, es)
      modifies this`blockTable, m`refcount, m`free, m`pools, m`store, m.onEvict, m.Arrays()
      ensures m.Valid() && fresh(m.Arrays() - old(m.Arrays())) && m.onEvict == old(m.onEvict)
      ensures ok ==> Valid() && CanCopy() && (past != [] ==> pos / m.blockSize < |blockTable|)
      ensures ok && |past| == m.numLayers ==> m.Materialised()
      ensures WriteLayers(old(m.State()), old(blockTable), pos, es, 0) ==
        if ok then Some((m.State(), blockTable)) else None
    {
      hide WriteLayers, BlockPool.WriteAt, TableHeld, Unshared;
      ok := true;
      for layer := 0 to |past|
        invariant Valid() && CanCopy() && pos / m.blockSize <= |blockTable| && m.onEvict == old(m.onEvict)
        invariant fresh(m.Arrays() - old(m.Arrays()))
        invariant layer > 0 ==> pos / m.blockSize < |blockTable|
        invariant forall k :: 0 <= k < layer ==> m.pools[k] != null
        invariant WriteLayers(old(m.State()), old(blockTable), pos, es, 0) ==
          WriteLayers(m.State(), blockTable, pos, es, layer)
      {
        LayerWritten(m.State(), blockTable, pos, es, layer);
        ok := WriteAt(pos, layer, past[layer][row][src]);
        if !ok {
          return;
        }
      }
      AllLayersWritten(m.State(), blockTable, pos, es);
    }

    method Advance()
      requires Valid() && CanCopy() && length / m.blockSize < |blockTable|
      modifies this`length
      ensures Valid() && CanCopy() && length == old(length) + 1 && length / m.blockSize <= |blockTable|
      ensures m.State() == old(m.State())
    {
      length := length + 1;
      PoolSystem.NextPosition(old(length), m.blockSize);
      forall k | 0 <= k < |m.pools| ensures m.LayerMatches(k) {
        assert old(m.LayerMatches(k));
      }
    }

    /** Writes slot `src` of a row at the next position. */
    method WritePosition(past: seq<seq<seq<KV>>>, row: nat, src: nat, ghost es: seq<KV>) returns (ok: bool)
      requires Valid() && CanCopy() && 0 < |past| <= m.numLayers && length / m.blockSize <= |blockTable|
      requires IsSlot(past, row, src, es)
      modifies this, m`refcount, m`free, m`pools, m`store, m.onEvict, m.Arrays()
      ensures m.Valid() && fresh(m.Arrays() - old(m.Arrays())) && m.onEvict == old(m.onEvict)
      ensures ok ==> Valid() && CanCopy() && length == old(length) + 1 && length / m.blockSize <= |blockTable|
      ensures ok && |past| == m.numLayers ==> m.Materialised()
      ensures WriteLayers(old(m.State()), old(blockTable), old(length), es, 0) ==
        if ok then Some((m.State(), blockTable)) else None
    {
      ok := WriteColumn(length, past, row, src, es);
      if ok {
        Advance();
      }
    }

    /** Writes the first of the columns that remain of a row. */
    method WriteFirst(past: seq<seq<seq<KV>>>, row: nat, src: nat, width: nat, ghost cols: seq<seq<KV>>)
      returns (ok: bool, next: nat, ghost rest: seq<seq<KV>>)
      requires Valid() && CanCopy() && 0 < |past| <= m.numLayers && length / m.blockSize <= |blockTable|
      requires src < width && IsRow(past, row, src, width, cols)
      modifies this, m`refcount, m`free, m`pools, m`store, m.onEvict, m.Arrays()
      ensures m.Valid() && fresh(m.Arrays() - old(m.Arrays())) && m.onEvict == old(m.onEvict)
      ensures ok ==> Valid() && CanCopy() && length == old(length) + 1 && length / m.blockSize <= |blockTable|
      ensures ok && |past| == m.numLayers ==> m.Materialised()
      ensures next == src + 1 && IsRow(past, row, next, width, rest)
      ensures WriteColumns(old(m.State()), old(blockTable), old(length), cols) ==
        if ok then WriteColumns(m.State(), blockTable, length, rest) else None
    {
      ColumnWritten(m.State(), blockTable, length, cols);
      next, rest := src + 1, cols[1..];
      ok := WritePosition(past, row, src, cols[0]);
    }

    /** `init_from_prefill`: the positions not cached yet, from the right end of the row. */
    method InitFromPrefill(past: seq<seq<seq<KV>>>, promptLen: nat, row: nat, width: nat, ghost cols: seq<seq<KV>>)
      returns (ok: bool)
      requires Valid() && CanCopy() && 0 < |past| <= m.numLayers && length / m.blockSize <= |blockTable|
      requires promptLen <= width && IsRow(past, row, width - promptLen + length, width, cols)
      modifies this, m`refcount, m`free, m`pools, m`store, m.onEvict, m.Arrays()
      ensures m.Valid() && fresh(m.Arrays() - old(m.Arrays()))
      ensures ok ==> Valid() && CanCopy() && length == Max(old(length), promptLen) && length / m.blockSize <= |blockTable|
      ensures ok && |past| == m.numLayers ==> m.Materialised() || (length == old(length) && m.pools == old(m.pools))
      ensures WriteColumns(old(m.State()), old(blockTable), old(length), cols) ==
        if ok then Some((m.State(), blockTable)) else None
    {
      ok := true;
      var i, src := length, width - promptLen + length;
      ghost var rest := cols;
      ghost var result := WriteColumns(m.State(), blockTable, length, cols);
      while i < promptLen
        invariant Valid() && CanCopy() && length == i <= Max(old(length), promptLen) && length / m.blockSize <= |blockTable|
        invariant fresh(m.Arrays() - old(m.Arrays())) && m.onEvict == old(m.onEvict)
        invariant src == width - promptLen + i && IsRow(past, row, src, width, rest)
        invariant result == WriteColumns(m.State(), blockTable, length, rest)
        invariant |past| == m.numLayers ==> m.Materialised() || (i == old(length) && m.pools == old(m.pools))
        decreases promptLen - i
      {
        ok, src, rest := WriteFirst(past, row, src, width, rest);
        if !ok {
          return;
        }
        i := i + 1;
      }
    }

    /** `append_from_output`: the last slot of row `row`. */
    method AppendFromOutput(past: seq<seq<seq<KV>>>, row: nat, width: nat, ghost es: seq<KV>) returns (ok: bool)
      requires Valid() && CanCopy() && 0 < |past| <= m.numLayers && length / m.blockSize <= |blockTable|
      requires width > 0 && IsSlot(past, row, width - 1, es)
      modifies this, m`refcount, m`free, m`pools, m`store, m.onEvict, m.Arrays()
      ensures m.Valid() && fresh(m.Arrays() - old(m.Arrays()))
      ensures ok ==> Valid() && CanCopy() && length == old(length) + 1 && length / m.blockSize <= |blockTable|
      ensures ok && |past| == m.numLayers ==> m.Materialised()
      ensures WriteLayers(old(m.State()), old(blockTable), old(length), es, 0) ==
        if ok then Some((m.State(), blockTable)) else None
    {
      ok := WritePosition(past, row, width - 1, es);
    }

    /** `adopt`: appends existing blocks; their references may already be held. */
    method Adopt(ids: seq<nat>, incref: bool)
      requires m.Valid() && forall i :: 0 <= i < |ids| ==> ids[i] < m.numBlocks
      modifies this, m`refcount, m`free
      ensures m.Valid() && m.State() == if incref then IncrefAll(old(m.State()), ids) else old(m.State())
      ensures blockTable == old(blockTable) + ids && length == |ids| * m.blockSize
    {
      if incref {
        AddReferences(m, ids);
      }
      label counted:
      blockTable := blockTable + ids;
      length := |ids| * m.blockSize;
      forall k | 0 <= k < |m.pools| ensures m.LayerMatches(k) {
        assert old@counted(m.LayerMatches(k));
      }
    }

    /** `fork`: a child that shares every block. */
    method Fork() returns (child: PagedKVCache)
      requires m.Valid() && forall i :: 0 <= i < |blockTable| ==> blockTable[i] < m.numBlocks
      modifies m`refcount, m`free
      ensures m.Valid() && m.State() == IncrefAll(old(m.State()), blockTable)
      ensures fresh(child) && child.m == m && child.blockTable == blockTable && child.length == length
    {
      AddReferences(m, blockTable);
      label counted:
      child := new PagedKVCache(m);
      child.blockTable, child.length := blockTable, length;
      forall k | 0 <= k < |m.pools| ensures m.LayerMatches(k) {
        assert old@counted(m.LayerMatches(k));
      }
    }

    /** `view`: every layer gathered; an exception if a layer was never written. */
    method View() returns (ok: bool, view: seq<seq<KV>>)
      requires m.Valid() && forall i :: 0 <= i < |blockTable| ==> blockTable[i] < m.numBlocks
      ensures ok == m.Materialised()
      ensures ok ==> |view| == m.numLayers && forall l :: 0 <= l < |view| ==> Shows(m.State(), blockTable, length, l, view[l])
    {
      ok, view := true, [];
      for layer := 0 to m.numLayers
        invariant m.Valid() && m.State() == old(m.State())
        invariant |view| == layer && forall l :: 0 <= l < layer ==> m.pools[l] != null
        invariant forall l :: 0 <= l < layer ==> Shows(m.State(), blockTable, length, l, view[l])
      {
        var out;
        ok, out := m.Gather(blockTable, length, layer);
        if !ok {
          return;
        }
        view := view + [out[..]];
      }
    }

    /** `free`: gives every block back. */
    method Free()
      requires m.Valid() && forall i :: 0 <= i < |blockTable| ==> blockTable[i] < m.numBlocks
      modifies this, m`refcount, m`free
      ensures m.Valid() && m.State() == DecrefAll(old(m.State()), old(blockTable))
      ensures blockTable == [] && length == 0
    {
      DropReferences(m, blockTable);
      label counted:
      blockTable, length := [], 0;
      forall k | 0 <= k < |m.pools| ensures m.LayerMatches(k) {
        assert old@counted(m.LayerMatches(k));
      }
    }
  }

  /** `out` is layer `l` of the table cut to `length`. */
  ghost predicate Shows(p: Pool, table: seq<nat>, length: nat, l: nat, out: seq<KV>) {
    |out| == length && forall k :: 0 <= k < length ==> out[k] == Lookup(p, table, l, k)
  }

  /** One reference more for each block of the list. */
  method AddReferences(m: BlockManager, ids: seq<nat>)
    requires m.Valid() && forall i :: 0 <= i < |ids| ==> ids[i] < m.numBlocks
    modifies m`refcount, m`free
    ensures m.Valid() && m.State() == IncrefAll(old(m.State()), ids)
  {
    ghost var rest := ids;
    for i := 0 to |ids|
      invariant m.Valid() && rest == ids[i..]
      invariant IncrefAll(old(m.State()), ids) == IncrefAll(m.State(), rest)
    {
      m.IncrefLocked(ids[i]);
      rest := rest[1..];
    }
  }

  /** One reference less for each block of the list. */
  method DropReferences(m: BlockManager, ids: seq<nat>)
    requires m.Valid() && forall i :: 0 <= i < |ids| ==> ids[i] < m.numBlocks
    modifies m`refcount, m`free
    ensures m.Valid() && m.State() == DecrefAll(old(m.State()), ids)
  {
    ghost var rest := ids;
    for i := 0 to |ids|
      invariant m.Valid() && rest == ids[i..]
      invariant DecrefAll(old(m.State()), ids) == DecrefAll(m.State(), rest)
    {
      m.DecrefLocked(ids[i]);
      rest := rest[1..];
    }
  }

  /** What the methods write is what `AppendAll` does to the owner in the system of all caches. */
  lemma {:induction false} AppendAllIsWriteColumns(s: PoolSystem.System, i: nat, cols: seq<seq<KV>>)
    requires s.pool.blockSize > 0 && i < |s.owners|
    ensures AppendAll(s, i, cols) ==
      match WriteColumns(s.pool, s.owners[i].table, s.owners[i].length, cols)
      case None => None
      case Some((p, t)) => Some(PoolSystem.System(p, s.owners[i := PoolSystem.Owner(t, s.owners[i].length + |cols|)]))
    decreases |cols|
  {
    if cols == [] {
      assert s.owners[i := s.owners[i]] == s.owners;
    } else {
      var r := Append(s, i, cols[0]);
      if r.Some? && r.value.pool.blockSize > 0 {
        AppendAllIsWriteColumns(r.value, i, cols[1..]);
        var w := WriteColumns(r.value.pool, r.value.owners[i].table, r.value.owners[i].length, cols[1..]);
        if w.Some? {
          var o := PoolSystem.Owner(w.value.1, s.owners[i].length + |cols|);
          assert r.value.owners[i := o] == s.owners[i := o];
        }
      }
    }
  }
}
