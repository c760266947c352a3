/** When a paged cache can grow: exactly as long as the free list has the blocks it needs, and
    always while the pool is as large as everything stored in it. */
module PoolCapacity {
  import opened Wrappers
  import opened Transformer
  import opened BlockPool
  import opened PoolSystem
  import opened PoolSteps
  import opened PagedCaches
  import opened PoolSharing
  import opened PrefixIndex

  type Pos = n: nat | n > 0 witness 1

  /** Blocks that `n` positions take. */
  function BlocksFor(n: nat, size: nat): nat
    requires size > 0
  {
    (n + size - 1) / size
  }

  lemma BlocksOfNext(n: nat, size: nat)
    requires size > 0
    ensures BlocksFor(n + 1, size) == n / size + 1
  {
    QuotientIs(n + size, size, n / size + 1, n % size);
  }

  lemma BlocksMonotone(a: nat, b: nat, size: nat)
    requires size > 0 && a <= b
    ensures BlocksFor(a, size) <= BlocksFor(b, size)
  {
    QuotientMonotone(a + size - 1, b + size - 1, size);
  }

  lemma BlocksOfMultiple(n: nat, size: nat)
    requires size > 0
    ensures BlocksFor(n * size, size) == n && BlocksFor(0, size) == 0
  {
    QuotientIs(n * size + (size - 1), size, n, size - 1);
    QuotientIs(size - 1, size, 0, size - 1);
  }

  // ------------------------------------------------------------- one column, all columns

  /** The next position's block exists and belongs to another owner as well. */
  predicate SharedNext(s: System, i: nat)
    requires s.pool.blockSize > 0 && i < |s.owners|
  {
    var j, t := FullSlots(s.pool, s.owners[i]), s.owners[i].table;
    j < |t| && Ref(s.pool, t[j]) > 1
  }

  /** The next position needs a block from the free list. */
  predicate NeedsBlock(s: System, i: nat)
    requires s.pool.blockSize > 0 && i < |s.owners|
  {
    FullSlots(s.pool, s.owners[i]) >= |s.owners[i].table| || SharedNext(s, i)
  }

  /** How many blocks `n` more positions need. */
  function Needed(s: System, i: nat, n: nat): int
    requires s.pool.blockSize > 0 && i < |s.owners|
  {
    if n == 0 then 0
    else BlocksFor(s.owners[i].length + n, s.pool.blockSize) - |s.owners[i].table| + if SharedNext(s, i) then 1 else 0
  }

  /** The block of the position is there and private. */
  predicate PrivateSlot(p: Pool, t: seq<nat>, pos: nat)
    requires p.blockSize > 0
  {
    pos / p.blockSize < |t| && Ref(p, t[pos / p.blockSize]) <= 1
  }

  /** Into a private block every layer can be written, and nothing is allocated. */
  lemma {:induction false} PrivateWrites(p: Pool, t: seq<nat>, pos: nat, es: seq<KV>, l: nat)
    requires p.blockSize > 0 && l <= |es| && PrivateSlot(p, t, pos)
    ensures var r := WriteLayers(p, t, pos, es, l);
      r.Some? && r.value.1 == t && r.value.0 == p.(store := r.value.0.store)
    decreases |es| - l
  {
    if l < |es| {
      var p1 := WriteAt(p, t, pos, l, es[l]).value.0;
      PrivateWrites(p1, t, pos, es, l + 1);
    }
  }

  /** Allocating takes one block off the free list. */
  lemma AllocTakesOne(s: System)
    requires Inv(s)
    ensures Alloc(s.pool).None? <==> s.pool.free == []
    ensures Alloc(s.pool).Some? ==>
      var (p, b) := Alloc(s.pool).value;
      |p.free| == |s.pool.free| - 1 && Ref(p, b) == 1 && |p.refs| == |s.pool.refs| && p.blockSize == s.pool.blockSize &&
      forall x: nat :: x != b ==> Ref(p, x) == Ref(s.pool, x)
  {
    hide OpenUnsealed, Bijective, IndexTrue;
    if s.pool.free != [] {
      assert s.pool.free[0] in s.pool.free;
    }
  }

  /** What preparing the next position does to the free list. */
  lemma PrepareTakesBlock(s: System, i: nat)
    requires Inv(s) && i < |s.owners|
    ensures
      var j := FullSlots(s.pool, s.owners[i]);
      var r1 := Extend(s.pool, s.owners[i].table, j);
      var r2 := if r1.None? then None else Unshare(r1.value.0, r1.value.1, j);
      && (r2.None? <==> NeedsBlock(s, i) && s.pool.free == [])
      && (r2.Some? ==>
            && |r2.value.0.free| == |s.pool.free| - (if NeedsBlock(s, i) then 1 else 0)
            && |r2.value.0.refs| == |s.pool.refs| && r2.value.0.blockSize == s.pool.blockSize
            && |r2.value.1| == j + 1 && Ref(r2.value.0, r2.value.1[j]) <= 1)
  {
    hide OpenUnsealed, Bijective, IndexTrue, Counted, Alloc;
    assert Sized(s.pool, s.owners[i]);
    AllocTakesOne(s);
    var j, t := FullSlots(s.pool, s.owners[i]), s.owners[i].table;
    if j < |t| && Ref(s.pool, t[j]) > 1 && s.pool.free != [] {
      var (p1, b) := Alloc(s.pool).value;
      assert b != t[j] by {
        SharedIsNotFree(s, t[j]);
      }
    }
  }

  lemma SharedIsNotFree(s: System, b: nat)
    requires Inv(s) && Ref(s.pool, b) > 1
    ensures b !in s.pool.free && (Alloc(s.pool).Some? ==> Alloc(s.pool).value.1 != b)
  {
    hide OpenUnsealed, Bijective, IndexTrue;
    if s.pool.free != [] {
      assert s.pool.free[0] in s.pool.free;
    }
  }

  /** Writing one column: it fails exactly when it needs a block and none is free. */
  lemma AppendSucceedsIff(s: System, i: nat, es: seq<KV>)
    requires Inv(s) && i < |s.owners| && es != []
    ensures Append(s, i, es).None? <==> NeedsBlock(s, i) && s.pool.free == []
    ensures var r := Append(s, i, es); r.Some? ==> Took(s, i, r.value)
  {
    hide OpenUnsealed, Bijective, IndexTrue, Counted, Extend, Unshare;
    PrepareTakesBlock(s, i);
    var pos, t := s.owners[i].length, s.owners[i].table;
    var r := WriteAt(s.pool, t, pos, 0, es[0]);
    if r.Some? {
      PrivateWrites(r.value.0, r.value.1, pos, es, 1);
    }
  }

  /** The effect of one column on the free list and the owner's table. */
  ghost predicate Took(s: System, i: nat, s': System)
    requires s.pool.blockSize > 0 && i < |s.owners|
  {
    var j := FullSlots(s.pool, s.owners[i]);
    && |s'.pool.free| == |s.pool.free| - (if NeedsBlock(s, i) then 1 else 0)
    && |s'.pool.refs| == |s.pool.refs| && s'.pool.blockSize == s.pool.blockSize
    && |s'.owners| == |s.owners| && s'.owners[i].length == s.owners[i].length + 1
    && |s'.owners[i].table| == j + 1 && Ref(s'.pool, s'.owners[i].table[j]) <= 1
    && forall u :: 0 <= u < |s.owners| && u != i ==> s'.owners[u] == s.owners[u]
  }

  lemma TookNeeds(s: System, i: nat, s': System, n: nat)
    requires Inv(s) && i < |s.owners| && Took(s, i, s')
    ensures Needed(s', i, n) == Needed(s, i, n + 1) - if NeedsBlock(s, i) then 1 else 0
  {
    hide OpenUnsealed, Bijective, IndexTrue, Counted;
    assert Sized(s.pool, s.owners[i]);
    BlocksOfNext(s.owners[i].length, s.pool.blockSize);
    NextPosition(s.owners[i].length, s.pool.blockSize);
  }

  lemma NeededAtLeast(s: System, i: nat, n: nat)
    requires Inv(s) && i < |s.owners| && n > 0
    ensures Needed(s, i, n) >= if NeedsBlock(s, i) then 1 else 0
  {
    hide OpenUnsealed, Bijective, IndexTrue, Counted;
    assert Sized(s.pool, s.owners[i]);
    BlocksOfNext(s.owners[i].length, s.pool.blockSize);
    BlocksMonotone(s.owners[i].length + 1, s.owners[i].length + n, s.pool.blockSize);
  }

  /** Writing many columns succeeds exactly when the blocks they need are free. */
  lemma {:induction false} AppendAllSucceedsIff(s: System, i: nat, cols: seq<seq<KV>>)
    requires Inv(s) && i < |s.owners| && s.pool.depth > 0
    requires forall c :: 0 <= c < |cols| ==> |cols[c]| == s.pool.depth
    ensures AppendAll(s, i, cols).Some? <==> Needed(s, i, |cols|) <= |s.pool.free|
    decreases |cols|
  {
    hide OpenUnsealed, Bijective, IndexTrue, Counted, Append, Needed, Took, NeedsBlock;
    if cols == [] {
      NeededNone(s, i);
    } else {
      AppendSucceedsIff(s, i, cols[0]);
      NeededAtLeast(s, i, |cols|);
      var r := Append(s, i, cols[0]);
      if r.Some? {
        AppendKeepsInv(s, i, cols[0]);
        AppendKeepsDepth(s, i, cols[0]);
        TookNeeds(s, i, r.value, |cols| - 1);
        TookShape(s, i, r.value);
        AppendAllSucceedsIff(r.value, i, cols[1..]);
      }
    }
  }

  /** `append_from_output` on a paged cache: it raises exactly when the next position needs a
      block and none is free, and otherwise it is an append to a private list. */
  lemma AppendIsListAppend(s: System, i: nat, es: seq<KV>)
    requires Inv(s) && i < |s.owners| && |es| == s.pool.depth > 0
    ensures match Append(s, i, es)
      case None => NeedsBlock(s, i) && s.pool.free == []
      case Some(s') => (NeedsBlock(s, i) ==> s.pool.free != []) && Grown(s, s', i, [es])
  {
    hide Inv, Grown, Append, NeedsBlock, Took;
    AppendSucceedsIff(s, i, es);
    AppendRefinesList(s, i, es);
  }

  /** `init_from_prefill` on a paged cache: it raises exactly when the free list has fewer blocks
      than the columns need, and otherwise it appends them all to a private list. */
  lemma AppendAllIsListAppend(s: System, i: nat, cols: seq<seq<KV>>)
    requires Inv(s) && i < |s.owners| && s.pool.depth > 0
    requires forall c :: 0 <= c < |cols| ==> |cols[c]| == s.pool.depth
    ensures match AppendAll(s, i, cols)
      case None => Needed(s, i, |cols|) > |s.pool.free|
      case Some(s') => Needed(s, i, |cols|) <= |s.pool.free| && Grown(s, s', i, cols)
  {
    hide Inv, Grown, AppendAll, Needed;
    AppendAllSucceedsIff(s, i, cols);
    AppendAllRefinesList(s, i, cols);
  }

  lemma NeededNone(s: System, i: nat)
    requires s.pool.blockSize > 0 && i < |s.owners|
    ensures Needed(s, i, 0) == 0
  {
  }

  lemma TookShape(s: System, i: nat, s': System)
    requires s.pool.blockSize > 0 && i < |s.owners| && Took(s, i, s')
    ensures |s'.owners| == |s.owners| && |s'.pool.refs| == |s.pool.refs| && s'.pool.blockSize == s.pool.blockSize
    ensures |s'.pool.free| == |s.pool.free| - if NeedsBlock(s, i) then 1 else 0
  {
  }

  lemma AppendKeepsDepth(s: System, i: nat, es: seq<KV>)
    requires Inv(s) && i < |s.owners| && |es| == s.pool.depth > 0 && Append(s, i, es).Some?
    ensures Append(s, i, es).value.pool.depth == s.pool.depth
  {
    AppendRefinesList(s, i, es);
  }

  // ------------------------------------------------------------------- how much is stored

  /** Between operations a table has just the blocks its positions take. */
  predicate Snug(p: Pool, o: Owner)
    requires p.blockSize > 0
  {
    |o.table| == BlocksFor(o.length, p.blockSize)
  }

  ghost predicate AllSnug(s: System)
    requires s.pool.blockSize > 0
  {
    forall u :: 0 <= u < |s.owners| ==> Snug(s.pool, s.owners[u])
  }

  /** Blocks that all lists take when nothing is shared. */
  function Footprint<T>(lists: seq<seq<T>>, size: nat): nat
    requires size > 0
  {
    if lists == [] then 0 else Footprint(lists[..|lists| - 1], size) + BlocksFor(|lists[|lists| - 1]|, size)
  }

  /** Free blocks and references together make up the pool; a shared block is counted twice. */
  lemma {:induction false} Tally(free: seq<nat>, uses: multiset<nat>, n: nat, b: nat)
    requires NoDup(free) && (forall x: nat :: x in free <==> x < n && uses[x] == 0) && forall x: nat :: x in uses ==> x < n
    ensures |free| + |uses| >= n + if uses[b] > 1 then 1 else 0
    decreases n
  {
    if n > 0 {
      if uses[n - 1] == 0 {
        RemoveNoDup<nat>(free, n - 1);
        Tally(Remove<nat>(free, n - 1), uses, n - 1, b);
      } else {
        Tally(free, uses[n - 1 := 0], n - 1, b);
      }
    }
  }

  /** The owner that is to grow has `lens[i]` positions, the others have what they hold. */
  lemma {:induction false} TablesAndLists<T>(s: System, i: nat, lists: seq<seq<T>>, k: nat)
    requires s.pool.blockSize > 0 && AllSnug(s) && i < |s.owners| == |lists| && k <= |lists|
    requires forall u :: 0 <= u < |lists| && u != i ==> |lists[u]| == s.owners[u].length
    ensures Footprint(lists[..k], s.pool.blockSize) ==
      |Total(s.owners[..k])| + if i < k then BlocksFor(|lists[i]|, s.pool.blockSize) - |s.owners[i].table| else 0
  {
    if k > 0 {
      TablesAndLists(s, i, lists, k - 1);
      assert lists[..k][..k - 1] == lists[..k - 1] && s.owners[..k] == s.owners[..k - 1] + [s.owners[k - 1]];
      TotalAppend(s.owners[..k - 1], s.owners[k - 1]);
      assert Snug(s.pool, s.owners[k - 1]);
    }
  }

  /** If the free list cannot serve a cache, the caches with what it was to hold take more blocks
      than the pool has. */
  lemma ShortageIsFullPool<T>(s: System, i: nat, n: nat, lists: seq<seq<T>>)
    requires Inv(s) && AllSnug(s) && i < |s.owners| == |lists| && n > 0 && Needed(s, i, n) > |s.pool.free|
    requires forall u :: 0 <= u < |lists| ==> |lists[u]| == s.owners[u].length + if u == i then n else 0
    ensures Footprint(lists, s.pool.blockSize) > |s.pool.refs|
  {
    hide OpenUnsealed, Bijective, IndexTrue, AllSnug, Sized;
    TablesAndLists(s, i, lists, |lists|);
    assert lists[..|lists|] == lists && s.owners[..|lists|] == s.owners;
    var j, t := FullSlots(s.pool, s.owners[i]), s.owners[i].table;
    UsedAreBlocks(s);
    Tally(s.pool.free, Total(s.owners), |s.pool.refs|, if j < |t| then t[j] else 0);
  }

  lemma UsedAreBlocks(s: System)
    requires Inv(s)
    ensures forall x: nat :: x in Total(s.owners) ==> x < |s.pool.refs|
    ensures forall x: nat :: x in s.pool.free <==> x < |s.pool.refs| && Total(s.owners)[x] == 0
  {
    hide OpenUnsealed, Bijective, IndexTrue;
    forall x: nat ensures Ref(s.pool, x) == Total(s.owners)[x] {
    }
  }

  // ------------------------------------------------------------ what keeps tables snug

  lemma {:induction false} AppendAllKeepsSnug(s: System, i: nat, cols: seq<seq<KV>>)
    requires Inv(s) && i < |s.owners| && s.pool.depth > 0 && AllSnug(s) && AppendAll(s, i, cols).Some?
    requires forall c :: 0 <= c < |cols| ==> |cols[c]| == s.pool.depth
    ensures var s' := AppendAll(s, i, cols).value;
      s'.pool.blockSize == s.pool.blockSize && AllSnug(s') && |s'.pool.refs| == |s.pool.refs|
    decreases |cols|
  {
    hide OpenUnsealed, Bijective, IndexTrue, Counted, Append;
    if cols != [] {
      AppendSucceedsIff(s, i, cols[0]);
      var s1 := Append(s, i, cols[0]).value;
      AppendKeepsInv(s, i, cols[0]);
      AppendKeepsDepth(s, i, cols[0]);
      BlocksOfNext(s.owners[i].length, s.pool.blockSize);
      forall u | 0 <= u < |s1.owners| ensures Snug(s1.pool, s1.owners[u]) {
        assert Snug(s.pool, s.owners[u]);
      }
      AppendAllKeepsSnug(s1, i, cols[1..]);
    }
  }

  /** A step that leaves lengths and tables of the others alone and adds or empties one owner. */
  lemma OneOwnerKeepsSnug(s: System, s': System, o: Owner)
    requires s.pool.blockSize > 0 && AllSnug(s) && s'.pool.blockSize == s.pool.blockSize && Snug(s'.pool, o)
    requires forall u :: 0 <= u < |s'.owners| ==> s'.owners[u] == o || (u < |s.owners| && s'.owners[u] == s.owners[u])
    ensures AllSnug(s')
  {
    forall u | 0 <= u < |s'.owners| ensures Snug(s'.pool, s'.owners[u]) {
      assert u < |s.owners| ==> Snug(s.pool, s.owners[u]);
    }
  }
}
