/** The primitive steps of a paged cache (grow, unshare, write one entry, count it) keep
    the pool invariant and every other entry any owner can see. */
module PoolSteps {
  import opened Wrappers
  import opened Transformer
  import opened BlockPool
  import opened PoolSystem

  /** `s` with pool `p` and owner `i`'s table replaced by `t`. */
  function WithTable(s: System, i: nat, p: Pool, t: seq<nat>): System
    requires i < |s.owners|
  {
    System(p, s.owners[i := Owner(t, s.owners[i].length)])
  }

  lemma WithTableTwice(s: System, i: nat, p1: Pool, t1: seq<nat>, p: Pool, t: seq<nat>)
    requires i < |s.owners|
    ensures WithTable(WithTable(s, i, p1, t1), i, p, t) == WithTable(s, i, p, t)
  {
  }

  /** From `s` to `s'` no length changes and every entry of every table stays as it was. */
  ghost predicate Preserves(s: System, s': System) {
    && s'.pool.blockSize == s.pool.blockSize && s'.pool.depth == s.pool.depth
    && |s'.owners| == |s.owners|
    && (forall i :: 0 <= i < |s.owners| ==> OwnerKept(s.owners[i], s'.owners[i]))
    && (forall i, l: nat, k: nat :: 0 <= i < |s.owners| && InTable(s, i, l, k) ==>
          Lookup(s'.pool, s'.owners[i].table, l, k) == Lookup(s.pool, s.owners[i].table, l, k))
  }

  ghost predicate OwnerKept(o: Owner, o': Owner) {
    o'.length == o.length && |o'.table| >= |o.table|
  }

  ghost predicate InTable(s: System, i: nat, l: nat, k: nat) {
    i < |s.owners| && l < s.pool.depth && s.pool.blockSize > 0 && k / s.pool.blockSize < |s.owners[i].table|
  }

  // ------------------------------------------------------------------------ alloc

  /** Dropping a reused block's entry keeps the index consistent and forgets the block. */
  lemma DropKeepsIndex(p: Pool, b: nat)
    requires Bijective(p) && IndexTrue(p)
    ensures var p' := DropBlock(p, b);
      Bijective(p') && IndexTrue(p') && p'.keyOf.Keys == p.keyOf.Keys - {b} &&
      p'.refs == p.refs && p'.free == p.free && p'.store == p.store &&
      p'.blockSize == p.blockSize && p'.depth == p.depth
  {
    var p' := DropBlock(p, b);
    if b in p.keyOf {
      RemoveNoDup(p.lru, p.keyOf[b]);
      forall c | c in p'.keyOf ensures HoldsKey(p', c, p'.keyOf[c]) {
        assert HoldsKey(p, c, p.keyOf[c]);
      }
    }
  }

  ghost predicate Allocated(p: Pool, p': Pool, b: nat) {
    && b in p.free
    && (forall x: nat :: Ref(p', x) == if x == b then 1 else Ref(p, x))
    && NoDup(p'.free) && (forall x: nat :: x in p'.free <==> x in p.free && x != b)
    && |p'.refs| == |p.refs| && p'.store == p.store && p'.blockSize == p.blockSize && p'.depth == p.depth
    && Bijective(p') && IndexTrue(p') && p'.keyOf.Keys == p.keyOf.Keys - {b}
  }

  lemma AllocTakesFreeBlock(s: System)
    requires Inv(s) && s.pool.free != []
    ensures Alloc(s.pool).Some? && Allocated(s.pool, Alloc(s.pool).value.0, Alloc(s.pool).value.1)
  {
    var p, b := s.pool, s.pool.free[0];
    var q := p.(free := p.free[1..], refs := SetRef(p.refs, b, 1));
    assert b in p.free && b < |p.refs|;
    forall c | c in q.keyOf ensures HoldsKey(q, c, q.keyOf[c]) {
      assert HoldsKey(p, c, p.keyOf[c]);
    }
    DropKeepsIndex(q, b);
    assert p.free == [b] + p.free[1..];
  }

  /** The blocks that `n` allocations in a row hand out. */
  function Handed(p: Pool, n: nat): seq<nat>
    decreases n
  {
    if n == 0 then [] else
      match Alloc(p)
      case None => []
      case Some((p1, b)) => [b] + Handed(p1, n - 1)
  }

  lemma {:induction false} HandedInOrder(p: Pool, n: nat)
    requires n <= |p.free|
    ensures Handed(p, n) == p.free[..n]
    decreases n
  {
    if n > 0 {
      HandedInOrder(Alloc(p).value.0, n - 1);
      assert p.free == [p.free[0]] + p.free[1..];
    }
  }

  /** The oldest free block goes first: a block whose last reference is given back is handed out
      again only after all that were free before it, in the order they were freed. */
  lemma FreedIsReusedLast(p: Pool, b: nat)
    requires b !in p.free && Ref(p, b) <= 1
    ensures Handed(Decref(p, b), |p.free| + 1) == p.free + [b]
  {
    HandedInOrder(Decref(p, b), |p.free| + 1);
  }

  // ----------------------------------------------------------------------- extend

  /** Owner `i` gets the freshly allocated block `b` behind its table. */
  ghost predicate Appended(s: System, i: nat, p': Pool, b: nat, s': System) {
    && Inv(s) && i < |s.owners| && Allocated(s.pool, p', b)
    && FullSlots(s.pool, s.owners[i]) == |s.owners[i].table|
    && s' == WithTable(s, i, p', s.owners[i].table + [b])
  }

  lemma AppendBlockKeepsCounted(s: System, i: nat, p': Pool, b: nat, s': System)
    requires Appended(s, i, p', b, s')
    ensures Counted(s')
  {
    forall x: nat ensures Ref(p', x) == Total(s'.owners)[x] {
      UsesAfterUpdate(s.owners, i, s'.owners[i], x);
      OccurrencesAfterAppend(s.owners[i].table, b, x);
    }
  }

  lemma AppendBlockKeepsOpen(s: System, i: nat, p': Pool, b: nat, s': System)
    requires Appended(s, i, p', b, s')
    ensures OpenUnsealed(s')
  {
    forall j: nat, k: nat | Open(s', j, k) ensures s'.owners[j].table[k] !in p'.keyOf {
      if s'.owners[j].table[k] != b {
        assert Open(s, j, k);
      }
    }
    forall j: nat, k: nat, j': nat, k': nat | Open(s', j, k) && Full(s', j', k')
      ensures s'.owners[j].table[k] != s'.owners[j'].table[k']
    {
      assert Full(s, j', k');
      if j == i && k == |s.owners[i].table| {
        FreeIsUnused(s, b, j', k');
      } else {
        assert Open(s, j, k);
      }
    }
  }

  lemma AppendBlockPreserves(s: System, i: nat, p': Pool, b: nat, s': System)
    requires Appended(s, i, p', b, s')
    ensures Preserves(s, s') && forall j :: 0 <= j < |s'.owners| ==> Sized(p', s'.owners[j])
  {
    forall j | 0 <= j < |s'.owners| ensures Sized(p', s'.owners[j]) {
      assert Sized(s.pool, s.owners[j]);
    }
  }

  lemma AppendBlockKeepsInv(s: System, i: nat, p': Pool, b: nat, s': System)
    requires Appended(s, i, p', b, s')
    ensures Inv(s') && Preserves(s, s')
  {
    AppendBlockKeepsCounted(s, i, p', b, s');
    AppendBlockKeepsOpen(s, i, p', b, s');
    AppendBlockPreserves(s, i, p', b, s');
  }

  lemma ExtendKeepsInv(s: System, i: nat)
    requires Inv(s) && i < |s.owners|
    ensures var j := FullSlots(s.pool, s.owners[i]);
      var r := Extend(s.pool, s.owners[i].table, j);
      r.Some? ==> var s' := WithTable(s, i, r.value.0, r.value.1);
        Inv(s') && Preserves(s, s') && j < |r.value.1|
  {
    var t := s.owners[i].table;
    var j := FullSlots(s.pool, s.owners[i]);
    assert Sized(s.pool, s.owners[i]);
    if j == |t| {
      if s.pool.free != [] {
        AllocTakesFreeBlock(s);
        var (p', b) := Alloc(s.pool).value;
        AppendBlockKeepsInv(s, i, p', b, WithTable(s, i, p', t + [b]));
      }
    } else {
      assert WithTable(s, i, s.pool, t) == s;
    }
  }

  // ---------------------------------------------------------------- copy on write

  /** The pool after the shared block `old_` was copied to the fresh block `b`. */
  ghost predicate Copied(p: Pool, p': Pool, old_: nat, b: nat) {
    && b in p.free && old_ != b
    && (forall x: nat :: Ref(p', x) == if x == b then 1 else if x == old_ then Ref(p, x) - 1 else Ref(p, x))
    && NoDup(p'.free) && (forall x: nat :: x in p'.free <==> x in p.free && x != b)
    && |p'.refs| == |p.refs| && p'.blockSize == p.blockSize && p'.depth == p.depth
    && (forall l: nat, x: nat, o: nat :: Get(p'.store, l, x, o) ==
         (if l < p.depth && x == b && o < p.blockSize then Get(p.store, l, old_, o) else Get(p.store, l, x, o)))
    && Bijective(p') && IndexTrue(p') && p'.keyOf.Keys == p.keyOf.Keys - {b}
  }

  lemma CopyThenDecref(p: Pool, p1: Pool, old_: nat, b: nat)
    requires Allocated(p, p1, b) && old_ != b && Ref(p, old_) > 1
    ensures Copied(p, Decref(p1.(store := CopyBlock(p1.store, p.depth, old_, b, p.blockSize)), old_), old_, b)
  {
    var p2 := p1.(store := CopyBlock(p1.store, p.depth, old_, b, p.blockSize));
    var p' := Decref(p2, old_);
    assert old_ < |p1.refs| && p' == p2.(refs := p1.refs[old_ := p1.refs[old_] - 1]);
    forall c | c in p'.keyOf ensures HoldsKey(p', c, p'.keyOf[c]) {
      assert HoldsKey(p1, c, p1.keyOf[c]);
    }
  }

  lemma CopyOnWriteCopies(s: System, old_: nat)
    requires Inv(s) && Ref(s.pool, old_) > 1 && s.pool.free != []
    ensures CopyOnWrite(s.pool, old_).Some?
    ensures Copied(s.pool, CopyOnWrite(s.pool, old_).value.0, old_, CopyOnWrite(s.pool, old_).value.1)
  {
    AllocTakesFreeBlock(s);
    var (p1, b) := Alloc(s.pool).value;
    CopyThenDecref(s.pool, p1, old_, b);
  }

  /** Owner `i`'s open slot `j` moves from a shared block to the private copy `b`. */
  ghost predicate Moved(s: System, i: nat, j: nat, p': Pool, b: nat, s': System) {
    && Inv(s) && Open(s, i, j) && Copied(s.pool, p', s.owners[i].table[j], b)
    && s' == WithTable(s, i, p', s.owners[i].table[j := b])
  }

  lemma MoveKeepsCounted(s: System, i: nat, j: nat, p': Pool, b: nat, s': System)
    requires Moved(s, i, j, p', b, s') && Ref(s.pool, s.owners[i].table[j]) > 1
    ensures Counted(s')
  {
    forall x: nat ensures Ref(p', x) == Total(s'.owners)[x] {
      UsesAfterUpdate(s.owners, i, s'.owners[i], x);
      OccurrencesAfterReplace(s.owners[i].table, j, b, x);
    }
  }

  lemma MoveKeepsOpen(s: System, i: nat, j: nat, p': Pool, b: nat, s': System)
    requires Moved(s, i, j, p', b, s')
    ensures OpenUnsealed(s')
  {
    forall u: nat, v: nat | Open(s', u, v) ensures s'.owners[u].table[v] !in p'.keyOf {
      assert Open(s, u, v);
    }
    forall u: nat, v: nat, u': nat, v': nat | Open(s', u, v) && Full(s', u', v')
      ensures s'.owners[u].table[v] != s'.owners[u'].table[v']
    {
      assert Open(s, u, v) && Full(s, u', v');
      FreeIsUnused(s, b, u', v');
    }
  }

  lemma MovePreserves(s: System, i: nat, j: nat, p': Pool, b: nat, s': System)
    requires Moved(s, i, j, p', b, s')
    ensures Preserves(s, s')
  {
    hide OpenUnsealed, Bijective, IndexTrue, Counted, Sized;
    forall u, l: nat, k: nat | 0 <= u < |s.owners| && InTable(s, u, l, k)
      ensures Lookup(p', s'.owners[u].table, l, k) == Lookup(s.pool, s.owners[u].table, l, k)
    {
      FreeIsUnused(s, b, u, k / s.pool.blockSize);
    }
  }

  lemma UnshareKeepsInv(s: System, i: nat, j: nat)
    requires Inv(s) && Open(s, i, j)
    ensures var r := Unshare(s.pool, s.owners[i].table, j);
      r.Some? ==> var s' := WithTable(s, i, r.value.0, r.value.1);
        Inv(s') && Preserves(s, s') && |r.value.1| == |s.owners[i].table| && Ref(r.value.0, r.value.1[j]) == 1
  {
    var t := s.owners[i].table;
    SlotsOfBlock(s, i, j, i, j);
    if Ref(s.pool, t[j]) <= 1 {
      assert WithTable(s, i, s.pool, t) == s;
    } else if s.pool.free != [] {
      CopyOnWriteCopies(s, t[j]);
      var (p', b) := CopyOnWrite(s.pool, t[j]).value;
      var s' := WithTable(s, i, p', t[j := b]);
      MoveKeepsCounted(s, i, j, p', b, s');
      MoveKeepsOpen(s, i, j, p', b, s');
      MovePreserves(s, i, j, p', b, s');
      forall u | 0 <= u < |s'.owners| ensures Sized(p', s'.owners[u]) {
        assert Sized(s.pool, s.owners[u]);
      }
    }
  }

  // ------------------------------------------------------------------ write, count

  /** Every entry but the one at offset `off` of owner `i`'s slot `j` in layer `l` is kept. */
  ghost predicate KeepsOthers(s: System, p': Pool, i: nat, j: nat, l: nat, off: nat) {
    && p'.blockSize == s.pool.blockSize && p'.depth == s.pool.depth
    && forall u, l': nat, k: nat ::
      0 <= u < |s.owners| && InTable(s, u, l', k) && !IsSlot(s, i, j, l, off, u, l', k)
      ==> Lookup(p', s.owners[u].table, l', k) == Lookup(s.pool, s.owners[u].table, l', k)
  }

  ghost predicate IsSlot(s: System, i: nat, j: nat, l: nat, off: nat, u: nat, l': nat, k: nat) {
    s.pool.blockSize > 0 && u == i && l' == l && k / s.pool.blockSize == j && k % s.pool.blockSize == off
  }

  /** The open block written is not indexed, so the index stays true. */
  lemma PutKeepsIndex(s: System, i: nat, j: nat, l: nat, off: nat, e: KV, p': Pool)
    requires Inv(s) && Open(s, i, j)
    requires p' == s.pool.(store := Put(s.pool.store, l, s.owners[i].table[j], off, e))
    ensures Bijective(p') && IndexTrue(p')
  {
    forall c | c in p'.keyOf ensures HoldsKey(p', c, p'.keyOf[c]) {
      assert HoldsKey(s.pool, c, s.pool.keyOf[c]);
    }
  }

  lemma SameTablesKeepOpen(s: System, s': System)
    requires s.pool.blockSize > 0 && OpenUnsealed(s)
    requires s'.owners == s.owners && s'.pool.blockSize == s.pool.blockSize && s'.pool.keyOf == s.pool.keyOf
    ensures OpenUnsealed(s')
  {
    forall u: nat, v: nat | Open(s', u, v) ensures s'.owners[u].table[v] !in s'.pool.keyOf {
      assert Open(s, u, v);
    }
    forall u: nat, v: nat, u': nat, v': nat | Open(s', u, v) && Full(s', u', v')
      ensures s'.owners[u].table[v] != s'.owners[u'].table[v']
    {
      assert Open(s, u, v) && Full(s, u', v');
    }
  }

  lemma PutKeepsOthers(s: System, i: nat, j: nat, l: nat, off: nat, e: KV, p': Pool)
    requires Inv(s) && Open(s, i, j) && Ref(s.pool, s.owners[i].table[j]) == 1
    requires p' == s.pool.(store := Put(s.pool.store, l, s.owners[i].table[j], off, e))
    ensures KeepsOthers(s, p', i, j, l, off)
  {
    hide OpenUnsealed, Bijective, IndexTrue, Counted, Sized;
    forall u, l': nat, k: nat | 0 <= u < |s.owners| && InTable(s, u, l', k) && !IsSlot(s, i, j, l, off, u, l', k)
      ensures Lookup(p', s.owners[u].table, l', k) == Lookup(s.pool, s.owners[u].table, l', k)
    {
      var v := k / s.pool.blockSize;
      if s.owners[u].table[v] == s.owners[i].table[j] {
        SlotsOfBlock(s, i, j, u, v);
      }
    }
  }

  /** Writing into a private open slot disturbs no other entry, mapped or visible. */
  lemma PutKeepsInv(s: System, i: nat, j: nat, l: nat, off: nat, e: KV)
    requires Inv(s) && Open(s, i, j) && Ref(s.pool, s.owners[i].table[j]) == 1
    ensures var p' := s.pool.(store := Put(s.pool.store, l, s.owners[i].table[j], off, e));
      Inv(System(p', s.owners)) && KeepsOthers(s, p', i, j, l, off)
  {
    var p' := s.pool.(store := Put(s.pool.store, l, s.owners[i].table[j], off, e));
    PutKeepsIndex(s, i, j, l, off, e, p');
    PutKeepsOthers(s, i, j, l, off, e, p');
    SameTablesKeepOpen(s, System(p', s.owners));
    forall u | 0 <= u < |s.owners| ensures Sized(p', s.owners[u]) {
      assert Sized(s.pool, s.owners[u]);
    }
  }

  /** Owner `i`'s private open slot gets one more valid entry. */
  ghost predicate Advanced(s: System, i: nat, s': System) {
    && Inv(s) && i < |s.owners|
    && Open(s, i, FullSlots(s.pool, s.owners[i]))
    && Ref(s.pool, s.owners[i].table[FullSlots(s.pool, s.owners[i])]) == 1
    && s' == System(s.pool, s.owners[i := s.owners[i].(length := s.owners[i].length + 1)])
  }

  lemma AdvanceKeepsCounted(s: System, i: nat, s': System)
    requires Advanced(s, i, s')
    ensures Counted(s') && forall u :: 0 <= u < |s'.owners| ==> Sized(s.pool, s'.owners[u])
  {
    NextPosition(s.owners[i].length, s.pool.blockSize);
    forall x: nat ensures Total(s'.owners)[x] == Total(s.owners)[x] {
      UsesAfterUpdate(s.owners, i, s'.owners[i], x);
    }
    forall u | 0 <= u < |s'.owners| ensures Sized(s.pool, s'.owners[u]) {
      assert Sized(s.pool, s.owners[u]);
    }
  }

  /** The slot may become full; no one else has its block open, because it is private. */
  lemma AdvanceKeepsOpen(s: System, i: nat, s': System)
    requires Advanced(s, i, s')
    ensures OpenUnsealed(s')
  {
    var j := FullSlots(s.pool, s.owners[i]);
    NextPosition(s.owners[i].length, s.pool.blockSize);
    forall u: nat, v: nat | Open(s', u, v) ensures s'.owners[u].table[v] !in s.pool.keyOf {
      assert Open(s, u, v);
    }
    forall u: nat, v: nat, u': nat, v': nat | Open(s', u, v) && Full(s', u', v')
      ensures s'.owners[u].table[v] != s'.owners[u'].table[v']
    {
      assert Open(s, u, v);
      if u' == i && v' == j {
        if s.owners[u].table[v] == s.owners[i].table[j] {
          SlotsOfBlock(s, i, j, u, v);
        }
      } else {
        assert Full(s, u', v');
      }
    }
  }

  lemma AdvanceKeepsInv(s: System, i: nat, s': System)
    requires Advanced(s, i, s')
    ensures Inv(s')
  {
    AdvanceKeepsCounted(s, i, s');
    AdvanceKeepsOpen(s, i, s');
  }
}
