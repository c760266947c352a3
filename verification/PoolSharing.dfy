/** Sharing blocks between caches: fork, adopt, prefix match, insert and free. */
module PoolSharing {
  import opened Wrappers
  import opened Transformer
  import opened BlockPool
  import opened PoolSystem
  import opened PoolSteps
  import opened PagedCaches

  // ----------------------------------------------------------- counting references

  lemma IncrefCounts(p: Pool, uses: multiset<nat>, b: nat)
    requires CountedAs(p, uses) && b < |p.refs|
    ensures CountedAs(Incref(p, b), uses + multiset{b})
  {
    RemoveNoDup(p.free, b);
  }

  lemma DecrefCounts(p: Pool, uses: multiset<nat>, b: nat)
    requires CountedAs(p, uses) && b in uses
    ensures CountedAs(Decref(p, b), uses - multiset{b})
  {
    RemoveNoDup(p.free, b);
    assert Ref(p, b) == uses[b] && b < |p.refs|;
    var p' := Decref(p, b);
    forall x: nat ensures Ref(p', x) == (uses - multiset{b})[x] {
      assert Ref(p, x) == uses[x];
    }
  }

  function IncrefAll(p: Pool, ids: seq<nat>): Pool
    decreases |ids|
  {
    if ids == [] then p else IncrefAll(Incref(p, ids[0]), ids[1..])
  }

  function DecrefAll(p: Pool, ids: seq<nat>): Pool
    decreases |ids|
  {
    if ids == [] then p else DecrefAll(Decref(p, ids[0]), ids[1..])
  }

  /** Only the reference counts and the free list differ. */
  ghost predicate SameExceptRefs(p: Pool, p': Pool) {
    && |p'.refs| == |p.refs| && p'.store == p.store && p'.blockSize == p.blockSize && p'.depth == p.depth
    && p'.byKey == p.byKey && p'.keyOf == p.keyOf && p'.lru == p.lru
  }

  lemma {:induction false} IncrefAllCounts(p: Pool, uses: multiset<nat>, ids: seq<nat>)
    requires CountedAs(p, uses) && forall b :: b in ids ==> b < |p.refs|
    ensures CountedAs(IncrefAll(p, ids), uses + multiset(ids)) && SameExceptRefs(p, IncrefAll(p, ids))
    decreases |ids|
  {
    if ids == [] {
      assert uses + multiset(ids) == uses;
    } else {
      assert ids[0] in ids;
      IncrefCounts(p, uses, ids[0]);
      assert |Incref(p, ids[0]).refs| == |p.refs| && forall b :: b in ids[1..] ==> b in ids;
      IncrefAllCounts(Incref(p, ids[0]), uses + multiset{ids[0]}, ids[1..]);
      assert ids == [ids[0]] + ids[1..];
      assert uses + multiset(ids) == uses + multiset{ids[0]} + multiset(ids[1..]);
    }
  }

  lemma {:induction false} DecrefAllCounts(p: Pool, uses: multiset<nat>, ids: seq<nat>)
    requires CountedAs(p, uses + multiset(ids))
    ensures CountedAs(DecrefAll(p, ids), uses) && SameExceptRefs(p, DecrefAll(p, ids))
    decreases |ids|
  {
    if ids == [] {
      assert uses + multiset(ids) == uses;
    } else {
      assert ids == [ids[0]] + ids[1..];
      assert ids[0] in multiset(ids);
      DecrefCounts(p, uses + multiset(ids), ids[0]);
      assert uses + multiset(ids) - multiset{ids[0]} == uses + multiset(ids[1..]);
      DecrefAllCounts(Decref(p, ids[0]), uses, ids[1..]);
    }
  }

  lemma TablesInRange(s: System, i: nat)
    requires Inv(s) && i < |s.owners|
    ensures forall b :: b in s.owners[i].table ==> b < |s.pool.refs|
  {
    TotalHas(s.owners, i);
    forall b | b in s.owners[i].table ensures b < |s.pool.refs| {
      assert b in multiset(s.owners[i].table);
      assert Ref(s.pool, b) > 0;
    }
  }

  // ------------------------------------------------------------------- new and free

  function NewCache(s: System): System {
    System(s.pool, s.owners + [Owner([], 0)])
  }

  /** `free`: every block of the table loses one reference. */
  function Free(s: System, i: nat): System
    requires i < |s.owners|
  {
    System(DecrefAll(s.pool, s.owners[i].table), s.owners[i := Owner([], 0)])
  }

  lemma SameStoreKeepsContents(s: System, s': System, u: nat)
    requires u < |s.owners| && u < |s'.owners| && s'.owners[u] == s.owners[u]
    requires s'.pool.store == s.pool.store && s'.pool.blockSize == s.pool.blockSize && s'.pool.depth == s.pool.depth
    ensures Contents(s', u) == Contents(s, u)
  {
    SameColumns(s.pool, s.owners[u].table, s'.pool, s.owners[u].table, s.owners[u].length);
  }

  lemma SameIndexKeepsTruth(p: Pool, p': Pool)
    requires SameExceptRefs(p, p') && Bijective(p) && IndexTrue(p)
    ensures Bijective(p') && IndexTrue(p')
  {
    forall c | c in p'.keyOf ensures HoldsKey(p', c, p'.keyOf[c]) {
      assert HoldsKey(p, c, p.keyOf[c]);
    }
  }

  lemma NewCacheKeepsInv(s: System)
    requires Inv(s)
    ensures var s' := NewCache(s);
      Inv(s') && |s'.owners| == |s.owners| + 1 && OthersKept(s, s', |s.owners|) && Contents(s', |s.owners|) == []
  {
    var s' := NewCache(s);
    TotalAppend(s.owners, Owner([], 0));
    forall u | 0 <= u < |s'.owners| ensures Sized(s.pool, s'.owners[u]) {
      if u < |s.owners| {
        assert Sized(s.pool, s.owners[u]);
      }
    }
    SameOpenings(s, s');
    forall u | 0 <= u < |s.owners| ensures Contents(s', u) == Contents(s, u) {
      SameStoreKeepsContents(s, s', u);
    }
  }

  /** If every slot of `s'` was already open or full in `s`, nothing new can clash. */
  lemma SameOpenings(s: System, s': System)
    requires s.pool.blockSize > 0 && OpenUnsealed(s) && s'.pool.blockSize == s.pool.blockSize
    requires s'.pool.keyOf.Keys <= s.pool.keyOf.Keys
    requires forall u: nat :: u < |s'.owners| ==>
      s'.owners[u].table == [] || (u < |s.owners| && s'.owners[u] == s.owners[u])
    ensures OpenUnsealed(s')
  {
    forall u: nat, v: nat | Open(s', u, v) ensures s'.owners[u].table[v] !in s'.pool.keyOf {
      assert Open(s, u, v);
    }
    forall u: nat, v: nat, u': nat, v': nat | Open(s', u, v) && Full(s', u', v')
      ensures s'.owners[u].table[v] != s'.owners[u'].table[v']
    {
      assert Open(s, u, v) && Full(s, u', v');
    }
  }

  lemma FreeCounts(s: System, i: nat)
    requires Inv(s) && i < |s.owners|
    ensures Counted(Free(s, i)) && SameExceptRefs(s.pool, Free(s, i).pool)
  {
    hide OpenUnsealed, Bijective, IndexTrue, CountedAs, Sized;
    var s' := Free(s, i);
    TotalUpdate(s.owners, i, Owner([], 0));
    assert Total(s'.owners) + multiset(s.owners[i].table) == Total(s.owners);
    DecrefAllCounts(s.pool, Total(s'.owners), s.owners[i].table);
  }

  lemma FreeKeepsInv(s: System, i: nat)
    requires Inv(s) && i < |s.owners|
    ensures Inv(Free(s, i)) && OthersKept(s, Free(s, i), i) && Contents(Free(s, i), i) == []
  {
    hide OpenUnsealed, Bijective, IndexTrue, Counted, Columns, DecrefAll;
    var s' := Free(s, i);
    FreeCounts(s, i);
    SameIndexKeepsTruth(s.pool, s'.pool);
    forall u | 0 <= u < |s'.owners| ensures Sized(s'.pool, s'.owners[u]) {
      assert Sized(s.pool, s.owners[u]);
    }
    SameOpenings(s, s');
    forall u | 0 <= u < |s.owners| && u != i ensures Contents(s', u) == Contents(s, u) {
      SameStoreKeepsContents(s, s', u);
    }
  }

  /** Once every table is empty, every block is free. */
  lemma {:induction false} AllFreed(s: System)
    requires Inv(s) && forall i :: 0 <= i < |s.owners| ==> s.owners[i].table == []
    ensures forall b: nat :: b < |s.pool.refs| ==> b in s.pool.free && Ref(s.pool, b) == 0
  {
    NoTablesNoUses(s.owners);
  }

  lemma {:induction false} NoTablesNoUses(owners: seq<Owner>)
    requires forall i :: 0 <= i < |owners| ==> owners[i].table == []
    ensures Total(owners) == multiset{}
  {
    if owners != [] {
      NoTablesNoUses(owners[1..]);
    }
  }

  // ------------------------------------------------------------------ fork, adopt

  /** A new owner over existing blocks. */
  function Share(s: System, ids: seq<nat>, length: nat): System {
    System(IncrefAll(s.pool, ids), s.owners + [Owner(ids, length)])
  }

  function Fork(s: System, i: nat): System
    requires i < |s.owners|
  {
    Share(s, s.owners[i].table, s.owners[i].length)
  }

  /** `adopt` on a fresh cache: all of each block counts as valid. */
  function Adopt(s: System, ids: seq<nat>): System {
    Share(s, ids, |ids| * s.pool.blockSize)
  }

  /** The new owner's slots do not clash: its open ones are unsealed, its full ones closed. */
  ghost predicate Compatible(s: System, o: Owner)
    requires s.pool.blockSize > 0
  {
    && Sized(s.pool, o)
    && (forall b :: b in o.table ==> b < |s.pool.refs|)
    && (forall j :: FullSlots(s.pool, o) <= j < |o.table| ==> Unfinished(s, o.table[j]))
    && (forall j :: 0 <= j < |o.table| && j < FullSlots(s.pool, o) ==> Sealed(s, o.table[j]))
  }

  /** A block no open slot has: indexed, or complete for one of its owners. */
  ghost predicate Sealed(s: System, b: nat)
    requires s.pool.blockSize > 0
  {
    b in s.pool.keyOf || exists u: nat, v: nat :: Full(s, u, v) && s.owners[u].table[v] == b
  }

  /** A block that some open slot has. */
  ghost predicate Unfinished(s: System, b: nat)
    requires s.pool.blockSize > 0
  {
    exists u: nat, v: nat :: Open(s, u, v) && s.owners[u].table[v] == b
  }

  lemma ShareKeepsOpen(s: System, o: Owner, s': System)
    requires Inv(s) && Compatible(s, o)
    requires s'.owners == s.owners + [o] && s'.pool.blockSize == s.pool.blockSize && s'.pool.keyOf == s.pool.keyOf
    ensures OpenUnsealed(s')
  {
    forall u: nat, v: nat | Open(s', u, v) ensures Unfinished(s, s'.owners[u].table[v]) {
      if u < |s.owners| {
        assert Open(s, u, v);
      }
    }
    forall u: nat, v: nat, u': nat, v': nat | Open(s', u, v) && Full(s', u', v')
      ensures s'.owners[u].table[v] != s'.owners[u'].table[v']
    {
      assert Unfinished(s, s'.owners[u].table[v]);
      if u' < |s.owners| {
        assert Full(s, u', v');
      } else {
        assert Sealed(s, o.table[v']);
      }
    }
  }

  lemma ShareKeepsInv(s: System, ids: seq<nat>, length: nat)
    requires Inv(s) && Compatible(s, Owner(ids, length))
    ensures Inv(Share(s, ids, length)) && OthersKept(s, Share(s, ids, length), |s.owners|)
  {
    var s', o := Share(s, ids, length), Owner(ids, length);
    IncrefAllCounts(s.pool, Total(s.owners), ids);
    TotalAppend(s.owners, o);
    SameIndexKeepsTruth(s.pool, s'.pool);
    ShareKeepsOpen(s, o, s');
    forall u | 0 <= u < |s'.owners| ensures Sized(s'.pool, s'.owners[u]) {
      if u < |s.owners| {
        assert Sized(s.pool, s.owners[u]);
      }
    }
    forall u | 0 <= u < |s.owners| ensures Contents(s', u) == Contents(s, u) {
      SameStoreKeepsContents(s, s', u);
    }
  }

  /** A fork sees what its parent sees. */
  lemma ForkSharesContents(s: System, i: nat)
    requires Inv(s) && i < |s.owners|
    ensures var s' := Fork(s, i);
      Inv(s') && OthersKept(s, s', |s.owners|) && Contents(s', |s.owners|) == Contents(s, i)
  {
    var o := s.owners[i];
    TablesInRange(s, i);
    assert Sized(s.pool, o);
    forall j | FullSlots(s.pool, o) <= j < |o.table| ensures Unfinished(s, o.table[j]) {
      assert Open(s, i, j);
    }
    forall j | 0 <= j < |o.table| && j < FullSlots(s.pool, o) ensures Sealed(s, o.table[j]) {
      assert Full(s, i, j);
    }
    ShareKeepsInv(s, o.table, o.length);
    IncrefAllCounts(s.pool, Total(s.owners), o.table);
    var s' := Fork(s, i);
    SameColumns(s.pool, o.table, s'.pool, o.table, o.length);
  }

  lemma MultipleIsFull(n: nat, bs: nat)
    requires bs > 0
    ensures (n * bs) / bs == n && (n * bs) % bs == 0
  {
    QuotientIs(n * bs, bs, n, 0);
  }

  /** Adopting complete blocks is safe for everyone. */
  lemma AdoptKeepsInv(s: System, ids: seq<nat>)
    requires Inv(s) && forall b :: b in ids ==> b < |s.pool.refs| && Sealed(s, b)
    ensures Inv(Adopt(s, ids)) && OthersKept(s, Adopt(s, ids), |s.owners|)
  {
    MultipleIsFull(|ids|, s.pool.blockSize);
    ShareKeepsInv(s, ids, |ids| * s.pool.blockSize);
  }
}
