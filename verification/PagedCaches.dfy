/** Operations of paged caches over one shared pool, and their refinement: each cache's
    view behaves as a private list of entries whatever the others do. */
module PagedCaches {
  import opened Wrappers
  import opened Transformer
  import opened BlockPool
  import opened PoolSystem
  import opened PoolSteps

  // --------------------------------------------------------------------- contents

  /** The entries of position `k` in the first `n` layers. */
  function Column(p: Pool, table: seq<nat>, k: nat, n: nat): (c: seq<KV>)
    ensures |c| == n && forall l :: 0 <= l < n ==> c[l] == Lookup(p, table, l, k)
  {
    if n == 0 then [] else Column(p, table, k, n - 1) + [Lookup(p, table, n - 1, k)]
  }

  function Columns(p: Pool, table: seq<nat>, n: nat): (cs: seq<seq<KV>>)
    ensures |cs| == n && forall k :: 0 <= k < n ==> cs[k] == Column(p, table, k, p.depth)
  {
    if n == 0 then [] else Columns(p, table, n - 1) + [Column(p, table, n - 1, p.depth)]
  }

  /** What owner `i` sees: one column of entries per valid position. */
  function Contents(s: System, i: nat): (cs: seq<seq<KV>>)
    requires i < |s.owners|
    ensures |cs| == s.owners[i].length
  {
    Columns(s.pool, s.owners[i].table, s.owners[i].length)
  }

  /** Everyone but `i` sees what they saw. */
  ghost predicate OthersKept(s: System, s': System, i: nat) {
    && s'.pool.depth == s.pool.depth && s'.pool.blockSize == s.pool.blockSize
    && |s.owners| <= |s'.owners|
    && forall u :: 0 <= u < |s.owners| && u != i ==> Contents(s', u) == Contents(s, u)
  }

  /** Two caches that agree on every entry below `n` have the same columns. */
  lemma {:induction false} SameColumns(p: Pool, t: seq<nat>, p': Pool, t': seq<nat>, n: nat)
    requires p'.depth == p.depth
    requires forall l: nat, k: nat :: l < p.depth && k < n ==> Lookup(p', t', l, k) == Lookup(p, t, l, k)
    ensures Columns(p', t', n) == Columns(p, t, n)
  {
    forall k | 0 <= k < n ensures Column(p', t', k, p.depth) == Column(p, t, k, p.depth) {
    }
  }

  lemma ValidPositionsAreInTable(s: System, u: nat, k: nat)
    requires Inv(s) && u < |s.owners| && k < s.owners[u].length
    ensures k / s.pool.blockSize < |s.owners[u].table|
  {
    assert Sized(s.pool, s.owners[u]);
    PositionBelow(k, s.owners[u].length, s.pool.blockSize);
  }

  // ------------------------------------------------------------- writing a position

  /** `s'` is `s` with owner `i` having entries of the layers from `l` on written at its
      next position: tables may move, everything else stays. */
  ghost predicate Written(s: System, s': System, i: nat, l: nat) {
    && s'.pool.blockSize == s.pool.blockSize && s'.pool.depth == s.pool.depth
    && |s'.owners| == |s.owners|
    && (forall u :: 0 <= u < |s.owners| ==> OwnerKept(s.owners[u], s'.owners[u]))
    && (forall u, l': nat, k: nat :: 0 <= u < |s.owners| && InTable(s, u, l', k) &&
          !(u == i && l' >= l && k == s.owners[u].length)
          ==> Lookup(s'.pool, s'.owners[u].table, l', k) == Lookup(s.pool, s.owners[u].table, l', k))
  }

  /** Owner `i`'s next position lies in a block of its own. */
  ghost predicate Ready(s: System, i: nat)
    requires s.pool.blockSize > 0
  {
    && i < |s.owners| && Open(s, i, FullSlots(s.pool, s.owners[i]))
    && Ref(s.pool, s.owners[i].table[FullSlots(s.pool, s.owners[i])]) == 1
  }

  lemma PrepareKeepsInv(s: System, i: nat)
    requires Inv(s) && i < |s.owners|
    ensures var j := FullSlots(s.pool, s.owners[i]);
      var r := Extend(s.pool, s.owners[i].table, j);
      r.Some? ==> var r2 := Unshare(r.value.0, r.value.1, j);
        r2.Some? ==> var s' := WithTable(s, i, r2.value.0, r2.value.1);
          Inv(s') && Preserves(s, s') && Ready(s', i)
  {
    var j := FullSlots(s.pool, s.owners[i]);
    ExtendKeepsInv(s, i);
    var r := Extend(s.pool, s.owners[i].table, j);
    if r.Some? {
      var s1 := WithTable(s, i, r.value.0, r.value.1);
      assert Open(s1, i, j);
      UnshareKeepsInv(s1, i, j);
      var r2 := Unshare(r.value.0, r.value.1, j);
      if r2.Some? {
        PreservesTransitive(s, s1, WithTable(s1, i, r2.value.0, r2.value.1));
        WithTableTwice(s, i, r.value.0, r.value.1, r2.value.0, r2.value.1);
      }
    }
  }

  lemma PreservesTransitive(a: System, b: System, c: System)
    requires Preserves(a, b) && Preserves(b, c)
    ensures Preserves(a, c)
  {
    forall i, l: nat, k: nat | 0 <= i < |a.owners| && InTable(a, i, l, k)
      ensures Lookup(c.pool, c.owners[i].table, l, k) == Lookup(a.pool, a.owners[i].table, l, k)
    {
      assert OwnerKept(a.owners[i], b.owners[i]);
      assert InTable(b, i, l, k);
    }
    forall i | 0 <= i < |a.owners| ensures OwnerKept(a.owners[i], c.owners[i]) {
      assert OwnerKept(a.owners[i], b.owners[i]) && OwnerKept(b.owners[i], c.owners[i]);
    }
  }

  lemma WriteAtKeepsInv(s: System, i: nat, l: nat, e: KV)
    requires Inv(s) && i < |s.owners| && l < s.pool.depth
    ensures var r := WriteAt(s.pool, s.owners[i].table, s.owners[i].length, l, e);
      r.Some? ==> var s' := WithTable(s, i, r.value.0, r.value.1);
        Inv(s') && Ready(s', i) && Written(s, s', i, l) &&
        (forall u, l': nat, k: nat :: 0 <= u < |s.owners| && InTable(s, u, l', k) && l' != l ==>
          Lookup(s'.pool, s'.owners[u].table, l', k) == Lookup(s.pool, s.owners[u].table, l', k)) &&
        Lookup(s'.pool, s'.owners[i].table, l, s.owners[i].length) == e
  {
    var pos := s.owners[i].length;
    var j, off := FullSlots(s.pool, s.owners[i]), pos % s.pool.blockSize;
    PrepareKeepsInv(s, i);
    var r := WriteAt(s.pool, s.owners[i].table, pos, l, e);
    if r.Some? {
      var (p1, t1) := Extend(s.pool, s.owners[i].table, j).value;
      var (p2, t2) := Unshare(p1, t1, j).value;
      var s2 := WithTable(s, i, p2, t2);
      PutKeepsInv(s2, i, j, l, off, e);
      var s' := WithTable(s, i, r.value.0, r.value.1);
      assert s' == System(r.value.0, s2.owners);
      WrittenFromParts(s, s2, s', i, j, l, off);
    }
  }

  lemma WrittenFromParts(s: System, s2: System, s': System, i: nat, j: nat, l: nat, off: nat)
    requires Inv(s) && i < |s.owners| && Preserves(s, s2) && KeepsOthers(s2, s'.pool, i, j, l, off)
    requires s'.owners == s2.owners
    requires j == FullSlots(s.pool, s.owners[i]) && off == s.owners[i].length % s.pool.blockSize
    ensures Written(s, s', i, l)
    ensures forall u, l': nat, k: nat :: 0 <= u < |s.owners| && InTable(s, u, l', k) && l' != l ==>
          Lookup(s'.pool, s'.owners[u].table, l', k) == Lookup(s.pool, s.owners[u].table, l', k)
  {
    forall u, l': nat, k: nat | 0 <= u < |s.owners| && InTable(s, u, l', k) && !(u == i && l' == l && k == s.owners[u].length)
      ensures Lookup(s'.pool, s'.owners[u].table, l', k) == Lookup(s.pool, s.owners[u].table, l', k)
    {
      assert OwnerKept(s.owners[u], s2.owners[u]);
      assert InTable(s2, u, l', k);
      if IsSlot(s2, i, j, l, off, u, l', k) {
        SamePosition(k, s.owners[i].length, s.pool.blockSize);
      }
    }
  }

  lemma SamePosition(a: nat, b: nat, bs: nat)
    requires bs > 0 && a / bs == b / bs && a % bs == b % bs
    ensures a == b
  {
    assert a == (a / bs) * bs + a % bs && b == (b / bs) * bs + b % bs;
  }

  // ---------------------------------------------------------------------- append

  /** The layers below `l` already hold `es` at owner `i`'s next position. */
  ghost predicate LayersDone(s: System, i: nat, es: seq<KV>, l: nat)
    requires s.pool.blockSize > 0
  {
    && i < |s.owners| && l <= |es| == s.pool.depth
    && (l > 0 ==> Ready(s, i))
    && forall m: nat :: m < l ==> Lookup(s.pool, s.owners[i].table, m, s.owners[i].length) == es[m]
  }

  /** Writing the layers from `l` on turns `s` into `s'`. */
  ghost predicate LayersWritten(s: System, i: nat, es: seq<KV>, l: nat, s': System) {
    && s.pool.blockSize > 0 && i < |s.owners| == |s'.owners| && l <= |es|
    && WriteLayers(s.pool, s.owners[i].table, s.owners[i].length, es, l) == Some((s'.pool, s'.owners[i].table))
    && s' == WithTable(s, i, s'.pool, s'.owners[i].table)
  }

  lemma WriteLayerKeepsInv(s: System, i: nat, es: seq<KV>, l: nat, s': System) returns (s1: System)
    requires Inv(s) && LayersDone(s, i, es, l) && l < |es| && LayersWritten(s, i, es, l, s')
    ensures Inv(s1) && Written(s, s1, i, l) && LayersDone(s1, i, es, l + 1) && LayersWritten(s1, i, es, l + 1, s')
  {
    WriteAtKeepsInv(s, i, l, es[l]);
    var w := WriteAt(s.pool, s.owners[i].table, s.owners[i].length, l, es[l]);
    s1 := WithTable(s, i, w.value.0, w.value.1);
    LayerDone(s, s1, i, es, l);
    WithTableTwice(s, i, w.value.0, w.value.1, s'.pool, s'.owners[i].table);
  }

  lemma {:induction false} WriteLayersKeepsInv(s: System, i: nat, es: seq<KV>, l: nat, s': System)
    requires Inv(s) && LayersDone(s, i, es, l) && LayersWritten(s, i, es, l, s')
    ensures Inv(s') && Written(s, s', i, l) && LayersDone(s', i, es, |es|)
    decreases |es| - l
  {
    if l == |es| {
      assert s' == s;
    } else {
      var s1 := WriteLayerKeepsInv(s, i, es, l, s');
      WriteLayersKeepsInv(s1, i, es, l + 1, s');
      WrittenTransitive(s, s1, s', i, l);
    }
  }

  lemma LayerDone(s: System, s1: System, i: nat, es: seq<KV>, l: nat)
    requires Inv(s) && LayersDone(s, i, es, l) && l < |es|
    requires Inv(s1) && Written(s, s1, i, l) && Ready(s1, i)
    requires forall u, l': nat, k: nat :: 0 <= u < |s.owners| && InTable(s, u, l', k) && l' != l ==>
      Lookup(s1.pool, s1.owners[u].table, l', k) == Lookup(s.pool, s.owners[u].table, l', k)
    requires Lookup(s1.pool, s1.owners[i].table, l, s.owners[i].length) == es[l]
    ensures LayersDone(s1, i, es, l + 1)
  {
    assert OwnerKept(s.owners[i], s1.owners[i]);
    forall m: nat | m < l + 1 ensures Lookup(s1.pool, s1.owners[i].table, m, s1.owners[i].length) == es[m] {
      if m < l {
        assert InTable(s, i, m, s.owners[i].length);
      }
    }
  }

  lemma WrittenTransitive(a: System, b: System, c: System, i: nat, l: nat)
    requires Written(a, b, i, l) && Written(b, c, i, l + 1)
    ensures Written(a, c, i, l)
  {
    forall u, l': nat, k: nat | 0 <= u < |a.owners| && InTable(a, u, l', k) && !(u == i && l' >= l && k == a.owners[u].length)
      ensures Lookup(c.pool, c.owners[u].table, l', k) == Lookup(a.pool, a.owners[u].table, l', k)
    {
      assert OwnerKept(a.owners[u], b.owners[u]);
      assert InTable(b, u, l', k);
    }
    forall u | 0 <= u < |a.owners| ensures OwnerKept(a.owners[u], c.owners[u]) {
      assert OwnerKept(a.owners[u], b.owners[u]) && OwnerKept(b.owners[u], c.owners[u]);
    }
  }

  /** `append_from_output`: one column of entries at the next position. */
  function Append(s: System, i: nat, es: seq<KV>): Option<System>
    requires s.pool.blockSize > 0 && i < |s.owners|
  {
    match WriteLayers(s.pool, s.owners[i].table, s.owners[i].length, es, 0)
    case None => None
    case Some((p, t)) => Some(System(p, s.owners[i := Owner(t, s.owners[i].length + 1)]))
  }

  /** Owner `i` sees `cols` more; nobody else's view changed and the pool is consistent. */
  ghost predicate Grown(s: System, s': System, i: nat, cols: seq<seq<KV>>) {
    && Inv(s') && i < |s.owners| == |s'.owners|
    && OthersKept(s, s', i)
    && Contents(s', i) == Contents(s, i) + cols
  }

  /** Appending is appending to a private list. */
  lemma AppendRefinesList(s: System, i: nat, es: seq<KV>)
    requires Inv(s) && i < |s.owners| && |es| == s.pool.depth > 0
    ensures var r := Append(s, i, es); r.Some? ==> Grown(s, r.value, i, [es])
  {
    if Append(s, i, es).Some? {
      AppendKeepsInv(s, i, es);
      AppendAddsColumn(s, i, es);
    }
  }

  lemma AppendKeepsInv(s: System, i: nat, es: seq<KV>)
    requires Inv(s) && i < |s.owners| && |es| == s.pool.depth > 0 && Append(s, i, es).Some?
    ensures Inv(Append(s, i, es).value)
  {
    hide WriteLayers, Counted, OpenUnsealed, Bijective, IndexTrue, Written;
    var w := WriteLayers(s.pool, s.owners[i].table, s.owners[i].length, es, 0);
    var s1, s' := WithTable(s, i, w.value.0, w.value.1), Append(s, i, es).value;
    WriteLayersKeepsInv(s, i, es, 0, s1);
    assert s'.owners == s1.owners[i := s1.owners[i].(length := s1.owners[i].length + 1)];
    AdvanceKeepsInv(s1, i, s');
  }

  lemma AppendAddsColumn(s: System, i: nat, es: seq<KV>)
    requires Inv(s) && i < |s.owners| && |es| == s.pool.depth > 0 && Append(s, i, es).Some?
    ensures OthersKept(s, Append(s, i, es).value, i)
    ensures Contents(Append(s, i, es).value, i) == Contents(s, i) + [es]
  {
    var w := WriteLayers(s.pool, s.owners[i].table, s.owners[i].length, es, 0);
    var s1 := WithTable(s, i, w.value.0, w.value.1);
    WriteLayersKeepsInv(s, i, es, 0, s1);
    WrittenKeepsContents(s, s1, i);
    assert Column(s1.pool, s1.owners[i].table, s.owners[i].length, s.pool.depth) == es;
  }

  lemma WrittenKeepsContents(s: System, s1: System, i: nat)
    requires Inv(s) && i < |s.owners| && Written(s, s1, i, 0)
    ensures forall u :: 0 <= u < |s.owners| ==> Contents(s1, u) == Contents(s, u)
  {
    forall u | 0 <= u < |s.owners| ensures Contents(s1, u) == Contents(s, u) {
      assert OwnerKept(s.owners[u], s1.owners[u]);
      forall l: nat, k: nat | l < s.pool.depth && k < s.owners[u].length
        ensures Lookup(s1.pool, s1.owners[u].table, l, k) == Lookup(s.pool, s.owners[u].table, l, k)
      {
        ValidPositionsAreInTable(s, u, k);
        assert InTable(s, u, l, k);
      }
      SameColumns(s.pool, s.owners[u].table, s1.pool, s1.owners[u].table, s.owners[u].length);
    }
  }

  // --------------------------------------------------------------------- prefill

  /** `init_from_prefill`: the columns of the positions that are not cached yet. */
  function AppendAll(s: System, i: nat, cols: seq<seq<KV>>): Option<System>
    requires s.pool.blockSize > 0 && i < |s.owners|
    decreases |cols|
  {
    if cols == [] then Some(s) else
      match Append(s, i, cols[0])
      case None => None
      case Some(s1) => if s1.pool.blockSize > 0 && i < |s1.owners| then AppendAll(s1, i, cols[1..]) else None
  }

  lemma {:induction false} AppendAllRefinesList(s: System, i: nat, cols: seq<seq<KV>>)
    requires Inv(s) && i < |s.owners| && s.pool.depth > 0
    requires forall c :: 0 <= c < |cols| ==> |cols[c]| == s.pool.depth
    ensures var r := AppendAll(s, i, cols); r.Some? ==> Grown(s, r.value, i, cols)
    decreases |cols|
  {
    if cols == [] {
      assert Contents(s, i) + cols == Contents(s, i);
    } else {
      AppendRefinesList(s, i, cols[0]);
      var r1 := Append(s, i, cols[0]);
      if r1.Some? {
        AppendAllRefinesList(r1.value, i, cols[1..]);
        var r := AppendAll(r1.value, i, cols[1..]);
        if r.Some? {
          GrownTransitive(s, r1.value, r.value, i, cols);
        }
      }
    }
  }

  lemma GrownTransitive(a: System, b: System, c: System, i: nat, cols: seq<seq<KV>>)
    requires cols != [] && Grown(a, b, i, [cols[0]]) && Grown(b, c, i, cols[1..])
    ensures Grown(a, c, i, cols)
  {
    assert Contents(a, i) + cols == (Contents(a, i) + [cols[0]]) + cols[1..];
  }
}
