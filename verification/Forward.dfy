/** The hand-written batched forward pass with masks and past K/V, and the proof that on
    every left-padded, partly cached row it computes what one unpadded full pass computes. */
module Forward {
  import opened Wrappers
  import opened Transformer

  // ------------------------------------------------------------------ attention.py

  /** The entries whose flag is set, in order. */
  function Visible(kvs: seq<KV>, ok: seq<bool>): seq<KV>
    requires |kvs| == |ok|
  {
    if kvs == [] then [] else (if ok[0] then [kvs[0]] else []) + Visible(kvs[1..], ok[1..])
  }

  /** Which of `sk` keys query `i` of `sq` may read: the padding mask and, for a causal
      call, the triangle shifted by the number of past keys. */
  function MaskRow(mask: Option<seq<int>>, causal: bool, i: nat, sq: nat, sk: nat): (ok: seq<bool>)
    ensures |ok| == sk
    ensures forall j :: 0 <= j < sk ==>
      (ok[j] <==> (mask.Some? ==> j < |mask.value| && mask.value[j] != 0) && (causal ==> j <= i + sk - sq))
  {
    MaskUpTo(mask, if causal then i + sk - sq else sk, sk)
  }

  function MaskUpTo(mask: Option<seq<int>>, last: int, sk: nat): (ok: seq<bool>)
    ensures |ok| == sk
    ensures forall j :: 0 <= j < sk ==> (ok[j] <==> (mask.Some? ==> j < |mask.value| && mask.value[j] != 0) && j <= last)
  {
    if sk == 0 then [] else
      MaskUpTo(mask, last, sk - 1) + [(mask.Some? ==> sk - 1 < |mask.value| && mask.value[sk - 1] != 0) && sk - 1 <= last]
  }

  /** Masked scores get the smallest float, so their softmax weight is zero unless the
      whole row is masked. */
  function Attention(l: nat, h: Vec, pos: nat, kvs: seq<KV>, ok: seq<bool>): Vec
    requires |kvs| == |ok|
  {
    if true in ok then Attended(l, h, pos, Visible(kvs, ok)) else Blind(l, h, pos, kvs)
  }

  lemma {:induction false} VisibleInterval(kvs: seq<KV>, ok: seq<bool>, lo: nat, hi: nat)
    requires |kvs| == |ok| && lo <= hi <= |kvs|
    requires forall j :: 0 <= j < |ok| ==> (ok[j] <==> lo <= j < hi)
    ensures Visible(kvs, ok) == kvs[lo..hi]
  {
    if kvs != [] {
      var lo', hi' := if lo == 0 then 0 else lo - 1, if hi == 0 then 0 else hi - 1;
      VisibleInterval(kvs[1..], ok[1..], lo', hi');
      assert kvs[1..][lo'..hi'] == kvs[lo' + 1..hi' + 1];
      if ok[0] {
        assert kvs[lo..hi] == [kvs[0]] + kvs[1..hi];
      } else {
        assert kvs[lo..hi] == kvs[lo' + 1..hi' + 1];
      }
    }
  }

  // -------------------------------------------------------------------- one row

  /** One row of a batch: the new ids, the mask over past and new slots, the positions of
      the new slots, and the past slots of every layer. */
  datatype Row = Row(ids: seq<int>, mask: Option<seq<int>>, pos: seq<nat>, past: seq<seq<KV>>)

  type GoodRow = r: Row | |r.pos| == |r.ids| witness Row([], None, [], [])

  /** Hidden state of new slot `i` before layer `l`. */
  ghost function RowState(row: GoodRow, l: nat, i: nat): Vec
    requires l <= |row.past| && i < |row.ids|
    decreases l, 0, 0
  {
    if l == 0 then Embedding(row.ids[i])
    else Slot(l - 1, row.mask, RowState(row, l - 1, i), i, |row.ids|, row.pos[i], RowCache(row, l - 1))
  }

  /** The entries of the first `n` new slots at layer `l`. */
  ghost function NewEntries(row: GoodRow, l: nat, n: nat): (r: seq<KV>)
    requires l < |row.past| && n <= |row.ids|
    ensures |r| == n
    ensures forall i :: 0 <= i < n ==> r[i] == Entry(l, RowState(row, l, i), row.pos[i])
    decreases l, 1, n
  {
    if n == 0 then [] else NewEntries(row, l, n - 1) + [Entry(l, RowState(row, l, n - 1), row.pos[n - 1])]
  }

  /** The slots the pass reads and returns at layer `l`: past followed by new. */
  ghost function RowCache(row: GoodRow, l: nat): (r: seq<KV>)
    requires l < |row.past|
    decreases l, 2, 0
  {
    row.past[l] + NewEntries(row, l, |row.ids|)
  }

  /** The next hidden state of new slot `i` of `n` at position `pos`, given all keys `kvs`. */
  function Slot(l: nat, mask: Option<seq<int>>, h: Vec, i: nat, n: nat, pos: nat, kvs: seq<KV>): Vec {
    Attention(l, h, pos, kvs, MaskRow(mask, n > 1, i, n, |kvs|))
  }

  // ------------------------------------------------- incremental equals full forward

  /** `a` from `i` on is `b` from `j` on. */
  ghost predicate SameTail<T>(a: seq<T>, i: nat, b: seq<T>, j: nat) {
    |a| - i == |b| - j && forall k :: i <= k < |a| ==> a[k] == b[k - i + j]
  }

  /** The mask hides exactly the first `pad` slots. */
  ghost predicate HidesPadding(mask: seq<int>, pad: nat) {
    forall j :: 0 <= j < |mask| ==> (mask[j] != 0 <==> pad <= j)
  }

  ghost predicate Positions(pos: seq<nat>, skip: nat, cached: nat) {
    forall i :: skip <= i < |pos| ==> pos[i] == i - skip + cached
  }

  /** A layer's past slots are `pad` slots of anything (less those among the new slots)
      followed by the cache of the first `cached` ids. */
  ghost predicate PastHolds(past: seq<KV>, full: seq<KV>, pad: nat, skip: nat, cached: nat) {
    && |past| + skip == pad + cached && cached <= |full| && (skip == 0 || cached == 0)
    && (cached > 0 ==> past[pad..] == full[..cached])
  }

  /** The row holds `ids` behind `pad` masked slots, `cached` of them already in its past.
      The first `skip` new slots are padding.  Nothing is said about what padding holds. */
  ghost predicate Aligned(ids: seq<int>, pad: nat, skip: nat, cached: nat, row: GoodRow) {
    && (skip == 0 || cached == 0)
    && cached < |ids|
    && SameTail(row.ids, skip, ids, cached)
    && Positions(row.pos, skip, cached)
    && row.mask.Some? && |row.mask.value| == pad + |ids| && HidesPadding(row.mask.value, pad)
    && forall l :: 0 <= l < |row.past| ==> PastHolds(row.past[l], FullCache(ids, l), pad, skip, cached)
  }

  /** The real new slots have the full pass's states before layer `l`. */
  ghost predicate StatesAgree(ids: seq<int>, skip: nat, cached: nat, row: GoodRow, l: nat)
    requires l <= |row.past|
  {
    |row.ids| - skip == |ids| - cached && forall i :: skip <= i < |row.ids| ==> SlotAgrees(ids, skip, cached, row, l, i)
  }

  ghost predicate SlotAgrees(ids: seq<int>, skip: nat, cached: nat, row: GoodRow, l: nat, i: nat)
    requires l <= |row.past| && skip <= i < |row.ids| && i - skip + cached < |ids|
  {
    RowState(row, l, i) == State(ids, l, i - skip + cached)
  }

  /** The keys of a layer, padding aside, are the full pass's entries. */
  lemma KeysAgree(ids: seq<int>, pad: nat, skip: nat, cached: nat, row: GoodRow, l: nat)
    requires l < |row.past| && StatesAgree(ids, skip, cached, row, l) && skip <= |row.ids|
    requires Positions(row.pos, skip, cached) && PastHolds(row.past[l], FullCache(ids, l), pad, skip, cached)
    ensures |RowCache(row, l)| == pad + |ids| && RowCache(row, l)[pad..] == FullCache(ids, l)
  {
    var past, kvs, full := row.past[l], RowCache(row, l), FullCache(ids, l);
    forall j | pad <= j < |kvs| ensures kvs[j] == full[j - pad] {
      if j < |past| {
        assert past[pad..][j - pad] == full[..cached][j - pad];
      } else {
        assert SlotAgrees(ids, skip, cached, row, l, j - |past|);
      }
    }
  }

  /** A real query reads exactly the real keys up to its own position. */
  lemma SlotReadsOwnPrefix(l: nat, mask: seq<int>, h: Vec, i: nat, n: nat, pos: nat, kvs: seq<KV>, pad: nat)
    requires |mask| == |kvs| && i < n <= |kvs| && i + |kvs| - n == pos + pad && HidesPadding(mask, pad)
    ensures Slot(l, Some(mask), h, i, n, pos, kvs) == Attended(l, h, pos, kvs[pad..][..pos + 1])
  {
    var ok, at := MaskRow(Some(mask), n > 1, i, n, |kvs|), pos + pad;
    assert ok[at];
    VisibleInterval(kvs, ok, pad, at + 1);
    assert kvs[pad..at + 1] == kvs[pad..][..pos + 1];
  }

  /** One layer keeps the agreement of one real slot. */
  lemma SlotKeepsAgreement(ids: seq<int>, pad: nat, skip: nat, cached: nat, row: GoodRow, l: nat, i: nat)
    requires Aligned(ids, pad, skip, cached, row) && l < |row.past| && StatesAgree(ids, skip, cached, row, l)
    requires |RowCache(row, l)| == pad + |ids| && RowCache(row, l)[pad..] == FullCache(ids, l)
    requires skip <= i < |row.ids|
    ensures SlotAgrees(ids, skip, cached, row, l + 1, i)
  {
    var at := i - skip + cached;
    assert SlotAgrees(ids, skip, cached, row, l, i);
    SlotReadsOwnPrefix(l, row.mask.value, RowState(row, l, i), i, |row.ids|, at, RowCache(row, l), pad);
    CacheTake(ids, l, at + 1, |ids|);
  }

  lemma LayerKeepsAgreement(ids: seq<int>, pad: nat, skip: nat, cached: nat, row: GoodRow, l: nat, next: nat)
    requires Aligned(ids, pad, skip, cached, row) && next == l + 1 <= |row.past| && StatesAgree(ids, skip, cached, row, l)
    ensures StatesAgree(ids, skip, cached, row, next)
  {
    KeysAgree(ids, pad, skip, cached, row, l);
    forall i | skip <= i < |row.ids| ensures SlotAgrees(ids, skip, cached, row, next, i) {
      SlotKeepsAgreement(ids, pad, skip, cached, row, l, i);
    }
  }

  /** By induction over the layers: every real new slot has the full pass's state. */
  lemma {:induction false} RowStatesAreFullStates(ids: seq<int>, pad: nat, skip: nat, cached: nat, row: GoodRow, l: nat)
    requires Aligned(ids, pad, skip, cached, row) && l <= |row.past|
    ensures StatesAgree(ids, skip, cached, row, l)
  {
    if l > 0 {
      RowStatesAreFullStates(ids, pad, skip, cached, row, l - 1);
      LayerKeepsAgreement(ids, pad, skip, cached, row, l - 1, l);
    }
  }

  lemma RowCacheIsFullCache(ids: seq<int>, pad: nat, skip: nat, cached: nat, row: GoodRow, l: nat)
    requires Aligned(ids, pad, skip, cached, row) && l < |row.past|
    ensures |RowCache(row, l)| == pad + |ids| && RowCache(row, l)[pad..] == FullCache(ids, l)
  {
    RowStatesAreFullStates(ids, pad, skip, cached, row, l);
    KeysAgree(ids, pad, skip, cached, row, l);
  }

  /** Incremental forward equals full forward: for any padding and any split into cached
      past and new ids, the caches and the logits of every real slot, the last one above
      all, are those of one unpadded full pass. */
  lemma IncrementalEqualsFull(ids: seq<int>, pad: nat, skip: nat, cached: nat, row: GoodRow)
    requires Aligned(ids, pad, skip, cached, row)
    ensures row.ids != [] && Logits(RowState(row, |row.past|, |row.ids| - 1)) == FullLogits(|row.past|, ids)
    ensures StatesAgree(ids, skip, cached, row, |row.past|)
    ensures forall l :: 0 <= l < |row.past| ==>
      |RowCache(row, l)| == pad + |ids| && RowCache(row, l)[pad..] == FullCache(ids, l)
  {
    forall l | 0 <= l < |row.past|
      ensures |RowCache(row, l)| == pad + |ids| && RowCache(row, l)[pad..] == FullCache(ids, l)
    {
      RowCacheIsFullCache(ids, pad, skip, cached, row, l);
    }
    RowStatesAreFullStates(ids, pad, skip, cached, row, |row.past|);
    assert SlotAgrees(ids, skip, cached, row, |row.past|, |row.ids| - 1);
  }

  // ------------------------------------------------------------------- forward.py

  /** Inputs of one step.  `past` is layer -> row -> slots. */
  datatype StepInputs = StepInputs(
    inputIds: seq<seq<int>>, mask: Option<seq<seq<int>>>, positions: Option<seq<seq<nat>>>,
    past: Option<seq<seq<seq<KV>>>>)
  {
    function PastLen(): nat {
      if past.Some? && past.value != [] && past.value[0] != [] then |past.value[0][0]| else 0
    }

    /** The tensors agree on batch size, width and number of layers. */
    ghost predicate Valid(depth: nat) {
      && inputIds != []
      && (mask.Some? ==> |mask.value| == |inputIds|)
      && (positions.Some? ==> |positions.value| == |inputIds|)
      && (positions.Some? ==> forall b :: 0 <= b < |inputIds| ==> |positions.value[b]| == |inputIds[b]|)
      && (past.Some? ==> |past.value| == depth)
      && (past.Some? ==> forall l :: 0 <= l < depth ==> |past.value[l]| == |inputIds|)
    }

    /** Row `b` with the defaults of the call filled in. */
    function At(depth: nat, b: nat): (row: GoodRow)
      requires Valid(depth) && b < |inputIds|
      ensures |row.past| == depth
    {
      Row(inputIds[b],
          if mask.Some? then Some(mask.value[b]) else None,
          if positions.Some? then positions.value[b] else Arange(PastLen(), |inputIds[b]|),
          seq(depth, l requires 0 <= l < depth => if past.Some? then past.value[l][b] else []))
    }

    method Embed(depth: nat) returns (rows: seq<GoodRow>, h: seq<seq<Vec>>)
      requires Valid(depth)
      ensures |rows| == |inputIds| && forall b :: 0 <= b < |rows| ==> rows[b] == At(depth, b)
      ensures BatchAt(rows, depth, 0, h)
    {
      rows, h := [], [];
      for b := 0 to |inputIds|
        invariant |rows| == |h| == b
        invariant forall c :: 0 <= c < b ==> rows[c] == At(depth, c) && RowAt(rows[c], 0, h[c])
      {
        var row := At(depth, b);
        rows, h := rows + [row], h + [EmbedRow(row, |row.ids|)];
      }
    }
  }

  /** Consecutive positions, as torch.arange builds them. */
  function Arange(start: nat, n: nat): (r: seq<nat>)
    ensures |r| == n && forall i :: 0 <= i < n ==> r[i] == start + i
    decreases n
  {
    if n == 0 then [] else [start] + Arange(start + 1, n - 1)
  }

  /** `h` holds the row's hidden states before layer `l`. */
  ghost predicate RowAt(row: GoodRow, l: nat, h: seq<Vec>) {
    l <= |row.past| && |h| == |row.ids| && forall i :: 0 <= i < |h| ==> h[i] == RowState(row, l, i)
  }

  /** The tensor operations of one layer on one row of the batch. */
  function EmbedRow(row: GoodRow, n: nat): (h: seq<Vec>)
    requires n <= |row.ids|
    ensures |h| == n && forall i :: 0 <= i < n ==> h[i] == RowState(row, 0, i)
  {
    if n == 0 then [] else EmbedRow(row, n - 1) + [Embedding(row.ids[n - 1])]
  }

  function ProjectRow(row: GoodRow, l: nat, h: seq<Vec>, n: nat): (kvs: seq<KV>)
    requires l < |row.past| && n <= |h| && RowAt(row, l, h)
    ensures kvs == NewEntries(row, l, n)
  {
    if n == 0 then [] else ProjectRow(row, l, h, n - 1) + [Entry(l, h[n - 1], row.pos[n - 1])]
  }

  function AttendRow(row: GoodRow, l: nat, h: seq<Vec>, kvs: seq<KV>, n: nat): (h': seq<Vec>)
    requires l < |row.past| && n <= |h| && RowAt(row, l, h) && kvs == RowCache(row, l)
    ensures |h'| == n && forall i :: 0 <= i < n ==> h'[i] == RowState(row, l + 1, i)
  {
    if n == 0 then [] else
      AttendRow(row, l, h, kvs, n - 1) + [Slot(l, row.mask, h[n - 1], n - 1, |h|, row.pos[n - 1], kvs)]
  }

  /** One layer for one row: what it appends to the cache and the next hidden states. */
  function LayerRow(row: GoodRow, l: nat, h: seq<Vec>): (r: (seq<KV>, seq<Vec>))
    requires l < |row.past| && RowAt(row, l, h)
    ensures r.0 == RowCache(row, l) && RowAt(row, l + 1, r.1)
  {
    var kvs := row.past[l] + ProjectRow(row, l, h, |h|);
    (kvs, AttendRow(row, l, h, kvs, |h|))
  }

  ghost predicate BatchAt(rows: seq<GoodRow>, depth: nat, l: nat, h: seq<seq<Vec>>) {
    |h| == |rows| && forall b :: 0 <= b < |rows| ==> |rows[b].past| == depth && RowAt(rows[b], l, h[b])
  }

  /** One layer for the whole batch: the operations act on each row by itself. */
  method LayerBatch(rows: seq<GoodRow>, depth: nat, l: nat, h: seq<seq<Vec>>)
    returns (kvAll: seq<seq<KV>>, h': seq<seq<Vec>>)
    requires l < depth && BatchAt(rows, depth, l, h)
    ensures |kvAll| == |rows| && forall b :: 0 <= b < |rows| ==> kvAll[b] == RowCache(rows[b], l)
    ensures BatchAt(rows, depth, l + 1, h')
  {
    kvAll, h' := [], [];
    for b := 0 to |rows|
      invariant |kvAll| == |h'| == b
      invariant forall c :: 0 <= c < b ==> kvAll[c] == RowCache(rows[c], l)
      invariant forall c :: 0 <= c < b ==> RowAt(rows[c], l + 1, h'[c])
    {
      var r := LayerRow(rows[b], l, h[b]);
      kvAll, h' := kvAll + [r.0], h' + [r.1];
    }
  }

  /** The layer loop over a batch. */
  method Call(depth: nat, si: StepInputs) returns (logits: seq<seq<Logits>>, newKv: seq<seq<seq<KV>>>)
    requires si.Valid(depth)
    ensures |logits| == |si.inputIds| && |newKv| == depth
    ensures forall b :: 0 <= b < |logits| ==> LogitsOf(si.At(depth, b), logits[b])
    ensures forall l :: 0 <= l < depth ==> CachesOf(si, depth, l, newKv[l])
  {
    var rows, h := si.Embed(depth);
    newKv := [];
    for idx := 0 to depth
      invariant BatchAt(rows, depth, idx, h) && |newKv| == idx
      invariant forall l :: 0 <= l < idx ==> CachesOf(si, depth, l, newKv[l])
    {
      var kvAll;
      kvAll, h := LayerBatch(rows, depth, idx, h);
      newKv := newKv + [kvAll];
    }
    logits := [];
    for b := 0 to |h|
      invariant |logits| == b && forall c :: 0 <= c < b ==> LogitsOf(si.At(depth, c), logits[c])
    {
      logits := logits + [Head(h[b])];
    }
  }

  /** The logits of every new slot of a row. */
  ghost predicate LogitsOf(row: GoodRow, logits: seq<Logits>) {
    |logits| == |row.ids| && forall i :: 0 <= i < |logits| ==> logits[i] == Logits(RowState(row, |row.past|, i))
  }

  /** The caches returned for layer `l`, row by row. */
  ghost predicate CachesOf(si: StepInputs, depth: nat, l: nat, kvs: seq<seq<KV>>)
    requires si.Valid(depth) && l < depth
  {
    |kvs| == |si.inputIds| && forall b :: 0 <= b < |kvs| ==> kvs[b] == RowCache(si.At(depth, b), l)
  }

  function Head(h: seq<Vec>): (r: seq<Logits>)
    ensures |r| == |h| && forall i :: 0 <= i < |h| ==> r[i] == Logits(h[i])
  {
    if h == [] then [] else [Logits(h[0])] + Head(h[1..])
  }
}
