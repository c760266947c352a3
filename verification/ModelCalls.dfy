/** The three model calls of the engine: a left-padded prefill batch, the suffix of one
    prompt over a cached prefix, and one decode step for a batch of caches.  Whatever the
    batch, each row comes back as if its sequence had been run alone and uncached. */
module ModelCalls {
  import opened Wrappers
  import opened Transformer
  import opened Forward
  import opened Batching
  import opened PrefixIndex

  /** Row `b` of a call's results is the full pass over `ids`, behind `pad` slots. */
  ghost predicate RowIsFullPass(depth: nat, ids: seq<int>, pad: nat, b: nat, logits: seq<seq<Logits>>, kv: seq<seq<seq<KV>>>) {
    && ids != [] && b < |logits| && logits[b] != [] && logits[b][|logits[b]| - 1] == FullLogits(depth, ids)
    && |kv| == depth && forall l :: 0 <= l < depth ==> LayerIsFullCache(ids, l, pad, b, kv[l])
  }

  ghost predicate LayerIsFullCache(ids: seq<int>, l: nat, pad: nat, b: nat, rows: seq<seq<KV>>) {
    b < |rows| && |rows[b]| == pad + |ids| && rows[b][pad..] == FullCache(ids, l)
  }

  /** A row that carries `ids` comes back right, by `IncrementalEqualsFull`. */
  lemma CallOnAlignedRow(depth: nat, si: StepInputs, ids: seq<int>, pad: nat, skip: nat, cached: nat, b: nat,
                         logits: seq<seq<Logits>>, kv: seq<seq<seq<KV>>>)
    requires si.Valid(depth) && b < |si.inputIds| == |logits| && |kv| == depth && ids != []
    requires LogitsOf(si.At(depth, b), logits[b]) && forall l :: 0 <= l < depth ==> CachesOf(si, depth, l, kv[l])
    requires Aligned(ids, pad, skip, cached, si.At(depth, b))
    ensures RowIsFullPass(depth, ids, pad, b, logits, kv)
  {
    hide Aligned, StatesAgree, State, RowState;
    IncrementalEqualsFull(ids, pad, skip, cached, si.At(depth, b));
    forall l | 0 <= l < depth ensures LayerIsFullCache(ids, l, pad, b, kv[l]) {
      assert CachesOf(si, depth, l, kv[l]);
    }
  }

  method Prefill(depth: nat, prompts: seq<seq<int>>)
    returns (width: nat, logits: seq<seq<Logits>>, kv: seq<seq<seq<KV>>>)
    requires prompts != [] && forall b :: 0 <= b < |prompts| ==> prompts[b] != []
    ensures |logits| == |prompts| && |kv| == depth && width == MaxLen(prompts)
    ensures forall b :: 0 <= b < |prompts| ==> |prompts[b]| <= width
    ensures forall b :: 0 <= b < |prompts| ==> RowIsFullPass(depth, prompts[b], width - |prompts[b]|, b, logits, kv)
  {
    hide LogitsOf, CachesOf, RowIsFullPass, PrefillRow;
    var si := BuildPrefill(prompts);
    width := MaxLen(prompts);
    PrefillIsValid(depth, prompts, width, si);
    logits, kv := Call(depth, si);
    forall b | 0 <= b < |prompts| ensures RowIsFullPass(depth, prompts[b], width - |prompts[b]|, b, logits, kv) {
      PrefillRowComesBack(depth, prompts[b], width, si, b, logits, kv);
    }
  }

  /** The batch that `BuildPrefill` makes. */
  ghost predicate IsPrefill(prompts: seq<seq<int>>, width: nat, si: StepInputs) {
    && si.mask.Some? && si.positions.Some? && si.past.None?
    && |si.inputIds| == |si.mask.value| == |si.positions.value| == |prompts|
    && forall b :: 0 <= b < |prompts| ==>
         PrefillRow(prompts[b], width, si.inputIds[b], si.mask.value[b], si.positions.value[b])
  }

  lemma PrefillIsValid(depth: nat, prompts: seq<seq<int>>, width: nat, si: StepInputs)
    requires prompts != [] && IsPrefill(prompts, width, si)
    ensures si.Valid(depth)
  {
    forall b | 0 <= b < |si.inputIds| ensures |si.positions.value[b]| == |si.inputIds[b]| {
      assert PrefillRow(prompts[b], width, si.inputIds[b], si.mask.value[b], si.positions.value[b]);
    }
  }

  lemma PrefillRowComesBack(depth: nat, prompt: seq<int>, width: nat, si: StepInputs, b: nat,
                            logits: seq<seq<Logits>>, kv: seq<seq<seq<KV>>>)
    requires si.Valid(depth) && b < |si.inputIds| == |logits| && |kv| == depth && prompt != []
    requires si.mask.Some? && si.positions.Some? && si.past.None?
    requires PrefillRow(prompt, width, si.inputIds[b], si.mask.value[b], si.positions.value[b])
    requires LogitsOf(si.At(depth, b), logits[b]) && forall l :: 0 <= l < depth ==> CachesOf(si, depth, l, kv[l])
    ensures RowIsFullPass(depth, prompt, width - |prompt|, b, logits, kv)
  {
    hide Repeat, PadMask, CumsumPositions, LogitsOf, CachesOf;
    PrefillRowAligned(prompt, width, si.At(depth, b));
    CallOnAlignedRow(depth, si, prompt, width - |prompt|, width - |prompt|, 0, b, logits, kv);
  }

  method PrefillWithPrefix(depth: nat, prompt: seq<int>, prefix: seq<seq<KV>>, prefixLen: nat)
    returns (logits: seq<seq<Logits>>, kv: seq<seq<seq<KV>>>)
    requires prefixLen < |prompt| && |prefix| == depth
    requires forall l :: 0 <= l < depth ==> prefix[l] == FullCache(prompt, l)[..prefixLen]
    ensures RowIsFullPass(depth, prompt, 0, 0, logits, kv)
  {
    PrefixRowAligned(prompt, prefix, prefixLen);
    var si := BuildPrefillWithPrefix(prompt, prefix, prefixLen);
    logits, kv := Call(depth, si);
    CallOnAlignedRow(depth, si, prompt, 0, 0, prefixLen, 0, logits, kv);
  }

  /** `view` is the correct cache of all of `ids` but the last. */
  ghost predicate CachesAllButLast(view: seq<seq<KV>>, ids: seq<int>, depth: nat) {
    ids != [] && |view| == depth && forall l :: 0 <= l < depth ==> view[l] == FullCache(ids, l)[..|ids| - 1]
  }

  /** The padding in front of each row. */
  function Pads(lengths: seq<nat>, width: int): (pads: seq<int>)
    ensures |pads| == |lengths| && forall b :: 0 <= b < |pads| ==> pads[b] == width - lengths[b]
  {
    if lengths == [] then [] else [width - lengths[0]] + Pads(lengths[1..], width)
  }

  /** Sequence `ids` is ready for a decode step. */
  ghost predicate DecodeReady(ids: seq<int>, view: seq<seq<KV>>, length: nat, token: int, depth: nat) {
    CachesAllButLast(view, ids, depth) && length == |ids| - 1 && token == ids[length]
  }

  lemma ReadyFits(ids: seq<int>, view: seq<seq<KV>>, length: nat, token: int, depth: nat)
    requires DecodeReady(ids, view, length, token, depth)
    ensures ViewFits(view, length, depth) && length == |ids| - 1
  {
  }

  method Decode(depth: nat, ghost seqs: seq<seq<int>>, views: seq<seq<seq<KV>>>, lengths: seq<nat>, pending: seq<int>)
    returns (pads: seq<int>, logits: seq<seq<Logits>>, kv: seq<seq<seq<KV>>>)
    requires |seqs| == |views| == |lengths| == |pending| > 0
    requires forall b :: 0 <= b < |seqs| ==> DecodeReady(seqs[b], views[b], lengths[b], pending[b], depth)
    ensures |pads| == |logits| == |seqs| && |kv| == depth && pads == Pads(lengths, MaxOf(lengths))
    ensures forall b :: 0 <= b < |seqs| ==> 0 <= pads[b] && RowIsFullPass(depth, seqs[b], pads[b], b, logits, kv)
  {
    hide LogitsOf, CachesOf, RowIsFullPass, DecodeRow, DecodeReady, ViewFits;
    forall b | 0 <= b < |views| ensures ViewFits(views[b], lengths[b], depth) {
      ReadyFits(seqs[b], views[b], lengths[b], pending[b], depth);
    }
    var si := BuildDecode(views, lengths, pending, depth);
    logits, kv := Call(depth, si);
    pads := Pads(lengths, MaxOf(lengths));
    forall b | 0 <= b < |seqs| ensures 0 <= pads[b] && RowIsFullPass(depth, seqs[b], pads[b], b, logits, kv) {
      DecodeRowComesBack(depth, seqs[b], views[b], lengths[b], MaxOf(lengths), pending[b], si, b, logits, kv);
    }
  }

  lemma DecodeRowComesBack(depth: nat, ids: seq<int>, view: seq<seq<KV>>, length: nat, width: nat, token: int, si: StepInputs, b: nat,
                           logits: seq<seq<Logits>>, kv: seq<seq<seq<KV>>>)
    requires si.Valid(depth) && b < |si.inputIds| == |logits| && |kv| == depth && DecodeReady(ids, view, length, token, depth)
    requires DecodeRow(view, length, width, token, si.At(depth, b))
    requires LogitsOf(si.At(depth, b), logits[b]) && forall l :: 0 <= l < depth ==> CachesOf(si, depth, l, kv[l])
    ensures RowIsFullPass(depth, ids, width - length, b, logits, kv)
  {
    hide LogitsOf, CachesOf;
    DecodeRowAligned(ids, view, width, si.At(depth, b));
    CallOnAlignedRow(depth, si, ids, width - length, 0, |ids| - 1, b, logits, kv);
  }

  // ------------------------------------------------------------ from rows to columns

  /** The correct columns of positions `from` to `end`. */
  function TruthColumns(ids: seq<int>, from: nat, end: nat, depth: nat): (cols: seq<seq<KV>>)
    requires from <= end <= |ids|
    ensures |cols| == end - from
    ensures forall c :: 0 <= c < |cols| ==> |cols[c]| == depth && cols[c] == TruthColumn(ids, from + c, depth)
    decreases end - from
  {
    if from == end then [] else TruthColumns(ids, from, end - 1, depth) + [TruthColumn(ids, end - 1, depth)]
  }

  /** One slot of a row, layer by layer. */
  function SlotColumn(kv: seq<seq<seq<KV>>>, b: nat, src: nat, n: nat): (es: seq<KV>)
    requires n <= |kv| && forall l :: 0 <= l < n ==> b < |kv[l]| && src < |kv[l][b]|
    ensures |es| == n && forall l :: 0 <= l < n ==> es[l] == kv[l][b][src]
  {
    if n == 0 then [] else SlotColumn(kv, b, src, n - 1) + [kv[n - 1][b][src]]
  }

  /** Extracts positions `from` to `end` of row `b`, right-aligned behind its padding: exactly
      that sequence's own entries. */
  method Extract(depth: nat, ghost ids: seq<int>, pad: nat, b: nat, ghost logits: seq<seq<Logits>>, kv: seq<seq<seq<KV>>>, from: nat, end: nat)
    returns (cols: seq<seq<KV>>)
    requires RowIsFullPass(depth, ids, pad, b, logits, kv) && from <= end <= |ids|
    ensures cols == TruthColumns(ids, from, end, depth)
  {
    cols := [];
    assert forall l :: 0 <= l < depth ==> LayerIsFullCache(ids, l, pad, b, kv[l]);
    for p := from to end
      invariant cols == TruthColumns(ids, from, p, depth)
    {
      SlotIsTruth(depth, ids, pad, b, logits, kv, p);
      cols := cols + [SlotColumn(kv, b, pad + p, depth)];
    }
  }

  lemma SlotIsTruth(depth: nat, ids: seq<int>, pad: nat, b: nat, logits: seq<seq<Logits>>, kv: seq<seq<seq<KV>>>, p: nat)
    requires RowIsFullPass(depth, ids, pad, b, logits, kv) && p < |ids|
    ensures forall l :: 0 <= l < depth ==> b < |kv[l]| && pad + p < |kv[l][b]|
    ensures SlotColumn(kv, b, pad + p, depth) == TruthColumn(ids, p, depth)
  {
    forall l | 0 <= l < depth ensures b < |kv[l]| && pad + p < |kv[l][b]| && kv[l][b][pad + p] == Truth(ids[..p + 1], l) {
      assert LayerIsFullCache(ids, l, pad, b, kv[l]);
      assert kv[l][b][pad..][p] == FullCache(ids, l)[p];
      FullCacheIsTruth(ids, l, p);
    }
  }

  // ------------------------------------------------------------ from columns to views

  /** Layer `l` of a list of columns. */
  function Layer(list: seq<seq<KV>>, l: nat): (r: seq<KV>)
    requires forall k :: 0 <= k < |list| ==> l < |list[k]|
    ensures |r| == |list| && forall k :: 0 <= k < |list| ==> r[k] == list[k][l]
  {
    if list == [] then [] else Layer(list[..|list| - 1], l) + [list[|list| - 1][l]]
  }

  /** The first `n` layers of a list of columns: what `view` returns. */
  function View(list: seq<seq<KV>>, n: nat): (r: seq<seq<KV>>)
    requires forall k :: 0 <= k < |list| ==> n <= |list[k]|
    ensures |r| == n && forall l :: 0 <= l < n ==> r[l] == Layer(list, l)
  {
    if n == 0 then [] else View(list, n - 1) + [Layer(list, n - 1)]
  }

  /** The view of correct columns is a correct cache. */
  lemma ViewOfTruth(list: seq<seq<KV>>, ids: seq<int>, depth: nat)
    requires ContentsTrue(list, ids, depth)
    ensures forall l :: 0 <= l < depth ==> View(list, depth)[l] == FullCache(ids, l)[..|list|]
  {
    forall l | 0 <= l < depth ensures View(list, depth)[l] == FullCache(ids, l)[..|list|] {
      forall k | 0 <= k < |list| ensures Layer(list, l)[k] == FullCache(ids, l)[k] {
        assert list[k] == TruthColumn(ids, k, depth);
        FullCacheIsTruth(ids, l, k);
      }
    }
  }
}
