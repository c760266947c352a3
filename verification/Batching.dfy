/** Assembly of variable-length sequences into one left-padded batch (KVCacheManager) and
    the proof that each row of the batch carries exactly its own sequence. */
module Batching {
  import opened Wrappers
  import opened Transformer
  import opened Forward

  function Repeat<T>(x: T, n: nat): (r: seq<T>)
    ensures |r| == n && forall i :: 0 <= i < n ==> r[i] == x
  {
    if n == 0 then [] else [x] + Repeat(x, n - 1)
  }

  /** Length of the longest sequence. */
  function MaxLen<T>(ss: seq<seq<T>>): (m: nat)
    ensures forall i :: 0 <= i < |ss| ==> |ss[i]| <= m
    ensures ss != [] ==> exists i :: 0 <= i < |ss| && |ss[i]| == m
  {
    if ss == [] then 0 else
      var rest := MaxLen(ss[1..]);
      if rest <= |ss[0]| then |ss[0]| else (assert forall i :: 0 < i < |ss| ==> ss[i] == ss[1..][i - 1]; rest)
  }

  function CountOnes(mask: seq<int>, n: nat): (c: nat)
    requires n <= |mask|
  {
    if n == 0 then 0 else CountOnes(mask, n - 1) + (if mask[n - 1] != 0 then 1 else 0)
  }

  /** Positions of the first `n` slots: cumulative sum of the mask minus one, clamped at 0. */
  function CumsumPositions(mask: seq<int>, n: nat): (pos: seq<nat>)
    requires n <= |mask|
    ensures |pos| == n
    ensures forall i :: 0 <= i < n ==> pos[i] == Max(CountOnes(mask, i + 1) - 1, 0)
  {
    if n == 0 then [] else CumsumPositions(mask, n - 1) + [Max(CountOnes(mask, n) - 1, 0)]
  }

  lemma {:induction false} CountBehindPadding(mask: seq<int>, pad: nat, n: nat)
    requires HidesPadding(mask, pad) && n <= |mask|
    ensures CountOnes(mask, n) == if n <= pad then 0 else n - pad
  {
    if n > 0 {
      CountBehindPadding(mask, pad, n - 1);
    }
  }

  /** The explicit position a decode step gives its new token is the cumsum rule's. */
  lemma DecodePositionIsCumsum(mask: seq<int>, pad: nat, length: nat)
    requires |mask| == pad + length + 1 && HidesPadding(mask, pad)
    ensures CumsumPositions(mask, |mask|)[|mask| - 1] == length
  {
    CountBehindPadding(mask, pad, |mask|);
  }

  // ------------------------------------------------------------------ build_prefill

  function PadMask(pad: nat, n: nat): (mask: seq<int>)
    ensures |mask| == pad + n && HidesPadding(mask, pad)
  {
    Repeat(0, pad) + Repeat(1, n)
  }

  /** Row `b` of a prefill batch: the prompt, left-padded to `width`. */
  ghost predicate PrefillRow(prompt: seq<int>, width: nat, ids: seq<int>, mask: seq<int>, pos: seq<nat>) {
    && |prompt| <= width
    && ids == Repeat(0, width - |prompt|) + prompt
    && mask == PadMask(width - |prompt|, |prompt|)
    && pos == CumsumPositions(mask, width)
  }

  method BuildPrefill(prompts: seq<seq<int>>) returns (si: StepInputs)
    requires prompts != []
    ensures si.mask.Some? && si.positions.Some? && si.past.None?
    ensures |si.inputIds| == |si.mask.value| == |si.positions.value| == |prompts|
    ensures forall b :: 0 <= b < |prompts| ==>
      PrefillRow(prompts[b], MaxLen(prompts), si.inputIds[b], si.mask.value[b], si.positions.value[b])
  {
    var width := MaxLen(prompts);
    var inputIds, attention, positions := [], [], [];
    for i := 0 to |prompts|
      invariant |inputIds| == |attention| == |positions| == i
      invariant forall b :: 0 <= b < i ==> PrefillRow(prompts[b], width, inputIds[b], attention[b], positions[b])
    {
      var n := |prompts[i]|;
      var mask := PadMask(width - n, n);
      inputIds := inputIds + [Repeat(0, width - n) + prompts[i]];
      attention := attention + [mask];
      positions := positions + [CumsumPositions(mask, width)];
    }
    si := StepInputs(inputIds, Some(attention), Some(positions), None);
  }

  /** A prefill row is its prompt behind padding, nothing cached. */
  lemma PrefillRowAligned(prompt: seq<int>, width: nat, row: GoodRow)
    requires prompt != [] && row.mask.Some?
    requires PrefillRow(prompt, width, row.ids, row.mask.value, row.pos)
    requires forall l :: 0 <= l < |row.past| ==> row.past[l] == []
    ensures Aligned(prompt, width - |prompt|, width - |prompt|, 0, row)
  {
    var pad := width - |prompt|;
    forall i | pad <= i < width ensures row.pos[i] == i - pad {
      CountBehindPadding(row.mask.value, pad, i + 1);
    }
  }

  // ------------------------------------------------------ build_prefill_with_prefix

  /** The suffix of one prompt over a cached prefix of `prefixLen` positions. */
  function BuildPrefillWithPrefix(prompt: seq<int>, prefix: seq<seq<KV>>, prefixLen: nat): (si: StepInputs)
    requires prefixLen <= |prompt|
  {
    StepInputs([prompt[prefixLen..]], Some([Repeat(1, |prompt|)]), Some([Arange(prefixLen, |prompt| - prefixLen)]),
               Some(Singletons(prefix)))
  }

  /** One row per layer. */
  function Singletons(layers: seq<seq<KV>>): (r: seq<seq<seq<KV>>>)
    ensures |r| == |layers| && forall l :: 0 <= l < |r| ==> r[l] == [layers[l]]
  {
    if layers == [] then [] else [[layers[0]]] + Singletons(layers[1..])
  }

  lemma PrefixRowAligned(prompt: seq<int>, prefix: seq<seq<KV>>, prefixLen: nat)
    requires prefixLen < |prompt|
    requires forall l :: 0 <= l < |prefix| ==> prefix[l] == FullCache(prompt, l)[..prefixLen]
    ensures var si := BuildPrefillWithPrefix(prompt, prefix, prefixLen);
      si.Valid(|prefix|) && Aligned(prompt, 0, 0, prefixLen, si.At(|prefix|, 0))
  {
    var row := BuildPrefillWithPrefix(prompt, prefix, prefixLen).At(|prefix|, 0);
    forall l | 0 <= l < |row.past| ensures PastHolds(row.past[l], FullCache(prompt, l), 0, 0, prefixLen) {
      assert row.past[l] == prefix[l] && row.past[l][0..] == row.past[l];
    }
  }

  // ------------------------------------------------------------------- build_decode

  /** The sequence's cache of one layer, left-padded with zero slots to `width`. */
  ghost predicate DecodePast(cache: seq<KV>, width: nat, past: seq<KV>) {
    |cache| <= width && past == Repeat(Pad, width - |cache|) + cache
  }

  /** One layer of the batch: every cache left-padded to `width`. */
  method PadLayer(views: seq<seq<seq<KV>>>, l: nat, width: nat) returns (parts: seq<seq<KV>>)
    requires forall b :: 0 <= b < |views| ==> l < |views[b]| && |views[b][l]| <= width
    ensures |parts| == |views| && forall b :: 0 <= b < |views| ==> DecodePast(views[b][l], width, parts[b])
  {
    parts := [];
    for i := 0 to |views|
      invariant |parts| == i && forall b :: 0 <= b < i ==> DecodePast(views[b][l], width, parts[b])
    {
      parts := parts + [Repeat(Pad, width - |views[i][l]|) + views[i][l]];
    }
  }

  /** `views[b]` is what sequence `b`'s cache returns: `depth` layers of `lengths[b]` entries. */
  ghost predicate ViewsFit(views: seq<seq<seq<KV>>>, lengths: seq<nat>, depth: nat) {
    && |views| == |lengths|
    && forall b :: 0 <= b < |views| ==> ViewFits(views[b], lengths[b], depth)
  }

  ghost predicate ViewFits(view: seq<seq<KV>>, length: nat, depth: nat) {
    |view| == depth && forall l :: 0 <= l < depth ==> |view[l]| == length
  }

  function MaxOf(ns: seq<nat>): (m: nat)
    ensures forall i :: 0 <= i < |ns| ==> ns[i] <= m
  {
    if ns == [] then 0 else Max(ns[0], MaxOf(ns[1..]))
  }

  /** Row `b` of a decode batch: one new token over the padded cache. */
  ghost predicate DecodeRow(view: seq<seq<KV>>, length: nat, width: nat, token: int, row: GoodRow) {
    && length <= width && |row.past| == |view|
    && row.ids == [token] && row.mask == Some(PadMask(width - length, length + 1)) && row.pos == [length]
    && forall l :: 0 <= l < |view| ==> DecodePast(view[l], width, row.past[l])
  }

  method BuildDecode(views: seq<seq<seq<KV>>>, lengths: seq<nat>, pending: seq<int>, depth: nat) returns (si: StepInputs)
    requires ViewsFit(views, lengths, depth) && |pending| == |views| > 0
    ensures si.Valid(depth) && |si.inputIds| == |views|
    ensures forall b :: 0 <= b < |views| ==>
      DecodeRow(views[b], lengths[b], MaxOf(lengths), pending[b], si.At(depth, b))
  {
    var width := MaxOf(lengths);
    var inputIds, attention, positions := [], [], [];
    for i := 0 to |views|
      invariant |inputIds| == |attention| == |positions| == i
      invariant forall b :: 0 <= b < i ==> inputIds[b] == [pending[b]]
      invariant forall b :: 0 <= b < i ==> attention[b] == PadMask(width - lengths[b], lengths[b] + 1)
      invariant forall b :: 0 <= b < i ==> positions[b] == [lengths[b]]
    {
      inputIds := inputIds + [[pending[i]]];
      attention := attention + [PadMask(width - lengths[i], lengths[i] + 1)];
      positions := positions + [[lengths[i]]];
    }
    var past := [];
    for layer := 0 to depth
      invariant |past| == layer
      invariant forall l :: 0 <= l < layer ==> PastLayer(views, l, width, past[l])
    {
      assert forall b :: 0 <= b < |views| ==> ViewFits(views[b], lengths[b], depth);
      var parts := PadLayer(views, layer, width);
      past := past + [parts];
    }
    si := StepInputs(inputIds, Some(attention), Some(positions), Some(past));
    DecodeRows(views, lengths, pending, depth, si);
  }

  ghost predicate PastLayer(views: seq<seq<seq<KV>>>, l: nat, width: nat, parts: seq<seq<KV>>) {
    |parts| == |views| && forall b :: 0 <= b < |views| ==> l < |views[b]| && DecodePast(views[b][l], width, parts[b])
  }

  lemma DecodeRows(views: seq<seq<seq<KV>>>, lengths: seq<nat>, pending: seq<int>, depth: nat, si: StepInputs)
    requires ViewsFit(views, lengths, depth) && |pending| == |views| > 0
    requires si.mask.Some? && si.positions.Some? && si.past.Some?
    requires |si.inputIds| == |si.mask.value| == |si.positions.value| == |views| && |si.past.value| == depth
    requires forall b :: 0 <= b < |views| ==> si.inputIds[b] == [pending[b]]
    requires forall b :: 0 <= b < |views| ==> si.mask.value[b] == PadMask(MaxOf(lengths) - lengths[b], lengths[b] + 1)
    requires forall b :: 0 <= b < |views| ==> si.positions.value[b] == [lengths[b]]
    requires forall l :: 0 <= l < depth ==> PastLayer(views, l, MaxOf(lengths), si.past.value[l])
    ensures si.Valid(depth)
    ensures forall b :: 0 <= b < |views| ==>
      DecodeRow(views[b], lengths[b], MaxOf(lengths), pending[b], si.At(depth, b))
  {
    forall b | 0 <= b < |views| ensures DecodeRow(views[b], lengths[b], MaxOf(lengths), pending[b], si.At(depth, b)) {
      var row := si.At(depth, b);
      forall l | 0 <= l < depth ensures DecodePast(views[b][l], MaxOf(lengths), row.past[l]) {
        assert PastLayer(views, l, MaxOf(lengths), si.past.value[l]);
      }
    }
  }

  /** A decode row over a correct cache of all ids but the last is that sequence, aligned. */
  lemma DecodeRowAligned(ids: seq<int>, view: seq<seq<KV>>, width: nat, row: GoodRow)
    requires ids != [] && DecodeRow(view, |ids| - 1, width, ids[|ids| - 1], row)
    requires forall l :: 0 <= l < |view| ==> view[l] == FullCache(ids, l)[..|ids| - 1]
    ensures Aligned(ids, width - (|ids| - 1), 0, |ids| - 1, row)
  {
    var pad := width - (|ids| - 1);
    forall l | 0 <= l < |row.past| ensures PastHolds(row.past[l], FullCache(ids, l), pad, 0, |ids| - 1) {
      assert DecodePast(view[l], width, row.past[l]);
      assert row.past[l][pad..] == view[l];
    }
  }
}
