/** The contiguous cache of one sequence: per-layer buffers that grow by doubling. */
module KvCache {
  import opened Wrappers
  import opened Transformer

  /** Row `row` of the K/V returned by a forward pass, layer by layer. */
  ghost predicate HasRow(past: seq<seq<seq<KV>>>, row: nat, least: nat) {
    forall l :: 0 <= l < |past| ==> row < |past[l]| && least <= |past[l][row]|
  }

  class KVCache {
    var layers: seq<array<KV>>
    var length: nat
    var capacity: nat

    ghost predicate Valid()
      reads this, layers
    {
      && length <= capacity
      && (forall l :: 0 <= l < |layers| ==> layers[l].Length == capacity)
      && forall l, k :: 0 <= l < k < |layers| ==> layers[l] != layers[k]
    }

    /** The cache holds exactly `view`: one list of entries per layer, each `length` long. */
    ghost predicate Holds(view: seq<seq<KV>>)
      requires Valid()
      reads this, layers
    {
      && |view| == |layers|
      && forall l :: 0 <= l < |layers| ==> layers[l][..length] == view[l]
    }

    constructor ()
      ensures Valid() && Holds([]) && length == 0 && capacity == 0
    {
      layers, length, capacity := [], 0, 0;
    }

    /** Takes the last `promptLen` slots of row `row`: with left padding, the valid ones.  Python's
        `-0:` is the whole row, which does not fit no slots unless it is at most one wide. */
    method InitFromPrefill(past: seq<seq<seq<KV>>>, promptLen: nat, row: nat) returns (ok: bool)
      requires HasRow(past, row, promptLen)
      modifies this
      ensures fresh(layers) && (ok <==> promptLen > 0 || forall l :: 0 <= l < |past| ==> |past[l][row]| <= 1)
      ensures ok ==> Valid() && length == promptLen && |layers| == |past|
      ensures ok ==> forall l :: 0 <= l < |past| ==>
        layers[l][..length] == past[l][row][|past[l][row]| - promptLen..]
      ensures !ok ==> length == old(length) && capacity == old(capacity) && |layers| < |past|
    {
      var cap: nat, built: seq<array<KV>> := Max(promptLen, 1), [];
      for l := 0 to |past|
        invariant length == old(length) && capacity == old(capacity)
        invariant |built| == l && (promptLen > 0 || forall k :: 0 <= k < l ==> |past[k][row]| <= 1)
        invariant forall k :: 0 <= k < l ==> fresh(built[k]) && built[k].Length == cap
        invariant forall j, k :: 0 <= j < k < l ==> built[j] != built[k]
        invariant forall k :: 0 <= k < l ==>
          built[k][..promptLen] == past[k][row][|past[k][row]| - promptLen..]
      {
        var src := past[l][row];
        if promptLen == 0 && |src| > 1 {
          layers := built;
          return false;
        }
        var buffer := new KV[cap](_ => Pad);
        forall p | 0 <= p < promptLen {
          buffer[p] := src[|src| - promptLen + p];
        }
        built := built + [buffer];
      }
      layers, length, capacity := built, promptLen, cap;
      ok := true;
    }

    /** Doubles the capacity until `needed` fits, keeping the contents. */
    method EnsureCapacity(needed: nat, ghost view: seq<seq<KV>>)
      requires Valid() && Holds(view)
      modifies this
      ensures Valid() && Holds(view) && length == old(length) && capacity >= needed
      ensures needed <= old(capacity) ==> layers == old(layers) && capacity == old(capacity)
      ensures needed > old(capacity) ==> fresh(layers) && capacity < 2 * needed
    {
      if needed <= capacity {
        return;
      }
      var newCap := Max(capacity, 1);
      while newCap < needed
        modifies {}
        invariant newCap >= Max(capacity, 1)
        invariant newCap < 2 * needed
        decreases needed - newCap
      {
        newCap := newCap * 2;
      }
      var grown: seq<array<KV>> := [];
      for l := 0 to |layers|
        modifies {}
        invariant |grown| == l
        invariant forall k :: 0 <= k < l ==> fresh(grown[k]) && grown[k].Length == newCap
        invariant forall j, k :: 0 <= j < k < l ==> grown[j] != grown[k]
        invariant forall k :: 0 <= k < l ==> grown[k][..length] == view[k]
      {
        var buffer := new KV[newCap](_ => Pad);
        forall p | 0 <= p < length {
          buffer[p] := layers[l][p];
        }
        assert buffer[..length] == layers[l][..length];
        grown := grown + [buffer];
      }
      layers, capacity := grown, newCap;
    }

    /** Writes the last slot of row `row` behind the valid entries of every layer. */
    method PutLast(past: seq<seq<seq<KV>>>, row: nat, ghost view: seq<seq<KV>>)
      requires Valid() && Holds(view) && length < capacity && |past| == |layers| && HasRow(past, row, 1)
      modifies layers
      ensures Holds(view)
      ensures forall l :: 0 <= l < |layers| ==> layers[l][length] == past[l][row][|past[l][row]| - 1]
    {
      for i := 0 to |layers|
        invariant Holds(view)
        invariant forall l :: 0 <= l < i ==> layers[l][length] == past[l][row][|past[l][row]| - 1]
      {
        layers[i][length] := past[i][row][|past[i][row]| - 1];
        forall l | 0 <= l < |layers| ensures layers[l][..length] == view[l] {
        }
      }
    }

    /** Appends the last slot of row `row` to every layer. */
    method AppendFromOutput(past: seq<seq<seq<KV>>>, row: nat, ghost view: seq<seq<KV>>)
      requires Valid() && Holds(view) && |past| == |layers| && HasRow(past, row, 1)
      modifies this, layers
      ensures Valid() && length == old(length) + 1 && |layers| == |view|
      ensures forall l :: 0 <= l < |view| ==> layers[l][..length] == view[l] + [past[l][row][|past[l][row]| - 1]]
      ensures layers == old(layers) || fresh(layers)
    {
      EnsureCapacity(length + 1, view);
      PutLast(past, row, view);
      length := length + 1;
      forall l | 0 <= l < |view| ensures layers[l][..length] == view[l] + [past[l][row][|past[l][row]| - 1]] {
        assert layers[l][..length] == layers[l][..length - 1] + [layers[l][length - 1]];
      }
    }

    /** The cache cut to `length`. */
    method View() returns (view: seq<seq<KV>>)
      requires Valid()
      ensures Holds(view)
    {
      view := [];
      for l := 0 to |layers|
        invariant |view| == l && forall k :: 0 <= k < l ==> layers[k][..length] == view[k]
      {
        view := view + [layers[l][..length]];
      }
    }

    method Free()
      modifies this
      ensures Valid() && Holds([]) && length == 0 && capacity == 0
    {
      layers, length, capacity := [], 0, 0;
    }
  }
}
