/** The shared pool of fixed-size cache blocks, as values: reference counts, the LRU free
    list, block tables with copy-on-write, and the prefix index over block ids. */
module BlockPool {
  import opened Wrappers
  import opened Transformer

  // ------------------------------------------------------------------- chain keys

  /** The key of a block is a digest of its parent's key and its own token ids, modelled
      as an injective chain over the 32-bit ids that are hashed. */
  datatype Key = Root | Chain(parent: Key, toks: seq<int>)

  const TWO_32 := 0x1_0000_0000

  function Low32(toks: seq<int>): (r: seq<int>)
    ensures |r| == |toks| && forall i :: 0 <= i < |toks| ==> r[i] == toks[i] % TWO_32
  {
    if toks == [] then [] else [toks[0] % TWO_32] + Low32(toks[1..])
  }

  function BlockHash(parent: Key, toks: seq<int>): Key {
    Chain(parent, Low32(toks))
  }

  // ---------------------------------------------------------------------- storage

  datatype Cell = Cell(layer: nat, block: nat, off: nat)

  /** The K/V pools of all layers; a cell never written holds zeros. */
  type Store = map<Cell, KV>

  function Get(d: Store, l: nat, b: nat, o: nat): KV {
    if Cell(l, b, o) in d then d[Cell(l, b, o)] else Pad
  }

  function Put(d: Store, l: nat, b: nat, o: nat, e: KV): (d': Store)
    ensures forall l': nat, b': nat, o': nat ::
      Get(d', l', b', o') == (if l' == l && b' == b && o' == o then e else Get(d, l', b', o'))
  {
    d[Cell(l, b, o) := e]
  }

  /** The first `n` cells of block `from` copied to block `to` in layer `l`. */
  function CopyCells(d: Store, l: nat, from: nat, to: nat, n: nat): (d': Store)
    ensures forall l': nat, b': nat, o': nat ::
      Get(d', l', b', o') == (if l' == l && b' == to && o' < n then Get(d, l, from, o') else Get(d, l', b', o'))
  {
    if n == 0 then d else Put(CopyCells(d, l, from, to, n - 1), l, to, n - 1, Get(d, l, from, n - 1))
  }

  /** Block `from` copied to block `to` in the first `layers` layers. */
  function CopyBlock(d: Store, layers: nat, from: nat, to: nat, size: nat): (d': Store)
    ensures forall l': nat, b': nat, o': nat ::
      Get(d', l', b', o') == (if l' < layers && b' == to && o' < size then Get(d, l', from, o') else Get(d, l', b', o'))
  {
    if layers == 0 then d else CopyCells(CopyBlock(d, layers - 1, from, to, size), layers - 1, from, to, size)
  }

  // ------------------------------------------------------------- blocks and index

  /** `refs`, `free` and `store` are the block manager's; `byKey` (kept in LRU order by
      `lru`) and `keyOf` are the prefix cache's two dictionaries. */
  datatype Pool = Pool(
    blockSize: nat, depth: nat,
    refs: seq<int>, free: seq<nat>, store: Store,
    byKey: map<Key, nat>, lru: seq<Key>, keyOf: map<nat, Key>)

  /** The prefix cache's reaction to the reuse of block `b`. */
  function DropBlock(p: Pool, b: nat): Pool {
    if b in p.keyOf then
      var key := p.keyOf[b];
      p.(keyOf := p.keyOf - {b}, byKey := p.byKey - {key}, lru := Remove(p.lru, key))
    else p
  }

  function Ref(p: Pool, b: nat): int {
    if b < |p.refs| then p.refs[b] else 0
  }

  function SetRef(refs: seq<int>, b: nat, r: int): (refs': seq<int>)
    ensures |refs'| == |refs|
  {
    if b < |refs| then refs[b := r] else refs
  }

  /** Reuses the least recently freed block; `None` stands for the exception. */
  function Alloc(p: Pool): Option<(Pool, nat)> {
    if p.free == [] then None else
      var b := p.free[0];
      Some((DropBlock(p.(free := p.free[1..], refs := SetRef(p.refs, b, 1)), b), b))
  }

  function Incref(p: Pool, b: nat): Pool {
    p.(free := Remove(p.free, b), refs := SetRef(p.refs, b, Ref(p, b) + 1))
  }

  function Decref(p: Pool, b: nat): Pool {
    var r := Ref(p, b) - 1;
    if r <= 0 then p.(refs := SetRef(p.refs, b, 0), free := Remove(p.free, b) + [b])
    else p.(refs := SetRef(p.refs, b, r))
  }

  /** A private copy of the shared block `b`. */
  function CopyOnWrite(p: Pool, b: nat): Option<(Pool, nat)> {
    match Alloc(p)
    case None => None
    case Some((p1, b1)) =>
      Some((Decref(p1.(store := CopyBlock(p1.store, p.depth, b, b1, p.blockSize)), b), b1))
  }

  /** What is left when the copy fails at layer `layers`: the new block stays taken. */
  function HalfCopied(p: Pool, b: nat, layers: nat): Pool
    requires p.free != []
  {
    var (p1, b1) := Alloc(p).value;
    p1.(store := CopyBlock(p1.store, layers, b, b1, p.blockSize))
  }

  // ----------------------------------------------------------------- block tables

  /** The table grown by one block if slot `j` lies just behind it. */
  function Extend(p: Pool, table: seq<nat>, j: nat): Option<(Pool, seq<nat>)> {
    if j != |table| then Some((p, table)) else
      match Alloc(p)
      case None => None
      case Some((p1, b)) => Some((p1, table + [b]))
  }

  /** The table with the block of slot `j` made private. */
  function Unshare(p: Pool, table: seq<nat>, j: nat): Option<(Pool, seq<nat>)> {
    if j >= |table| then None
    else if Ref(p, table[j]) <= 1 then Some((p, table)) else
      match CopyOnWrite(p, table[j])
      case None => None
      case Some((p1, b)) => Some((p1, table[j := b]))
  }

  /** Writes one entry at position `pos` of layer `l`. */
  function WriteAt(p: Pool, table: seq<nat>, pos: nat, l: nat, e: KV): Option<(Pool, seq<nat>)>
    requires p.blockSize > 0
  {
    var j, off := pos / p.blockSize, pos % p.blockSize;
    match Extend(p, table, j)
    case None => None
    case Some((p1, t1)) =>
      match Unshare(p1, t1, j)
      case None => None
      case Some((p2, t2)) =>
        if j < |t2| then Some((p2.(store := Put(p2.store, l, t2[j], off, e)), t2)) else None
  }

  /** Writes the entries `es[l..]` of one position into layers `l`, `l + 1`, ... */
  function WriteLayers(p: Pool, table: seq<nat>, pos: nat, es: seq<KV>, l: nat): Option<(Pool, seq<nat>)>
    requires p.blockSize > 0 && l <= |es|
    decreases |es| - l
  {
    if l == |es| then Some((p, table)) else
      match WriteAt(p, table, pos, l, es[l])
      case None => None
      case Some((p1, t1)) => if p1.blockSize > 0 then WriteLayers(p1, t1, pos, es, l + 1) else None
  }

  /** Writes one column of entries per position, from `pos` on. */
  function WriteColumns(p: Pool, table: seq<nat>, pos: nat, cols: seq<seq<KV>>): Option<(Pool, seq<nat>)>
    requires p.blockSize > 0
    decreases |cols|
  {
    if cols == [] then Some((p, table)) else
      match WriteLayers(p, table, pos, cols[0], 0)
      case None => None
      case Some((p1, t1)) => if p1.blockSize > 0 then WriteColumns(p1, t1, pos + 1, cols[1..]) else None
  }

  /** The entry a table holds at position `k` of layer `l`. */
  function Lookup(p: Pool, table: seq<nat>, l: nat, k: nat): KV {
    if p.blockSize > 0 && k / p.blockSize < |table|
    then Get(p.store, l, table[k / p.blockSize], k % p.blockSize) else Pad
  }
}
