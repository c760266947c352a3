/** The byte-level alphabet: every byte value gets its own printable character. */
module ByteLevel {
  import opened Wrappers

  predicate Printable(b: int): (p: bool)
    ensures p ==> 0 <= b < 256
  {
    0x21 <= b <= 0x7E || 0xA1 <= b <= 0xAC || 0xAE <= b <= 0xFF
  }

  /** How many byte values below `b` are not printable. */
  function Skipped(b: nat): (n: nat)
    ensures n <= b && (b == 0 ==> n == 0)
  {
    if b == 0 then 0 else Skipped(b - 1) + (if Printable(b - 1) then 0 else 1)
  }

  /** The character of byte `b`: itself if printable, else the next one from U+0100 on. */
  function ByteChar(b: nat): nat {
    if Printable(b) then b else 256 + Skipped(b)
  }

  lemma {:induction false} SkippedGrows(a: nat, b: nat)
    requires a < b && !Printable(a)
    ensures Skipped(a) < Skipped(b)
    decreases b
  {
    if a + 1 < b {
      SkippedGrows(a, b - 1);
    }
  }

  /** No two bytes share a character. */
  lemma ByteCharInjective(a: nat, b: nat)
    requires a < 256 && b < 256 && ByteChar(a) == ByteChar(b)
    ensures a == b
  {
    if a < b && !Printable(a) && !Printable(b) {
      SkippedGrows(a, b);
    } else if b < a && !Printable(a) && !Printable(b) {
      SkippedGrows(b, a);
    }
  }

  /** In between, the count goes up by one a byte or stands still. */
  lemma {:induction false} SkippedFrom(a: nat, b: nat, printable: bool)
    requires a <= b && forall x :: a <= x < b ==> Printable(x) == printable
    ensures Skipped(b) == Skipped(a) + if printable then 0 else b - a
    decreases b
  {
    if a < b {
      SkippedFrom(a, b - 1, printable);
    }
  }

  /** The whole alphabet: visible ASCII and Latin-1 stand for themselves; the control characters
      and the space are U+0100 to U+0120, DEL to the no-break space U+0121 to U+0142, and the soft
      hyphen is U+0143. */
  lemma Alphabet(b: nat)
    requires b < 256
    ensures
      if b <= 0x20 then ByteChar(b) == 0x100 + b
      else if 0x7F <= b <= 0xA0 then ByteChar(b) == 0x121 + (b - 0x7F)
      else if b == 0xAD then ByteChar(b) == 0x143
      else ByteChar(b) == b
  {
    SkippedFrom(0, Min(b, 0x21), false);
    if b > 0x21 {
      SkippedFrom(0x21, Min(b, 0x7F), true);
    }
    if b > 0x7F {
      SkippedFrom(0x7F, Min(b, 0xA1), false);
    }
    if b > 0xA1 {
      SkippedFrom(0xA1, Min(b, 0xAD), true);
    }
  }

  function Range(lo: nat, hi: nat): (r: seq<nat>)
    requires lo <= hi
    ensures |r| == hi - lo && forall i :: 0 <= i < |r| ==> r[i] == lo + i
    ensures forall b: nat :: b in r <==> lo <= b < hi
    decreases hi - lo
  {
    if lo == hi then [] else [lo] + Range(lo + 1, hi)
  }

  function PrintableBytes(): (bs: seq<nat>)
    ensures forall b: nat :: b in bs <==> Printable(b)
  {
    hide Range;
    Range(0x21, 0x7F) + Range(0xA1, 0xAD) + Range(0xAE, 0x100)
  }

  /** `dict(zip(bs, cs))`. */
  function ZipMap(bs: seq<nat>, cs: seq<nat>): (m: map<nat, nat>)
    requires |bs| == |cs|
    ensures forall b :: b in m <==> b in bs
  {
    if bs == [] then map[] else ZipMap(bs[..|bs| - 1], cs[..|bs| - 1])[bs[|bs| - 1] := cs[|bs| - 1]]
  }

  lemma {:induction false} ZipMapAt(bs: seq<nat>, cs: seq<nat>)
    requires |bs| == |cs| && forall i :: 0 <= i < |bs| ==> cs[i] == ByteChar(bs[i])
    ensures forall b :: b in ZipMap(bs, cs) ==> ZipMap(bs, cs)[b] == ByteChar(b)
  {
    if bs != [] {
      ZipMapAt(bs[..|bs| - 1], cs[..|bs| - 1]);
    }
  }

  /** The lists after the bytes below `b` were considered. */
  ghost predicate Table(bs: seq<nat>, cs: seq<nat>, b: nat) {
    && |bs| == |cs| && (forall i :: 0 <= i < |bs| ==> cs[i] == ByteChar(bs[i]))
    && forall x: nat :: x in bs <==> Printable(x) || x < b
  }

  lemma TableStart(bs: seq<nat>)
    requires bs == PrintableBytes()
    ensures Table(bs, bs, 0)
  {
    hide PrintableBytes;
    forall i | 0 <= i < |bs| ensures bs[i] == ByteChar(bs[i]) {
      assert bs[i] in bs;
    }
  }

  lemma TableNext(bs: seq<nat>, cs: seq<nat>, b: nat)
    requires Table(bs, cs, b)
    ensures if b in bs then Table(bs, cs, b + 1) && Skipped(b + 1) == Skipped(b)
            else Table(bs + [b], cs + [256 + Skipped(b)], b + 1) && Skipped(b + 1) == Skipped(b) + 1
  {
  }

  /** `bytes_to_unicode`: all 256 bytes, each with its character. */
  method BytesToUnicode() returns (m: map<nat, nat>)
    ensures forall b: nat :: b in m <==> b < 256
    ensures forall b :: 0 <= b < 256 ==> m[b] == ByteChar(b)
  {
    hide PrintableBytes, Printable, ByteChar, Skipped, ZipMap;
    var bs, cs, n := PrintableBytes(), PrintableBytes(), 0;
    TableStart(bs);
    assert Skipped(0) == 0;
    for b := 0 to 256
      invariant n == Skipped(b) && Table(bs, cs, b)
    {
      TableNext(bs, cs, b);
      if b !in bs {
        bs, cs, n := bs + [b], cs + [256 + n], n + 1;
      }
    }
    ZipMapAt(bs, cs);
    m := ZipMap(bs, cs);
  }
}
