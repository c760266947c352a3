/** UTF-8 as RFC 3629 defines it, with Python's `errors="replace"`: the maximal prefix of a
    broken sequence becomes one U+FFFD.  Decoding in pieces agrees with decoding at once. */
module Utf8 {
  import opened Wrappers

  type Byte = b: int | 0 <= b < 256
  /** A code point that is not a surrogate. */
  type Scalar = c: int | 0 <= c < 0xD800 || 0xE000 <= c < 0x11_0000

  const REPLACEMENT: Scalar := 0xFFFD

  // ------------------------------------------------------------- section 3: encoding

  function EncodeOne(c: Scalar): (bs: seq<Byte>)
    ensures 1 <= |bs| <= 4
  {
    if c < 0x80 then [c]
    else if c < 0x800 then [0xC0 + c / 64, 0x80 + c % 64]
    else if c < 0x1_0000 then [0xE0 + c / 4096, 0x80 + c / 64 % 64, 0x80 + c % 64]
    else [0xF0 + c / 262144, 0x80 + c / 4096 % 64, 0x80 + c / 64 % 64, 0x80 + c % 64]
  }

  function Encode(text: seq<Scalar>): seq<Byte> {
    if text == [] then [] else EncodeOne(text[0]) + Encode(text[1..])
  }

  lemma {:induction false} EncodeAppend(a: seq<Scalar>, b: seq<Scalar>)
    ensures Encode(a + b) == Encode(a) + Encode(b)
  {
    if a == [] {
      assert a + b == b;
    } else {
      hide EncodeOne;
      assert (a + b)[0] == a[0] && (a + b)[1..] == a[1..] + b;
      EncodeAppend(a[1..], b);
      assert EncodeOne(a[0]) + (Encode(a[1..]) + Encode(b)) == (EncodeOne(a[0]) + Encode(a[1..])) + Encode(b);
    }
  }

  // ------------------------------------------------- section 4: well-formed sequences

  /** Length of the sequence a lead byte starts; 0 if no sequence starts with it. */
  function Need(lead: Byte): nat {
    if lead < 0x80 then 1 else if lead < 0xC2 then 0
    else if lead < 0xE0 then 2 else if lead < 0xF0 then 3 else if lead < 0xF5 then 4 else 0
  }

  predicate Tail(b: Byte) { 0x80 <= b < 0xC0 }

  /** The second byte excludes overlong forms, surrogates and values above U+10FFFF. */
  predicate Second(lead: Byte, b: Byte) {
    Tail(b) && (lead == 0xE0 ==> b >= 0xA0) && (lead == 0xED ==> b < 0xA0) &&
    (lead == 0xF0 ==> b >= 0x90) && (lead == 0xF4 ==> b < 0x90)
  }

  function Two(a: int, b: int): int { (a - 0xC0) * 64 + (b - 0x80) }

  function Three(a: int, b: int, c: int): int { ((a - 0xE0) * 64 + (b - 0x80)) * 64 + (c - 0x80) }

  function Four(a: int, b: int, c: int, d: int): int {
    (((a - 0xF0) * 64 + (b - 0x80)) * 64 + (c - 0x80)) * 64 + (d - 0x80)
  }

  /** What the next bytes are: a character of `n` bytes, a broken sequence whose maximal valid
      prefix has `n` bytes, or the start of a sequence cut off by the end. */
  datatype Next = Char(c: Scalar, n: nat) | Bad(n: nat) | Incomplete

  function Step(bs: seq<Byte>): (r: Next)
    requires bs != []
    ensures !r.Incomplete? ==> 1 <= r.n <= |bs|
  {
    var n := Need(bs[0]);
    if n == 0 then Bad(1)
    else if n == 1 then Char(bs[0], 1)
    else if |bs| < 2 then Incomplete
    else if !Second(bs[0], bs[1]) then Bad(1)
    else if n == 2 then Char(Two(bs[0], bs[1]), 2)
    else if |bs| < 3 then Incomplete
    else if !Tail(bs[2]) then Bad(2)
    else if n == 3 then Char(Three(bs[0], bs[1], bs[2]), 3)
    else if |bs| < 4 then Incomplete
    else if !Tail(bs[3]) then Bad(3)
    else Char(Four(bs[0], bs[1], bs[2], bs[3]), 4)
  }

  /** Decodes as far as the bytes allow; at the final call nothing is left over. */
  function DecodeBuffer(bs: seq<Byte>, final: bool): (r: (seq<Scalar>, seq<Byte>))
    ensures final ==> r.1 == []
    decreases |bs|
  {
    if bs == [] then ([], []) else
      match Step(bs)
      case Char(c, n) => var (text, rest) := DecodeBuffer(bs[n..], final); ([c] + text, rest)
      case Bad(n) => var (text, rest) := DecodeBuffer(bs[n..], final); ([REPLACEMENT] + text, rest)
      case Incomplete => if final then ([REPLACEMENT], []) else ([], bs)
  }

  /** `bytes.decode("utf-8", errors="replace")`. */
  function Decode(bs: seq<Byte>): seq<Scalar> {
    DecodeBuffer(bs, true).0
  }

  // ------------------------------------------------------------------- round trip

  lemma EncodedIsStep(c: Scalar, rest: seq<Byte>)
    ensures Step(EncodeOne(c) + rest) == Char(c, |EncodeOne(c)|)
  {
    EncodedAloneIsStep(c);
    StepIsLocal(EncodeOne(c), rest);
  }

  lemma EncodedAloneIsStep(c: Scalar)
    ensures Step(EncodeOne(c)) == Char(c, |EncodeOne(c)|)
  {
    if c < 0x80 {
    } else if c < 0x800 {
      Digits2(c);
    } else if c < 0x1_0000 {
      Digits3(c);
    } else {
      Digits4(c);
    }
  }

  lemma Digits2(c: nat)
    requires 0x80 <= c < 0x800
    ensures 2 <= c / 64 < 32 && c / 64 * 64 + c % 64 == c
  {
  }

  lemma Digits3(c: nat)
    requires 0x800 <= c < 0x1_0000
    ensures c / 4096 < 16 && c / 4096 * 4096 + c / 64 % 64 * 64 + c % 64 == c
    ensures c / 4096 == 0 ==> c / 64 % 64 >= 32
    ensures c / 4096 == 13 && c / 64 % 64 >= 32 ==> 0xD800 <= c < 0xE000
  {
    assert c / 64 / 64 == c / 4096;
  }

  lemma Digits4(c: nat)
    requires 0x1_0000 <= c < 0x11_0000
    ensures c / 262144 < 5 && c / 262144 * 262144 + c / 4096 % 64 * 4096 + c / 64 % 64 * 64 + c % 64 == c
    ensures (c / 262144 == 0 ==> c / 4096 % 64 >= 16) && (c / 262144 == 4 ==> c / 4096 % 64 < 16)
  {
    assert c / 64 / 64 == c / 4096 && c / 4096 / 64 == c / 262144;
  }

  /** Nothing but the encoding of a character is decoded as that character. */
  lemma StepIsCanonical(bs: seq<Byte>)
    requires bs != [] && Step(bs).Char?
    ensures bs[..Step(bs).n] == EncodeOne(Step(bs).c)
  {
    var n := Step(bs).n;
    if n == 2 {
      Canonical2(bs[0], bs[1]);
    } else if n == 3 {
      Canonical3(bs[0], bs[1], bs[2]);
    } else if n == 4 {
      Canonical4(bs[0], bs[1], bs[2], bs[3]);
    }
  }

  lemma Canonical2(a: Byte, b: Byte)
    requires 0xC2 <= a < 0xE0 && Tail(b)
    ensures var c := Two(a, b); 0x80 <= c < 0x800 && c / 64 == a - 0xC0 && c % 64 == b - 0x80
  {
    Recombine(a - 0xC0, b - 0x80);
  }

  lemma Canonical3(a: Byte, b: Byte, d: Byte)
    requires 0xE0 <= a < 0xF0 && Second(a, b) && Tail(d)
    ensures var c := Three(a, b, d);
      0x800 <= c < 0x1_0000 && c / 4096 == a - 0xE0 && c / 64 % 64 == b - 0x80 && c % 64 == d - 0x80
  {
    var hi := (a - 0xE0) * 64 + (b - 0x80);
    Recombine(hi, d - 0x80);
    Recombine(a - 0xE0, b - 0x80);
    assert Three(a, b, d) / 64 / 64 == Three(a, b, d) / 4096;
  }

  lemma Canonical4(a: Byte, b: Byte, d: Byte, e: Byte)
    requires 0xF0 <= a < 0xF5 && Second(a, b) && Tail(d) && Tail(e)
    ensures var c := Four(a, b, d, e);
      && 0x1_0000 <= c < 0x11_0000 && c / 262144 == a - 0xF0 && c / 4096 % 64 == b - 0x80
      && c / 64 % 64 == d - 0x80 && c % 64 == e - 0x80
  {
    var c, hi := Four(a, b, d, e), (a - 0xF0) * 64 + (b - 0x80);
    Recombine(hi * 64 + (d - 0x80), e - 0x80);
    Recombine(hi, d - 0x80);
    Recombine(a - 0xF0, b - 0x80);
    assert c / 64 / 64 == c / 4096 && c / 4096 / 64 == c / 262144;
  }

  lemma Recombine(q: nat, r: nat)
    requires r < 64
    ensures (q * 64 + r) / 64 == q && (q * 64 + r) % 64 == r
  {
  }

  /** Decoding what was encoded gives the text back. */
  lemma {:induction false} DecodeEncode(text: seq<Scalar>, final: bool)
    ensures DecodeBuffer(Encode(text), final) == (text, [])
  {
    hide EncodeOne, Step;
    if text != [] {
      var first, rest := EncodeOne(text[0]), Encode(text[1..]);
      EncodedIsStep(text[0], rest);
      assert (first + rest)[|first|..] == rest;
      DecodeEncode(text[1..], final);
      assert [text[0]] + text[1..] == text;
    }
  }

  // -------------------------------------------------------- streaming equals one-shot

  /** A character or an error is decided by its own bytes. */
  lemma StepIsLocal(bs: seq<Byte>, more: seq<Byte>)
    requires bs != [] && !Step(bs).Incomplete?
    ensures Step(bs + more) == Step(bs)
  {
    assert forall i :: 0 <= i < |bs| ==> (bs + more)[i] == bs[i];
  }

  /** What a decided step puts out. */
  function Output(r: Next): (text: seq<Scalar>)
    requires !r.Incomplete?
    ensures |text| == 1
  {
    if r.Char? then [r.c] else [REPLACEMENT]
  }

  lemma DecidedStep(bs: seq<Byte>, final: bool)
    requires bs != [] && !Step(bs).Incomplete?
    ensures var later := DecodeBuffer(bs[Step(bs).n..], final);
      DecodeBuffer(bs, final) == (Output(Step(bs)) + later.0, later.1)
  {
    hide Step;
  }

  lemma UndecidedStep(bs: seq<Byte>, more: seq<Byte>, final: bool)
    requires bs == [] || Step(bs).Incomplete?
    ensures DecodeBuffer(bs, false) == ([], bs)
    ensures DecodeBuffer(bs + more, final) == ([] + DecodeBuffer(bs + more, final).0, DecodeBuffer(bs + more, final).1)
  {
    hide Step;
    var r := DecodeBuffer(bs + more, final);
    assert [] + r.0 == r.0;
  }

  lemma Join(head: seq<Scalar>, a: seq<Scalar>, b: seq<Scalar>)
    ensures head + (a + b) == (head + a) + b
  {
  }

  /** Feeding more bytes continues where the buffer was left: for all bytes, valid or not. */
  lemma {:induction false} DecodeContinues(bs: seq<Byte>, more: seq<Byte>, final: bool)
    ensures var (text, rest) := DecodeBuffer(bs, false);
      var (text', rest') := DecodeBuffer(rest + more, final);
      DecodeBuffer(bs + more, final) == (text + text', rest')
    decreases |bs|
  {
    hide Step, DecodeBuffer, Output;
    if bs == [] || Step(bs).Incomplete? {
      UndecidedStep(bs, more, final);
    } else {
      var r := Step(bs);
      StepIsLocal(bs, more);
      DecidedStep(bs, false);
      DecidedStep(bs + more, final);
      assert (bs + more)[r.n..] == bs[r.n..] + more;
      DecodeContinues(bs[r.n..], more, final);
      var (text, rest) := DecodeBuffer(bs[r.n..], false);
      Join(Output(r), text, DecodeBuffer(rest + more, final).0);
    }
  }

  // ------------------------------------------------------------- what is replaced

  /** The bytes are the beginning of a character's encoding, cut off. */
  ghost predicate Starts(bs: seq<Byte>) {
    exists c: Scalar :: bs < EncodeOne(c)
  }

  /** A sequence that could still become a character, completed. */
  function Completed(bs: seq<Byte>): (r: seq<Byte>)
    requires bs != [] && Step(bs).Incomplete?
    ensures bs < r
  {
    var second: Byte := if bs[0] == 0xE0 then 0xA0 else if bs[0] == 0xF0 then 0x90 else 0x80;
    var two := if |bs| == 1 then bs + [second] else bs;
    var three := if Need(bs[0]) > 2 && |two| == 2 then two + [0x80] else two;
    if Need(bs[0]) > 3 then three + [0x80] else three
  }

  lemma CompletedIsChar(bs: seq<Byte>)
    requires bs != [] && Step(bs).Incomplete?
    ensures Step(Completed(bs)).Char? && Step(Completed(bs)).n == |Completed(bs)|
  {
  }

  /** A step waits for more bytes exactly when some character begins with these. */
  lemma IncompleteIff(bs: seq<Byte>)
    requires bs != []
    ensures Step(bs).Incomplete? <==> Starts(bs)
  {
    hide EncodeOne, Step;
    if Step(bs).Incomplete? {
      var all := Completed(bs);
      CompletedIsChar(bs);
      StepIsCanonical(all);
      assert all[..|all|] == all;
    } else if Starts(bs) {
      var c: Scalar :| bs < EncodeOne(c);
      var all := EncodeOne(c);
      assert all == bs + all[|bs|..];
      EncodedAloneIsStep(c);
      StepIsLocal(bs, all[|bs|..]);
    }
  }

  /** A broken sequence: no character starts here, and what is replaced is the longest beginning of
      one, or a single byte. */
  lemma BrokenIsMaximal(bs: seq<Byte>)
    requires bs != [] && Step(bs).Bad?
    ensures var n := Step(bs).n;
      && (forall c: Scalar :: !(EncodeOne(c) <= bs))
      && (n > 1 ==> Starts(bs[..n])) && (n < |bs| ==> !Starts(bs[..n + 1]))
  {
    hide EncodeOne, Starts;
    var n := Step(bs).n;
    forall c: Scalar ensures !(EncodeOne(c) <= bs) {
      if EncodeOne(c) <= bs {
        assert bs == EncodeOne(c) + bs[|EncodeOne(c)|..];
        EncodedIsStep(c, bs[|EncodeOne(c)|..]);
      }
    }
    if n > 1 {
      IncompleteIff(bs[..n]);
    }
    if n < |bs| {
      IncompleteIff(bs[..n + 1]);
    }
  }

  /** It becomes one U+FFFD, and so does a beginning cut off by the end. */
  lemma BrokenIsReplaced(bs: seq<Byte>)
    requires bs != [] && !Step(bs).Char?
    ensures Decode(bs) == [0xFFFD] + (if Step(bs).Bad? then Decode(bs[Step(bs).n..]) else [])
  {
    hide Step;
  }
}
