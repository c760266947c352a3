/** The tokenizer and its streaming decoder as objects. */
module Tokenizers {
  import opened Wrappers
  import opened ByteLevel
  import opened Utf8
  import opened Bpe
  import opened Vocabularies

  /** `{v: k for k, v in m.items()}`; of several keys with one value some key wins. */
  method Invert<K(==,!new), V(==)>(m: map<K, V>) returns (inverse: map<V, K>)
    ensures forall k :: k in m ==> m[k] in inverse
    ensures forall x :: x in inverse ==> inverse[x] in m && m[inverse[x]] == x
  {
    inverse := map[];
    var rest := m.Keys;
    while rest != {}
      invariant rest <= m.Keys
      invariant forall k :: k in m && k !in rest ==> m[k] in inverse
      invariant forall x :: x in inverse ==> inverse[x] in m && m[inverse[x]] == x
      decreases |rest|
    {
      var k :| k in rest;
      inverse, rest := inverse[m[k] := k], rest - {k};
    }
  }

  /** Unicode normalisation is a function of the text. */
  function Normalized(nfc: imap<Text, Text>, text: Text): Text {
    if text in nfc then nfc[text] else text
  }

  /** Behind every literal at least as long. */
  function InsertByLength(literals: seq<Text>, lit: Text): seq<Text> {
    if literals == [] || |literals[0]| < |lit| then [lit] + literals
    else [literals[0]] + InsertByLength(literals[1..], lit)
  }

  lemma {:induction false} InsertKeepsOrder(literals: seq<Text>, lit: Text)
    requires LongestFirst(literals)
    ensures LongestFirst(InsertByLength(literals, lit))
    ensures forall t :: t in InsertByLength(literals, lit) <==> t == lit || t in literals
  {
    if literals != [] && |literals[0]| >= |lit| {
      var rest := InsertByLength(literals[1..], lit);
      InsertKeepsOrder(literals[1..], lit);
      forall k | 0 <= k < |rest| ensures |rest[k]| <= |literals[0]| {
        assert rest[k] in rest;
      }
    }
  }

  /** `sorted(..., key=len, reverse=True)`; literals of one length come in any order. */
  method SortByLength(literals: set<Text>) returns (sorted: seq<Text>)
    ensures LongestFirst(sorted) && forall t :: t in sorted <==> t in literals
  {
    sorted := [];
    var rest := literals;
    while rest != {}
      invariant LongestFirst(sorted) && forall t :: t in literals <==> t in rest || t in sorted
      decreases rest
    {
      var lit :| lit in rest;
      InsertKeepsOrder(sorted, lit);
      sorted, rest := InsertByLength(sorted, lit), rest - {lit};
    }
  }

  /** What the files must hold: every byte, every merge result, distinct ids, no empty literal. */
  ghost predicate Loadable(encoder: map<Token, nat>, ranks: map<Pair, nat>, added: map<nat, Text>, special: set<nat>) {
    && RanksDistinct(ranks) && (forall b: nat :: b < 256 ==> [ByteChar(b)] in encoder)
    && (forall p :: p in ranks ==> p.0 + p.1 in encoder)
    && (forall s, t :: s in encoder && t in encoder && encoder[s] == encoder[t] ==> s == t)
    && (forall t :: t in encoder ==> encoder[t] !in added) && special <= added.Keys
    && forall id :: id in added ==> added[id] != []
  }

  method MakeVocabulary(encoder: map<Token, nat>, ranks: map<Pair, nat>, added: map<nat, Text>, special: set<nat>)
    returns (v: Vocabulary)
    requires Loadable(encoder, ranks, added, special)
    ensures Good(v) && v.encoder == encoder && v.ranks == ranks && v.added == added && v.special == special
    ensures forall lit :: lit in v.literals <==> lit in added.Values
  {
    hide RanksDistinct, ByteChar, LongestFirst;
    var decoder := Invert(encoder);
    var addedId := Invert(added);
    var literals := SortByLength(addedId.Keys);
    v := Vocabulary(encoder, decoder, ranks, added, addedId, literals, special);
  }

  method ByteTables() returns (table: map<nat, nat>, inverse: map<nat, nat>)
    ensures forall b: nat :: b < 256 ==> b in table && table[b] == ByteChar(b)
    ensures forall ch: nat :: if ch in inverse then inverse[ch] < 256 && ByteOf(ch) == Some(inverse[ch]) else ByteOf(ch) == None
  {
    hide ByteChar, ByteOf;
    table := BytesToUnicode();
    inverse := Invert(table);
    InverseIsByteOf(table, inverse);
  }

  lemma InverseIsByteOf(table: map<nat, nat>, inverse: map<nat, nat>)
    requires (forall b: nat :: b in table <==> b < 256) && forall b :: 0 <= b < 256 ==> table[b] == ByteChar(b)
    requires forall b :: b in table ==> table[b] in inverse
    requires forall ch :: ch in inverse ==> inverse[ch] in table && table[inverse[ch]] == ch
    ensures forall ch: nat :: if ch in inverse then inverse[ch] < 256 && ByteOf(ch) == Some(inverse[ch]) else ByteOf(ch) == None
  {
    forall ch: nat ensures if ch in inverse then inverse[ch] < 256 && ByteOf(ch) == Some(inverse[ch]) else ByteOf(ch) == None {
      if ByteOf(ch).Some? {
        assert table[ByteOf(ch).value] == ch;
      }
      if ch in inverse {
        ByteOfChar(inverse[ch]);
      }
    }
  }

  class BPETokenizer {
    const v: Vocabulary
    const byteEncoder: map<nat, nat>
    const byteDecoder: map<nat, nat>
    const merger: Merger
    const pre: imap<Text, seq<Text>>
    const nfc: imap<Text, Text>

    /** The byte tables are inverse to each other and the memo is right. */
    ghost predicate Valid()
      reads merger
    {
      && Good(v) && Lossless(pre) && merger.Valid() && merger.ranks == v.ranks
      && (forall b: nat :: b < 256 ==> b in byteEncoder && byteEncoder[b] == ByteChar(b))
      && forall ch: nat :: if ch in byteDecoder then byteDecoder[ch] < 256 && ByteOf(ch) == Some(byteDecoder[ch]) else ByteOf(ch) == None
    }

    constructor (encoder: map<Token, nat>, ranks: map<Pair, nat>, added: map<nat, Text>, special: set<nat>,
                 pre: imap<Text, seq<Text>>, nfc: imap<Text, Text>)
      requires Loadable(encoder, ranks, added, special) && Lossless(pre)
      ensures Valid() && v.encoder == encoder && v.ranks == ranks && v.added == added && v.special == special
      ensures forall lit :: lit in v.literals <==> lit in added.Values
      ensures this.pre == pre && this.nfc == nfc && fresh(merger)
    {
      hide Good, RanksDistinct, Lossless, ByteOf, ByteChar;
      var made := MakeVocabulary(encoder, ranks, added, special);
      var table, inverse := ByteTables();
      v, byteEncoder, byteDecoder := made, table, inverse;
      merger := new Merger(ranks);
      this.pre, this.nfc := pre, nfc;
    }

    /** `_bpe`, from bytes. */
    method BpeWord(bytes: seq<Byte>) returns (tokens: seq<Token>)
      requires Valid() && bytes != []
      modifies merger
      ensures Valid() && tokens == Bpe.Bpe(Chars(bytes), v.ranks)
    {
      var chars: seq<Token> := [];
      for i := 0 to |bytes|
        invariant |chars| == i && forall k :: 0 <= k < i ==> chars[k] == [ByteChar(bytes[k])]
      {
        chars := chars + [[byteEncoder[bytes[i]]]];
      }
      assert chars == Chars(bytes);
      tokens := merger.Merge(chars);
    }

    /** `_encode_piece`, one word. */
    method EncodeOneWord(word: Text) returns (ids: seq<nat>)
      requires Valid() && word != []
      modifies merger
      ensures Valid() && ids == EncodeWord(v, Encode(word))
    {
      hide Bpe.Bpe, Closed, Disjoint;
      var tokens := BpeWord(Encode(word));
      WordKnown(v, Encode(word));
      ids := [];
      ghost var rest := tokens;
      for i := 0 to |tokens|
        invariant Valid() && rest == tokens[i..] && Known(v, rest) && ids + Ids(v, rest) == Ids(v, tokens)
      {
        assert rest[0] in v.encoder;
        Regroup(ids, [v.encoder[rest[0]]], Ids(v, rest[1..]));
        ids := ids + [v.encoder[tokens[i]]];
        rest := rest[1..];
      }
    }

    /** `_encode_piece`. */
    method EncodePlain(piece: Text) returns (ids: seq<nat>)
      requires Valid()
      modifies merger
      ensures Valid() && ids == EncodeWords(v, Words(pre, piece))
    {
      hide Good, EncodeWord, Encode, Bpe.Bpe;
      var words := Words(pre, piece);
      ids := [];
      ghost var rest, all := words, EncodeWords(v, words);
      assert [] !in words;
      for i := 0 to |words|
        invariant Valid() && rest == words[i..] && all == ids + EncodeWords(v, rest)
      {
        assert words[i] in words;
        var more := EncodeOneWord(words[i]);
        Regroup(ids, more, EncodeWords(v, rest[1..]));
        ids, rest := ids + more, rest[1..];
      }
    }

    /** The loop over the split of `encode`. */
    method EncodeSplit(pieces: seq<Piece>) returns (ids: seq<nat>)
      requires Valid()
      modifies merger
      ensures Valid() && ids == EncodePieces(v, pre, pieces)
    {
      hide Good, EncodePiece;
      ids := [];
      ghost var rest, all := pieces, EncodePieces(v, pre, pieces);
      for i := 0 to |pieces|
        invariant Valid() && rest == pieces[i..] && all == ids + EncodePieces(v, pre, rest)
      {
        var more := EncodeSplitPiece(pieces[i].text);
        Regroup(ids, more, EncodePieces(v, pre, rest[1..]));
        ids, rest := ids + more, rest[1..];
      }
    }

    method EncodeSplitPiece(piece: Text) returns (ids: seq<nat>)
      requires Valid()
      modifies merger
      ensures Valid() && ids == EncodePiece(v, pre, piece)
    {
      hide Closed, EncodeWords;
      ids := [];
      if piece != [] {
        if piece in v.addedId {
          ids := [v.addedId[piece]];
        } else {
          ids := EncodePlain(piece);
        }
      }
    }

    /** `encode`: its ids decode to the normalised text. */
    method EncodeText(text: Text, special: bool) returns (ids: seq<nat>)
      requires Valid()
      modifies merger
      ensures Valid() && ids == Vocabularies.EncodeText(v, pre, Normalized(nfc, text), special)
      ensures DecodeIds(v, ids, false) == Some(Normalized(nfc, text))
    {
      hide Closed, EncodePieces, EncodeWords, DecodeIds;
      var normal := Normalized(nfc, text);
      if special {
        ids := EncodeSplit(Split(v.literals, normal));
      } else {
        ids := EncodePlain(normal);
      }
      TextRoundTrip(v, pre, normal, special);
    }

    /** The bytes of one id; `None` is a KeyError. */
    method BytesOf(id: nat, skip: bool) returns (bytes: Option<seq<Byte>>)
      requires Valid()
      ensures bytes == IdBytes(v, id, skip)
    {
      if id in v.special && skip {
        return Some([]);
      } else if id in v.added {
        return Some(Encode(v.added[id]));
      } else if id !in v.decoder {
        return None;
      }
      bytes := CharsToBytes(v.decoder[id]);
    }

    method CharsToBytes(token: Token) returns (bytes: Option<seq<Byte>>)
      requires Valid()
      ensures bytes == TokenBytes(token)
    {
      hide ByteOf, Closed, Disjoint;
      var out: seq<Byte> := [];
      ghost var rest := token;
      PrependTwice(out, out, TokenBytes(token));
      for i := 0 to |token|
        invariant rest == token[i..] && TokenBytes(token) == Prepend(out, TokenBytes(rest))
      {
        if token[i] !in byteDecoder {
          return None;
        }
        var b := byteDecoder[token[i]];
        PrependTwice(out, [b], TokenBytes(rest[1..]));
        out, rest := out + [b], rest[1..];
      }
      PrependTwice(out, out, None);
      bytes := Some(out);
    }

    /** `decode`. */
    method DecodeAll(ids: seq<nat>, skip: bool) returns (text: Option<Text>)
      requires Valid()
      ensures text == DecodeIds(v, ids, skip)
    {
      hide IdBytes, Closed, Disjoint;
      var out: seq<Byte> := [];
      ghost var rest := ids;
      PrependTwice(out, out, AllBytes(v, ids, skip));
      for i := 0 to |ids|
        invariant rest == ids[i..] && AllBytes(v, ids, skip) == Prepend(out, AllBytes(v, rest, skip))
      {
        var chunk := BytesOf(ids[i], skip);
        if chunk.None? {
          return None;
        }
        PrependTwice(out, chunk.value, AllBytes(v, rest[1..], skip));
        out, rest := out + chunk.value, rest[1..];
      }
      PrependTwice(out, out, None);
      text := Some(Decode(out));
    }
  }

  // -------------------------------------------------------------------- streaming

  /** What a streaming decoder returns in all for the ids, starting from a buffer. */
  function Streamed(v: Vocabulary, ids: seq<nat>, skip: bool, buffer: seq<Byte>): Option<Text>
    decreases |ids|
  {
    if ids == [] then Some(DecodeBuffer(buffer, true).0) else
      match IdBytes(v, ids[0], skip)
      case None => None
      case Some(chunk) =>
        var (text, rest) := DecodeBuffer(buffer + chunk, false);
        match Streamed(v, ids[1..], skip, rest)
        case None => None
        case Some(later) => Some(text + later)
  }

  /** Streaming equals one-shot, for every id sequence and whatever bytes it stands for. */
  lemma {:induction false} StreamingEqualsOneShot(v: Vocabulary, ids: seq<nat>, skip: bool, buffer: seq<Byte>)
    ensures Streamed(v, ids, skip, buffer) == match AllBytes(v, ids, skip)
      case Some(bytes) => Some(DecodeBuffer(buffer + bytes, true).0)
      case None => None
    decreases |ids|
  {
    hide IdBytes, DecodeBuffer;
    if ids == [] {
      assert buffer + [] == buffer;
    } else {
      var first := IdBytes(v, ids[0], skip);
      if first.Some? {
        var rest := DecodeBuffer(buffer + first.value, false).1;
        StreamingEqualsOneShot(v, ids[1..], skip, rest);
        var later := AllBytes(v, ids[1..], skip);
        if later.Some? {
          DecodeContinues(buffer + first.value, later.value, true);
          assert buffer + first.value + later.value == buffer + (first.value + later.value);
        }
      }
    }
  }

  class StreamingDecoder {
    const tokenizer: BPETokenizer
    const skip: bool
    var buffer: seq<Byte>

    constructor (tokenizer: BPETokenizer, skip: bool)
      ensures this.tokenizer == tokenizer && this.skip == skip && buffer == []
    {
      this.tokenizer, this.skip, buffer := tokenizer, skip, [];
    }

    /** `put`; `None` is a KeyError and changes nothing. */
    method Put(id: nat) returns (text: Option<Text>)
      requires tokenizer.Valid()
      modifies this
      ensures match IdBytes(tokenizer.v, id, skip)
        case None => text == None && buffer == old(buffer)
        case Some(chunk) => text.Some? && (text.value, buffer) == DecodeBuffer(old(buffer) + chunk, false)
    {
      var chunk := tokenizer.BytesOf(id, skip);
      if chunk.None? {
        return None;
      }
      var r := DecodeBuffer(buffer + chunk.value, false);
      text, buffer := Some(r.0), r.1;
    }

    /** `flush`. */
    method Flush() returns (text: Text)
      modifies this
      ensures text == DecodeBuffer(old(buffer), true).0 && buffer == []
    {
      var r := DecodeBuffer(buffer, true);
      text, buffer := r.0, r.1;
    }
  }

  /** Putting every id and flushing gives what `decode` gives. */
  method StreamAll(tokenizer: BPETokenizer, ids: seq<nat>, skip: bool) returns (text: Option<Text>)
    requires tokenizer.Valid()
    ensures text == DecodeIds(tokenizer.v, ids, skip)
  {
    hide IdBytes, DecodeBuffer;
    var decoder := new StreamingDecoder(tokenizer, skip);
    ghost var v, rest := tokenizer.v, ids;
    StreamingEqualsOneShot(v, ids, skip, []);
    assert forall bytes: seq<Byte> :: [] + bytes == bytes;
    var out: Text := [];
    PrependTwice(out, out, Streamed(v, ids, skip, []));
    for i := 0 to |ids|
      invariant rest == ids[i..] && tokenizer.Valid()
      invariant Streamed(v, ids, skip, []) == Prepend(out, Streamed(v, rest, skip, decoder.buffer))
    {
      var piece := decoder.Put(ids[i]);
      if piece.None? {
        return None;
      }
      rest := rest[1..];
      PrependTwice(out, piece.value, Streamed(v, rest, skip, decoder.buffer));
      out := out + piece.value;
    }
    var tail := decoder.Flush();
    text := Some(out + tail);
  }
}
