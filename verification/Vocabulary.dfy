/** What encoding and decoding mean, given a vocabulary, and their round trip. */
module Vocabularies {
  import opened Wrappers
  import opened ByteLevel
  import opened Utf8
  import opened Bpe

  type Text = seq<Scalar>

  /** vocab.json, merges.txt and the added tokens of the configuration. */
  datatype Vocabulary = Vocabulary(
    encoder: map<Token, nat>, decoder: map<nat, Token>, ranks: map<Pair, nat>,
    added: map<nat, Text>, addedId: map<Text, nat>, literals: seq<Text>, special: set<nat>)

  /** The vocabulary is merge-closed (every byte is a token and so is every merge), and
      `decoder` undoes `encoder`, which needs an id of its own for every token. */
  ghost predicate Closed(v: Vocabulary) {
    && RanksDistinct(v.ranks) && (forall b: nat :: b < 256 ==> [ByteChar(b)] in v.encoder)
    && (forall p :: p in v.ranks ==> p.0 + p.1 in v.encoder)
    && (forall t :: t in v.encoder ==> v.encoder[t] in v.decoder && v.decoder[v.encoder[t]] == t)
  }

  /** The added tokens are non-empty literals under ids no ordinary token has. */
  ghost predicate Disjoint(v: Vocabulary) {
    && (forall t :: t in v.encoder ==> v.encoder[t] !in v.added) && v.special <= v.added.Keys
    && (forall lit :: lit in v.addedId ==> v.addedId[lit] in v.added && v.added[v.addedId[lit]] == lit)
    && [] !in v.literals && LongestFirst(v.literals) && (forall lit :: lit in v.literals <==> lit in v.addedId)
  }

  ghost predicate Good(v: Vocabulary) {
    Closed(v) && Disjoint(v)
  }

  // --------------------------------------------------------------- bytes and chars

  function Chars(bytes: seq<Byte>): (r: seq<Token>)
    ensures |r| == |bytes| && forall i :: 0 <= i < |r| ==> r[i] == [ByteChar(bytes[i])]
  {
    if bytes == [] then [] else [[ByteChar(bytes[0])]] + Chars(bytes[1..])
  }

  /** The byte of a character, searched downwards from `n - 1`. */
  function ByteOfBelow(ch: nat, n: nat): (r: Option<Byte>)
    requires n <= 256
    ensures r.Some? ==> r.value < n && ByteChar(r.value) == ch
    ensures r.None? ==> forall b: nat :: b < n ==> ByteChar(b) != ch
  {
    if n == 0 then None else if ByteChar(n - 1) == ch then Some(n - 1) else ByteOfBelow(ch, n - 1)
  }

  function ByteOf(ch: nat): Option<Byte> {
    ByteOfBelow(ch, 256)
  }

  lemma ByteOfChar(b: Byte)
    ensures ByteOf(ByteChar(b)) == Some(b)
  {
    var r := ByteOf(ByteChar(b));
    ByteCharInjective(r.value, b);
  }

  /** The bytes a token stands for; `None` if some character stands for no byte. */
  function TokenBytes(token: Token): Option<seq<Byte>> {
    if token == [] then Some([]) else
      match (ByteOf(token[0]), TokenBytes(token[1..]))
      case (Some(b), Some(rest)) => Some([b] + rest)
      case _ => None
  }

  lemma {:induction false} TokenBytesAppend(a: Token, b: Token)
    ensures TokenBytes(a + b) == match (TokenBytes(a), TokenBytes(b))
      case (Some(x), Some(y)) => Some(x + y)
      case _ => None
  {
    hide ByteOf;
    if a == [] {
      assert a + b == b;
      assert TokenBytes(b).Some? ==> [] + TokenBytes(b).value == TokenBytes(b).value;
    } else {
      assert (a + b)[0] == a[0] && (a + b)[1..] == a[1..] + b;
      TokenBytesAppend(a[1..], b);
      var h, x, y := ByteOf(a[0]), TokenBytes(a[1..]), TokenBytes(b);
      if h.Some? && x.Some? && y.Some? {
        assert [h.value] + (x.value + y.value) == ([h.value] + x.value) + y.value;
      }
    }
  }

  lemma {:induction false} CharsStandForBytes(bytes: seq<Byte>)
    ensures TokenBytes(Flatten(Chars(bytes))) == Some(bytes)
  {
    if bytes != [] {
      hide ByteOf, ByteChar;
      ByteOfChar(bytes[0]);
      CharsStandForBytes(bytes[1..]);
      var rest := Flatten(Chars(bytes[1..]));
      assert Chars(bytes)[1..] == Chars(bytes[1..]);
      var all: Token := [ByteChar(bytes[0])] + rest;
      assert Flatten(Chars(bytes)) == all && all[0] == ByteChar(bytes[0]) && all[1..] == rest;
      assert [bytes[0]] + bytes[1..] == bytes;
    }
  }

  // ------------------------------------------------------------------------ words

  /** The ids of a word: all its tokens have one. */
  function Ids(v: Vocabulary, tokens: seq<Token>): seq<nat>
    requires forall t :: t in tokens ==> t in v.encoder
  {
    if tokens == [] then [] else [v.encoder[tokens[0]]] + Ids(v, tokens[1..])
  }

  ghost predicate Known(v: Vocabulary, tokens: seq<Token>) {
    forall t :: t in tokens ==> t in v.encoder
  }

  lemma {:induction false} MergeAllKnown(v: Vocabulary, word: seq<Token>, p: Pair)
    requires Known(v, word) && p.0 + p.1 in v.encoder
    ensures Known(v, MergeAll(word, p))
  {
    if |word| >= 2 {
      if word[0] == p.0 && word[1] == p.1 {
        MergeAllKnown(v, word[2..], p);
      } else {
        MergeAllKnown(v, word[1..], p);
      }
    }
  }

  lemma {:induction false} BpeKnown(v: Vocabulary, word: seq<Token>)
    requires Good(v) && Known(v, word)
    ensures Known(v, Bpe.Bpe(word, v.ranks))
    decreases |word|
  {
    if Merged(word, v.ranks) {
      BpeDone(word, v.ranks);
    } else {
      var q :| Adjacent(word, q) && q in v.ranks;
      var p := BestExists(word, v.ranks, q);
      BpeRound(word, v.ranks, p);
      MergeAllKnown(v, word, p);
      BpeKnown(v, MergeAll(word, p));
    }
  }

  /** Every word can be encoded. */
  lemma WordKnown(v: Vocabulary, bytes: seq<Byte>)
    requires Good(v)
    ensures Known(v, Bpe.Bpe(Chars(bytes), v.ranks))
  {
    forall t | t in Chars(bytes) ensures t in v.encoder {
      var i :| 0 <= i < |bytes| && Chars(bytes)[i] == t;
    }
    BpeKnown(v, Chars(bytes));
  }

  ghost function EncodeWord(v: Vocabulary, bytes: seq<Byte>): seq<nat>
    requires Good(v)
  {
    WordKnown(v, bytes);
    Ids(v, Bpe.Bpe(Chars(bytes), v.ranks))
  }

  /** The words of a piece, concatenated. */
  ghost function EncodeWords(v: Vocabulary, words: seq<Text>): seq<nat>
    requires Good(v)
  {
    if words == [] then [] else EncodeWord(v, Encode(words[0])) + EncodeWords(v, words[1..])
  }

  // ------------------------------------------------------------------ added tokens

  /** Literal `lit` stands at position `i`. */
  predicate StandsAt(text: Text, lit: Text, i: nat) {
    i + |lit| <= |text| && text[i..i + |lit|] == lit
  }

  /** The first of the literals, longest first, that stands at `i`. */
  function LiteralAt(literals: seq<Text>, text: Text, i: nat): (r: Option<Text>)
    ensures r.Some? ==> r.value in literals && StandsAt(text, r.value, i)
    ensures r.None? ==> forall lit :: lit in literals ==> !StandsAt(text, lit, i)
  {
    if literals == [] then None
    else if StandsAt(text, literals[0], i) then Some(literals[0])
    else LiteralAt(literals[1..], text, i)
  }

  datatype Piece = Plain(text: Text) | Literal(text: Text)

  /** `added_tokens_re.split`: plain text and literals, alternately, from `i` on; the plain
      piece began at `start`. */
  function SplitFrom(literals: seq<Text>, text: Text, start: nat, i: nat): (r: seq<Piece>)
    requires start <= i <= |text| && [] !in literals
    decreases |text| - i
  {
    if i == |text| then [Plain(text[start..])] else
      match LiteralAt(literals, text, i)
      case None => SplitFrom(literals, text, start, i + 1)
      case Some(lit) => [Plain(text[start..i]), Literal(lit)] + SplitFrom(literals, text, i + |lit|, i + |lit|)
  }

  function Split(literals: seq<Text>, text: Text): seq<Piece>
    requires [] !in literals
  {
    SplitFrom(literals, text, 0, 0)
  }

  function Joined(pieces: seq<Piece>): Text {
    if pieces == [] then [] else pieces[0].text + Joined(pieces[1..])
  }

  lemma JoinedTwo(a: Text, b: Text, rest: seq<Piece>)
    ensures Joined([Plain(a), Literal(b)] + rest) == a + b + Joined(rest)
  {
    assert ([Plain(a), Literal(b)] + rest)[1..] == [Literal(b)] + rest;
    assert ([Literal(b)] + rest)[1..] == rest;
    assert a + (b + Joined(rest)) == a + b + Joined(rest);
  }

  /** Nothing is lost by the split. */
  lemma {:induction false} SplitJoins(literals: seq<Text>, text: Text, start: nat, i: nat)
    requires start <= i <= |text| && [] !in literals
    ensures Joined(SplitFrom(literals, text, start, i)) == text[start..]
    decreases |text| - i
  {
    hide LiteralAt;
    if i == |text| {
      assert text[start..] + [] == text[start..];
    } else {
      var r := LiteralAt(literals, text, i);
      if r.None? {
        SplitJoins(literals, text, start, i + 1);
      } else {
        var end := i + |r.value|;
        SplitJoins(literals, text, end, end);
        JoinedTwo(text[start..i], r.value, SplitFrom(literals, text, end, end));
        assert text[start..] == text[start..i] + text[i..end] + text[end..];
      }
    }
  }

  /** Longest first. */
  ghost predicate LongestFirst(literals: seq<Text>) {
    forall i, j :: 0 <= i < j < |literals| ==> |literals[i]| >= |literals[j]|
  }

  /** `lit` stands at `i`, and no literal that stands there is longer. */
  ghost predicate LongestAt(literals: seq<Text>, text: Text, i: nat, lit: Text) {
    lit in literals && StandsAt(text, lit, i) && forall other :: other in literals && StandsAt(text, other, i) ==> |other| <= |lit|
  }

  /** The literal found is the longest that stands there. */
  lemma {:induction false} LiteralIsLongest(literals: seq<Text>, text: Text, i: nat)
    requires LongestFirst(literals)
    ensures LiteralAt(literals, text, i).Some? ==> LongestAt(literals, text, i, LiteralAt(literals, text, i).value)
  {
    if literals != [] {
      if StandsAt(text, literals[0], i) {
        forall other | other in literals ensures |other| <= |literals[0]| {
          var j :| 0 <= j < |literals| && literals[j] == other;
        }
      } else {
        LiteralIsLongest(literals[1..], text, i);
      }
    }
  }

  /** How the sort orders literals of one length does not matter. */
  lemma TiesDoNotMatter(a: seq<Text>, b: seq<Text>, text: Text, i: nat)
    requires LongestFirst(a) && LongestFirst(b) && forall lit :: lit in a <==> lit in b
    ensures LiteralAt(a, text, i) == LiteralAt(b, text, i)
  {
    hide LiteralAt;
    LiteralIsLongest(a, text, i);
    LiteralIsLongest(b, text, i);
    if LiteralAt(a, text, i).Some? && LiteralAt(b, text, i).Some? {
      var x, y := LiteralAt(a, text, i).value, LiteralAt(b, text, i).value;
      assert |x| == |y| && text[i..i + |x|] == x;
    }
  }

  /** No literal starts inside a plain piece: matches are leftmost. */
  ghost predicate NoneInside(literals: seq<Text>, text: Text, start: nat, end: nat) {
    forall k: nat, lit :: start <= k < end && lit in literals ==> !StandsAt(text, lit, k)
  }

  /** The pieces are cut at exactly the leftmost longest literals from `start` on. */
  ghost predicate CutAt(literals: seq<Text>, text: Text, start: nat, pieces: seq<Piece>)
    decreases |pieces|
  {
    && start <= |text| && pieces != [] && pieces[0].Plain?
    && var end := start + |pieces[0].text|;
       && end <= |text| && pieces[0].text == text[start..end] && NoneInside(literals, text, start, end)
       && if |pieces| == 1 then end == |text|
          else |pieces| >= 3 && pieces[1] == Literal(pieces[1].text) && LongestAt(literals, text, end, pieces[1].text)
               && CutAt(literals, text, end + |pieces[1].text|, pieces[2..])
  }

  lemma CutFirst(literals: seq<Text>, text: Text, start: nat, i: nat, lit: Text, rest: seq<Piece>)
    requires start <= i <= |text| && NoneInside(literals, text, start, i) && LongestAt(literals, text, i, lit)
    requires CutAt(literals, text, i + |lit|, rest)
    ensures CutAt(literals, text, start, [Plain(text[start..i]), Literal(lit)] + rest)
  {
    hide LongestAt, NoneInside;
    var pieces := [Plain(text[start..i]), Literal(lit)] + rest;
    assert pieces[0] == Plain(text[start..i]) && pieces[1] == Literal(lit) && pieces[2..] == rest;
  }

  lemma {:induction false} SplitIsLeftmostLongest(literals: seq<Text>, text: Text, start: nat, i: nat)
    requires start <= i <= |text| && [] !in literals && LongestFirst(literals) && NoneInside(literals, text, start, i)
    ensures CutAt(literals, text, start, SplitFrom(literals, text, start, i))
    decreases |text| - i
  {
    hide LiteralAt, CutAt, LongestAt, NoneInside;
    if i == |text| {
      CutLast(literals, text, start);
    } else {
      var r := LiteralAt(literals, text, i);
      LiteralIsLongest(literals, text, i);
      if r.None? {
        NoneHere(literals, text, start, i);
        SplitIsLeftmostLongest(literals, text, start, i + 1);
      } else {
        NoneBetween(literals, text, i + |r.value|);
        SplitIsLeftmostLongest(literals, text, i + |r.value|, i + |r.value|);
        CutFirst(literals, text, start, i, r.value, SplitFrom(literals, text, i + |r.value|, i + |r.value|));
      }
    }
  }

  lemma NoneHere(literals: seq<Text>, text: Text, start: nat, i: nat)
    requires NoneInside(literals, text, start, i) && LiteralAt(literals, text, i).None?
    ensures NoneInside(literals, text, start, i + 1)
  {
  }

  lemma NoneBetween(literals: seq<Text>, text: Text, i: nat)
    ensures NoneInside(literals, text, i, i)
  {
  }

  lemma CutLast(literals: seq<Text>, text: Text, start: nat)
    requires start <= |text| && NoneInside(literals, text, start, |text|)
    ensures CutAt(literals, text, start, [Plain(text[start..])])
  {
  }

  // ------------------------------------------------------------------ whole texts

  /** What the pre-tokenizer's `findall` returns for a piece: any lossless partition. */
  function Words(pre: imap<Text, seq<Text>>, piece: Text): seq<Text> {
    if piece in pre then pre[piece] else if piece == [] then [] else [piece]
  }

  ghost predicate Lossless(pre: imap<Text, seq<Text>>) {
    forall piece :: piece in pre ==> Flatten(pre[piece]) == piece && [] !in pre[piece]
  }

  ghost function EncodePiece(v: Vocabulary, pre: imap<Text, seq<Text>>, piece: Text): seq<nat>
    requires Good(v)
  {
    if piece == [] then [] else if piece in v.addedId then [v.addedId[piece]] else EncodeWords(v, Words(pre, piece))
  }

  ghost function EncodePieces(v: Vocabulary, pre: imap<Text, seq<Text>>, pieces: seq<Piece>): seq<nat>
    requires Good(v)
  {
    if pieces == [] then [] else EncodePiece(v, pre, pieces[0].text) + EncodePieces(v, pre, pieces[1..])
  }

  /** What `decode` appends for one id; `None` is a KeyError. */
  function IdBytes(v: Vocabulary, id: nat, skip: bool): Option<seq<Byte>> {
    if id in v.special && skip then Some([])
    else if id in v.added then Some(Encode(v.added[id]))
    else if id in v.decoder then TokenBytes(v.decoder[id])
    else None
  }

  function AllBytes(v: Vocabulary, ids: seq<nat>, skip: bool): Option<seq<Byte>> {
    if ids == [] then Some([]) else
      match (IdBytes(v, ids[0], skip), AllBytes(v, ids[1..], skip))
      case (Some(first), Some(rest)) => Some(first + rest)
      case _ => None
  }

  lemma {:induction false} AllBytesAppend(v: Vocabulary, a: seq<nat>, b: seq<nat>, skip: bool)
    ensures AllBytes(v, a + b, skip) == match (AllBytes(v, a, skip), AllBytes(v, b, skip))
      case (Some(x), Some(y)) => Some(x + y)
      case _ => None
  {
    hide IdBytes;
    if a == [] {
      assert a + b == b;
      assert AllBytes(v, b, skip).Some? ==> [] + AllBytes(v, b, skip).value == AllBytes(v, b, skip).value;
    } else {
      assert (a + b)[0] == a[0] && (a + b)[1..] == a[1..] + b;
      AllBytesAppend(v, a[1..], b, skip);
      var h, x, y := IdBytes(v, a[0], skip), AllBytes(v, a[1..], skip), AllBytes(v, b, skip);
      if h.Some? && x.Some? && y.Some? {
        assert h.value + (x.value + y.value) == (h.value + x.value) + y.value;
      }
    }
  }

  /** Decoding the ids of tokens gives the bytes the tokens stand for. */
  lemma {:induction false} IdsStandForTokens(v: Vocabulary, tokens: seq<Token>, bytes: seq<Byte>)
    requires Good(v) && Known(v, tokens) && TokenBytes(Flatten(tokens)) == Some(bytes)
    ensures AllBytes(v, Ids(v, tokens), false) == Some(bytes)
    decreases |tokens|
  {
    hide ByteOf;
    if tokens != [] {
      TokenBytesAppend(tokens[0], Flatten(tokens[1..]));
      assert tokens[0] in v.encoder;
      IdsStandForTokens(v, tokens[1..], TokenBytes(Flatten(tokens[1..])).value);
      IdOfToken(v, tokens[0]);
    }
  }

  lemma IdOfToken(v: Vocabulary, t: Token)
    requires Good(v) && t in v.encoder
    ensures IdBytes(v, v.encoder[t], false) == TokenBytes(t)
  {
  }

  lemma WordRoundTrip(v: Vocabulary, bytes: seq<Byte>)
    requires Good(v)
    ensures AllBytes(v, EncodeWord(v, bytes), false) == Some(bytes)
  {
    WordKnown(v, bytes);
    BpeIsComplete(Chars(bytes), v.ranks);
    CharsStandForBytes(bytes);
    IdsStandForTokens(v, Bpe.Bpe(Chars(bytes), v.ranks), bytes);
  }

  lemma {:induction false} WordsRoundTrip(v: Vocabulary, words: seq<Text>)
    requires Good(v)
    ensures AllBytes(v, EncodeWords(v, words), false) == Some(Encode(Flatten(words)))
  {
    hide Good, EncodeWord, EncodeOne;
    if words != [] {
      WordRoundTrip(v, Encode(words[0]));
      WordsRoundTrip(v, words[1..]);
      AllBytesAppend(v, EncodeWord(v, Encode(words[0])), EncodeWords(v, words[1..]), false);
      EncodeAppend(words[0], Flatten(words[1..]));
    }
  }

  lemma PieceRoundTrip(v: Vocabulary, pre: imap<Text, seq<Text>>, piece: Text)
    requires Good(v) && Lossless(pre)
    ensures AllBytes(v, EncodePiece(v, pre, piece), false) == Some(Encode(piece))
  {
    hide EncodeWords, EncodeOne, Closed;
    if piece != [] && piece in v.addedId {
      var ids := [v.addedId[piece]];
      assert IdBytes(v, ids[0], false) == Some(Encode(piece)) && AllBytes(v, ids[1..], false) == Some([]);
      assert Encode(piece) + [] == Encode(piece);
    } else if piece != [] {
      WordsRoundTrip(v, Words(pre, piece));
      assert Flatten([piece]) == piece + Flatten([piece][1..]) == piece;
    }
  }

  lemma {:induction false} PiecesRoundTrip(v: Vocabulary, pre: imap<Text, seq<Text>>, pieces: seq<Piece>)
    requires Good(v) && Lossless(pre)
    ensures AllBytes(v, EncodePieces(v, pre, pieces), false) == Some(Encode(Joined(pieces)))
  {
    hide EncodePiece, EncodeOne, Good, Lossless;
    if pieces != [] {
      PieceRoundTrip(v, pre, pieces[0].text);
      PiecesRoundTrip(v, pre, pieces[1..]);
      AllBytesAppend(v, EncodePiece(v, pre, pieces[0].text), EncodePieces(v, pre, pieces[1..]), false);
      EncodeAppend(pieces[0].text, Joined(pieces[1..]));
    }
  }

  /** `decode`: the bytes of all ids, decoded together. */
  function DecodeIds(v: Vocabulary, ids: seq<nat>, skip: bool): Option<Text> {
    match AllBytes(v, ids, skip)
    case Some(bytes) => Some(Decode(bytes))
    case None => None
  }

  /** The ids of a text; `special` says whether added tokens are split off first. */
  ghost function EncodeText(v: Vocabulary, pre: imap<Text, seq<Text>>, text: Text, special: bool): seq<nat>
    requires Good(v)
  {
    if special then EncodePieces(v, pre, Split(v.literals, text)) else EncodeWords(v, Words(pre, text))
  }

  /** Round trip, for every text: decoding without skipping gives the encoded text back. */
  lemma TextRoundTrip(v: Vocabulary, pre: imap<Text, seq<Text>>, text: Text, special: bool)
    requires Good(v) && Lossless(pre)
    ensures DecodeIds(v, EncodeText(v, pre, text, special), false) == Some(text)
  {
    hide Closed, EncodePieces, EncodeWords, EncodeOne, SplitFrom;
    if special {
      PiecesRoundTrip(v, pre, Split(v.literals, text));
      SplitJoins(v.literals, text, 0, 0);
      assert text[0..] == text;
    } else {
      WordsRoundTrip(v, Words(pre, text));
      assert Flatten([text]) == text + Flatten([text][1..]) == text;
    }
    DecodeEncode(text, true);
  }

  // ---------------------------------------------------------------- what is skipped

  /** The ids that are not special, in order. */
  function NotSpecial(v: Vocabulary, ids: seq<nat>): (r: seq<nat>)
    ensures forall id :: id in r <==> id in ids && id !in v.special
  {
    if ids == [] then [] else (if ids[0] in v.special then [] else [ids[0]]) + NotSpecial(v, ids[1..])
  }

  lemma {:induction false} SkippedBytes(v: Vocabulary, ids: seq<nat>)
    ensures AllBytes(v, ids, true) == AllBytes(v, NotSpecial(v, ids), false)
  {
    if ids != [] {
      SkippedBytes(v, ids[1..]);
      var rest := NotSpecial(v, ids[1..]);
      if ids[0] in v.special {
        assert NotSpecial(v, ids) == rest;
        NothingBefore(AllBytes(v, rest, false));
      } else {
        assert ([ids[0]] + rest)[1..] == rest;
      }
    }
  }

  lemma NothingBefore(r: Option<seq<Byte>>)
    ensures r.Some? ==> [] + r.value == r.value
  {
  }

  /** Skipping leaves out exactly the special ids: added tokens that are not special stay. */
  lemma SkipIsRemoval(v: Vocabulary, ids: seq<nat>)
    ensures DecodeIds(v, ids, true) == DecodeIds(v, NotSpecial(v, ids), false)
  {
    SkippedBytes(v, ids);
  }

  /** An added token decodes to its literal, unless it is special and skipped. */
  lemma AddedDecodes(v: Vocabulary, id: nat, skip: bool)
    requires id in v.added
    ensures DecodeIds(v, [id], skip) == Some(if skip && id in v.special then [] else v.added[id])
  {
    assert [id][1..] == [];
    assert Encode(v.added[id]) + [] == Encode(v.added[id]);
    DecodeEncode(v.added[id], true);
    DecodeEncode([], true);
    assert AllBytes(v, [], skip) == Some([]);
  }

  /** An id can be decoded if it is special and skipped, added, or an ordinary token over the byte
      characters. */
  predicate Decodable(v: Vocabulary, id: nat, skip: bool) {
    (skip && id in v.special) || id in v.added || (id in v.decoder && TokenBytes(v.decoder[id]).Some?)
  }

  lemma {:induction false} DecodesIff(v: Vocabulary, ids: seq<nat>, skip: bool)
    ensures DecodeIds(v, ids, skip).Some? <==> forall id :: id in ids ==> Decodable(v, id, skip)
  {
    hide Decodable, IdBytes;
    if ids != [] {
      assert ids == [ids[0]] + ids[1..];
      DecodesIff(v, ids[1..], skip);
      OneDecodes(v, ids[0], skip);
    }
  }

  lemma OneDecodes(v: Vocabulary, id: nat, skip: bool)
    ensures IdBytes(v, id, skip).Some? <==> Decodable(v, id, skip)
  {
  }

  // ------------------------------------------------------------- which ids are chosen

  lemma {:induction false} IdsAreTokens(v: Vocabulary, tokens: seq<Token>)
    requires Good(v) && Known(v, tokens)
    ensures |Ids(v, tokens)| == |tokens|
    ensures forall i :: 0 <= i < |tokens| ==>
      Ids(v, tokens)[i] in v.decoder && v.decoder[Ids(v, tokens)[i]] == tokens[i] && Ids(v, tokens)[i] !in v.added
  {
    if tokens != [] {
      IdsAreTokens(v, tokens[1..]);
      assert tokens[0] in v.encoder;
    }
  }

  /** The ids of a word are ordinary tokens, and the merges went as far as they can: no two
      neighbours have a rank together. */
  lemma WordIsMerged(v: Vocabulary, bytes: seq<Byte>)
    requires Good(v)
    ensures var ids := EncodeWord(v, bytes);
      && (forall i :: 0 <= i < |ids| ==> ids[i] in v.decoder && ids[i] !in v.added)
      && forall i :: 0 <= i < |ids| - 1 ==> (v.decoder[ids[i]], v.decoder[ids[i + 1]]) !in v.ranks
  {
    hide Good, Flatten;
    WordKnown(v, bytes);
    var tokens, ids := Bpe.Bpe(Chars(bytes), v.ranks), EncodeWord(v, bytes);
    assert Good(v) && RanksDistinct(v.ranks) by {
      GoodRanks(v);
    }
    BpeIsComplete(Chars(bytes), v.ranks);
    IdsAreTokens(v, tokens);
    forall i | 0 <= i < |ids| - 1 ensures (v.decoder[ids[i]], v.decoder[ids[i + 1]]) !in v.ranks {
      assert AdjacentAt(tokens, (tokens[i], tokens[i + 1]), i);
      assert Adjacent(tokens, (tokens[i], tokens[i + 1]));
    }
  }

  lemma GoodRanks(v: Vocabulary)
    requires Good(v)
    ensures RanksDistinct(v.ranks)
  {
  }

  /** The ids of added tokens, in order. */
  function AddedIds(v: Vocabulary, ids: seq<nat>): seq<nat> {
    if ids == [] then [] else (if ids[0] in v.added then [ids[0]] else []) + AddedIds(v, ids[1..])
  }

  lemma {:induction false} AddedIdsAppend(v: Vocabulary, a: seq<nat>, b: seq<nat>)
    ensures AddedIds(v, a + b) == AddedIds(v, a) + AddedIds(v, b)
  {
    if a == [] {
      assert a + b == b;
    } else {
      assert (a + b)[0] == a[0] && (a + b)[1..] == a[1..] + b;
      AddedIdsAppend(v, a[1..], b);
    }
  }

  lemma {:induction false} NoAddedIds(v: Vocabulary, ids: seq<nat>)
    requires forall i :: 0 <= i < |ids| ==> ids[i] !in v.added
    ensures AddedIds(v, ids) == []
  {
    if ids != [] {
      NoAddedIds(v, ids[1..]);
    }
  }

  lemma {:induction false} WordsAddNone(v: Vocabulary, words: seq<Text>)
    requires Good(v)
    ensures AddedIds(v, EncodeWords(v, words)) == []
  {
    hide Good, EncodeWord;
    if words != [] {
      WordIsMerged(v, Encode(words[0]));
      NoAddedIds(v, EncodeWord(v, Encode(words[0])));
      WordsAddNone(v, words[1..]);
      AddedIdsAppend(v, EncodeWord(v, Encode(words[0])), EncodeWords(v, words[1..]));
    }
  }

  /** The literals among the pieces. */
  function LiteralsOf(pieces: seq<Piece>): seq<Text> {
    if pieces == [] then [] else (if pieces[0].Literal? then [pieces[0].text] else []) + LiteralsOf(pieces[1..])
  }

  /** Literal pieces are added tokens and plain ones are not. */
  ghost predicate Proper(v: Vocabulary, pieces: seq<Piece>) {
    forall i :: 0 <= i < |pieces| ==> (pieces[i].Literal? <==> pieces[i].text in v.literals)
  }

  lemma {:induction false} SplitIsProper(v: Vocabulary, text: Text, start: nat, i: nat)
    requires Good(v) && start <= i <= |text| && NoneInside(v.literals, text, start, i)
    ensures Proper(v, SplitFrom(v.literals, text, start, i))
    decreases |text| - i
  {
    hide LiteralAt, Closed;
    assert StandsAt(text, text[start..i], start);
    assert text[start..i] !in v.literals by {
      assert start == i ==> text[start..i] == [];
    }
    if i == |text| {
      assert text[start..] == text[start..i];
    } else {
      var r := LiteralAt(v.literals, text, i);
      if r.None? {
        NoneHere(v.literals, text, start, i);
        SplitIsProper(v, text, start, i + 1);
      } else {
        SplitIsProper(v, text, i + |r.value|, i + |r.value|);
      }
    }
  }

  lemma PieceAdds(v: Vocabulary, pre: imap<Text, seq<Text>>, piece: Piece)
    requires Good(v) && (piece.Literal? <==> piece.text in v.literals)
    ensures
      var ids := AddedIds(v, EncodePiece(v, pre, piece.text));
      if piece.Literal? then |ids| == 1 && ids[0] in v.added && v.added[ids[0]] == piece.text else ids == []
  {
    hide Closed, EncodeWords, LongestFirst;
    if piece.Literal? {
      assert piece.text != [] && [v.addedId[piece.text]][1..] == [];
    } else {
      WordsAddNone(v, Words(pre, piece.text));
    }
  }

  lemma {:induction false} PiecesAdd(v: Vocabulary, pre: imap<Text, seq<Text>>, pieces: seq<Piece>)
    requires Good(v) && Proper(v, pieces)
    ensures
      var ids := AddedIds(v, EncodePieces(v, pre, pieces));
      |ids| == |LiteralsOf(pieces)| && forall i :: 0 <= i < |ids| ==> ids[i] in v.added && v.added[ids[i]] == LiteralsOf(pieces)[i]
  {
    hide Good, EncodePiece;
    if pieces != [] {
      PieceAdds(v, pre, pieces[0]);
      PiecesAdd(v, pre, pieces[1..]);
      AddedIdsAppend(v, EncodePiece(v, pre, pieces[0].text), EncodePieces(v, pre, pieces[1..]));
    }
  }

  /** The added ids of an encoded text are, one for one and in order, those of the literals cut out
      of it; without splitting there are none. */
  lemma LiteralsAreAddedIds(v: Vocabulary, pre: imap<Text, seq<Text>>, text: Text)
    requires Good(v)
    ensures AddedIds(v, EncodeText(v, pre, text, false)) == []
    ensures
      var ids, literals := AddedIds(v, EncodeText(v, pre, text, true)), LiteralsOf(Split(v.literals, text));
      |ids| == |literals| && forall i :: 0 <= i < |ids| ==> ids[i] in v.added && v.added[ids[i]] == literals[i]
  {
    hide Closed, EncodePieces, EncodeWords, SplitFrom;
    NoneBetween(v.literals, text, 0);
    SplitIsProper(v, text, 0, 0);
    PiecesAdd(v, pre, Split(v.literals, text));
    WordsAddNone(v, Words(pre, text));
  }
}
