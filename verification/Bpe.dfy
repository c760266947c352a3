/** Byte-pair encoding of one word: the merge loop with its memo, against the rule that
    merges all occurrences of the best-ranked adjacent pair until none is left. */
module Bpe {
  import opened Wrappers

  /** A token is a string of byte-level characters. */
  type Token = seq<nat>

  type Pair = (Token, Token)

  /** Distinct pairs have distinct ranks: they are numbered in file order. */
  ghost predicate RanksDistinct(ranks: map<Pair, nat>) {
    forall p, q :: p in ranks && q in ranks && ranks[p] == ranks[q] ==> p == q
  }

  // ------------------------------------------------------------------------- rule

  ghost predicate AdjacentAt(word: seq<Token>, p: Pair, i: int) {
    0 <= i < |word| - 1 && word[i] == p.0 && word[i + 1] == p.1
  }

  ghost predicate Adjacent(word: seq<Token>, p: Pair) {
    exists i :: AdjacentAt(word, p, i)
  }

  /** `p` is adjacent in the word and no adjacent pair has a lower rank. */
  ghost predicate Best(word: seq<Token>, ranks: map<Pair, nat>, p: Pair) {
    p in ranks && Adjacent(word, p) && forall q :: q in ranks && Adjacent(word, q) ==> ranks[p] <= ranks[q]
  }

  /** No adjacent pair can be merged. */
  ghost predicate Merged(word: seq<Token>, ranks: map<Pair, nat>) {
    forall q :: Adjacent(word, q) ==> q !in ranks
  }

  /** All leftmost non-overlapping occurrences of `p` merged. */
  function MergeAll(word: seq<Token>, p: Pair): (r: seq<Token>)
    ensures |r| <= |word|
  {
    if |word| < 2 then word
    else if word[0] == p.0 && word[1] == p.1 then [p.0 + p.1] + MergeAll(word[2..], p)
    else [word[0]] + MergeAll(word[1..], p)
  }

  lemma {:induction false} MergeShrinks(word: seq<Token>, p: Pair, i: int)
    requires AdjacentAt(word, p, i)
    ensures |MergeAll(word, p)| < |word|
  {
    if !(word[0] == p.0 && word[1] == p.1) {
      assert AdjacentAt(word[1..], p, i - 1);
      MergeShrinks(word[1..], p, i - 1);
    }
  }

  /** The word after all merges, best pair first. */
  ghost function Bpe(word: seq<Token>, ranks: map<Pair, nat>): (r: seq<Token>)
    decreases |word|
  {
    if p: Pair :| Best(word, ranks, p) then
      var i :| AdjacentAt(word, p, i);
      MergeShrinks(word, p, i);
      Bpe(MergeAll(word, p), ranks)
    else word
  }

  // ---------------------------------------------------------------- facts about it

  lemma BestIsUnique(word: seq<Token>, ranks: map<Pair, nat>, p: Pair, q: Pair)
    requires RanksDistinct(ranks) && Best(word, ranks, p) && Best(word, ranks, q)
    ensures p == q
  {
  }

  /** If anything can be merged there is a best pair. */
  lemma {:induction false} BestExists(word: seq<Token>, ranks: map<Pair, nat>, q: Pair) returns (p: Pair)
    requires q in ranks && Adjacent(word, q)
    ensures Best(word, ranks, p)
    decreases ranks[q]
  {
    if lower: Pair :| lower in ranks && Adjacent(word, lower) && ranks[lower] < ranks[q] {
      p := BestExists(word, ranks, lower);
    } else {
      p := q;
    }
  }

  /** One round of the rule. */
  lemma BpeRound(word: seq<Token>, ranks: map<Pair, nat>, p: Pair)
    requires RanksDistinct(ranks) && Best(word, ranks, p)
    ensures Bpe(word, ranks) == Bpe(MergeAll(word, p), ranks) && |MergeAll(word, p)| < |word|
  {
    var i :| AdjacentAt(word, p, i);
    MergeShrinks(word, p, i);
    forall q | Best(word, ranks, q) ensures q == p {
      BestIsUnique(word, ranks, p, q);
    }
  }

  lemma BpeDone(word: seq<Token>, ranks: map<Pair, nat>)
    requires Merged(word, ranks)
    ensures Bpe(word, ranks) == word
  {
  }

  lemma {:induction false} MergeAllJoins(word: seq<Token>, p: Pair)
    ensures Flatten(MergeAll(word, p)) == Flatten(word)
    ensures word != [] ==> MergeAll(word, p) != []
  {
    if |word| >= 2 {
      if word[0] == p.0 && word[1] == p.1 {
        MergeAllJoins(word[2..], p);
        assert word[1..][1..] == word[2..];
        assert (p.0 + p.1) + Flatten(word[2..]) == p.0 + (p.1 + Flatten(word[2..]));
        assert ([p.0 + p.1] + MergeAll(word[2..], p))[1..] == MergeAll(word[2..], p);
      } else {
        MergeAllJoins(word[1..], p);
        assert ([word[0]] + MergeAll(word[1..], p))[1..] == MergeAll(word[1..], p);
      }
    }
  }

  /** The result joins to the word, and no adjacent pair is left that has a rank. */
  lemma {:induction false} BpeIsComplete(word: seq<Token>, ranks: map<Pair, nat>)
    requires RanksDistinct(ranks)
    ensures Merged(Bpe(word, ranks), ranks) && Flatten(Bpe(word, ranks)) == Flatten(word)
    decreases |word|
  {
    if Merged(word, ranks) {
      BpeDone(word, ranks);
    } else {
      var q :| Adjacent(word, q) && q in ranks;
      var p := BestExists(word, ranks, q);
      BpeRound(word, ranks, p);
      MergeAllJoins(word, p);
      BpeIsComplete(MergeAll(word, p), ranks);
    }
  }

  // --------------------------------------------------------------------- the loop

  /** `_get_pairs`. */
  method GetPairs(word: seq<Token>) returns (pairs: set<Pair>)
    requires word != []
    ensures forall p :: p in pairs <==> Adjacent(word, p)
  {
    pairs := {};
    var prev := word[0];
    for k := 1 to |word|
      invariant prev == word[k - 1]
      invariant forall p :: p in pairs <==> exists i :: i < k - 1 && AdjacentAt(word, p, i)
    {
      ghost var before := pairs;
      pairs, prev := pairs + {(prev, word[k])}, word[k];
      assert AdjacentAt(word, (word[k - 1], word[k]), k - 1);
      forall p ensures p in pairs <==> exists i :: i < k && AdjacentAt(word, p, i) {
        if p in before {
          var i :| i < k - 1 && AdjacentAt(word, p, i);
        }
      }
    }
  }

  /** `min(pairs, key=rank or infinity)`, in whatever order the set is walked. */
  method MinPair(pairs: set<Pair>, ranks: map<Pair, nat>) returns (best: Pair)
    requires pairs != {}
    ensures best in pairs
    ensures forall q :: q in pairs && q in ranks ==> best in ranks && ranks[best] <= ranks[q]
  {
    best :| best in pairs;
    var rest := pairs - {best};
    while rest != {}
      invariant best in pairs && rest <= pairs
      invariant forall q :: q in pairs && q !in rest && q in ranks ==> best in ranks && ranks[best] <= ranks[q]
      decreases |rest|
    {
      var p :| p in rest;
      if p in ranks && (best !in ranks || ranks[p] < ranks[best]) {
        best := p;
      }
      rest := rest - {p};
    }
  }

  /** `word.index(first, i)`. */
  method IndexFrom(word: seq<Token>, first: Token, i: nat) returns (j: Option<nat>)
    requires i <= |word|
    ensures match j
      case Some(k) => i <= k < |word| && word[k] == first && first !in word[i..k]
      case None => first !in word[i..]
  {
    for k := i to |word|
      invariant first !in word[i..k]
    {
      if word[k] == first {
        return Some(k);
      }
      assert word[i..k + 1] == word[i..k] + [word[k]];
    }
    assert word[i..|word|] == word[i..];
    j := None;
  }

  lemma {:induction false} SkipTo(rest: seq<Token>, p: Pair, k: nat)
    requires k <= |rest| && p.0 !in rest[..k]
    ensures MergeAll(rest, p) == rest[..k] + MergeAll(rest[k..], p)
    decreases k
  {
    if k > 0 {
      assert rest[..k][0] == rest[0] && rest[1..][..k - 1] == rest[1..k] && rest[1..][k - 1..] == rest[k..];
      assert forall x :: x in rest[1..k] ==> x in rest[..k];
      SkipTo(rest[1..], p, k - 1);
      assert MergeAll(rest, p) == [rest[0]] + MergeAll(rest[1..], p);
      assert rest[..k] == [rest[0]] + rest[1..k];
    }
  }

  /** The pass that jumps from one occurrence of the first half to the next. */
  method MergePass(word: seq<Token>, first: Token, second: Token) returns (merged: seq<Token>)
    ensures merged == MergeAll(word, (first, second))
  {
    hide MergeAll;
    merged := [];
    var i := 0;
    ghost var p, rest, all := (first, second), word, MergeAll(word, (first, second));
    assert [] + all == all;
    while i < |word|
      invariant i <= |word| && rest == word[i..] && all == merged + MergeAll(rest, p)
      decreases |word| - i
    {
      var j := IndexFrom(word, first, i);
      if j.None? {
        MergeNone(rest, p);
        merged := merged + word[i..];
        return;
      }
      merged, rest := CopyUntil(word, i, j.value, first, second, merged, rest);
      merged, i, rest := MergeHere(word, j.value, first, second, merged, rest);
    }
    MergeNone(rest, p);
    assert merged + rest == merged;
  }

  lemma MergeNone(rest: seq<Token>, p: Pair)
    requires p.0 !in rest
    ensures MergeAll(rest, p) == rest
  {
    assert rest[..|rest|] == rest && rest[|rest|..] == [];
    SkipTo(rest, p, |rest|);
  }

  /** `new_word.extend(word[i:j])`. */
  method CopyUntil(word: seq<Token>, i: nat, j: nat, first: Token, second: Token, before: seq<Token>, ghost rest: seq<Token>)
    returns (merged: seq<Token>, ghost rest': seq<Token>)
    requires i <= j <= |word| && first !in word[i..j] && rest == word[i..]
    ensures merged == before + word[i..j] && rest' == word[j..]
    ensures before + MergeAll(rest, (first, second)) == merged + MergeAll(rest', (first, second))
  {
    hide MergeAll;
    merged, rest' := before + word[i..j], word[j..];
    assert rest[..j - i] == word[i..j] && rest[j - i..] == rest';
    SkipTo(rest, (first, second), j - i);
    assert before + (word[i..j] + MergeAll(rest', (first, second))) == merged + MergeAll(rest', (first, second));
  }

  /** Merges the pair at `i`, if its second half follows. */
  method MergeHere(word: seq<Token>, i: nat, first: Token, second: Token, before: seq<Token>, ghost rest: seq<Token>)
    returns (merged: seq<Token>, next: nat, ghost rest': seq<Token>)
    requires i < |word| && word[i] == first && rest == word[i..]
    ensures i < next <= |word| && rest' == word[next..]
    ensures before + MergeAll(rest, (first, second)) == merged + MergeAll(rest', (first, second))
  {
    if i < |word| - 1 && word[i + 1] == second {
      merged, next := before + [first + second], i + 2;
      assert rest[2..] == word[next..];
    } else {
      merged, next := before + [word[i]], i + 1;
      assert rest[1..] == word[next..];
    }
    rest' := word[next..];
  }

  /** The merge loop. */
  method MergeLoop(start: seq<Token>, ranks: map<Pair, nat>) returns (word: seq<Token>)
    requires start != [] && RanksDistinct(ranks)
    ensures word == Bpe(start, ranks)
  {
    word := start;
    var pairs := GetPairs(word);
    while pairs != {}
      invariant word != [] && Bpe(start, ranks) == Bpe(word, ranks)
      invariant forall p :: p in pairs <==> Adjacent(word, p)
      decreases |word|
    {
      var bigram := MinPair(pairs, ranks);
      if bigram !in ranks {
        break;
      }
      BpeRound(word, ranks, bigram);
      MergeAllJoins(word, bigram);
      word := MergePass(word, bigram.0, bigram.1);
      if |word| == 1 {
        break;
      }
      pairs := GetPairs(word);
    }
    BpeDone(word, ranks);
  }

  // ------------------------------------------------------------------------- memo

  /** `_bpe` with its memo. */
  class Merger {
    const ranks: map<Pair, nat>
    var memo: map<seq<Token>, seq<Token>>

    ghost predicate Valid()
      reads this
    {
      RanksDistinct(ranks) && forall key :: key in memo ==> key != [] && memo[key] == Bpe(key, ranks)
    }

    constructor (ranks: map<Pair, nat>)
      requires RanksDistinct(ranks)
      ensures Valid() && this.ranks == ranks
    {
      this.ranks, memo := ranks, map[];
    }

    /** The memo never changes a result. */
    method Merge(chars: seq<Token>) returns (word: seq<Token>)
      requires Valid() && chars != []
      modifies this
      ensures Valid() && word == Bpe(chars, ranks)
    {
      if chars in memo {
        return memo[chars];
      }
      word := MergeLoop(chars, ranks);
      memo := memo[chars := word];
    }
  }
}
