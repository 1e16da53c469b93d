/**
 * The words found by a Froidure-Pin enumeration, and what is stored about them.
 * Lines cited here are those of src/semigroups.h.
 */
module PinWords {
  import opened Words
  import opened ShortLex
  import opened Evaluation

  const UNDEFINED: int := -1

  /** `_first`, `_final`, `_prefix`, `_suffix` and `_length`. */
  datatype Index = Index(first: seq<Letter>, final: seq<Letter>, prefix: seq<int>, suffix: seq<int>, length: seq<nat>)

  ghost predicate Sizes(n: nat, ix: Index) {
    |ix.first| == |ix.final| == |ix.prefix| == |ix.suffix| == |ix.length| == n
  }

  /** The stored data describes word `i`, whose proper prefix and suffix are themselves words found earlier. */
  ghost predicate Described(k: nat, ws: seq<Word>, ix: Index, i: nat)
    requires Sizes(|ws|, ix) && i < |ws|
  {
    var w := ws[i];
    && w != [] && Over(k, w)
    && ix.first[i] == w[0] && ix.final[i] == w[|w| - 1] && ix.length[i] == |w|
    && (if |w| == 1 then ix.prefix[i] == UNDEFINED && ix.suffix[i] == UNDEFINED
        else && 0 <= ix.prefix[i] < i && ws[ix.prefix[i]] == w[..|w| - 1]
             && 0 <= ix.suffix[i] < i && ws[ix.suffix[i]] == w[1..])
  }

  ghost predicate IndexOk(k: nat, ws: seq<Word>, ix: Index) {
    Sizes(|ws|, ix) && forall i :: 0 <= i < |ws| ==> Described(k, ws, ix, i)
  }

  /** The words are in strict short-lex order. */
  ghost predicate Sorted(ws: seq<Word>) {
    forall i, j :: 0 <= i < j < |ws| ==> Less(ws[i], ws[j])
  }

  lemma SortedIndex(ws: seq<Word>, i: nat, j: nat)
    requires Sorted(ws) && i < |ws| && j < |ws|
    ensures Less(ws[i], ws[j]) <==> i < j
    ensures ws[i] == ws[j] ==> i == j
  {
    if i < j {
      LessIrreflexive(ws[i], ws[j]);
    } else if j < i {
      LessIrreflexive(ws[j], ws[i]);
    } else {
      LexIrreflexive(ws[i]);
    }
  }

  /** The pair `(i, a)` is processed before the pair `(p, c)`. */
  predicate Before(i: int, a: int, p: int, c: int) {
    i < p || (i == p && a < c)
  }

  /** Every word of length two or more was found before the pair `(p, c)` was processed. */
  ghost predicate Behind(ws: seq<Word>, ix: Index, p: nat, c: nat)
    requires Sizes(|ws|, ix)
  {
    forall i :: 0 <= i < |ws| && |ws[i]| > 1 ==> Before(ix.prefix[i], ix.final[i], p, c)
  }

  lemma SplitWord(k: nat, ws: seq<Word>, ix: Index, i: nat)
    requires IndexOk(k, ws, ix) && i < |ws| && |ws[i]| > 1
    ensures 0 <= ix.prefix[i] < i && ws[i] == ws[ix.prefix[i]] + [ix.final[i]]
    ensures 0 <= ix.suffix[i] < i && ws[i] == [ix.first[i]] + ws[ix.suffix[i]]
    ensures ix.first[i] < k && ix.final[i] < k
    ensures |ws[ix.prefix[i]]| == |ws[ix.suffix[i]]| == |ws[i]| - 1
  {
    assert Described(k, ws, ix, i);
  }

  /** Every word found so far precedes the one being tried. */
  lemma AllBefore(k: nat, ws: seq<Word>, ix: Index, p: nat, c: nat, i: nat)
    requires IndexOk(k, ws, ix) && Sorted(ws) && Behind(ws, ix, p, c) && p < |ws| && i < |ws|
    ensures Less(ws[i], ws[p] + [c])
  {
    assert Described(k, ws, ix, i) && Described(k, ws, ix, p);
    if |ws[i]| > 1 {
      SplitWord(k, ws, ix, i);
      LessLast(ws[ix.prefix[i]], ix.final[i], ws[p], c);
      SortedIndex(ws, ix.prefix[i], p);
    }
  }

  /** A pair whose word precedes the one being tried has been processed. */
  lemma ProcessedBefore(ws: seq<Word>, i: nat, a: nat, p: nat, c: nat)
    requires Sorted(ws) && i < |ws| && p < |ws| && Less(ws[i] + [a], ws[p] + [c])
    ensures Before(i, a, p, c)
  {
    LessLast(ws[i], a, ws[p], c);
    SortedIndex(ws, i, p);
    SortedIndex(ws, p, i);
    if i == p {
      LexIrreflexive(ws[p]);
    }
  }

  /** One more word, the one being tried (lines 1119-1130 and 1178-1190). */
  function Extend(ix: Index, first: Letter, final: Letter, prefix: int, suffix: int, length: nat): Index {
    Index(ix.first + [first], ix.final + [final], ix.prefix + [prefix], ix.suffix + [suffix], ix.length + [length])
  }

  lemma ExtendWord(k: nat, ws: seq<Word>, ix: Index, p: nat, c: nat, s: nat)
    requires IndexOk(k, ws, ix) && Sorted(ws) && Behind(ws, ix, p, c) && p < |ws| && c < k
    requires s < |ws| && ws[s] == (ws[p] + [c])[1..]
    ensures var ws' := ws + [ws[p] + [c]];
            var ix' := Extend(ix, ix.first[p], c, p, s, |ws[p]| + 1);
            IndexOk(k, ws', ix') && Sorted(ws') && Behind(ws', ix', p, c + 1)
  {
    var w := ws[p] + [c];
    var ws', ix' := ws + [w], Extend(ix, ix.first[p], c, p, s, |ws[p]| + 1);
    assert Described(k, ws, ix, p);
    assert w[..|w| - 1] == ws[p];
    forall i | 0 <= i < |ws'| ensures Described(k, ws', ix', i) {
      if i < |ws| { assert Described(k, ws, ix, i); }
    }
    forall i, j | 0 <= i < j < |ws'| ensures Less(ws'[i], ws'[j]) {
      if j == |ws| { AllBefore(k, ws, ix, p, c, i); }
    }
  }
}
