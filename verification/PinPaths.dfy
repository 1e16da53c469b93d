/**
 * Following paths in the Cayley graphs of a fully enumerated semigroup.
 * Lines cited here are those of src/semigroups.h.
 */
module PinPaths {
  import opened Words
  import opened ShortLex
  import opened Evaluation
  import opened PinWords
  import opened PinCayley
  import opened PinState
  import opened PinEnumerate
  import opened PinResults
  import opened PinUnique

  /** The word of an index, or nothing for `UNDEFINED`. */
  ghost function WordOf(ws: seq<Word>, i: int): Word {
    if 0 <= i < |ws| then ws[i] else []
  }

  /** The value of word `a` followed by word `b`, one of which may have been used up. */
  ghost function Product<E>(g: Generators<E>, ws: seq<Word>, a: int, b: int): E {
    Eval(g, WordOf(ws, a) + WordOf(ws, b))
  }

  ghost predicate Tabled<E>(g: Generators<E>, ws: seq<Word>, st: State<E>) {
    && FoundOk(g, ws, st.found) && WordsOver(g, ws)
    && RightDone(g, ws, st.graphs, |ws|, |ws|, 0) && LeftDone(g, ws, st.graphs, |ws|, |ws|)
  }

  lemma CompleteTabled<E>(g: Generators<E>, u: set<E>, ltp: seq<nat>, dups: nat, st: State<E>, ws: seq<Word>)
    requires Complete(g, u, ltp, dups, st, ws)
    ensures Tabled(g, ws, st) && InSemigroup(g, u) && LettersOk(g, ws, ltp)
  {
    CompleteParts(g, u, ltp, dups, st, ws);
    RestFacts(g, u, ltp, dups, st, ws);
  }

  /** The data of one word. */
  lemma WordData<E>(g: Generators<E>, ws: seq<Word>, st: State<E>, i: nat)
    requires Tabled(g, ws, st) && i < |ws|
    ensures Sizes(|ws|, st.found.index) && Described(|g.gens|, ws, st.found.index, i) && Proper(g, ws[i])
    ensures st.found.index.first[i] < |g.gens| && st.found.index.final[i] < |g.gens| && |st.found.elements| == |ws|
    ensures st.found.elements[i] == Eval(g, ws[i])
    ensures Rows(st.graphs.right, |ws|, |g.gens|) && Rows(st.graphs.left, |ws|, |g.gens|)
  {
    assert Described(|g.gens|, ws, st.found.index, i);
  }

  /** The last letter of a word. */
  lemma SplitLast<E>(g: Generators<E>, ws: seq<Word>, st: State<E>, a: nat)
    requires Tabled(g, ws, st) && a < |ws|
    ensures Sizes(|ws|, st.found.index) && st.found.index.final[a] < |g.gens| && -1 <= st.found.index.prefix[a] < a
    ensures ws[a] == WordOf(ws, st.found.index.prefix[a]) + [st.found.index.final[a]]
  {
    assert Described(|g.gens|, ws, st.found.index, a);
  }

  lemma SplitFirst<E>(g: Generators<E>, ws: seq<Word>, st: State<E>, b: nat)
    requires Tabled(g, ws, st) && b < |ws|
    ensures Sizes(|ws|, st.found.index) && b < |st.found.index.first| && b < |st.found.index.suffix| && st.found.index.first[b] < |g.gens| && -1 <= st.found.index.suffix[b] < b
    ensures ws[b] == [st.found.index.first[b]] + WordOf(ws, st.found.index.suffix[b])
  {
    hide *;
    TabledIndex(g, ws, st);
    IndexAt(|g.gens|, ws, st.found.index, b);
  }

  lemma TabledIndex<E>(g: Generators<E>, ws: seq<Word>, st: State<E>)
    requires Tabled(g, ws, st)
    ensures IndexOk(|g.gens|, ws, st.found.index)
  {
    hide RightDone, LeftDone, Sorted, IndexOk;
  }

  lemma IndexAt(k: nat, ws: seq<Word>, index: Index, b: nat)
    requires IndexOk(k, ws, index) && b < |ws|
    ensures Sizes(|ws|, index) && b < |index.first| && b < |index.suffix| && index.first[b] < k && -1 <= index.suffix[b] < b && ws[b] == [index.first[b]] + WordOf(ws, index.suffix[b])
  {
    assert Described(k, ws, index, b);
  }

  /** Moving the last letter of `a` to the left of `b` keeps the product. */
  lemma LeftStep<E>(g: Generators<E>, u: set<E>, ws: seq<Word>, st: State<E>, a: nat, b: nat)
    requires InSemigroup(g, u) && Tabled(g, ws, st) && a < |ws| && b < |ws|
    ensures Sizes(|ws|, st.found.index) && Rows(st.graphs.left, |ws|, |g.gens|) && st.found.index.final[a] < |g.gens|
    ensures var a', b' := st.found.index.prefix[a], st.graphs.left[b][st.found.index.final[a]];
            -1 <= a' < a && 0 <= b' < |ws| && Product(g, ws, a', b') == Product(g, ws, a, b)
  {
    hide *;
    SplitLast(g, ws, st, a);
    var a', f := st.found.index.prefix[a], st.found.index.final[a];
    LeftFact(g, ws, st, b, f);
    var b' := st.graphs.left[b][f];
    ProperAt(g, ws, st, a);
    ProperAt(g, ws, st, b);
    ProperAt(g, ws, st, b');
    MoveLetter(g, u, ws, a', a, f, b, b');
  }

  lemma MoveLetter<E>(g: Generators<E>, u: set<E>, ws: seq<Word>, a': int, a: nat, f: Letter, b: nat, b': nat)
    requires InSemigroup(g, u) && a < |ws| && b < |ws| && b' < |ws| && -1 <= a' < a
    requires Proper(g, ws[a]) && Proper(g, ws[b]) && Proper(g, ws[b'])
    requires ws[a] == WordOf(ws, a') + [f] && Eval(g, ws[b']) == Eval(g, [f] + ws[b])
    ensures Product(g, ws, a', b') == Product(g, ws, a, b)
  {
    hide InSemigroup, Eval, Proper;
    MoveWords(g, u, WordOf(ws, a'), f, ws[b], ws[b'], ws[a]);
  }

  lemma MoveWords<E>(g: Generators<E>, u: set<E>, pre: Word, f: Letter, v: Word, v': Word, x: Word)
    requires InSemigroup(g, u) && Proper(g, x) && Proper(g, v) && Proper(g, v')
    requires x == pre + [f] && Eval(g, v') == Eval(g, [f] + v)
    ensures Eval(g, pre + v') == Eval(g, x + v)
  {
    assert x[|pre|] == f && forall i :: 0 <= i < |pre| ==> pre[i] == x[i];
    assert Over(|g.gens|, pre) && Proper(g, [f] + v);
    hide InSemigroup, Eval, Over;
    Assoc(pre, [f], v);
    EvalPrepend(g, u, pre, [f] + v, v');
  }

  lemma MoveWordsRight<E>(g: Generators<E>, u: set<E>, x: Word, x': Word, f: Letter, post: Word, v: Word)
    requires InSemigroup(g, u) && Proper(g, x) && Proper(g, v) && Proper(g, x')
    requires v == [f] + post && Eval(g, x') == Eval(g, x + [f])
    ensures Eval(g, x' + post) == Eval(g, x + v)
  {
    assert v[0] == f && forall i :: 0 <= i < |post| ==> post[i] == v[i + 1];
    assert Over(|g.gens|, post) && Proper(g, x + [f]);
    hide InSemigroup, Eval, Over;
    Assoc(x, [f], post);
    EvalAppend(g, u, x + [f], x', post);
  }

  lemma MoveLetterRight<E>(g: Generators<E>, u: set<E>, ws: seq<Word>, a: nat, a': nat, f: Letter, b: nat, b': int)
    requires InSemigroup(g, u) && a < |ws| && b < |ws| && a' < |ws| && -1 <= b' < b
    requires Proper(g, ws[a]) && Proper(g, ws[b]) && Proper(g, ws[a'])
    requires ws[b] == [f] + WordOf(ws, b') && Eval(g, ws[a']) == Eval(g, ws[a] + [f])
    ensures Product(g, ws, a', b') == Product(g, ws, a, b)
  {
    hide InSemigroup, Eval, Proper;
    MoveWordsRight(g, u, ws[a], ws[a'], f, WordOf(ws, b'), ws[b]);
  }

  lemma ProperAt<E>(g: Generators<E>, ws: seq<Word>, st: State<E>, i: nat)
    requires Tabled(g, ws, st) && i < |ws|
    ensures Proper(g, ws[i])
  {
  }

  lemma LeftFact<E>(g: Generators<E>, ws: seq<Word>, st: State<E>, b: nat, f: nat)
    requires Tabled(g, ws, st) && b < |ws| && f < |g.gens|
    ensures Rows(st.graphs.left, |ws|, |g.gens|) && 0 <= st.graphs.left[b][f] < |ws|
    ensures Eval(g, ws[st.graphs.left[b][f]]) == Eval(g, [f] + ws[b])
  {
    assert LeftOk(g, ws, b, f, st.graphs.left[b][f]);
  }

  lemma RightFact<E>(g: Generators<E>, ws: seq<Word>, st: State<E>, a: nat, f: nat)
    requires Tabled(g, ws, st) && a < |ws| && f < |g.gens|
    ensures Rows(st.graphs.right, |ws|, |g.gens|) && 0 <= st.graphs.right[a][f] < |ws|
    ensures Eval(g, ws[st.graphs.right[a][f]]) == Eval(g, ws[a] + [f]) && Stands(g, ws, st.graphs.right[a][f], ws[a] + [f])
  {
    assert RightOk(g, ws, a, f, st.graphs.right[a][f], st.graphs.reduced[a][f]);
  }

  /** Moving the first letter of `b` to the right of `a` keeps the product. */
  lemma RightStep<E>(g: Generators<E>, u: set<E>, ws: seq<Word>, st: State<E>, a: nat, b: nat)
    requires InSemigroup(g, u) && Tabled(g, ws, st) && a < |ws| && b < |ws|
    ensures Sizes(|ws|, st.found.index) && Rows(st.graphs.right, |ws|, |g.gens|) && st.found.index.first[b] < |g.gens|
    ensures var a', b' := st.graphs.right[a][st.found.index.first[b]], st.found.index.suffix[b];
            0 <= a' < |ws| && -1 <= b' < b && Product(g, ws, a', b') == Product(g, ws, a, b)
  {
    hide *;
    SplitFirst(g, ws, st, b);
    var b', f := st.found.index.suffix[b], st.found.index.first[b];
    RightFact(g, ws, st, a, f);
    var a' := st.graphs.right[a][f];
    ProperAt(g, ws, st, a);
    ProperAt(g, ws, st, b);
    ProperAt(g, ws, st, a');
    MoveLetterRight(g, u, ws, a, a', f, b, b');
  }

  /** `product_by_reduction` (lines 614-630). */
  method ProductByReduction<E>(g: Generators<E>, st: State<E>, i: nat, j: nat, ghost u: set<E>, ghost ws: seq<Word>) returns (r: nat)
    requires InSemigroup(g, u) && Tabled(g, ws, st) && i < |ws| && j < |ws| && |st.found.elements| == |ws|
    ensures r < |ws| && st.found.elements[r] == g.mul(st.found.elements[i], st.found.elements[j])
  {
    hide InSemigroup, Tabled, Product;
    WordData(g, ws, st, i);
    WordData(g, ws, st, j);
    ProductIsMul(g, u, ws, st, i, j);
    var a: int, b: int := i, j;
    if st.found.index.length[i] <= st.found.index.length[j] {
      while a != UNDEFINED
        invariant UNDEFINED <= a < |ws| && 0 <= b < |ws| && Product(g, ws, a, b) == Product(g, ws, i, j)
        decreases a + 1
      {
        WordData(g, ws, st, a);
        LeftStep(g, u, ws, st, a, b);
        a, b := st.found.index.prefix[a], st.graphs.left[b][st.found.index.final[a]];
      }
      ProductOne(g, ws, st, b);
      return b;
    } else {
      while b != UNDEFINED
        invariant 0 <= a < |ws| && UNDEFINED <= b < |ws| && Product(g, ws, a, b) == Product(g, ws, i, j)
        decreases b + 1
      {
        WordData(g, ws, st, b);
        RightStep(g, u, ws, st, a, b);
        a, b := st.graphs.right[a][st.found.index.first[b]], st.found.index.suffix[b];
      }
      ProductOne(g, ws, st, a);
      return a;
    }
  }

  lemma ProductIsMul<E>(g: Generators<E>, u: set<E>, ws: seq<Word>, st: State<E>, i: nat, j: nat)
    requires InSemigroup(g, u) && Tabled(g, ws, st) && i < |ws| && j < |ws| && |st.found.elements| == |ws|
    ensures Product(g, ws, i, j) == g.mul(st.found.elements[i], st.found.elements[j])
  {
    EvalConcat(g, u, ws[i], ws[j]);
  }

  lemma ProductOne<E>(g: Generators<E>, ws: seq<Word>, st: State<E>, i: nat)
    requires Tabled(g, ws, st) && i < |ws| == |st.found.elements|
    ensures Product(g, ws, -1, i) == Product(g, ws, i, -1) == st.found.elements[i]
  {
    assert [] + ws[i] == ws[i] && ws[i] + [] == ws[i];
  }

  /** Collect the letters of a known element (lines 898-904). */
  method Factorise<E>(g: Generators<E>, fd: Found<E>, pos: nat, ghost ws: seq<Word>) returns (word: Word)
    requires FoundOk(g, ws, fd) && pos < |ws|
    ensures word == ws[pos]
  {
    hide FoundOk, Described, IndexOk;
    word := [];
    var p: int := pos;
    while p != UNDEFINED
      invariant -1 <= p < |ws| && ws[pos] == word + WordOf(ws, p)
      decreases p + 1
    {
      WordAt(g, fd, ws, p);
      word, p := word + [fd.index.first[p]], fd.index.suffix[p];
    }
  }

  lemma WordAt<E>(g: Generators<E>, fd: Found<E>, ws: seq<Word>, p: nat)
    requires FoundOk(g, ws, fd) && p < |ws|
    ensures p < |fd.index.first| && p < |fd.index.suffix| && -1 <= fd.index.suffix[p] < p
    ensures ws[p] == [fd.index.first[p]] + WordOf(ws, fd.index.suffix[p])
  {
    hide Described, Sizes, Sorted;
    IndexAt(|g.gens|, ws, fd.index, p);
  }
}
