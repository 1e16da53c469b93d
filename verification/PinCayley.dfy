/**
 * The Cayley graphs, and why their entries may be looked up instead of multiplied.
 * Lines cited here are those of src/semigroups.h.
 */
module PinCayley {
  import opened Words
  import opened ShortLex
  import opened Evaluation
  import opened PinWords

  /** Word `x` has the value of `v` and does not come after it. */
  ghost predicate Stands<E>(g: Generators<E>, ws: seq<Word>, x: int, v: Word) {
    0 <= x < |ws| && Eval(g, ws[x]) == Eval(g, v) && LessEq(ws[x], v)
  }

  /** `r` is the index of the product of element `i` and generator `a`; it is reduced if the product is a new word. */
  ghost predicate RightOk<E>(g: Generators<E>, ws: seq<Word>, i: nat, a: nat, r: int, reduced: bool)
    requires i < |ws|
  {
    Stands(g, ws, r, ws[i] + [a]) && (reduced <==> ws[r] == ws[i] + [a])
  }

  /** `l` is the index of the product of generator `a` and element `i`. */
  ghost predicate LeftOk<E>(g: Generators<E>, ws: seq<Word>, i: nat, a: nat, l: int)
    requires i < |ws|
  {
    Stands(g, ws, l, [a] + ws[i])
  }

  ghost predicate LettersOk<E>(g: Generators<E>, ws: seq<Word>, ltp: seq<nat>) {
    && |ltp| == |g.gens|
    && (forall a :: 0 <= a < |ltp| ==> Stands(g, ws, ltp[a], [a]))
  }

  ghost predicate WordsOver<E>(g: Generators<E>, ws: seq<Word>) {
    forall i :: 0 <= i < |ws| ==> Proper(g, ws[i])
  }

  lemma StandsGrow<E>(g: Generators<E>, ws: seq<Word>, ws': seq<Word>, x: int, v: Word)
    requires Stands(g, ws, x, v) && ws <= ws'
    ensures Stands(g, ws', x, v) && ws'[x] == ws[x]
  {
  }

  /** Standing in for a word, then for the result with one more letter. */
  lemma StandsStep<E>(g: Generators<E>, u: set<E>, ws: seq<Word>, l: int, v: Word, f: Letter, y: int)
    requires InSemigroup(g, u) && WordsOver(g, ws) && Stands(g, ws, l, v) && Proper(g, v) && f < |g.gens|
    requires Stands(g, ws, y, ws[l] + [f])
    ensures Stands(g, ws, y, v + [f])
  {
    EvalLast(g, ws[l], f);
    EvalLast(g, v, f);
    LessLast(ws[l], f, v, f);
    LessTrans(ws[y], ws[l] + [f], v + [f]);
  }

  /** If the suffix of word `i` times `a` is not reduced then neither is word `i` times `a`. */
  lemma SuffixNotReduced<E>(g: Generators<E>, u: set<E>, ws: seq<Word>, i: nat, a: Letter, b: Letter, s: nat, r: int)
    requires InSemigroup(g, u) && WordsOver(g, ws) && i < |ws| && s < |ws| && ws[i] == [b] + ws[s] && a < |g.gens|
    requires RightOk(g, ws, s, a, r, false)
    ensures Eval(g, [b] + ws[r]) == Eval(g, ws[i] + [a]) && Less([b] + ws[r], ws[i] + [a])
    ensures b < |g.gens|
  {
    assert Proper(g, ws[i]) && Proper(g, ws[s]) && Proper(g, ws[r]);
    assert b == ws[i][0];
    var v := ws[s] + [a];
    assert [b] + v == ws[i] + [a];
    assert Proper(g, v);
    EvalPrepend(g, u, [b], ws[r], v);
    LessPrepend([b], ws[r], v);
  }

  /** Line 1159: the suffix times `a` is the identity. */
  lemma ShortcutOne<E>(g: Generators<E>, u: set<E>, ws: seq<Word>, ltp: seq<nat>, i: nat, a: Letter, b: Letter, s: nat, r: int)
    requires InSemigroup(g, u) && WordsOver(g, ws) && i < |ws| && s < |ws| && ws[i] == [b] + ws[s] && a < |g.gens|
    requires RightOk(g, ws, s, a, r, false) && LettersOk(g, ws, ltp) && Eval(g, ws[r]) == g.one
    ensures b < |ltp| && RightOk(g, ws, i, a, ltp[b], false)
  {
    SuffixNotReduced(g, u, ws, i, a, b, s, r);
    assert Proper(g, ws[r]) && Proper(g, ws[s]);
    EvalOne(g, u, [b], ws[r]);
    assert Stands(g, ws, ltp[b], [b]);
    assert |ws[ltp[b]]| <= 1 < |ws[i] + [a]|;
  }

  /** Lines 1161-1164: through an entry `y` at `(l, f)`, where `l` stands for all but the last letter of `[b] + ws[r]`. */
  lemma ShortcutEntry<E>(g: Generators<E>, u: set<E>, ws: seq<Word>, i: nat, a: Letter, b: Letter, s: nat, r: int, l: int, v: Word, f: Letter, y: int)
    requires InSemigroup(g, u) && WordsOver(g, ws) && i < |ws| && s < |ws| && ws[i] == [b] + ws[s] && a < |g.gens|
    requires RightOk(g, ws, s, a, r, false) && v != [] && v + [f] == [b] + ws[r] && Stands(g, ws, l, v)
    requires Stands(g, ws, y, ws[l] + [f])
    ensures RightOk(g, ws, i, a, y, false)
  {
    SuffixNotReduced(g, u, ws, i, a, b, s, r);
    assert Proper(g, ws[r]);
    ProperParts(g, [b] + ws[r], v, f);
    StandsStep(g, u, ws, l, v, f, y);
    LessTrans(ws[y], v + [f], ws[i] + [a]);
    LessIrreflexive(ws[y], ws[i] + [a]);
  }

  lemma ProperParts<E>(g: Generators<E>, w: Word, v: Word, f: Letter)
    requires Proper(g, w) && w == v + [f] && v != []
    ensures Proper(g, v) && f < |g.gens|
  {
    assert w[|v|] == f;
    forall i | 0 <= i < |v| ensures v[i] < |g.gens| { assert v[i] == w[i]; }
  }

  /** That entry has been set already: its word precedes the one being tried. */
  lemma EntryProcessed<E>(g: Generators<E>, u: set<E>, ws: seq<Word>, i: nat, a: Letter, b: Letter, s: nat, r: int, l: int, v: Word, f: Letter)
    requires InSemigroup(g, u) && WordsOver(g, ws) && Sorted(ws)
    requires i < |ws| && s < |ws| && ws[i] == [b] + ws[s] && a < |g.gens|
    requires RightOk(g, ws, s, a, r, false) && v + [f] == [b] + ws[r] && Stands(g, ws, l, v)
    ensures Before(l, f, i, a)
  {
    SuffixNotReduced(g, u, ws, i, a, b, s, r);
    LessLast(ws[l], f, v, f);
    LessTrans(ws[l] + [f], v + [f], ws[i] + [a]);
    ProcessedBefore(ws, l, f, i, a);
  }
}
