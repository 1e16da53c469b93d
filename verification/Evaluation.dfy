/** Words evaluated in a finite semigroup given by generators. */
module Evaluation {
  import opened Words

  /** The product, an identity for it, and the generators. */
  datatype Generators<!E> = Generators(mul: (E, E) -> E, one: E, gens: seq<E>) {
    function Gen(a: Letter): E {
      if a < |gens| then gens[a] else one
    }
  }

  /** The generators lie in the finite set `u`, which is closed under the associative product; `one` acts as identity. */
  ghost predicate InSemigroup<E>(g: Generators<E>, u: set<E>) {
    && (forall a :: 0 <= a < |g.gens| ==> g.gens[a] in u)
    && (forall x, y :: x in u && y in u ==> g.mul(x, y) in u)
    && (forall x, y, z :: x in u && y in u && z in u ==> g.mul(g.mul(x, y), z) == g.mul(x, g.mul(y, z)))
    && (forall x :: x in u ==> g.mul(g.one, x) == x && g.mul(x, g.one) == x)
  }

  /** The product of the letters of a nonempty word. */
  function Eval<E>(g: Generators<E>, w: Word): E {
    if w == [] then g.one
    else if |w| == 1 then g.Gen(w[0])
    else g.mul(Eval(g, w[..|w| - 1]), g.Gen(w[|w| - 1]))
  }

  /** A nonempty word over the generators. */
  ghost predicate Proper<E>(g: Generators<E>, w: Word) {
    w != [] && Over(|g.gens|, w)
  }

  lemma {:induction false} EvalIn<E>(g: Generators<E>, u: set<E>, w: Word)
    requires InSemigroup(g, u) && Proper(g, w)
    ensures Eval(g, w) in u
  {
    if |w| > 1 {
      EvalIn(g, u, w[..|w| - 1]);
    }
    assert w[|w| - 1] < |g.gens|;
  }

  lemma EvalLast<E>(g: Generators<E>, w: Word, a: Letter)
    requires w != []
    ensures Eval(g, w + [a]) == g.mul(Eval(g, w), g.Gen(a))
  {
    assert (w + [a])[..|w|] == w;
  }

  /** Evaluation is a homomorphism. */
  lemma {:induction false} EvalConcat<E>(g: Generators<E>, u: set<E>, v: Word, w: Word)
    requires InSemigroup(g, u) && Proper(g, v) && Proper(g, w)
    ensures Eval(g, v + w) == g.mul(Eval(g, v), Eval(g, w))
    decreases |w|
  {
    if |w| == 1 {
      assert w == [w[0]];
      EvalLast(g, v, w[0]);
    } else {
      var x, a := w[..|w| - 1], w[|w| - 1];
      assert w == x + [a] && v + w == (v + x) + [a];
      EvalConcat(g, u, v, x);
      EvalLast(g, v + x, a);
      EvalIn(g, u, v);
      EvalIn(g, u, x);
      assert g.Gen(a) in u;
    }
  }

  /** Words of equal value may replace each other at the end of a word. */
  lemma EvalPrepend<E>(g: Generators<E>, u: set<E>, pre: Word, v: Word, w: Word)
    requires InSemigroup(g, u) && Proper(g, v) && Proper(g, w) && Over(|g.gens|, pre) && Eval(g, v) == Eval(g, w)
    ensures Eval(g, pre + v) == Eval(g, pre + w)
  {
    if pre == [] {
      assert pre + v == v && pre + w == w;
    } else {
      EvalConcat(g, u, pre, v);
      EvalConcat(g, u, pre, w);
    }
  }

  /** Words of equal value may replace each other at the front of a word. */
  lemma EvalAppend<E>(g: Generators<E>, u: set<E>, v: Word, w: Word, post: Word)
    requires InSemigroup(g, u) && Proper(g, v) && Proper(g, w) && Over(|g.gens|, post) && Eval(g, v) == Eval(g, w)
    ensures Eval(g, v + post) == Eval(g, w + post)
  {
    if post == [] {
      assert v + post == v && w + post == w;
    } else {
      EvalConcat(g, u, v, post);
      EvalConcat(g, u, w, post);
    }
  }

  /** Words of equal value may replace each other inside a word. */
  lemma EvalReplace<E>(g: Generators<E>, u: set<E>, pre: Word, v: Word, w: Word, post: Word)
    requires InSemigroup(g, u) && Proper(g, v) && Proper(g, w) && Over(|g.gens|, pre) && Over(|g.gens|, post)
    requires Eval(g, v) == Eval(g, w)
    ensures Eval(g, pre + v + post) == Eval(g, pre + w + post)
  {
    EvalPrepend(g, u, pre, v, w);
    hide InSemigroup, Eval;
    EvalAppend(g, u, pre + v, pre + w, post);
  }

  /** An identity inside a word may be dropped. */
  lemma EvalOne<E>(g: Generators<E>, u: set<E>, v: Word, w: Word)
    requires InSemigroup(g, u) && Proper(g, v) && Proper(g, w) && Eval(g, w) == g.one
    ensures Eval(g, v + w) == Eval(g, v) && Eval(g, w + v) == Eval(g, v)
  {
    EvalConcat(g, u, v, w);
    EvalConcat(g, u, w, v);
    EvalIn(g, u, v);
  }
}
