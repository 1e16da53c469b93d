/** What an enumeration says about the semigroup. */
module PinResults {
  import opened Words
  import opened ShortLex
  import opened Evaluation
  import opened PinWords
  import opened PinCayley
  import opened PinState
  import opened PinEnumerate

  ghost predicate Complete<E>(g: Generators<E>, u: set<E>, ltp: seq<nat>, dups: nat, st: State<E>, ws: seq<Word>) {
    AtRest(g, u, ltp, dups, st, ws) && st.pos == |ws|
  }

  /** The word comes after all words found so far. */
  ghost predicate AllLess(ws: seq<Word>, w: Word) {
    forall i :: 0 <= i < |ws| ==> Less(ws[i], w)
  }

  lemma AllLessExtend(ws: seq<Word>, v: Word, w: Word)
    requires AllLess(ws, v) && LessEq(v, w)
    ensures AllLess(ws, w)
  {
    forall i | 0 <= i < |ws| ensures Less(ws[i], w) { LessTrans(ws[i], v, w); }
  }

  lemma PendingLater<E>(g: Generators<E>, u: set<E>, ltp: seq<nat>, dups: nat, st: State<E>, ws: seq<Word>, x: nat, v: Word, a: Letter)
    requires AtRest(g, u, ltp, dups, st, ws) && st.pos <= x < |ws| && LessEq(ws[x], v)
    ensures AllLess(ws, v + [a])
  {
    var p := st.pos;
    forall i | 0 <= i < |ws| ensures Less(ws[i], ws[p] + [0]) {
      AllBefore(|g.gens|, ws, st.found.index, p, 0, i);
    }
    SortedIndex(ws, p, x);
    hide AtRest;
    LessLast(ws[p], 0, ws[x], a);
    LessLast(ws[x], a, v, a);
    AllLessExtend(ws, ws[p] + [0], if p == x && a == 0 then ws[p] + [0] else ws[x] + [a]);
    AllLessExtend(ws, ws[x] + [a], v + [a]);
  }

  lemma RestFacts<E>(g: Generators<E>, u: set<E>, ltp: seq<nat>, dups: nat, st: State<E>, ws: seq<Word>)
    requires AtRest(g, u, ltp, dups, st, ws)
    ensures InSemigroup(g, u) && FoundOk(g, ws, st.found) && WordsOver(g, ws) && Sorted(ws) && LettersOk(g, ws, ltp)
    ensures RightDone(g, ws, st.graphs, |ws|, st.pos, 0) && IndexOk(|g.gens|, ws, st.found.index)
  {
    FoundOver(g, ws, st.found);
  }

  lemma RightAt<E>(g: Generators<E>, ws: seq<Word>, gr: Graphs, p: nat, i: nat, a: nat)
    requires RightDone(g, ws, gr, |ws|, p, 0) && i < p && i < |ws| && a < |g.gens|
    ensures Rows(gr.right, |ws|, |g.gens|) && Rows(gr.reduced, |ws|, |g.gens|)
    ensures RightOk(g, ws, i, a, gr.right[i][a], gr.reduced[i][a]) && Stands(g, ws, gr.right[i][a], ws[i] + [a])
  {
  }

  /** Every word over the generators is represented, unless it comes after all words found so far. */
  lemma {:induction false} Represented<E>(g: Generators<E>, u: set<E>, ltp: seq<nat>, dups: nat, st: State<E>, ws: seq<Word>, w: Word) returns (x: int)
    requires AtRest(g, u, ltp, dups, st, ws) && Proper(g, w)
    ensures Stands(g, ws, x, w) || (AllLess(ws, w) && st.pos < |ws|)
    decreases |w|
  {
    RestFacts(g, u, ltp, dups, st, ws);
    hide AtRest, InSemigroup, FoundOk, RightOk, LessEq, Less, Sorted, IndexOk;
    var v, a := w[..|w| - 1], w[|w| - 1];
    assert w == v + [a] && a < |g.gens|;
    if v == [] {
      x := ltp[a];
      assert Stands(g, ws, x, [a]);
      assert w == [a];
    } else {
      assert Proper(g, v);
      x := Represented(g, u, ltp, dups, st, ws, v);
      if !Stands(g, ws, x, v) {
        assert LessEq(v, w) by { assert Less(v, w); }
        AllLessExtend(ws, v, w);
      } else if x < st.pos {
        RightAt(g, ws, st.graphs, st.pos, x, a);
        StandsStep(g, u, ws, x, v, a, st.graphs.right[x][a]);
        x := st.graphs.right[x][a];
      } else {
        PendingLater(g, u, ltp, dups, st, ws, x, v, a);
      }
    }
  }

  /** At every stopping point the word of an element is the short-lex least word with its value. */
  lemma Least<E>(g: Generators<E>, u: set<E>, ltp: seq<nat>, dups: nat, st: State<E>, ws: seq<Word>, i: nat, w: Word)
    requires AtRest(g, u, ltp, dups, st, ws) && i < |ws| && Proper(g, w) && Eval(g, w) == Eval(g, ws[i])
    ensures LessEq(ws[i], w)
  {
    var x := Represented(g, u, ltp, dups, st, ws, w);
    RestFacts(g, u, ltp, dups, st, ws);
    hide AtRest, InSemigroup;
    if Stands(g, ws, x, w) {
      SameValue(g, ws, st.found, x, i);
    } else {
      assert Less(ws[i], w);
    }
  }

  /** Distinct indices have distinct values. */
  lemma SameValue<E>(g: Generators<E>, ws: seq<Word>, fd: Found<E>, i: nat, j: nat)
    requires FoundOk(g, ws, fd) && i < |ws| && j < |ws| && Eval(g, ws[i]) == Eval(g, ws[j])
    ensures i == j
  {
    assert fd.elements[i] == fd.elements[j];
    assert fd.places[fd.elements[i]] == i && fd.places[fd.elements[j]] == j;
  }

  /** When the enumeration is complete every word has a representative. */
  lemma IndexOf<E>(g: Generators<E>, u: set<E>, ltp: seq<nat>, dups: nat, st: State<E>, ws: seq<Word>, w: Word) returns (x: nat)
    requires Complete(g, u, ltp, dups, st, ws) && Proper(g, w)
    ensures x < |ws| && Stands(g, ws, x, w) && st.found.elements[x] == Eval(g, w)
  {
    x := Represented(g, u, ltp, dups, st, ws, w);
  }

  /** `e` is a product of generators. */
  ghost predicate Generated<E>(g: Generators<E>, e: E) {
    exists w :: Proper(g, w) && Eval(g, w) == e
  }

  /** The elements are, without repetition, members of the generated semigroup; when complete, all of them. */
  lemma ElementsAreSemigroup<E>(g: Generators<E>, u: set<E>, ltp: seq<nat>, dups: nat, st: State<E>, ws: seq<Word>)
    requires AtRest(g, u, ltp, dups, st, ws)
    ensures forall i, j :: 0 <= i < j < |st.found.elements| ==> st.found.elements[i] != st.found.elements[j]
    ensures forall e :: e in st.found.elements ==> Generated(g, e)
    ensures st.pos == |ws| ==> forall e :: Generated(g, e) ==> e in st.found.elements
  {
    RestFacts(g, u, ltp, dups, st, ws);
    var es := st.found.elements;
    forall e | e in es ensures Generated(g, e) {
      var i :| 0 <= i < |es| && es[i] == e;
      assert Proper(g, ws[i]);
    }
    if st.pos == |ws| {
      hide AtRest, InSemigroup, Eval;
      assert Complete(g, u, ltp, dups, st, ws);
      forall e | Generated(g, e) ensures e in es {
        var w :| Proper(g, w) && Eval(g, w) == e;
        var x := IndexOf(g, u, ltp, dups, st, ws, w);
      }
    }
  }
}
