/**
 * One entry of the right Cayley graph at a time.
 * Lines cited here are those of src/semigroups.h.
 */
module PinState {
  import opened Words
  import opened ShortLex
  import opened Evaluation
  import opened PinWords
  import opened PinCayley

  /** `_elements`, `_map`, the word data, `_found_one` and `_pos_one`. */
  datatype Found<E> = Found(elements: seq<E>, places: map<E, nat>, index: Index, foundOne: bool, posOne: nat)

  /** `_right`, `_left`, `_reduced` by rows, and `_nrrules`. */
  datatype Graphs = Graphs(right: seq<seq<int>>, left: seq<seq<int>>, reduced: seq<seq<bool>>, nrrules: nat)

  ghost predicate ElementsOk<E>(g: Generators<E>, ws: seq<Word>, fd: Found<E>) {
    && |fd.elements| == |ws|
    && (forall i :: 0 <= i < |ws| ==> fd.elements[i] == Eval(g, ws[i]))
    && (forall i :: 0 <= i < |ws| ==> fd.elements[i] in fd.places && fd.places[fd.elements[i]] == i)
    && (forall x :: x in fd.places ==> fd.places[x] < |ws| && fd.elements[fd.places[x]] == x)
  }

  ghost predicate OneOk<E>(g: Generators<E>, fd: Found<E>) {
    if fd.foundOne then fd.posOne < |fd.elements| && fd.elements[fd.posOne] == g.one else g.one !in fd.places && fd.posOne == 0
  }

  ghost predicate FoundOk<E>(g: Generators<E>, ws: seq<Word>, fd: Found<E>) {
    IndexOk(|g.gens|, ws, fd.index) && Sorted(ws) && ElementsOk(g, ws, fd) && OneOk(g, fd)
  }

  ghost predicate Rows<T>(t: seq<seq<T>>, n: nat, k: nat) {
    |t| == n && forall i :: 0 <= i < n ==> |t[i]| == k
  }

  /** The entries before the pair `(p, c)` have been set, the others have not. */
  ghost predicate RightDone<E>(g: Generators<E>, ws: seq<Word>, gr: Graphs, rows: nat, p: nat, c: nat) {
    && rows <= |ws| && Rows(gr.right, rows, |g.gens|) && Rows(gr.reduced, rows, |g.gens|)
    && (forall i, a :: 0 <= i < rows && 0 <= a < |g.gens| && Before(i, a, p, c) ==> RightOk(g, ws, i, a, gr.right[i][a], gr.reduced[i][a]))
    && (forall i, a :: 0 <= i < rows && 0 <= a < |g.gens| && !Before(i, a, p, c) ==> !gr.reduced[i][a] && gr.right[i][a] == UNDEFINED)
  }

  ghost predicate LeftDone<E>(g: Generators<E>, ws: seq<Word>, gr: Graphs, rows: nat, m: nat) {
    && m <= rows <= |ws| && Rows(gr.left, rows, |g.gens|)
    && (forall i, a :: 0 <= i < m && 0 <= a < |g.gens| ==> LeftOk(g, ws, i, a, gr.left[i][a]))
  }

  /** Word `i` is a letter, or its suffix times generator `a` is reduced. */
  predicate SuffixReduced(reduced: seq<seq<bool>>, suffix: seq<int>, i: nat, a: nat) {
    i < |suffix| && (suffix[i] == UNDEFINED || (0 <= suffix[i] < |reduced| && a < |reduced[suffix[i]]| && reduced[suffix[i]][a]))
  }

  /** The product of word `i` and generator `a` gives a rule of the presentation (lines 1027-1030). */
  predicate IsRule(reduced: seq<seq<bool>>, suffix: seq<int>, i: nat, a: nat) {
    i < |reduced| && a < |reduced[i]| && !reduced[i][a] && SuffixReduced(reduced, suffix, i, a)
  }

  /** The number of rules given by the pairs before `(p, c)`. */
  function RuleCount(reduced: seq<seq<bool>>, suffix: seq<int>, k: nat, p: nat, c: nat): nat
    decreases p, c
  {
    if c > 0 then RuleCount(reduced, suffix, k, p, c - 1) + (if IsRule(reduced, suffix, p, c - 1) then 1 else 0)
    else if p > 0 then RuleCount(reduced, suffix, k, p - 1, k)
    else 0
  }

  lemma {:induction false} RuleCountFrame(reduced: seq<seq<bool>>, suffix: seq<int>, reduced': seq<seq<bool>>, suffix': seq<int>, k: nat, p: nat, c: nat)
    requires forall i, a :: 0 <= i <= p && 0 <= a < k && Before(i, a, p, c) ==> IsRule(reduced, suffix, i, a) == IsRule(reduced', suffix', i, a)
    requires c <= k
    ensures RuleCount(reduced, suffix, k, p, c) == RuleCount(reduced', suffix', k, p, c)
    decreases p, c
  {
    if c > 0 {
      RuleCountFrame(reduced, suffix, reduced', suffix', k, p, c - 1);
    } else if p > 0 {
      RuleCountFrame(reduced, suffix, reduced', suffix', k, p - 1, k);
    }
  }

  /** Everything that holds when the pair `(p, c)` is about to be processed and `dups` generators are duplicates. */
  ghost predicate Cursor<E>(g: Generators<E>, ltp: seq<nat>, dups: nat, fd: Found<E>, gr: Graphs, ws: seq<Word>, rows: nat, m: nat, p: nat, c: nat) {
    && FoundOk(g, ws, fd) && LettersOk(g, ws, ltp)
    && RightDone(g, ws, gr, rows, p, c) && LeftDone(g, ws, gr, rows, m)
    && Behind(ws, fd.index, p, c) && c <= |g.gens|
    && gr.nrrules == dups + RuleCount(gr.reduced, fd.index.suffix, |g.gens|, p, c)
  }

  // ----- storing an entry -----

  lemma FoundOver<E>(g: Generators<E>, ws: seq<Word>, fd: Found<E>)
    requires FoundOk(g, ws, fd)
    ensures WordsOver(g, ws)
  {
    forall i | 0 <= i < |ws| ensures Proper(g, ws[i]) { assert Described(|g.gens|, ws, fd.index, i); }
  }

  function SetEntry<T>(t: seq<seq<T>>, i: nat, a: nat, x: T): seq<seq<T>>
    requires i < |t| && a < |t[i]|
  {
    t[i := t[i][a := x]]
  }

  lemma RightDoneSet<E>(g: Generators<E>, ws: seq<Word>, ws': seq<Word>, gr: Graphs, gr': Graphs, rows: nat, p: nat, c: nat, r: int, red: bool)
    requires RightDone(g, ws, gr, rows, p, c) && p < rows && c < |g.gens| && ws <= ws'
    requires gr'.right == SetEntry(gr.right, p, c, r) && gr'.reduced == SetEntry(gr.reduced, p, c, red)
    requires RightOk(g, ws', p, c, r, red)
    ensures RightDone(g, ws', gr', rows, p, c + 1)
  {
    forall i, a | 0 <= i < rows && 0 <= a < |g.gens| && Before(i, a, p, c + 1) ensures RightOk(g, ws', i, a, gr'.right[i][a], gr'.reduced[i][a]) {
      if i != p || a != c {
        assert RightOk(g, ws, i, a, gr.right[i][a], gr.reduced[i][a]);
        StandsGrow(g, ws, ws', gr.right[i][a], ws[i] + [a]);
      }
    }
  }

  lemma CountSet(gr: Graphs, gr': Graphs, suffix: seq<int>, suffix': seq<int>, k: nat, rows: nat, p: nat, c: nat, red: bool)
    requires Rows(gr.reduced, rows, k) && p < rows && c < k && |suffix| >= rows && suffix <= suffix'
    requires gr'.reduced == SetEntry(gr.reduced, p, c, red)
    requires forall i :: 0 <= i < rows ==> suffix[i] < i
    ensures RuleCount(gr'.reduced, suffix', k, p, c + 1) == RuleCount(gr.reduced, suffix, k, p, c) +
            (if !red && SuffixReduced(gr.reduced, suffix, p, c) then 1 else 0)
  {
    RuleCountFrame(gr.reduced, suffix, gr'.reduced, suffix', k, p, c);
  }

  lemma SuffixEarlier(k: nat, ws: seq<Word>, ix: Index, rows: nat)
    requires IndexOk(k, ws, ix) && rows <= |ws|
    ensures |ix.suffix| == |ws| && forall i :: 0 <= i < rows ==> ix.suffix[i] < i && ix.suffix[i] >= UNDEFINED
  {
    forall i | 0 <= i < rows ensures ix.suffix[i] < i && ix.suffix[i] >= UNDEFINED { assert Described(k, ws, ix, i); }
  }

  /** The next entry is an element already known. */
  lemma CursorKnown<E>(g: Generators<E>, ltp: seq<nat>, dups: nat, fd: Found<E>, gr: Graphs, gr': Graphs, ws: seq<Word>, rows: nat, m: nat, p: nat, c: nat, r: int)
    requires Cursor(g, ltp, dups, fd, gr, ws, rows, m, p, c) && p < rows && c < |g.gens|
    requires RightOk(g, ws, p, c, r, false)
    requires gr'.right == SetEntry(gr.right, p, c, r) && gr'.reduced == gr.reduced && gr'.left == gr.left
    requires gr'.nrrules == gr.nrrules + (if SuffixReduced(gr.reduced, fd.index.suffix, p, c) then 1 else 0)
    ensures Cursor(g, ltp, dups, fd, gr', ws, rows, m, p, c + 1)
  {
    assert !Before(p, c, p, c) && !gr.reduced[p][c];
    assert gr.reduced[p] == gr.reduced[p][c := false];
    assert gr'.reduced == SetEntry(gr.reduced, p, c, false);
    SuffixEarlier(|g.gens|, ws, fd.index, rows);
    CountSet(gr, gr', fd.index.suffix, fd.index.suffix, |g.gens|, rows, p, c, false);
    RightDoneSet(g, ws, ws, gr, gr', rows, p, c, r, false);
    hide FoundOk, RightOk, LeftOk, LettersOk;
  }

  /** The new element is stored (lines 1119-1130 and 1178-1189). */
  function AddElement<E(==)>(g: Generators<E>, fd: Found<E>, x: E, first: Letter, final: Letter, prefix: nat, suffix: nat, length: nat): Found<E> {
    var n := |fd.elements|;
    var isOne := !fd.foundOne && x == g.one;
    Found(fd.elements + [x], fd.places[x := n], Extend(fd.index, first, final, prefix, suffix, length),
          fd.foundOne || isOne, if isOne then n else fd.posOne)
  }

  lemma AddElementOk<E>(g: Generators<E>, fd: Found<E>, ws: seq<Word>, p: nat, c: nat, s: nat)
    requires FoundOk(g, ws, fd) && Behind(ws, fd.index, p, c) && p < |ws| && c < |g.gens|
    requires s < |ws| && ws[s] == (ws[p] + [c])[1..]
    requires Eval(g, ws[p] + [c]) !in fd.places
    ensures var ws' := ws + [ws[p] + [c]];
            var fd' := AddElement(g, fd, Eval(g, ws[p] + [c]), fd.index.first[p], c, p, s, |ws[p]| + 1);
            FoundOk(g, ws', fd') && Behind(ws', fd'.index, p, c + 1) && fd.index.suffix <= fd'.index.suffix
  {
    ExtendWord(|g.gens|, ws, fd.index, p, c, s);
    hide IndexOk, Sorted, Behind;
  }

  lemma LettersGrow<E>(g: Generators<E>, ws: seq<Word>, ws': seq<Word>, ltp: seq<nat>)
    requires LettersOk(g, ws, ltp) && ws <= ws'
    ensures LettersOk(g, ws', ltp)
  {
    forall a | 0 <= a < |ltp| ensures Stands(g, ws', ltp[a], [a]) { StandsGrow(g, ws, ws', ltp[a], [a]); }
  }

  lemma LeftGrow<E>(g: Generators<E>, ws: seq<Word>, ws': seq<Word>, gr: Graphs, gr': Graphs, rows: nat, m: nat)
    requires LeftDone(g, ws, gr, rows, m) && ws <= ws' && gr'.left == gr.left
    ensures LeftDone(g, ws', gr', rows, m)
  {
    forall i, a | 0 <= i < m && 0 <= a < |g.gens| ensures LeftOk(g, ws', i, a, gr'.left[i][a]) {
      assert LeftOk(g, ws, i, a, gr.left[i][a]);
      StandsGrow(g, ws, ws', gr.left[i][a], [a] + ws[i]);
    }
  }

  /** The next entry is a new element. */
  lemma CursorNew<E>(g: Generators<E>, ltp: seq<nat>, dups: nat, fd: Found<E>, gr: Graphs, fd': Found<E>, gr': Graphs,
                     ws: seq<Word>, rows: nat, m: nat, p: nat, c: nat, s: nat)
    requires Cursor(g, ltp, dups, fd, gr, ws, rows, m, p, c) && p < rows && c < |g.gens|
    requires s < |ws| && ws[s] == (ws[p] + [c])[1..] && Eval(g, ws[p] + [c]) !in fd.places && |fd.index.first| == |ws|
    requires fd' == AddElement(g, fd, Eval(g, ws[p] + [c]), fd.index.first[p], c, p, s, |ws[p]| + 1)
    requires gr'.right == SetEntry(gr.right, p, c, |ws|) && gr'.reduced == SetEntry(gr.reduced, p, c, true)
    requires gr'.left == gr.left && gr'.nrrules == gr.nrrules
    ensures Cursor(g, ltp, dups, fd', gr', ws + [ws[p] + [c]], rows, m, p, c + 1)
  {
    var ws' := ws + [ws[p] + [c]];
    AddElementOk(g, fd, ws, p, c, s);
    SuffixEarlier(|g.gens|, ws, fd.index, rows);
    CountSet(gr, gr', fd.index.suffix, fd'.index.suffix, |g.gens|, rows, p, c, true);
    assert RightOk(g, ws', p, c, |ws|, true);
    RightDoneSet(g, ws, ws', gr, gr', rows, p, c, |ws|, true);
    LettersGrow(g, ws, ws', ltp);
    LeftGrow(g, ws, ws', gr, gr', rows, m);
    hide FoundOk, RightOk, LeftOk, LettersOk, RightDone, LeftDone, Behind, AddElement;
  }

  /** Multiply element `p` by generator `c` and look the product up (lines 1107-1131 and 1167-1191). */
  method Multiply<E(==)>(g: Generators<E>, fd: Found<E>, gr: Graphs, p: nat, c: nat, suffix: nat, length: nat,
                         ghost ltp: seq<nat>, ghost dups: nat, ghost ws: seq<Word>, ghost rows: nat, ghost m: nat)
    returns (fd': Found<E>, gr': Graphs, isNew: bool, ghost ws': seq<Word>)
    requires Cursor(g, ltp, dups, fd, gr, ws, rows, m, p, c) && p < rows <= |ws| && c < |g.gens|
    requires |ws[p]| + 1 == length && SuffixReduced(gr.reduced, fd.index.suffix, p, c)
    requires suffix < |ws|
    requires ws[suffix] == (ws[p] + [c])[1..] || Eval(g, ws[p] + [c]) in fd.places
    ensures Cursor(g, ltp, dups, fd', gr', ws', rows, m, p, c + 1)
    ensures ws' == if isNew then ws + [ws[p] + [c]] else ws
  {
    CursorParts(g, ltp, dups, fd, gr, ws, rows, m, p, c);
    EvalLast(g, ws[p], c);
    var x := g.mul(fd.elements[p], g.gens[c]);
    if x in fd.places {
      KnownRight(g, fd, ws, p, c, x);
      fd', isNew, ws' := fd, false, ws;
      gr' := Graphs(SetEntry(gr.right, p, c, fd.places[x]), gr.left, gr.reduced, gr.nrrules + 1);
      hide Cursor, RightOk, SetEntry;
      CursorKnown(g, ltp, dups, fd, gr, gr', ws, rows, m, p, c, fd.places[x]);
    } else {
      isNew, ws' := true, ws + [ws[p] + [c]];
      fd' := AddElement(g, fd, x, fd.index.first[p], c, p, suffix, length);
      gr' := Graphs(SetEntry(gr.right, p, c, |fd.elements|), gr.left, SetEntry(gr.reduced, p, c, true), gr.nrrules);
      hide Cursor, AddElement, SetEntry;
      CursorNew(g, ltp, dups, fd, gr, fd', gr', ws, rows, m, p, c, suffix);
    }
  }

  lemma CursorParts<E>(g: Generators<E>, ltp: seq<nat>, dups: nat, fd: Found<E>, gr: Graphs, ws: seq<Word>, rows: nat, m: nat, p: nat, c: nat)
    requires Cursor(g, ltp, dups, fd, gr, ws, rows, m, p, c) && p < rows
    ensures FoundOk(g, ws, fd) && LettersOk(g, ws, ltp) && RightDone(g, ws, gr, rows, p, c) && LeftDone(g, ws, gr, rows, m)
    ensures Behind(ws, fd.index, p, c) && Sizes(|ws|, fd.index) && |fd.elements| == |ws| && rows <= |ws| && WordsOver(g, ws)
    ensures fd.elements[p] == Eval(g, ws[p]) && ws[p] != []
    ensures Rows(gr.right, rows, |g.gens|) && Rows(gr.reduced, rows, |g.gens|) && Rows(gr.left, rows, |g.gens|)
  {
    FoundOver(g, ws, fd);
    assert Proper(g, ws[p]);
  }

  lemma KnownRight<E>(g: Generators<E>, fd: Found<E>, ws: seq<Word>, p: nat, c: nat, x: E)
    requires FoundOk(g, ws, fd) && Behind(ws, fd.index, p, c) && p < |ws| && x in fd.places && x == Eval(g, ws[p] + [c])
    ensures RightOk(g, ws, p, c, fd.places[x], false)
  {
    AllBefore(|g.gens|, ws, fd.index, p, c, fd.places[x]);
    LessIrreflexive(ws[fd.places[x]], ws[p] + [c]);
  }
}
