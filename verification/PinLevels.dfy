/**
 * The loops of `enumerate` over rows and word lengths.
 * Lines cited here are those of src/semigroups.h.
 */
module PinLevels {
  import opened Words
  import opened ShortLex
  import opened Evaluation
  import opened PinWords
  import opened PinCayley
  import opened PinState
  import opened PinRows
  import opened KillFlag

  /** `lenindex[l]` is the number of words of length at most `l`, for every length up to `wordlen + 1`. */
  ghost predicate Levels(ws: seq<Word>, lenindex: seq<nat>, wordlen: nat) {
    && |lenindex| == wordlen + 2
    && forall l :: 0 <= l <= wordlen + 1 ==> LevelAt(ws, lenindex[l], l)
  }

  ghost predicate LevelAt(ws: seq<Word>, n: nat, l: nat) {
    n <= |ws| && forall i :: 0 <= i < |ws| ==> (i < n <==> |ws[i]| <= l)
  }

  ghost predicate Longer(ws: seq<Word>, ws': seq<Word>, l: nat) {
    ws <= ws' && forall i :: |ws| <= i < |ws'| ==> |ws'[i]| > l
  }

  lemma LevelsGrow(ws: seq<Word>, ws': seq<Word>, lenindex: seq<nat>, wordlen: nat)
    requires Levels(ws, lenindex, wordlen) && Longer(ws, ws', wordlen + 1)
    ensures Levels(ws', lenindex, wordlen)
  {
    forall l | 0 <= l <= wordlen + 1 ensures LevelAt(ws', lenindex[l], l) {
      assert LevelAt(ws, lenindex[l], l);
    }
  }

  lemma LongerTrans(ws: seq<Word>, ws': seq<Word>, ws'': seq<Word>, l: nat)
    requires Longer(ws, ws', l) && Longer(ws', ws'', l)
    ensures Longer(ws, ws'', l)
  {
  }

  lemma NextRow<E>(g: Generators<E>, ltp: seq<nat>, dups: nat, fd: Found<E>, gr: Graphs, ws: seq<Word>, rows: nat, m: nat, p: nat)
    requires Cursor(g, ltp, dups, fd, gr, ws, rows, m, p, |g.gens|) && p < rows
    ensures Cursor(g, ltp, dups, fd, gr, ws, rows, m, p + 1, 0)
  {
    hide RightOk, LeftOk, LettersOk, IsRule;
    FoundOver(g, ws, fd);
    forall i | 0 <= i < |ws| && |ws[i]| > 1 ensures Before(fd.index.prefix[i], fd.index.final[i], p + 1, 0) {
      assert Before(fd.index.prefix[i], fd.index.final[i], p, |g.gens|);
    }
  }

  /** Multiply a generator by every generator (lines 1106-1133). */
  method FirstRow<E(==)>(g: Generators<E>, ltp: seq<nat>, fd: Found<E>, gr: Graphs, i: nat,
                         ghost u: set<E>, ghost dups: nat, ghost ws: seq<Word>, ghost rows: nat)
    returns (fd': Found<E>, gr': Graphs, ghost ws': seq<Word>)
    requires Cursor(g, ltp, dups, fd, gr, ws, rows, 0, i, 0) && i < rows <= |ws| && |ws[i]| == 1
    ensures Cursor(g, ltp, dups, fd', gr', ws', rows, 0, i + 1, 0) && Longer(ws, ws', 1)
  {
    fd', gr', ws' := fd, gr, ws;
    var j := 0;
    hide Cursor, InSemigroup, RightOk, Stands;
    while j < |g.gens|
      invariant j <= |g.gens| && Longer(ws, ws', 1)
      invariant Cursor(g, ltp, dups, fd', gr', ws', rows, 0, i, j)
    {
      FirstSuffix(g, ltp, dups, fd', gr', ws', rows, 0, i, j);
      ghost var before := ws';
      var isNew;
      fd', gr', isNew, ws' := Multiply(g, fd', gr', i, j, ltp[j], 2, ltp, dups, ws', rows, 0);
      assert Longer(before, ws', 1);
      LongerTrans(ws, before, ws', 1);
      j := j + 1;
    }
    NextRow(g, ltp, dups, fd', gr', ws', rows, 0, i);
  }

  /** A product of two generators that is new ends in a generator that is not a duplicate. */
  lemma FirstSuffix<E>(g: Generators<E>, ltp: seq<nat>, dups: nat, fd: Found<E>, gr: Graphs, ws: seq<Word>, rows: nat, m: nat, i: nat, j: nat)
    requires Cursor(g, ltp, dups, fd, gr, ws, rows, m, i, j) && i < rows <= |ws| && |ws[i]| == 1 && j < |g.gens|
    ensures |ltp| == |g.gens| && ltp[j] < |ws| && SuffixReduced(gr.reduced, fd.index.suffix, i, j)
    ensures ws[ltp[j]] == (ws[i] + [j])[1..] || Eval(g, ws[i] + [j]) in fd.places
  {
    assert Described(|g.gens|, ws, fd.index, i);
    assert Stands(g, ws, ltp[j], [j]);
    FoundOver(g, ws, fd);
    assert Proper(g, ws[ltp[j]]);
    var d := ws[ltp[j]][0];
    assert ws[ltp[j]] == [d];
    if d != j {
      LessLast([], d, [], j);
      assert [] + [d] == [d] && [] + [j] == [j];
      LexIrreflexive([]);
      assert d < j;
      EvalLast(g, ws[i], d);
      EvalLast(g, ws[i], j);
      assert RightOk(g, ws, i, d, gr.right[i][d], gr.reduced[i][d]);
    } else {
      assert (ws[i] + [j])[1..] == [j];
    }
  }

  /** Multiply a longer word by every generator (lines 1152-1194). */
  method LaterRow<E(==)>(g: Generators<E>, ltp: seq<nat>, fd: Found<E>, gr: Graphs, i: nat, wordlen: nat, limit: nat, canKill: bool,
                         ghost u: set<E>, ghost dups: nat, ghost ws: seq<Word>, ghost rows: nat, ghost m: nat)
    returns (fd': Found<E>, gr': Graphs, stop: bool, ghost ws': seq<Word>)
    requires Cursor(g, ltp, dups, fd, gr, ws, rows, m, i, 0) && i < rows <= |ws| && |ws[i]| == wordlen + 1 > 1 && ShorterLeft(ws, i, m)
    requires InSemigroup(g, u)
    ensures Cursor(g, ltp, dups, fd', gr', ws', rows, m, i + 1, 0) && Longer(ws, ws', wordlen + 1)
    ensures stop && !canKill ==> |ws'| >= limit
    ensures |ws| <= |ws'| <= |ws| + |g.gens| && (!stop && |ws| < limit ==> |ws'| < limit)
  {
    fd', gr', stop, ws' := fd, gr, false, ws;
    var j := 0;
    hide Cursor, InSemigroup, RightOk, Stands, Longer, ShorterLeft, SuffixReduced, Described;
    LongerRefl(ws, wordlen + 1);
    while j < |g.gens|
      invariant j <= |g.gens| && Longer(ws, ws', wordlen + 1) && i < rows <= |ws'| && ws'[i] == ws[i] && ShorterLeft(ws', i, m)
      invariant Cursor(g, ltp, dups, fd', gr', ws', rows, m, i, j)
      invariant stop && !canKill ==> |ws'| >= limit
      invariant |ws| <= |ws'| <= |ws| + j && (!stop && |ws| < limit ==> |ws'| < limit)
    {
      SuffixEntry(g, ltp, dups, fd', gr', ws', rows, m, i, j);
      var s := fd'.index.suffix[i];
      if !gr'.reduced[s][j] {
        gr' := Reuse(g, ltp, fd', gr', i, j, u, dups, ws', rows, m);
      } else {
        LaterSuffix(g, ltp, dups, fd', gr', ws', rows, m, i, j);
        ghost var before := ws';
        var isNew;
        fd', gr', isNew, ws' := Multiply(g, fd', gr', i, j, gr'.right[s][j], wordlen + 2, ltp, dups, ws', rows, m);
        LongerStep(ws, before, ws', i, j, wordlen + 1, m);
        if isNew {
          var killed := Killed(canKill);
          CursorElements(g, ltp, dups, fd', gr', ws', rows, m, i, j + 1);
          stop := |fd'.elements| >= limit || killed;
        }
      }
      j := j + 1;
    }
    NextRow(g, ltp, dups, fd', gr', ws', rows, m, i);
  }

  lemma CursorElements<E>(g: Generators<E>, ltp: seq<nat>, dups: nat, fd: Found<E>, gr: Graphs, ws: seq<Word>, rows: nat, m: nat, p: nat, c: nat)
    requires Cursor(g, ltp, dups, fd, gr, ws, rows, m, p, c)
    ensures |fd.elements| == |ws|
  {
  }

  lemma LongerRefl(ws: seq<Word>, l: nat)
    ensures Longer(ws, ws, l)
  {
  }

  lemma LongerStep(ws: seq<Word>, ws': seq<Word>, ws'': seq<Word>, i: nat, j: nat, l: nat, m: nat)
    requires Longer(ws, ws', l) && i < |ws| && |ws'[i]| == l && ShorterLeft(ws', i, m)
    requires ws'' == ws' || ws'' == ws' + [ws'[i] + [j]]
    ensures Longer(ws, ws'', l) && ShorterLeft(ws'', i, m) && |ws''| >= |ws'| && ws''[i] == ws'[i]
  {
  }

  lemma LaterSuffix<E>(g: Generators<E>, ltp: seq<nat>, dups: nat, fd: Found<E>, gr: Graphs, ws: seq<Word>, rows: nat, m: nat, i: nat, j: nat)
    requires Cursor(g, ltp, dups, fd, gr, ws, rows, m, i, j) && i < rows <= |ws| && |ws[i]| > 1 && j < |g.gens|
    requires Sizes(|ws|, fd.index) && Rows(gr.right, rows, |g.gens|) && Rows(gr.reduced, rows, |g.gens|)
    requires 0 <= fd.index.suffix[i] < i && gr.reduced[fd.index.suffix[i]][j]
    ensures var r := gr.right[fd.index.suffix[i]][j];
            0 <= r < |ws| && ws[r] == (ws[i] + [j])[1..] && SuffixReduced(gr.reduced, fd.index.suffix, i, j)
  {
    SuffixEntry(g, ltp, dups, fd, gr, ws, rows, m, i, j);
    var s := fd.index.suffix[i];
    assert (ws[i] + [j])[1..] == ws[s] + [j];
  }

  // ----- the left Cayley graph -----

  lemma CursorLeft<E>(g: Generators<E>, ltp: seq<nat>, dups: nat, fd: Found<E>, gr: Graphs, gr': Graphs, ws: seq<Word>, rows: nat, m: nat, m': nat, p: nat)
    requires Cursor(g, ltp, dups, fd, gr, ws, rows, m, p, 0)
    requires gr'.right == gr.right && gr'.reduced == gr.reduced && gr'.nrrules == gr.nrrules && LeftDone(g, ws, gr', rows, m')
    ensures Cursor(g, ltp, dups, fd, gr', ws, rows, m', p, 0)
  {
    hide FoundOk, RightOk, LeftOk, LettersOk;
  }

  /** The entry of row `i` for generator `j`, from an index standing for `j` times the prefix. */
  lemma LeftEntry<E>(g: Generators<E>, u: set<E>, ltp: seq<nat>, dups: nat, fd: Found<E>, gr: Graphs, ws: seq<Word>, rows: nat, m: nat, p: nat,
                     n: nat, level: nat, i: nat, j: nat, l: int, v: Word, b: Letter)
    requires InSemigroup(g, u) && Cursor(g, ltp, dups, fd, gr, ws, rows, m, p, 0) && p <= rows <= |ws| && LevelAt(ws, p, level)
    requires i < |ws| && |ws[i]| == level && j < |g.gens| && b < |g.gens| && v != [] && v + [b] == [j] + ws[i]
    requires Stands(g, ws, l, v) && Rows(gr.right, rows, |g.gens|)
    ensures 0 <= l < p && LeftOk(g, ws, i, j, gr.right[l][b])
  {
    FoundOver(g, ws, fd);
    assert Proper(g, ws[i]);
    assert Proper(g, [j] + ws[i]);
    ProperParts(g, [j] + ws[i], v, b);
    assert |ws[l]| <= |v| == level;
    assert RightOk(g, ws, l, b, gr.right[l][b], gr.reduced[l][b]);
    hide Cursor, InSemigroup;
    StandsStep(g, u, ws, l, v, b, gr.right[l][b]);
  }

  lemma LeftDoneRow<E>(g: Generators<E>, ws: seq<Word>, gr: Graphs, gr': Graphs, rows: nat, i: nat, row: seq<int>)
    requires LeftDone(g, ws, gr, rows, i) && i < rows && gr'.left == gr.left[i := row] && |row| == |g.gens|
    requires forall a :: 0 <= a < |g.gens| ==> LeftOk(g, ws, i, a, row[a])
    ensures LeftDone(g, ws, gr', rows, i + 1)
  {
    hide LeftOk;
  }

  /** Lines 1135-1140: the left rows of the generators. */
  method FillFirst<E>(g: Generators<E>, ltp: seq<nat>, fd: Found<E>, gr: Graphs, to: nat,
                      ghost u: set<E>, ghost dups: nat, ghost ws: seq<Word>, ghost rows: nat)
    returns (gr': Graphs)
    requires InSemigroup(g, u) && Cursor(g, ltp, dups, fd, gr, ws, rows, 0, to, 0) && to <= rows <= |ws| && LevelAt(ws, to, 1)
    ensures Cursor(g, ltp, dups, fd, gr', ws, rows, to, to, 0)
  {
    gr' := gr;
    var i := 0;
    hide Cursor, InSemigroup, RightOk, Stands, LeftOk, LevelAt, LeftDone;
    while i < to
      invariant i <= to && Cursor(g, ltp, dups, fd, gr', ws, rows, i, to, 0)
    {
      var row, j := [], 0;
      FirstLeft(g, ltp, dups, fd, gr', ws, rows, i, to, i);
      while j < |g.gens|
        invariant j <= |g.gens| && |row| == j && forall a :: 0 <= a < j ==> LeftOk(g, ws, i, a, row[a])
      {
        LetterStands(g, ltp, dups, fd, gr', ws, rows, i, to, j);
        LeftEntry(g, u, ltp, dups, fd, gr', ws, rows, i, to, to, 1, i, j, ltp[j], [j], fd.index.final[i]);
        row, j := row + [gr'.right[ltp[j]][fd.index.final[i]]], j + 1;
      }
      ghost var before := gr';
      gr' := gr'.(left := gr'.left[i := row]);
      LeftDoneRow(g, ws, before, gr', rows, i, row);
      CursorLeft(g, ltp, dups, fd, before, gr', ws, rows, i, i + 1, to);
      i := i + 1;
    }
  }

  lemma FirstLeft<E>(g: Generators<E>, ltp: seq<nat>, dups: nat, fd: Found<E>, gr: Graphs, ws: seq<Word>, rows: nat, m: nat, p: nat, i: nat)
    requires Cursor(g, ltp, dups, fd, gr, ws, rows, m, p, 0) && p <= rows <= |ws| && LevelAt(ws, p, 1) && i < p
    ensures Sizes(|ws|, fd.index) && Rows(gr.right, rows, |g.gens|) && Rows(gr.left, rows, |g.gens|) && LeftDone(g, ws, gr, rows, m)
    ensures |ws[i]| == 1 && fd.index.final[i] < |g.gens| && ws[i] == [fd.index.final[i]]
  {
    assert Described(|g.gens|, ws, fd.index, i);
  }

  lemma LetterStands<E>(g: Generators<E>, ltp: seq<nat>, dups: nat, fd: Found<E>, gr: Graphs, ws: seq<Word>, rows: nat, m: nat, p: nat, j: nat)
    requires Cursor(g, ltp, dups, fd, gr, ws, rows, m, p, 0) && j < |g.gens|
    ensures |ltp| == |g.gens| && Stands(g, ws, ltp[j], [j])
  {
  }

  /** Lines 1199-1205: the left rows of the words of one length. */
  method FillLater<E>(g: Generators<E>, ltp: seq<nat>, fd: Found<E>, gr: Graphs, from: nat, to: nat,
                      ghost u: set<E>, ghost dups: nat, ghost ws: seq<Word>, ghost rows: nat, ghost level: nat)
    returns (gr': Graphs)
    requires InSemigroup(g, u) && Cursor(g, ltp, dups, fd, gr, ws, rows, from, to, 0) && from <= to <= rows <= |ws| && level > 0
    requires LevelAt(ws, from, level) && LevelAt(ws, to, level + 1)
    ensures Cursor(g, ltp, dups, fd, gr', ws, rows, to, to, 0)
  {
    gr' := gr;
    var i := from;
    hide Cursor, InSemigroup, RightOk, Stands, LeftOk, LevelAt, LeftDone;
    while i < to
      invariant from <= i <= to && Cursor(g, ltp, dups, fd, gr', ws, rows, i, to, 0)
    {
      var row, j := [], 0;
      LaterLeft(g, ltp, dups, fd, gr', ws, rows, i, from, to, level, i);
      var p, b := fd.index.prefix[i], fd.index.final[i];
      while j < |g.gens|
        invariant j <= |g.gens| && |row| == j && forall a :: 0 <= a < j ==> LeftOk(g, ws, i, a, row[a])
      {
        PrefixStands(g, ltp, dups, fd, gr', ws, rows, i, to, p, j);
        assert ([j] + ws[p]) + [b] == [j] + ws[i];
        LeftEntry(g, u, ltp, dups, fd, gr', ws, rows, i, to, to, level + 1, i, j, gr'.left[p][j], [j] + ws[p], b);
        row, j := row + [gr'.right[gr'.left[p][j]][b]], j + 1;
      }
      ghost var before := gr';
      gr' := gr'.(left := gr'.left[i := row]);
      LeftDoneRow(g, ws, before, gr', rows, i, row);
      CursorLeft(g, ltp, dups, fd, before, gr', ws, rows, i, i + 1, to);
      i := i + 1;
    }
  }

  lemma LaterLeft<E>(g: Generators<E>, ltp: seq<nat>, dups: nat, fd: Found<E>, gr: Graphs, ws: seq<Word>, rows: nat, m: nat, from: nat, to: nat, level: nat, i: nat)
    requires Cursor(g, ltp, dups, fd, gr, ws, rows, m, to, 0) && to <= rows <= |ws| && level > 0 && from <= m
    requires LevelAt(ws, from, level) && LevelAt(ws, to, level + 1) && from <= i < to
    ensures Sizes(|ws|, fd.index) && Rows(gr.right, rows, |g.gens|) && Rows(gr.left, rows, |g.gens|) && LeftDone(g, ws, gr, rows, m)
    ensures |ws[i]| == level + 1 && fd.index.final[i] < |g.gens| && 0 <= fd.index.prefix[i] < m
    ensures ws[i] == ws[fd.index.prefix[i]] + [fd.index.final[i]]
  {
    SplitWord(|g.gens|, ws, fd.index, i);
  }

  lemma PrefixStands<E>(g: Generators<E>, ltp: seq<nat>, dups: nat, fd: Found<E>, gr: Graphs, ws: seq<Word>, rows: nat, m: nat, to: nat, p: nat, j: nat)
    requires Cursor(g, ltp, dups, fd, gr, ws, rows, m, to, 0) && j < |g.gens| && p < m
    ensures m <= rows <= |ws| && Rows(gr.left, rows, |g.gens|) && Stands(g, ws, gr.left[p][j], [j] + ws[p])
  {
    assert LeftDone(g, ws, gr, rows, m);
    assert LeftOk(g, ws, p, j, gr.left[p][j]);
  }
}
