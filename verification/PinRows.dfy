/**
 * Whole rows and levels of the Cayley graphs.
 * Lines cited here are those of src/semigroups.h.
 */
module PinRows {
  import opened Words
  import opened Evaluation
  import opened PinWords
  import opened PinCayley
  import opened PinState

  /** The words shorter than word `i` have left entries. */
  ghost predicate ShorterLeft(ws: seq<Word>, i: nat, m: nat)
    requires i < |ws|
  {
    forall q :: 0 <= q < |ws| && |ws[q]| < |ws[i]| ==> q < m
  }

  /** The entry of the suffix, which has been set. */
  lemma SuffixEntry<E>(g: Generators<E>, ltp: seq<nat>, dups: nat, fd: Found<E>, gr: Graphs, ws: seq<Word>, rows: nat, m: nat, i: nat, j: nat)
    requires Cursor(g, ltp, dups, fd, gr, ws, rows, m, i, j) && i < rows <= |ws| && j < |g.gens| && |ws[i]| > 1
    ensures Sizes(|ws|, fd.index) && Rows(gr.right, rows, |g.gens|) && Rows(gr.reduced, rows, |g.gens|) && Rows(gr.left, rows, |g.gens|)
    ensures var s := fd.index.suffix[i];
            && 0 <= s < i && ws[i] == [fd.index.first[i]] + ws[s] && fd.index.first[i] < |g.gens|
            && RightOk(g, ws, s, j, gr.right[s][j], gr.reduced[s][j])
  {
    SplitWord(|g.gens|, ws, fd.index, i);
  }

  /** Line 1159. */
  lemma ReuseOne<E>(g: Generators<E>, u: set<E>, ltp: seq<nat>, dups: nat, fd: Found<E>, gr: Graphs, ws: seq<Word>, rows: nat, m: nat, i: nat, j: nat)
    requires Cursor(g, ltp, dups, fd, gr, ws, rows, m, i, j) && i < rows <= |ws| && j < |g.gens| && |ws[i]| > 1
    requires InSemigroup(g, u) && Sizes(|ws|, fd.index) && Rows(gr.right, rows, |g.gens|) && Rows(gr.reduced, rows, |g.gens|)
    requires 0 <= fd.index.suffix[i] < i && !gr.reduced[fd.index.suffix[i]][j]
    requires fd.foundOne && gr.right[fd.index.suffix[i]][j] == fd.posOne
    ensures fd.index.first[i] < |ltp| && RightOk(g, ws, i, j, ltp[fd.index.first[i]], false)
  {
    SuffixEntry(g, ltp, dups, fd, gr, ws, rows, m, i, j);
    FoundOver(g, ws, fd);
    var s := fd.index.suffix[i];
    ShortcutOne(g, u, ws, ltp, i, j, fd.index.first[i], s, gr.right[s][j]);
  }

  lemma EntryAt<E>(g: Generators<E>, ltp: seq<nat>, dups: nat, fd: Found<E>, gr: Graphs, ws: seq<Word>, rows: nat, m: nat, i: nat, j: nat, l: nat, f: nat)
    requires Cursor(g, ltp, dups, fd, gr, ws, rows, m, i, j) && rows <= |ws| && l < rows && f < |g.gens| && Before(l, f, i, j)
    ensures Rows(gr.right, rows, |g.gens|) && Rows(gr.reduced, rows, |g.gens|)
    ensures RightOk(g, ws, l, f, gr.right[l][f], gr.reduced[l][f]) && Sorted(ws) && WordsOver(g, ws)
  {
    FoundOver(g, ws, fd);
  }

  /** An entry that stands for `[b] + ws[r]` has been set, and may be used. */
  lemma Through<E>(g: Generators<E>, u: set<E>, ltp: seq<nat>, dups: nat, fd: Found<E>, gr: Graphs, ws: seq<Word>, rows: nat, m: nat, i: nat, j: nat,
                   b: Letter, s: nat, r: int, l: int, v: Word, f: Letter)
    requires Cursor(g, ltp, dups, fd, gr, ws, rows, m, i, j) && i < rows <= |ws| && j < |g.gens| && InSemigroup(g, u)
    requires s < i && ws[i] == [b] + ws[s] && RightOk(g, ws, s, j, r, false)
    requires v != [] && v + [f] == [b] + ws[r] && Stands(g, ws, l, v) && f < |g.gens|
    requires Rows(gr.right, rows, |g.gens|)
    ensures 0 <= l < rows && Before(l, f, i, j) && RightOk(g, ws, i, j, gr.right[l][f], false)
  {
    hide Cursor, RightOk, Stands, InSemigroup;
    EntryAtStart(g, ltp, dups, fd, gr, ws, rows, m, i, j);
    EntryProcessed(g, u, ws, i, j, b, s, r, l, v, f);
    StandsRange(g, ws, l, v);
    EntryAt(g, ltp, dups, fd, gr, ws, rows, m, i, j, l, f);
    RightStands(g, ws, l, f, gr.right[l][f], gr.reduced[l][f]);
    ShortcutEntry(g, u, ws, i, j, b, s, r, l, v, f, gr.right[l][f]);
  }

  lemma StandsRange<E>(g: Generators<E>, ws: seq<Word>, l: int, v: Word)
    requires Stands(g, ws, l, v)
    ensures 0 <= l < |ws|
  {
  }

  lemma RightStands<E>(g: Generators<E>, ws: seq<Word>, l: nat, f: nat, r: int, red: bool)
    requires l < |ws| && RightOk(g, ws, l, f, r, red)
    ensures Stands(g, ws, r, ws[l] + [f])
  {
  }

  lemma EntryAtStart<E>(g: Generators<E>, ltp: seq<nat>, dups: nat, fd: Found<E>, gr: Graphs, ws: seq<Word>, rows: nat, m: nat, i: nat, j: nat)
    requires Cursor(g, ltp, dups, fd, gr, ws, rows, m, i, j)
    ensures Sorted(ws) && WordsOver(g, ws)
  {
    FoundOver(g, ws, fd);
  }

  /** Lines 1160-1162: `r` is not a generator. */
  lemma ReusePrefix<E>(g: Generators<E>, u: set<E>, ltp: seq<nat>, dups: nat, fd: Found<E>, gr: Graphs, ws: seq<Word>, rows: nat, m: nat, i: nat, j: nat, r: int)
    requires Cursor(g, ltp, dups, fd, gr, ws, rows, m, i, j) && i < rows <= |ws| && j < |g.gens| && |ws[i]| > 1 && ShorterLeft(ws, i, m)
    requires InSemigroup(g, u) && Sizes(|ws|, fd.index) && Rows(gr.right, rows, |g.gens|) && Rows(gr.reduced, rows, |g.gens|) && Rows(gr.left, rows, |g.gens|)
    requires 0 <= fd.index.suffix[i] < i && !gr.reduced[fd.index.suffix[i]][j] && r == gr.right[fd.index.suffix[i]][j]
    requires 0 <= r < |ws| && fd.index.prefix[r] != UNDEFINED
    ensures 0 <= fd.index.prefix[r] < m && m <= rows && fd.index.first[i] < |g.gens| && fd.index.final[r] < |g.gens|
    ensures var l := gr.left[fd.index.prefix[r]][fd.index.first[i]];
            0 <= l < rows && Before(l, fd.index.final[r], i, j) && RightOk(g, ws, i, j, gr.right[l][fd.index.final[r]], false)
  {
    SuffixEntry(g, ltp, dups, fd, gr, ws, rows, m, i, j);
    var s, b := fd.index.suffix[i], fd.index.first[i];
    PrefixEntry(g, ltp, dups, fd, gr, ws, rows, m, i, j, b, s, r);
    var q, f := fd.index.prefix[r], fd.index.final[r];
    hide Cursor, RightOk, InSemigroup;
    assert ([b] + ws[q]) + [f] == [b] + ws[r];
    Through(g, u, ltp, dups, fd, gr, ws, rows, m, i, j, b, s, r, gr.left[q][b], [b] + ws[q], f);
  }

  lemma PrefixEntry<E>(g: Generators<E>, ltp: seq<nat>, dups: nat, fd: Found<E>, gr: Graphs, ws: seq<Word>, rows: nat, m: nat, i: nat, j: nat, b: Letter, s: nat, r: int)
    requires Cursor(g, ltp, dups, fd, gr, ws, rows, m, i, j) && i < rows <= |ws| && ShorterLeft(ws, i, m)
    requires s < i && ws[i] == [b] + ws[s] && b < |g.gens| && RightOk(g, ws, s, j, r, false)
    requires Sizes(|ws|, fd.index) && Rows(gr.left, rows, |g.gens|)
    requires fd.index.prefix[r] != UNDEFINED
    ensures 0 <= fd.index.prefix[r] < m <= rows && fd.index.final[r] < |g.gens| && ws[r] == ws[fd.index.prefix[r]] + [fd.index.final[r]]
    ensures Stands(g, ws, gr.left[fd.index.prefix[r]][b], [b] + ws[fd.index.prefix[r]])
  {
    assert Described(|g.gens|, ws, fd.index, r);
    SplitWord(|g.gens|, ws, fd.index, r);
    var q := fd.index.prefix[r];
    assert LeftOk(g, ws, q, b, gr.left[q][b]);
  }

  /** Line 1164: `r` is a generator. */
  lemma ReuseLetter<E>(g: Generators<E>, u: set<E>, ltp: seq<nat>, dups: nat, fd: Found<E>, gr: Graphs, ws: seq<Word>, rows: nat, m: nat, i: nat, j: nat, r: int)
    requires Cursor(g, ltp, dups, fd, gr, ws, rows, m, i, j) && i < rows <= |ws| && j < |g.gens| && |ws[i]| > 1
    requires InSemigroup(g, u) && Sizes(|ws|, fd.index) && Rows(gr.right, rows, |g.gens|) && Rows(gr.reduced, rows, |g.gens|)
    requires 0 <= fd.index.suffix[i] < i && !gr.reduced[fd.index.suffix[i]][j] && r == gr.right[fd.index.suffix[i]][j]
    requires 0 <= r < |ws| && fd.index.prefix[r] == UNDEFINED
    ensures fd.index.first[i] < |ltp| && fd.index.final[r] < |g.gens|
    ensures var l := ltp[fd.index.first[i]];
            l < rows && Before(l, fd.index.final[r], i, j) && RightOk(g, ws, i, j, gr.right[l][fd.index.final[r]], false)
  {
    SuffixEntry(g, ltp, dups, fd, gr, ws, rows, m, i, j);
    var s, b, f := fd.index.suffix[i], fd.index.first[i], fd.index.final[r];
    LetterEntry(g, ltp, dups, fd, gr, ws, rows, m, i, j, b, r);
    hide Cursor, RightOk, InSemigroup;
    assert [b] + [f] == [b] + ws[r];
    Through(g, u, ltp, dups, fd, gr, ws, rows, m, i, j, b, s, r, ltp[b], [b], f);
  }

  lemma LetterEntry<E>(g: Generators<E>, ltp: seq<nat>, dups: nat, fd: Found<E>, gr: Graphs, ws: seq<Word>, rows: nat, m: nat, i: nat, j: nat, b: Letter, r: int)
    requires Cursor(g, ltp, dups, fd, gr, ws, rows, m, i, j) && b < |g.gens| && 0 <= r < |ws|
    requires Sizes(|ws|, fd.index) && fd.index.prefix[r] == UNDEFINED
    ensures |ltp| == |g.gens| && fd.index.final[r] < |g.gens| && ws[r] == [fd.index.final[r]]
    ensures Stands(g, ws, ltp[b], [b])
  {
    assert Described(|g.gens|, ws, fd.index, r);
  }

  /** Line 1156-1165: an entry that needs no multiplication. */
  method Reuse<E>(g: Generators<E>, ltp: seq<nat>, fd: Found<E>, gr: Graphs, i: nat, j: nat,
                  ghost u: set<E>, ghost dups: nat, ghost ws: seq<Word>, ghost rows: nat, ghost m: nat)
    returns (gr': Graphs)
    requires Cursor(g, ltp, dups, fd, gr, ws, rows, m, i, j) && i < rows <= |ws| && j < |g.gens| && |ws[i]| > 1 && ShorterLeft(ws, i, m)
    requires InSemigroup(g, u) && Sizes(|ws|, fd.index) && Rows(gr.right, rows, |g.gens|) && Rows(gr.reduced, rows, |g.gens|)
    requires 0 <= fd.index.suffix[i] < i && !gr.reduced[fd.index.suffix[i]][j]
    ensures Cursor(g, ltp, dups, fd, gr', ws, rows, m, i, j + 1)
  {
    hide Cursor, RightOk, InSemigroup, Stands, ShorterLeft;
    var b, s := fd.index.first[i], fd.index.suffix[i];
    var r := gr.right[s][j];
    SuffixEntry(g, ltp, dups, fd, gr, ws, rows, m, i, j);
    RightStands(g, ws, s, j, r, false);
    StandsRange(g, ws, r, ws[s] + [j]);
    var y;
    if fd.foundOne && r == fd.posOne {
      ReuseOne(g, u, ltp, dups, fd, gr, ws, rows, m, i, j);
      y := ltp[b];
    } else if fd.index.prefix[r] != UNDEFINED {
      ReusePrefix(g, u, ltp, dups, fd, gr, ws, rows, m, i, j, r);
      y := gr.right[gr.left[fd.index.prefix[r]][b]][fd.index.final[r]];
    } else {
      ReuseLetter(g, u, ltp, dups, fd, gr, ws, rows, m, i, j, r);
      y := gr.right[ltp[b]][fd.index.final[r]];
    }
    gr' := Graphs(SetEntry(gr.right, i, j, y), gr.left, gr.reduced, gr.nrrules);
    CursorKnown(g, ltp, dups, fd, gr, gr', ws, rows, m, i, j, y);
  }
}
