/**
 * The whole of `enumerate`, from any state to the next stopping point.
 * Lines cited here are those of src/semigroups.h.
 */
module PinEnumerate {
  import opened Finite
  import opened Words
  import opened Evaluation
  import opened PinWords
  import opened PinCayley
  import opened PinState
  import opened PinRows
  import opened PinLevels
  import opened KillFlag

  datatype State<E> = State(found: Found<E>, graphs: Graphs, pos: nat, wordlen: nat, lenindex: seq<nat>)

  /** The invariant between rows; `rows` is the number of rows of the tables. */
  ghost predicate Between<E>(g: Generators<E>, u: set<E>, ltp: seq<nat>, dups: nat, st: State<E>, ws: seq<Word>, rows: nat) {
    && InSemigroup(g, u) && Levels(ws, st.lenindex, st.wordlen)
    && Cursor(g, ltp, dups, st.found, st.graphs, ws, rows, st.lenindex[st.wordlen], st.pos, 0)
    && st.lenindex[st.wordlen] <= st.pos <= st.lenindex[st.wordlen + 1] <= rows <= |ws|
  }

  /** The invariant between calls. */
  ghost predicate AtRest<E>(g: Generators<E>, u: set<E>, ltp: seq<nat>, dups: nat, st: State<E>, ws: seq<Word>) {
    && Between(g, u, ltp, dups, st, ws, |ws|)
    && (st.pos < st.lenindex[st.wordlen + 1] || st.pos == st.lenindex[st.wordlen] == |ws|)
    && (if st.wordlen == 0 then st.pos == 0 else st.lenindex[st.wordlen - 1] < |ws|)
  }

  // ----- expanding the tables -----

  function Blank<T>(n: nat, x: T): seq<T> {
    seq(n, _ => x)
  }

  /** `expand`: new rows with nothing set (lines 1883-1887). */
  function Expand(gr: Graphs, nr: nat, k: nat): Graphs {
    Graphs(gr.right + Blank(nr, Blank(k, UNDEFINED)), gr.left + Blank(nr, Blank(k, UNDEFINED)), gr.reduced + Blank(nr, Blank(k, false)), gr.nrrules)
  }

  lemma ExpandOk<E>(g: Generators<E>, ltp: seq<nat>, dups: nat, fd: Found<E>, gr: Graphs, ws: seq<Word>, rows: nat, m: nat, p: nat)
    requires Cursor(g, ltp, dups, fd, gr, ws, rows, m, p, 0) && p <= rows <= |ws|
    ensures Cursor(g, ltp, dups, fd, Expand(gr, |ws| - rows, |g.gens|), ws, |ws|, m, p, 0)
  {
    var gr' := Expand(gr, |ws| - rows, |g.gens|);
    assert RightDone(g, ws, gr', |ws|, p, 0) by { hide RightOk; }
    assert LeftDone(g, ws, gr', |ws|, m) by { hide LeftOk; }
    SuffixEarlier(|g.gens|, ws, fd.index, |ws|);
    hide RightOk, LeftOk, LettersOk, FoundOk, Behind, RightDone;
    assert Rows(gr.reduced, rows, |g.gens|) by { RightRows(g, ws, gr, rows, p); }
    RuleCountFrame(gr.reduced, fd.index.suffix, gr'.reduced, fd.index.suffix, |g.gens|, p, 0);
  }

  lemma RightRows<E>(g: Generators<E>, ws: seq<Word>, gr: Graphs, rows: nat, p: nat)
    requires RightDone(g, ws, gr, rows, p, 0)
    ensures Rows(gr.reduced, rows, |g.gens|)
  {
  }

  /** The elements are distinct members of the semigroup, so there are not too many. */
  lemma NotTooMany<E>(g: Generators<E>, u: set<E>, fd: Found<E>, ws: seq<Word>)
    requires InSemigroup(g, u) && FoundOk(g, ws, fd)
    ensures |ws| <= |u|
  {
    FoundOver(g, ws, fd);
    assert Distinct(fd.elements) by {
      forall i, j | 0 <= i < j < |fd.elements| ensures fd.elements[i] != fd.elements[j] {
        assert fd.places[fd.elements[i]] == i && fd.places[fd.elements[j]] == j;
      }
    }
    ElementsSize(fd.elements);
    forall x | x in Elements(fd.elements) ensures x in u {
      var i :| 0 <= i < |fd.elements| && fd.elements[i] == x;
      assert Proper(g, ws[i]);
      EvalIn(g, u, ws[i]);
    }
    SubsetSize(Elements(fd.elements), u);
  }

  // ----- the generators -----

  /** Lines 1103-1144: multiply the generators by every generator. */
  method FirstLevel<E(==)>(g: Generators<E>, ltp: seq<nat>, st: State<E>, ghost u: set<E>, ghost dups: nat, ghost ws: seq<Word>)
    returns (st': State<E>, ghost ws': seq<Word>)
    requires AtRest(g, u, ltp, dups, st, ws) && st.wordlen == 0 && st.lenindex[1] > 0
    ensures AtRest(g, u, ltp, dups, st', ws') && st'.wordlen == 1 && ws <= ws'
  {
    hide *;
    FirstLevelStart(g, u, ltp, dups, st, ws);
    var fd, gr, pos, n := st.found, st.graphs, st.pos, st.lenindex[1];
    ghost var rows := |ws|;
    ws' := ws;
    var shorter := |fd.elements|;
    LongerRefl(ws, 1);
    while pos < n
      invariant pos <= n <= rows <= |ws'| && Longer(ws, ws', 1) && LevelAt(ws', n, 1)
      invariant Cursor(g, ltp, dups, fd, gr, ws', rows, 0, pos, 0)
    {
      ghost var before := ws';
      CursorOver(g, ltp, dups, fd, gr, ws', rows, 0, pos, n);
      fd, gr, ws' := FirstRow(g, ltp, fd, gr, pos, u, dups, ws', rows);
      LongerLevel(before, ws', n, 1);
      LongerTrans(ws, before, ws', 1);
      pos := pos + 1;
    }
    gr := FillFirst(g, ltp, fd, gr, pos, u, dups, ws', rows);
    CursorSize(g, ltp, dups, fd, gr, ws', rows, n, pos);
    ExpandOk(g, ltp, dups, fd, gr, ws', rows, n, pos);
    st' := State(fd, Expand(gr, |fd.elements| - shorter, |g.gens|), pos, 1, st.lenindex + [|fd.elements|]);
    LongerSize(ws, ws', 1);
    NewLevel(g, ltp, dups, fd, gr, ws, ws', rows, n, st.lenindex, 0);
    FirstLevelEnd(g, u, ltp, dups, st', ws', n);
  }

  lemma FirstLevelEnd<E>(g: Generators<E>, u: set<E>, ltp: seq<nat>, dups: nat, st: State<E>, ws: seq<Word>, n: nat)
    requires InSemigroup(g, u) && Levels(ws, st.lenindex, 1) && st.wordlen == 1 && st.pos == n == st.lenindex[1] <= |ws| == st.lenindex[2]
    requires Cursor(g, ltp, dups, st.found, st.graphs, ws, |ws|, n, n, 0) && 0 < n
    ensures AtRest(g, u, ltp, dups, st, ws)
  {
    assert LevelAt(ws, st.lenindex[0], 0);
    FoundOver(g, ws, st.found);
    assert Proper(g, ws[0]);
  }

  lemma FirstLevelStart<E>(g: Generators<E>, u: set<E>, ltp: seq<nat>, dups: nat, st: State<E>, ws: seq<Word>)
    requires AtRest(g, u, ltp, dups, st, ws) && st.wordlen == 0
    ensures |st.lenindex| == 2 && st.lenindex[0] == 0 && |st.found.elements| == |ws| && st.lenindex[1] <= |ws| && st.pos <= st.lenindex[1]
    ensures InSemigroup(g, u) && Levels(ws, st.lenindex, 0) && LevelAt(ws, st.lenindex[1], 1)
    ensures Cursor(g, ltp, dups, st.found, st.graphs, ws, |ws|, 0, st.pos, 0)
  {
    assert LevelAt(ws, st.lenindex[0], 0) && LevelAt(ws, st.lenindex[1], 1);
    FoundOver(g, ws, st.found);
    assert forall i :: 0 <= i < |ws| ==> Proper(g, ws[i]) && |ws[i]| > 0;
  }

  lemma CursorOver<E>(g: Generators<E>, ltp: seq<nat>, dups: nat, fd: Found<E>, gr: Graphs, ws: seq<Word>, rows: nat, m: nat, p: nat, n: nat)
    requires Cursor(g, ltp, dups, fd, gr, ws, rows, m, p, 0) && p < n && LevelAt(ws, n, 1)
    ensures p < |ws| && |ws[p]| == 1
  {
    FoundOver(g, ws, fd);
    assert Proper(g, ws[p]);
  }

  lemma CursorSize<E>(g: Generators<E>, ltp: seq<nat>, dups: nat, fd: Found<E>, gr: Graphs, ws: seq<Word>, rows: nat, m: nat, p: nat)
    requires Cursor(g, ltp, dups, fd, gr, ws, rows, m, p, 0)
    ensures |fd.elements| == |ws| && FoundOk(g, ws, fd)
  {
  }

  lemma LongerLevel(ws: seq<Word>, ws': seq<Word>, n: nat, l: nat)
    requires Longer(ws, ws', l) && LevelAt(ws, n, l)
    ensures LevelAt(ws', n, l) && |ws| <= |ws'|
  {
  }

  lemma LongerSize(ws: seq<Word>, ws': seq<Word>, l: nat)
    requires Longer(ws, ws', l)
    ensures ws <= ws'
  {
  }

  /** When all words of one length have been multiplied, all words one longer are known. */
  lemma NewLevel<E>(g: Generators<E>, ltp: seq<nat>, dups: nat, fd: Found<E>, gr: Graphs, ws: seq<Word>, ws': seq<Word>, rows: nat, pos: nat, lenindex: seq<nat>, wordlen: nat)
    requires Cursor(g, ltp, dups, fd, gr, ws', rows, pos, pos, 0) && Longer(ws, ws', wordlen + 1)
    requires Levels(ws, lenindex, wordlen) && pos == lenindex[wordlen + 1]
    ensures Levels(ws', lenindex + [|ws'|], wordlen + 1)
  {
    LevelsGrow(ws, ws', lenindex, wordlen);
    var lenindex' := lenindex + [|ws'|];
    assert LevelAt(ws', lenindex[wordlen + 1], wordlen + 1);
    forall l | 0 <= l <= wordlen + 2 ensures LevelAt(ws', lenindex'[l], l) {
      if l <= wordlen + 1 {
        assert LevelAt(ws', lenindex[l], l);
      } else {
        forall i | 0 <= i < |ws'| ensures |ws'[i]| <= wordlen + 2 {
          if |ws'[i]| > wordlen + 2 {
            SplitWord(|g.gens|, ws', fd.index, i);
          }
        }
      }
    }
  }

  // ----- longer words -----

  /** Lines 1151-1195: multiply words of length `wordlen + 1` until they are all done or the enumeration stops. */
  method Level<E(==)>(g: Generators<E>, ltp: seq<nat>, st: State<E>, limit: nat, canKill: bool,
                      ghost u: set<E>, ghost dups: nat, ghost ws: seq<Word>)
    returns (fd: Found<E>, gr: Graphs, pos: nat, stop: bool, ghost ws': seq<Word>)
    requires AtRest(g, u, ltp, dups, st, ws) && st.wordlen > 0 && st.pos < |ws|
    ensures Longer(ws, ws', st.wordlen + 1)
    ensures st.pos < pos <= st.lenindex[st.wordlen + 1] <= |ws|
    ensures Cursor(g, ltp, dups, fd, gr, ws', |ws|, st.lenindex[st.wordlen], pos, 0)
    ensures stop && !canKill ==> |ws'| >= limit
    ensures |ws| < limit ==> |ws'| < limit + |g.gens| && (!stop ==> |ws'| < limit)
    ensures !stop ==> pos == st.lenindex[st.wordlen + 1]
  {
    hide *;
    LevelStart(g, u, ltp, dups, st, ws);
    fd, gr, pos, stop := st.found, st.graphs, st.pos, false;
    var wordlen, end := st.wordlen, st.lenindex[st.wordlen + 1];
    ghost var rows, m := |ws|, st.lenindex[wordlen];
    ws' := ws;
    LongerRefl(ws, wordlen + 1);
    while pos != end && !stop
      invariant st.pos <= pos <= end <= rows <= |ws'| && Longer(ws, ws', wordlen + 1)
      invariant LevelAt(ws', end, wordlen + 1) && LevelAt(ws', m, wordlen) && (pos == st.pos ==> !stop)
      invariant Cursor(g, ltp, dups, fd, gr, ws', rows, m, pos, 0)
      invariant stop && !canKill ==> |ws'| >= limit
      invariant |ws| < limit ==> (|ws'| == |ws| || |ws'| < limit + |g.gens|) && (!stop ==> |ws'| < limit)
      decreases end - pos
    {
      ghost var before := ws';
      InLevel(ws', m, end, wordlen, pos);
      fd, gr, stop, ws' := LaterRow(g, ltp, fd, gr, pos, wordlen, limit, canKill, u, dups, ws', rows, m);
      LongerLevel(before, ws', end, wordlen + 1);
      LongerLevel'(before, ws', m, wordlen);
      LongerTrans(ws, before, ws', wordlen + 1);
      pos := pos + 1;
    }
  }

  lemma LevelStart<E>(g: Generators<E>, u: set<E>, ltp: seq<nat>, dups: nat, st: State<E>, ws: seq<Word>)
    requires AtRest(g, u, ltp, dups, st, ws) && st.wordlen > 0 && st.pos < |ws|
    ensures InSemigroup(g, u) && |st.lenindex| == st.wordlen + 2
    ensures st.lenindex[st.wordlen] <= st.pos < st.lenindex[st.wordlen + 1] <= |ws|
    ensures LevelAt(ws, st.lenindex[st.wordlen + 1], st.wordlen + 1) && LevelAt(ws, st.lenindex[st.wordlen], st.wordlen)
    ensures Cursor(g, ltp, dups, st.found, st.graphs, ws, |ws|, st.lenindex[st.wordlen], st.pos, 0)
  {
  }

  lemma InLevel(ws: seq<Word>, m: nat, end: nat, wordlen: nat, pos: nat)
    requires LevelAt(ws, m, wordlen) && LevelAt(ws, end, wordlen + 1) && m <= pos < end
    ensures |ws[pos]| == wordlen + 1 && ShorterLeft(ws, pos, m)
  {
  }

  lemma LongerLevel'(ws: seq<Word>, ws': seq<Word>, n: nat, l: nat)
    requires Longer(ws, ws', l + 1) && LevelAt(ws, n, l)
    ensures LevelAt(ws', n, l)
  {
  }

  /** Lines 1196-1208: make room for the new words, and complete the left Cayley graph if a length is finished. */
  method EndLevel<E>(g: Generators<E>, ltp: seq<nat>, st: State<E>, fd: Found<E>, gr: Graphs, pos: nat, shorter: nat,
                     ghost u: set<E>, ghost dups: nat, ghost ws: seq<Word>, ghost ws': seq<Word>)
    returns (st': State<E>)
    requires AtRest(g, u, ltp, dups, st, ws) && st.wordlen > 0 && Longer(ws, ws', st.wordlen + 1)
    requires st.pos < pos <= st.lenindex[st.wordlen + 1] <= |ws| == shorter
    requires Cursor(g, ltp, dups, fd, gr, ws', |ws|, st.lenindex[st.wordlen], pos, 0)
    ensures AtRest(g, u, ltp, dups, st', ws') && st'.pos == pos && st'.found == fd
  {
    var wordlen, m, end := st.wordlen, st.lenindex[st.wordlen], st.lenindex[st.wordlen + 1];
    assert LevelAt(ws, end, wordlen + 1) && LevelAt(ws, m, wordlen);
    hide Cursor, InSemigroup, Longer, FoundOk, LevelAt;
    LongerSize(ws, ws', wordlen + 1);
    CursorSize(g, ltp, dups, fd, gr, ws', |ws|, m, pos);
    ExpandOk(g, ltp, dups, fd, gr, ws', |ws|, m, pos);
    var gr' := Expand(gr, |fd.elements| - shorter, |g.gens|);
    if pos == end {
      LongerLevel(ws, ws', end, wordlen + 1);
      LongerLevel'(ws, ws', m, wordlen);
      gr' := FillLater(g, ltp, fd, gr', m, pos, u, dups, ws', |ws'|, wordlen);
      NewLevel(g, ltp, dups, fd, gr', ws, ws', |ws'|, pos, st.lenindex, wordlen);
      st' := State(fd, gr', pos, wordlen + 1, st.lenindex + [|fd.elements|]);
    } else {
      LevelsGrow(ws, ws', st.lenindex, wordlen);
      st' := State(fd, gr', pos, wordlen, st.lenindex);
    }
  }

  /** The number of elements at which to stop (lines 1089-1096). */
  function Limit(limit64: nat, nr: nat, batch: nat): (limit: nat)
    ensures nr < LIMIT_MAX / 2 ==> limit >= limit64 || limit > LIMIT_MAX / 2
  {
    if LIMIT_MAX - batch > nr then (if limit64 < nr + batch then nr + batch else limit64) else batch
  }

  const LIMIT_MAX: nat := 0xFFFF_FFFF_FFFF_FFFF

  /**
   * `enumerate` (lines 1082-1228).  Unless it is killed it ends with all
   * elements known, or at least as many as asked for and as in a batch; but not
   * more than the products of one word with the generators beyond that, unless
   * the products of two generators are already more.
   */
  method Enumerate<E(==)>(g: Generators<E>, ltp: seq<nat>, st: State<E>, limit64: nat, batch: nat, canKill: bool,
                          ghost u: set<E>, ghost dups: nat, ghost ws: seq<Word>)
    returns (st': State<E>, ghost ws': seq<Word>)
    requires AtRest(g, u, ltp, dups, st, ws)
    ensures AtRest(g, u, ltp, dups, st', ws') && ws <= ws' && st.pos <= st'.pos
    ensures st.pos >= |ws| || limit64 <= |ws| ==> st' == st && ws' == ws
    ensures !canKill && st.pos < |ws| < limit64 ==> st'.pos == |ws'| || |ws'| >= Limit(limit64, |ws|, batch)
    ensures !canKill && |u| < LIMIT_MAX / 2 ==> st'.pos == |ws'| || |ws'| >= limit64
    ensures ws' == ws || st'.wordlen <= 1 || |ws'| < Limit(limit64, |ws|, batch) + |g.gens|
  {
    st', ws' := st, ws;
    RestParts(g, u, ltp, dups, st', ws');
    var killed := Killed(canKill);
    if st.pos >= |st.found.elements| || limit64 <= |st.found.elements| || killed {
      return;
    }
    var limit := Limit(limit64, |st.found.elements|, batch);
    hide *;
    if st.pos < st.lenindex[1] {
      st', ws' := FirstLevel(g, ltp, st, u, dups, ws);
    }
    RestParts(g, u, ltp, dups, st', ws');
    killed := Killed(canKill);
    var stop := |st'.found.elements| >= limit || killed;
    while st'.pos != |st'.found.elements| && !stop
      invariant AtRest(g, u, ltp, dups, st', ws') && st'.wordlen > 0 && ws <= ws' && st.pos <= st'.pos <= |ws'| <= |u|
      invariant |st'.found.elements| == |ws'| && (stop && !canKill ==> |ws'| >= limit) && (!stop ==> |ws'| < limit)
      invariant ws' == ws || st'.wordlen <= 1 || |ws'| < limit + |g.gens|
      decreases |u| - st'.pos
    {
      var shorter := |st'.found.elements|;
      ghost var before := ws';
      var fd, gr, pos;
      fd, gr, pos, stop, ws' := Level(g, ltp, st', limit, canKill, u, dups, ws');
      LongerSize(before, ws', st'.wordlen + 1);
      st' := EndLevel(g, ltp, st', fd, gr, pos, shorter, u, dups, before, ws');
      RestParts(g, u, ltp, dups, st', ws');
    }
  }

  lemma LevelOrder(ws: seq<Word>, m: nat, l: nat, n: nat, l': nat)
    requires LevelAt(ws, m, l) && LevelAt(ws, n, l') && l <= l'
    ensures m <= n
  {
    assert n < |ws| ==> (n < m <==> |ws[n]| <= l) && (n < n <==> |ws[n]| <= l');
  }

  lemma RestParts<E>(g: Generators<E>, u: set<E>, ltp: seq<nat>, dups: nat, st: State<E>, ws: seq<Word>)
    requires AtRest(g, u, ltp, dups, st, ws)
    ensures |st.found.elements| == |ws| <= |u| && st.pos <= |ws| && |st.lenindex| > 1
    ensures st.wordlen == 0 && st.pos < |ws| ==> st.pos < st.lenindex[1]
    ensures st.wordlen > 0 ==> st.lenindex[1] <= st.pos
  {
    NotTooMany(g, u, st.found, ws);
    if st.wordlen > 0 {
      LevelOrder(ws, st.lenindex[1], 1, st.lenindex[st.wordlen], st.wordlen);
    }
  }
}
