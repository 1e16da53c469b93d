/**
 * Partitioned binary relations and their product: the class `PBR`.
 * Lines cited here are those of src/elements.cc.
 */
module PBRs {
  import opened AlternatingPaths
  import opened DepthFirst

  // ----- rows -----

  /** Only the row `adj` differs. */
  ghost predicate OneRow(t: seq<seq<bool>>, t': seq<seq<bool>>, adj: nat) {
    |t'| == |t| && adj < |t| && t' == t[adj := t'[adj]]
  }

  ghost predicate Sized(t: seq<seq<bool>>, size: nat) {
    forall j :: 0 <= j < |t| ==> |t[j]| == size
  }

  lemma UnseenLess(xs: seq<bool>, ys: seq<bool>, xs': seq<bool>, ys': seq<bool>, u: Node)
    requires |xs'| == |xs| && |ys'| == |ys| && Seen(xs, ys) <= Seen(xs', ys') && u in Seen(xs', ys') && u !in Seen(xs, ys)
    ensures Unseen(xs', ys') < Unseen(xs, ys)
  {
    forall v | v in Unseen(xs', ys') ensures v in Unseen(xs, ys) {
      if v.X? && xs[v.at] { assert v in Seen(xs, ys); }
      if v.Y? && ys[v.at] { assert v in Seen(xs, ys); }
    }
    assert u in Unseen(xs, ys) && u !in Unseen(xs', ys');
  }

  lemma MarkX(xs: seq<bool>, ys: seq<bool>, i: nat)
    requires i < |xs|
    ensures Seen(xs[i := true], ys) == Seen(xs, ys) + {X(i)} && (X(i) in Seen(xs, ys) <==> xs[i])
  {
  }

  lemma MarkY(xs: seq<bool>, ys: seq<bool>, i: nat)
    requires i < |ys|
    ensures Seen(xs, ys[i := true]) == Seen(xs, ys) + {Y(i)} && (Y(i) in Seen(xs, ys) <==> ys[i])
  {
  }

  lemma FineEntry(n: nat, x: Lists, i: nat, t: nat)
    requires Fine(n, x) && i < 2 * n && t < |x[i]|
    ensures x[i][t] < 2 * n
  {
  }

  lemma FineSize(n: nat, x: Lists)
    requires Fine(n, x)
    ensures |x| == 2 * n
  {
  }

  lemma OneRowTrans(t: seq<seq<bool>>, t1: seq<seq<bool>>, t2: seq<seq<bool>>, adj: nat)
    requires OneRow(t, t1, adj) && OneRow(t1, t2, adj)
    ensures OneRow(t, t2, adj)
  {
  }

  lemma OneRowRefl(t: seq<seq<bool>>, adj: nat)
    requires adj < |t|
    ensures OneRow(t, t, adj)
  {
  }

  lemma SetCell(t: seq<seq<bool>>, adj: nat, k: nat, size: nat)
    requires Sized(t, size) && adj < |t| && k < size
    ensures |t[adj]| == size
    ensures OneRow(t, t[adj := t[adj][k := true]], adj) && Sized(t[adj := t[adj][k := true]], size)
  {
  }

  lemma RowParts(x: Lists, y: Lists, i: nat)
    requires i < |x| == |y|
    ensures Row(x, y, X(i)) == x[i] && Row(x, y, Y(i)) == y[i]
  {
  }

  lemma SearchingSize(n: nat, x: Lists, y: Lists, u: Node, seen: set<Node>, row: seq<bool>, seen': set<Node>, row': seq<bool>, t: nat)
    requires Searching(n, x, y, u, seen, row, seen', row', t)
    ensures seen <= seen' && u in seen' && |row'| == |row|
  {
  }

  lemma LeavesIs(n: nat, i: nat, j: nat)
    ensures Leaves(n, X(i), j) <==> j < n
    ensures Leaves(n, Y(i), j) <==> j >= n
    ensures j >= n ==> Next(n, X(i), j) == Y(j - n)
    ensures j < n ==> Next(n, Y(i), j) == X(j + n)
  {
  }

  // ----- the memo -----

  ghost predicate MemoOk(n: nat, x: Lists, y: Lists, tmp: seq<seq<bool>>) {
    Sized(tmp, 2 * n + 1) && forall j :: 0 <= j < |tmp| ==> MemoRow(n, x, y, tmp, j)
  }

  /** A row that is flagged is right; the others are blank. */
  ghost predicate MemoRow(n: nat, x: Lists, y: Lists, tmp: seq<seq<bool>>, j: nat)
    requires j < |tmp|
  {
    |tmp[j]| == 2 * n + 1 && if tmp[j][0] then RowRight(n, x, y, Enter(n, j), tmp[j]) else Blank(tmp[j])
  }

  function BlankRow(size: nat): seq<bool> {
    seq(size, _ => false)
  }

  function AddRows(tmp: seq<seq<bool>>, count: nat, size: nat): seq<seq<bool>> {
    tmp + seq(count, _ => BlankRow(size))
  }

  lemma MemoGrow(n: nat, x: Lists, y: Lists, tmp: seq<seq<bool>>, count: nat, size: nat)
    requires MemoOk(n, x, y, tmp) && size == 2 * n + 1
    ensures MemoOk(n, x, y, AddRows(tmp, count, size)) && |AddRows(tmp, count, size)| == |tmp| + count
    ensures count > 0 ==> AddRows(tmp, count, size)[|tmp| + count - 1] == BlankRow(size)
  {
    hide RowRight;
    var t := AddRows(tmp, count, size);
    forall j | 0 <= j < |t| ensures MemoRow(n, x, y, t, j) {
      if j < |tmp| { assert MemoRow(n, x, y, tmp, j); }
    }
  }

  // ----- clean tables -----

  /** A square table of `size` blank rows. */
  function Blanks(size: nat): seq<seq<bool>> {
    seq(size, _ => BlankRow(size))
  }

  function Blanked(t: seq<seq<bool>>): seq<seq<bool>> {
    seq(|t|, j requires 0 <= j < |t| => BlankRow(|t[j]|))
  }

  lemma NoRows(size: nat)
    ensures Sized([], size)
  {
  }

  lemma BlanksSized(n: nat)
    ensures |Blanks(2 * n)| == 2 * n && Sized(Blanks(2 * n), 2 * n) && forall i :: 0 <= i < 2 * n ==> Blanks(2 * n)[i] == BlankRow(2 * n)
  {
  }

  lemma BlankedSquare(n: nat, t: seq<seq<bool>>)
    requires |t| == 2 * n && Sized(t, 2 * n)
    ensures Blanked(t) == Blanks(2 * n)
  {
  }

  lemma BlankTable(n: nat, x: Lists, y: Lists, t: seq<seq<bool>>)
    requires Sized(t, 2 * n + 1)
    ensures MemoOk(n, x, y, Blanked(t))
  {
    hide RowRight;
  }

  // ----- the rows of the result -----

  ghost predicate ContributesUpTo(n: nat, x: Lists, y: Lists, u: Node, k: nat, upTo: nat) {
    u.at < |x| == |y| && upTo <= |Row(x, y, u)| && exists t :: 0 <= t < upTo && Contributes(n, x, y, u, Row(x, y, u)[t], k)
  }

  ghost predicate RowUpTo(n: nat, x: Lists, y: Lists, u: Node, row: seq<bool>, upTo: nat) {
    |row| == 2 * n && forall k: nat :: k < 2 * n ==> (row[k] <==> ContributesUpTo(n, x, y, u, k, upTo))
  }

  /** The row marks exactly the points related to the point `i`. */
  ghost predicate RowJoined(n: nat, x: Lists, y: Lists, i: nat, row: seq<bool>) {
    |row| == 2 * n && forall k: nat :: k < 2 * n ==> (row[k] <==> Joined(n, x, y, i, k))
  }

  /** What one entry adds. */
  ghost predicate Added(n: nat, x: Lists, y: Lists, u: Node, j: nat, row: seq<bool>, row': seq<bool>) {
    |row'| == |row| == 2 * n && forall k: nat :: k < 2 * n ==> (row'[k] <==> row[k] || Contributes(n, x, y, u, j, k))
  }

  lemma RowStart(n: nat, x: Lists, y: Lists, u: Node, row: seq<bool>)
    requires |row| == 2 * n && (forall k :: 0 <= k < 2 * n ==> !row[k]) && u.at < |x| == |y|
    ensures RowUpTo(n, x, y, u, row, 0)
  {
  }

  lemma RowMore(n: nat, x: Lists, y: Lists, u: Node, row: seq<bool>, row': seq<bool>, t: nat)
    requires u.at < |x| == |y| && t < |Row(x, y, u)| && RowUpTo(n, x, y, u, row, t) && Added(n, x, y, u, Row(x, y, u)[t], row, row')
    ensures RowUpTo(n, x, y, u, row', t + 1)
  {
    hide Contributes;
    forall k: nat | k < 2 * n ensures row'[k] <==> ContributesUpTo(n, x, y, u, k, t + 1) {
      if ContributesUpTo(n, x, y, u, k, t + 1) {
        var s :| 0 <= s < t + 1 && Contributes(n, x, y, u, Row(x, y, u)[s], k);
        if s < t { assert ContributesUpTo(n, x, y, u, k, t); }
      }
    }
  }

  /** All entries have been read, or the row is full. */
  lemma RowEnd(n: nat, x: Lists, y: Lists, i: nat, row: seq<bool>, t: nat)
    requires i < 2 * n == |x| == |y| && RowUpTo(n, x, y, Start(n, i), row, t)
    requires t == |Row(x, y, Start(n, i))| || forall k :: 0 <= k < |row| ==> row[k]
    ensures RowJoined(n, x, y, i, row)
  {
    var u := Start(n, i);
    hide Contributes, Out;
    forall k: nat | k < 2 * n ensures row[k] <==> Out(n, x, y, u, k) {
      if row[k] {
        var s :| 0 <= s < t && Contributes(n, x, y, u, Row(x, y, u)[s], k);
        ContributesOut(n, x, y, u, s, k);
      }
      if Out(n, x, y, u, k) && t == |Row(x, y, u)| {
        FirstStep(n, x, y, u, k);
        assert ContributesUpTo(n, x, y, u, k, t);
      }
    }
  }

  lemma AddedLeaf(n: nat, x: Lists, y: Lists, u: Node, j: nat, row: seq<bool>)
    requires Leaves(n, u, j) && j < |row| == 2 * n
    ensures Added(n, x, y, u, j, row, row[j := true])
  {
  }

  lemma AddedRow(n: nat, x: Lists, y: Lists, u: Node, j: nat, row: seq<bool>, memo: seq<bool>, row': seq<bool>)
    requires !Leaves(n, u, j) && Next(n, u, j) == Enter(n, j) && |row| == |row'| == 2 * n && |memo| == 2 * n + 1
    requires RowRight(n, x, y, Enter(n, j), memo) && forall k :: 0 <= k < 2 * n ==> row'[k] == (row[k] || memo[k + 1])
    ensures Added(n, x, y, u, j, row, row')
  {
    hide Out;
  }

  method AllTrue(row: seq<bool>) returns (b: bool)
    ensures b <==> forall k :: 0 <= k < |row| ==> row[k]
  {
    var i := 0;
    while i < |row|
      invariant i <= |row| && forall k :: 0 <= k < i ==> row[k]
    {
      if !row[i] {
        return false;
      }
      i := i + 1;
    }
    b := true;
  }

  /** `unite_rows` (lines 404-411) for one row of `out` and one of `tmp`. */
  method UniteRows(row: seq<bool>, memo: seq<bool>) returns (row': seq<bool>)
    requires |memo| == |row| + 1
    ensures |row'| == |row| && forall k :: 0 <= k < |row| ==> row'[k] == (row[k] || memo[k + 1])
  {
    row' := row;
    var k := 0;
    while k < |row|
      invariant k <= |row| == |row'|
      invariant forall h :: 0 <= h < |row| ==> row'[h] == if h < k then row[h] || memo[h + 1] else row[h]
    {
      row', k := row'[k := row'[k] || memo[k + 1]], k + 1;
    }
  }

  // ----- flags -----

  /** Row `j` is flagged and blank otherwise; the other rows are as they should be. */
  ghost predicate Flagged(n: nat, x: Lists, y: Lists, tmp: seq<seq<bool>>, j: nat) {
    && Sized(tmp, 2 * n + 1) && j < |tmp| && tmp[j][0] && Blank(tmp[j])
    && forall h :: 0 <= h < |tmp| && h != j ==> MemoRow(n, x, y, tmp, h)
  }

  lemma FlaggedNow(n: nat, x: Lists, y: Lists, tmp: seq<seq<bool>>, j: nat)
    requires MemoOk(n, x, y, tmp) && j < |tmp| && |tmp[j]| > 0 && !tmp[j][0]
    ensures Flagged(n, x, y, tmp[j := tmp[j][0 := true]], j)
  {
    hide RowRight;
    var t := tmp[j := tmp[j][0 := true]];
    assert MemoRow(n, x, y, tmp, j);
    forall h | 0 <= h < |t| && h != j ensures MemoRow(n, x, y, t, h) { assert MemoRow(n, x, y, tmp, h); }
  }

  lemma FlaggedParts(n: nat, x: Lists, y: Lists, tmp: seq<seq<bool>>, j: nat)
    requires Flagged(n, x, y, tmp, j)
    ensures Sized(tmp, 2 * n + 1) && j < |tmp| && |tmp[j]| == 2 * n + 1 && tmp[j][0] && Blank(tmp[j])
  {
  }

  lemma FlaggedDone(n: nat, x: Lists, y: Lists, tmp: seq<seq<bool>>, tmp': seq<seq<bool>>, j: nat)
    requires Flagged(n, x, y, tmp, j) && OneRow(tmp, tmp', j) && |tmp'[j]| == 2 * n + 1 && tmp'[j][0] && RowRight(n, x, y, Enter(n, j), tmp'[j])
    ensures MemoOk(n, x, y, tmp')
  {
    hide RowRight, Blank;
    forall h | 0 <= h < |tmp'| ensures MemoRow(n, x, y, tmp', h) {
      if h != j { assert MemoRow(n, x, y, tmp, h); }
    }
  }

  lemma BlankIs(size: nat)
    ensures |BlankRow(size)| == size && forall k :: 0 <= k < size ==> !BlankRow(size)[k]
  {
  }

  lemma NothingSeen(a: nat, b: nat)
    ensures Seen(BlankRow(a), BlankRow(b)) == {} && |BlankRow(a)| == a && |BlankRow(b)| == b
  {
  }

  /** The node that is marked before a search starts is an outer one, and the search starts at an inner one. */
  lemma StartOutside(n: nat, i: nat, j: nat, seen: set<Node>)
    ensures i < n <= j < 2 * n && seen == {X(i)} ==> Outside(n, seen) && Inner(n, Y(j - n)) && Enter(n, j) == Y(j - n)
    ensures j < n <= i < 2 * n && seen == {Y(i)} ==> Outside(n, seen) && Inner(n, X(j + n)) && Enter(n, j) == X(j + n)
  {
  }

  lemma MemoHit(n: nat, x: Lists, y: Lists, tmp: seq<seq<bool>>, j: nat)
    requires MemoOk(n, x, y, tmp) && j < |tmp| && |tmp[j]| > 0 && tmp[j][0]
    ensures RowRight(n, x, y, Enter(n, j), tmp[j])
  {
    hide RowRight;
    assert MemoRow(n, x, y, tmp, j);
  }

  lemma EnterIs(n: nat, j: nat)
    ensures Enter(n, j) == if j < n then X(j + n) else Y(j - n)
  {
  }

  lemma StartIs(n: nat, i: nat)
    ensures Start(n, i) == (if i < n then X(i) else Y(i)) && Start(n, i).at == i
  {
  }

  lemma RowChanged(t: seq<seq<bool>>, t': seq<seq<bool>>, i: nat, size: nat)
    requires Sized(t, size) && i < |t| == |t'| && t' == t[i := t'[i]] && |t'[i]| == size
    ensures OneRow(t, t', i) && Sized(t', size)
  {
  }

  // ----- the buffers of a thread -----

  /** The static members `_x_seen`, `_y_seen`, `_tmp` and `_out` that belong to one thread. */
  class Buffers {
    var xSeen: seq<bool>
    var ySeen: seq<bool>
    var tmp: seq<seq<bool>>
    var out: seq<seq<bool>>

    constructor ()
      ensures Valid()
    {
      xSeen, ySeen, tmp, out := [], [], [], [];
    }

    /** The buffers all have the sizes of the last call. */
    ghost predicate Valid()
      reads this
    {
      |ySeen| == |xSeen| == |out| && Sized(out, |out|) && Sized(tmp, |out| + 1)
    }

    ghost predicate Ready(n: nat)
      reads this
    {
      |xSeen| == |ySeen| == 2 * n && Sized(tmp, 2 * n + 1)
    }

    lemma IsReady(n: nat)
      ensures Ready(n) <==> |xSeen| == |ySeen| == 2 * n && Sized(tmp, 2 * n + 1)
    {
    }

    /** `x_dfs` (lines 413-431). */
    method XDfs(n: nat, i: nat, x: Lists, y: Lists, adj: nat)
      requires Ready(n) && Fine(n, x) && Fine(n, y) && n <= i < 2 * n && adj < |tmp|
      modifies this`xSeen, this`ySeen, this`tmp
      ensures Ready(n) && OneRow(old(tmp), tmp, adj)
      ensures Searched(n, x, y, X(i), old(Seen(xSeen, ySeen)), old(tmp[adj]), Seen(xSeen, ySeen), tmp[adj])
      decreases Unseen(xSeen, ySeen)
    {
      hide *;
      IsReady(n);
      FineSize(n, x);
      FineSize(n, y);
      MarkX(xSeen, ySeen, i);
      OneRowRefl(tmp, adj);
      if !xSeen[i] {
        SearchBegin(n, x, y, X(i), Seen(xSeen, ySeen), tmp[adj]);
        xSeen := xSeen[i := true];
        RowParts(x, y, i);
        var t := 0;
        while t < |x[i]|
          invariant |xSeen| == |ySeen| == 2 * n && Sized(tmp, 2 * n + 1) && t <= |x[i]| && OneRow(old(tmp), tmp, adj) && |tmp| == |old(tmp)|
          invariant Searching(n, x, y, X(i), old(Seen(xSeen, ySeen)), old(tmp[adj]), Seen(xSeen, ySeen), tmp[adj], t)
        {
          var j := x[i][t];
          FineEntry(n, x, i, t);
          LeavesIs(n, i, j);
          ghost var s, r, was := Seen(xSeen, ySeen), tmp[adj], tmp;
          if j < n {
            SetCell(tmp, adj, j + 1, 2 * n + 1);
            SearchLeaf(n, x, y, X(i), old(Seen(xSeen, ySeen)), old(tmp[adj]), s, r, t);
            tmp := tmp[adj := tmp[adj][j + 1 := true]];
          } else {
            SearchingSize(n, x, y, X(i), old(Seen(xSeen, ySeen)), old(tmp[adj]), s, r, t);
            UnseenLess(old(xSeen), old(ySeen), xSeen, ySeen, X(i));
            IsReady(n);
            YDfs(n, j - n, x, y, adj);
            IsReady(n);
            OneRowSize(was, tmp, adj);
            SearchCall(n, x, y, X(i), old(Seen(xSeen, ySeen)), old(tmp[adj]), s, r, Seen(xSeen, ySeen), tmp[adj], t);
          }
          OneRowSize(was, tmp, adj);
          OneRowTrans(old(tmp), was, tmp, adj);
          t := t + 1;
        }
        SearchEnd(n, x, y, X(i), old(Seen(xSeen, ySeen)), old(tmp[adj]), Seen(xSeen, ySeen), tmp[adj], t);
        IsReady(n);
      } else {
        SeenAlready(n, x, y, X(i), Seen(xSeen, ySeen), tmp[adj]);
      }
    }

    /** `y_dfs` (lines 433-451). */
    method YDfs(n: nat, i: nat, x: Lists, y: Lists, adj: nat)
      requires Ready(n) && Fine(n, x) && Fine(n, y) && i < n && adj < |tmp|
      modifies this`xSeen, this`ySeen, this`tmp
      ensures Ready(n) && OneRow(old(tmp), tmp, adj)
      ensures Searched(n, x, y, Y(i), old(Seen(xSeen, ySeen)), old(tmp[adj]), Seen(xSeen, ySeen), tmp[adj])
      decreases Unseen(xSeen, ySeen)
    {
      hide *;
      IsReady(n);
      FineSize(n, x);
      FineSize(n, y);
      MarkY(xSeen, ySeen, i);
      OneRowRefl(tmp, adj);
      if !ySeen[i] {
        SearchBegin(n, x, y, Y(i), Seen(xSeen, ySeen), tmp[adj]);
        ySeen := ySeen[i := true];
        RowParts(x, y, i);
        var t := 0;
        while t < |y[i]|
          invariant |xSeen| == |ySeen| == 2 * n && Sized(tmp, 2 * n + 1) && t <= |y[i]| && OneRow(old(tmp), tmp, adj) && |tmp| == |old(tmp)|
          invariant Searching(n, x, y, Y(i), old(Seen(xSeen, ySeen)), old(tmp[adj]), Seen(xSeen, ySeen), tmp[adj], t)
        {
          var j := y[i][t];
          FineEntry(n, y, i, t);
          LeavesIs(n, i, j);
          ghost var s, r, was := Seen(xSeen, ySeen), tmp[adj], tmp;
          if j >= n {
            SetCell(tmp, adj, j + 1, 2 * n + 1);
            SearchLeaf(n, x, y, Y(i), old(Seen(xSeen, ySeen)), old(tmp[adj]), s, r, t);
            tmp := tmp[adj := tmp[adj][j + 1 := true]];
          } else {
            SearchingSize(n, x, y, Y(i), old(Seen(xSeen, ySeen)), old(tmp[adj]), s, r, t);
            UnseenLess(old(xSeen), old(ySeen), xSeen, ySeen, Y(i));
            IsReady(n);
            XDfs(n, j + n, x, y, adj);
            IsReady(n);
            OneRowSize(was, tmp, adj);
            SearchCall(n, x, y, Y(i), old(Seen(xSeen, ySeen)), old(tmp[adj]), s, r, Seen(xSeen, ySeen), tmp[adj], t);
          }
          OneRowSize(was, tmp, adj);
          OneRowTrans(old(tmp), was, tmp, adj);
          t := t + 1;
        }
        SearchEnd(n, x, y, Y(i), old(Seen(xSeen, ySeen)), old(tmp[adj]), Seen(xSeen, ySeen), tmp[adj], t);
        IsReady(n);
      } else {
        SeenAlready(n, x, y, Y(i), Seen(xSeen, ySeen), tmp[adj]);
      }
    }

    // ----- the product -----

    ghost predicate Clear()
      reads this
    {
      Seen(xSeen, ySeen) == {}
    }

    /** What holds between the entries of the lists. */
    ghost predicate Working(n: nat, x: Lists, y: Lists)
      reads this
    {
      && Ready(n) && Clear() && MemoOk(n, x, y, tmp) && |out| == 2 * n && Sized(out, 2 * n)
      && Fine(n, x) && Fine(n, y)
    }

    lemma IsWorking(n: nat, x: Lists, y: Lists)
      ensures Working(n, x, y) <==> |xSeen| == |ySeen| == |out| == 2 * n && Seen(xSeen, ySeen) == {} && MemoOk(n, x, y, tmp) && Sized(out, 2 * n) && Fine(n, x) && Fine(n, y)
      ensures Working(n, x, y) ==> Ready(n) && |x| == |y| == 2 * n && forall i :: 0 <= i < 2 * n ==> |out[i]| == 2 * n
      ensures Working(n, x, y) ==> forall j :: 0 <= j < |tmp| ==> |tmp[j]| == 2 * n + 1
    {
      hide Fine, MemoRow, Seen;
      if Working(n, x, y) { FineSize(n, x); FineSize(n, y); }
    }

    /** Make room for a row of `tmp` and flag it (lines 350-353 and 375-378). */
    method Flag(n: nat, j: nat, ghost x: Lists, ghost y: Lists)
      requires MemoOk(n, x, y, tmp) && (j < |tmp| ==> |tmp[j]| > 0 && !tmp[j][0])
      modifies this`tmp
      ensures j < |tmp| && Flagged(n, x, y, tmp, j)
    {
      hide *;
      if j >= |tmp| {
        MemoGrow(n, x, y, tmp, j - |tmp| + 1, 2 * n + 1);
        BlankIs(2 * n + 1);
        tmp := AddRows(tmp, j - |tmp| + 1, 2 * n + 1);
      }
      FlaggedNow(n, x, y, tmp, j);
      tmp := tmp[j := tmp[j][0 := true]];
    }

    /** A point `j` of the middle layer that has not been met before: search from it (lines 350-358). */
    method SearchFromX(n: nat, i: nat, j: nat, x: Lists, y: Lists)
      requires Working(n, x, y) && i < n <= j < 2 * n && (j < |tmp| ==> |tmp[j]| > 0 && !tmp[j][0])
      modifies this`xSeen, this`ySeen, this`tmp
      ensures Working(n, x, y) && j < |tmp| && |tmp[j]| == 2 * n + 1 && RowRight(n, x, y, Enter(n, j), tmp[j])
    {
      hide *;
      IsWorking(n, x, y);
      Flag(n, j, x, y);
      FlaggedParts(n, x, y, tmp, j);
      MarkX(xSeen, ySeen, i);
      xSeen := xSeen[i := true];
      ghost var seen, was := Seen(xSeen, ySeen), tmp;
      IsReady(n);
      YDfs(n, j - n, x, y, j);
      IsReady(n);
      OneRowSize(was, tmp, j);
      StartOutside(n, i, j, seen);
      SearchRight(n, x, y, Y(j - n), seen, was[j], Seen(xSeen, ySeen), tmp[j]);
      FlaggedDone(n, x, y, was, tmp, j);
      xSeen, ySeen := BlankRow(|xSeen|), BlankRow(|ySeen|);
      NothingSeen(|xSeen|, |ySeen|);
      BlankIs(2 * n);
      IsWorking(n, x, y);
    }

    /** The same from the other side (lines 375-383). */
    method SearchFromY(n: nat, i: nat, j: nat, x: Lists, y: Lists)
      requires Working(n, x, y) && j < n <= i < 2 * n && (j < |tmp| ==> |tmp[j]| > 0 && !tmp[j][0])
      modifies this`xSeen, this`ySeen, this`tmp
      ensures Working(n, x, y) && j < |tmp| && |tmp[j]| == 2 * n + 1 && RowRight(n, x, y, Enter(n, j), tmp[j])
    {
      hide *;
      IsWorking(n, x, y);
      Flag(n, j, x, y);
      FlaggedParts(n, x, y, tmp, j);
      MarkY(xSeen, ySeen, i);
      ySeen := ySeen[i := true];
      ghost var seen, was := Seen(xSeen, ySeen), tmp;
      IsReady(n);
      XDfs(n, j + n, x, y, j);
      IsReady(n);
      OneRowSize(was, tmp, j);
      StartOutside(n, i, j, seen);
      SearchRight(n, x, y, X(j + n), seen, was[j], Seen(xSeen, ySeen), tmp[j]);
      FlaggedDone(n, x, y, was, tmp, j);
      xSeen, ySeen := BlankRow(|xSeen|), BlankRow(|ySeen|);
      NothingSeen(|xSeen|, |ySeen|);
      BlankIs(2 * n);
      IsWorking(n, x, y);
    }

    /** One entry of the list of a point `i` of `x` (lines 345-359). */
    method XEntry(n: nat, i: nat, j: nat, x: Lists, y: Lists)
      requires Working(n, x, y) && i < n && j < 2 * n
      modifies this
      ensures Working(n, x, y) && OneRow(old(out), out, i) && Added(n, x, y, X(i), j, old(out[i]), out[i])
    {
      hide *;
      IsWorking(n, x, y);
      LeavesIs(n, i, j);
      if j < n {
        AddedLeaf(n, x, y, X(i), j, out[i]);
        out := out[i := out[i][j := true]];
      } else {
        if j < |tmp| && tmp[j][0] {
          MemoHit(n, x, y, tmp, j);
        } else {
          SearchFromX(n, i, j, x, y);
          IsWorking(n, x, y);
        }
        EnterIs(n, j);
        var row := UniteRows(out[i], tmp[j]);
        AddedRow(n, x, y, X(i), j, out[i], tmp[j], row);
        out := out[i := row];
      }
      RowChanged(old(out), out, i, 2 * n);
      IsWorking(n, x, y);
    }

    /** One entry of the list of a point `i` of `y` (lines 370-384). */
    method YEntry(n: nat, i: nat, j: nat, x: Lists, y: Lists)
      requires Working(n, x, y) && n <= i < 2 * n && j < 2 * n
      modifies this
      ensures Working(n, x, y) && OneRow(old(out), out, i) && Added(n, x, y, Y(i), j, old(out[i]), out[i])
    {
      hide *;
      IsWorking(n, x, y);
      LeavesIs(n, i, j);
      if j >= n {
        AddedLeaf(n, x, y, Y(i), j, out[i]);
        out := out[i := out[i][j := true]];
      } else {
        if j < |tmp| && tmp[j][0] {
          MemoHit(n, x, y, tmp, j);
        } else {
          SearchFromY(n, i, j, x, y);
          IsWorking(n, x, y);
        }
        EnterIs(n, j);
        var row := UniteRows(out[i], tmp[j]);
        AddedRow(n, x, y, Y(i), j, out[i], tmp[j], row);
        out := out[i := row];
      }
      RowChanged(old(out), out, i, 2 * n);
      IsWorking(n, x, y);
    }

    /** The list of a point, which is read until the row of the result is full (lines 343-366 and 368-391). */
    method FillRow(n: nat, i: nat, x: Lists, y: Lists)
      requires Working(n, x, y) && i < 2 * n && forall k :: 0 <= k < |out[i]| ==> !out[i][k]
      modifies this
      ensures Working(n, x, y) && OneRow(old(out), out, i) && RowJoined(n, x, y, i, out[i])
    {
      hide *;
      IsWorking(n, x, y);
      RowParts(x, y, i);
      StartIs(n, i);
      RowStart(n, x, y, Start(n, i), out[i]);
      OneRowRefl(out, i);
      var list := if i < n then x[i] else y[i];
      var t := 0;
      while t < |list|
        invariant t <= |list| && Working(n, x, y) && OneRow(old(out), out, i) && |out| == 2 * n && RowUpTo(n, x, y, Start(n, i), out[i], t)
      {
        IsWorking(n, x, y);
        if i < n { FineEntry(n, x, i, t); } else { FineEntry(n, y, i, t); }
        ghost var was := out;
        if i < n {
          XEntry(n, i, list[t], x, y);
        } else {
          YEntry(n, i, list[t], x, y);
        }
        OneRowSize(was, out, i);
        OneRowTrans(old(out), was, out, i);
        RowMore(n, x, y, Start(n, i), was[i], out[i], t);
        t := t + 1;
        var full := AllTrue(out[i]);
        if full {
          RowEnd(n, x, y, i, out[i], t);
          return;
        }
      }
      RowEnd(n, x, y, i, out[i], t);
    }

    /** The buffers are cleared, or replaced if the degree has changed (lines 326-341). */
    method Prepare(n: nat, x: Lists, y: Lists)
      requires Valid() && Fine(n, x) && Fine(n, y)
      modifies this
      ensures Working(n, x, y) && out == Blanks(2 * n)
    {
      hide *;
      BlankIs(2 * n);
      if |xSeen| != 2 * n {
        NoRows(2 * n + 1);
        BlankTable(n, x, y, []);
        xSeen, ySeen := BlankRow(2 * n), BlankRow(2 * n);
        tmp, out := Blanked([]), Blanks(2 * n);
      } else {
        WasValid();
        BlankTable(n, x, y, tmp);
        BlankedSquare(n, out);
        xSeen, ySeen := BlankRow(|xSeen|), BlankRow(|ySeen|);
        tmp, out := Blanked(tmp), Blanked(out);
      }
      BlanksSized(n);
      NothingSeen(2 * n, 2 * n);
      IsWorking(n, x, y);
    }

    lemma WasValid()
      requires Valid()
      ensures |ySeen| == |xSeen| == |out| && Sized(out, |out|) && Sized(tmp, |out| + 1)
    {
    }

    lemma StillValid(n: nat, x: Lists, y: Lists)
      requires Working(n, x, y)
      ensures Valid()
    {
      IsWorking(n, x, y);
    }

    /** All rows of the result (lines 343-391). */
    method Fill(n: nat, x: Lists, y: Lists)
      requires Valid() && Fine(n, x) && Fine(n, y)
      modifies this
      ensures Valid() && |out| == 2 * n && forall i :: 0 <= i < 2 * n ==> RowJoined(n, x, y, i, out[i])
    {
      hide *;
      Prepare(n, x, y);
      BlanksSized(n);
      BlankIs(2 * n);
      var i := 0;
      while i < 2 * n
        invariant i <= 2 * n && Working(n, x, y) && |out| == 2 * n
        invariant forall h :: 0 <= h < i ==> RowJoined(n, x, y, h, out[h])
        invariant forall h :: i <= h < 2 * n ==> out[h] == BlankRow(2 * n)
      {
        ghost var was := out;
        FillRow(n, i, x, y);
        OthersKept(was, out, i);
        i := i + 1;
      }
      StillValid(n, x, y);
    }
  }

  lemma OthersKept(t: seq<seq<bool>>, t': seq<seq<bool>>, i: nat)
    requires OneRow(t, t', i)
    ensures |t'| == |t| && forall h :: 0 <= h < |t| && h != i ==> t'[h] == t[h]
  {
  }

  // ----- the class -----

  ghost predicate Increasing(s: seq<nat>) {
    forall a, b :: 0 <= a < b < |s| ==> s[a] < s[b]
  }

  /** The list of every point holds, in increasing order, the points joined to it by alternating paths. */
  ghost predicate IsProduct(n: nat, x: Lists, y: Lists, z: Lists) {
    |z| == 2 * n && forall i :: 0 <= i < 2 * n ==> ListJoined(n, x, y, i, z[i])
  }

  ghost predicate ListJoined(n: nat, x: Lists, y: Lists, i: nat, list: seq<nat>) {
    Increasing(list) && forall k: nat :: k in list <==> k < 2 * n && Joined(n, x, y, i, k)
  }

  /** Lines 394-399: the marks of a row as a list. */
  method ListRow(row: seq<bool>) returns (list: seq<nat>)
    ensures Increasing(list) && forall k: nat :: k in list <==> k < |row| && row[k]
  {
    list := [];
    var k := 0;
    while k < |row|
      invariant k <= |row| && Increasing(list) && forall h: nat :: h in list <==> h < k && row[h]
    {
      if row[k] {
        assert forall a :: 0 <= a < |list| ==> list[a] in list;
        list := list + [k];
      }
      k := k + 1;
    }
  }

  lemma RowListed(n: nat, x: Lists, y: Lists, i: nat, row: seq<bool>, list: seq<nat>)
    requires RowJoined(n, x, y, i, row) && Increasing(list) && forall k: nat :: k in list <==> k < |row| && row[k]
    ensures ListJoined(n, x, y, i, list)
  {
    hide Joined, Increasing;
  }

  class PBR {
    /** The adjacency lists of the points. */
    var vector: Lists

    constructor (vector: Lists)
      ensures this.vector == vector
    {
      this.vector := vector;
    }

    /** `redefine` (lines 310-402): this becomes the product of `x` and `y`. */
    method Redefine(x: PBR, y: PBR, b: Buffers)
      requires |vector| % 2 == 0 && Fine(|vector| / 2, x.vector) && Fine(|vector| / 2, y.vector) && b.Valid() && x != this && y != this
      modifies this, b
      ensures b.Valid() && IsProduct(|old(vector)| / 2, x.vector, y.vector, vector) && |vector| == |old(vector)|
    {
      var n := |vector| / 2;
      b.Fill(n, x.vector, y.vector);
      hide *;
      var i := 0;
      while i < 2 * n
        invariant i <= 2 * n == |vector| && b.Valid() && |b.out| == 2 * n
        invariant forall h :: 0 <= h < 2 * n ==> RowJoined(n, x.vector, y.vector, h, b.out[h])
        invariant forall h :: 0 <= h < i ==> ListJoined(n, x.vector, y.vector, h, vector[h])
      {
        var list := ListRow(b.out[i]);
        RowListed(n, x.vector, y.vector, i, b.out[i], list);
        vector := vector[i := list];
        i := i + 1;
      }
      AllJoined(n, x.vector, y.vector, vector);
    }
  }

  lemma AllJoined(n: nat, x: Lists, y: Lists, z: Lists)
    requires |z| == 2 * n && forall i :: 0 <= i < 2 * n ==> ListJoined(n, x, y, i, z[i])
    ensures IsProduct(n, x, y, z)
  {
    hide ListJoined;
  }

  lemma OneRowSize(t: seq<seq<bool>>, t': seq<seq<bool>>, adj: nat)
    requires OneRow(t, t', adj)
    ensures |t'| == |t| && adj < |t|
  {
  }
}
