/** What the two searches of `PBR::redefine` keep. */
module DepthFirst {
  import opened AlternatingPaths

  /** The nodes that have been seen. */
  ghost function Seen(xSeen: seq<bool>, ySeen: seq<bool>): set<Node> {
    (set a: nat | a < |xSeen| && xSeen[a] :: X(a)) + (set a: nat | a < |ySeen| && ySeen[a] :: Y(a))
  }

  ghost function Unseen(xSeen: seq<bool>, ySeen: seq<bool>): set<Node> {
    (set a: nat | a < |xSeen| && !xSeen[a] :: X(a)) + (set a: nat | a < |ySeen| && !ySeen[a] :: Y(a))
  }

  /** The entry `j` has been dealt with: the outer point is marked in the row, or the node it leads to has been seen. */
  ghost predicate Handled(n: nat, u: Node, j: nat, seen: set<Node>, row: seq<bool>) {
    if Leaves(n, u, j) then j + 1 < |row| && row[j + 1] else Next(n, u, j) in seen
  }

  ghost predicate Done(n: nat, x: Lists, y: Lists, u: Node, seen: set<Node>, row: seq<bool>, upTo: nat) {
    u.at < |x| == |y| && upTo <= |Row(x, y, u)| && forall t :: 0 <= t < upTo ==> Handled(n, u, Row(x, y, u)[t], seen, row)
  }

  ghost predicate Whole(n: nat, x: Lists, y: Lists, u: Node, seen: set<Node>, row: seq<bool>) {
    u.at < |x| == |y| && Done(n, x, y, u, seen, row, |Row(x, y, u)|)
  }

  /** Marks are only added. */
  ghost predicate More(seen: set<Node>, row: seq<bool>, seen': set<Node>, row': seq<bool>) {
    && seen <= seen' && |row'| == |row| && (|row| > 0 ==> row'[0] == row[0])
    && forall k :: 0 <= k < |row| && row[k] ==> row'[k]
  }

  /** Only what can be reached from `u` is added. */
  ghost predicate Only(n: nat, x: Lists, y: Lists, u: Node, seen: set<Node>, row: seq<bool>, seen': set<Node>, row': seq<bool>) {
    && (forall v :: v in seen' && v !in seen ==> Reach(n, x, y, u, v))
    && (forall k: nat :: k + 1 < |row'| == |row| && row'[k + 1] && !row[k + 1] ==> Out(n, x, y, u, k))
  }

  /** The search from `u` is over: everything new has been dealt with completely. */
  ghost predicate Searched(n: nat, x: Lists, y: Lists, u: Node, seen: set<Node>, row: seq<bool>, seen': set<Node>, row': seq<bool>) {
    && More(seen, row, seen', row') && Only(n, x, y, u, seen, row, seen', row') && u in seen'
    && (forall v :: v in seen' && v !in seen ==> Whole(n, x, y, v, seen', row'))
  }

  /** The first `upTo` entries of the list of `u` have been dealt with, and everything else that is new completely. */
  ghost predicate Searching(n: nat, x: Lists, y: Lists, u: Node, seen: set<Node>, row: seq<bool>, seen': set<Node>, row': seq<bool>, upTo: nat) {
    && More(seen, row, seen', row') && Only(n, x, y, u, seen, row, seen', row') && u in seen'
    && Done(n, x, y, u, seen', row', upTo)
    && (forall v :: v in seen' && v !in seen && v != u ==> Whole(n, x, y, v, seen', row'))
  }

  lemma HandledMore(n: nat, u: Node, j: nat, seen: set<Node>, row: seq<bool>, seen': set<Node>, row': seq<bool>)
    requires More(seen, row, seen', row') && Handled(n, u, j, seen, row)
    ensures Handled(n, u, j, seen', row')
  {
  }

  lemma DoneMore(n: nat, x: Lists, y: Lists, u: Node, seen: set<Node>, row: seq<bool>, seen': set<Node>, row': seq<bool>, upTo: nat)
    requires More(seen, row, seen', row') && Done(n, x, y, u, seen, row, upTo)
    ensures Done(n, x, y, u, seen', row', upTo)
  {
    hide Handled, More;
    forall t | 0 <= t < upTo ensures Handled(n, u, Row(x, y, u)[t], seen', row') {
      HandledMore(n, u, Row(x, y, u)[t], seen, row, seen', row');
    }
  }

  lemma MoreTrans(s: set<Node>, r: seq<bool>, s1: set<Node>, r1: seq<bool>, s2: set<Node>, r2: seq<bool>)
    requires More(s, r, s1, r1) && More(s1, r1, s2, r2)
    ensures More(s, r, s2, r2)
  {
  }

  lemma SeenAlready(n: nat, x: Lists, y: Lists, u: Node, seen: set<Node>, row: seq<bool>)
    requires u in seen
    ensures Searched(n, x, y, u, seen, row, seen, row)
  {
  }

  lemma SearchBegin(n: nat, x: Lists, y: Lists, u: Node, seen: set<Node>, row: seq<bool>)
    requires u.at < |x| == |y|
    ensures Searching(n, x, y, u, seen, row, seen + {u}, row, 0)
  {
    ReachRefl(n, x, y, u);
  }

  /** An entry that leaves the stack. */
  lemma SearchLeaf(n: nat, x: Lists, y: Lists, u: Node, seen: set<Node>, row: seq<bool>, seen': set<Node>, row': seq<bool>, t: nat)
    requires Searching(n, x, y, u, seen, row, seen', row', t) && u.at < |x| == |y| && t < |Row(x, y, u)|
    requires Leaves(n, u, Row(x, y, u)[t]) && Row(x, y, u)[t] + 1 < |row'|
    ensures Searching(n, x, y, u, seen, row, seen', row'[Row(x, y, u)[t] + 1 := true], t + 1)
  {
    var j := Row(x, y, u)[t];
    var row'' := row'[j + 1 := true];
    hide Done, Only, Handled, Out, Reach;
    SeenMore(seen, row, seen', row');
    MarkMore(seen', row', j);
    MoreTrans(seen, row, seen', row', seen', row'');
    hide More;
    OutHere(n, x, y, u, j);
    DoneMore(n, x, y, u, seen', row', seen', row'', t);
    MarkDone(n, x, y, u, seen', row', t);
    OnlyLeaf(n, x, y, u, seen, row, seen', row', j);
    forall v | v in seen' && v !in seen && v != u ensures Whole(n, x, y, v, seen', row'') {
      DoneMore(n, x, y, v, seen', row', seen', row'', |Row(x, y, v)|);
    }
  }

  lemma MarkMore(seen: set<Node>, row: seq<bool>, j: nat)
    requires j + 1 < |row|
    ensures More(seen, row, seen, row[j + 1 := true])
  {
  }

  lemma MarkDone(n: nat, x: Lists, y: Lists, u: Node, seen: set<Node>, row: seq<bool>, t: nat)
    requires u.at < |x| == |y| && t < |Row(x, y, u)| && Leaves(n, u, Row(x, y, u)[t]) && Row(x, y, u)[t] + 1 < |row|
    requires Done(n, x, y, u, seen, row[Row(x, y, u)[t] + 1 := true], t)
    ensures Done(n, x, y, u, seen, row[Row(x, y, u)[t] + 1 := true], t + 1)
  {
  }

  lemma OnlyLeaf(n: nat, x: Lists, y: Lists, u: Node, seen: set<Node>, row: seq<bool>, seen': set<Node>, row': seq<bool>, j: nat)
    requires Only(n, x, y, u, seen, row, seen', row') && Out(n, x, y, u, j) && j + 1 < |row'| == |row|
    ensures Only(n, x, y, u, seen, row, seen', row'[j + 1 := true])
  {
    hide Out, Reach;
  }

  /** An entry that leads to a node from which the search has been completed. */
  lemma SearchCall(n: nat, x: Lists, y: Lists, u: Node, seen: set<Node>, row: seq<bool>, s1: set<Node>, r1: seq<bool>, s2: set<Node>, r2: seq<bool>, t: nat)
    requires Searching(n, x, y, u, seen, row, s1, r1, t) && u.at < |x| == |y| && t < |Row(x, y, u)| && !Leaves(n, u, Row(x, y, u)[t])
    requires Searched(n, x, y, Next(n, u, Row(x, y, u)[t]), s1, r1, s2, r2)
    ensures Searching(n, x, y, u, seen, row, s2, r2, t + 1)
  {
    var w := Next(n, u, Row(x, y, u)[t]);
    assert Edge(n, x, y, u, w);
    MoreTrans(seen, row, s1, r1, s2, r2);
    DoneMore(n, x, y, u, s1, r1, s2, r2, t);
    assert Handled(n, u, Row(x, y, u)[t], s2, r2);
    SeenMore(seen, row, s1, r1);
    SeenMore(s1, r1, s2, r2);
    hide More, Handled, Edge;
    OnlyCall(n, x, y, u, w, seen, row, s1, r1, s2, r2);
    hide Only;
    forall v | v in s2 && v !in seen && v != u ensures Whole(n, x, y, v, s2, r2) {
      if v in s1 {
        DoneMore(n, x, y, v, s1, r1, s2, r2, |Row(x, y, v)|);
      }
    }
  }

  lemma SeenMore(seen: set<Node>, row: seq<bool>, seen': set<Node>, row': seq<bool>)
    requires More(seen, row, seen', row')
    ensures seen <= seen' && |row| == |row'|
  {
  }

  lemma OnlyCall(n: nat, x: Lists, y: Lists, u: Node, w: Node, seen: set<Node>, row: seq<bool>, s1: set<Node>, r1: seq<bool>, s2: set<Node>, r2: seq<bool>)
    requires Only(n, x, y, u, seen, row, s1, r1) && Only(n, x, y, w, s1, r1, s2, r2) && Edge(n, x, y, u, w) && |row| == |r1| == |r2|
    ensures Only(n, x, y, u, seen, row, s2, r2)
  {
    hide Out, Reach, Edge;
    forall v | v in s2 && v !in seen ensures Reach(n, x, y, u, v) {
      if v !in s1 { ReachBefore(n, x, y, u, w, v); }
    }
    forall k: nat | k + 1 < |r2| && r2[k + 1] && !row[k + 1] ensures Out(n, x, y, u, k) {
      if !r1[k + 1] { OutLater(n, x, y, u, w, k); }
    }
  }

  lemma SearchEnd(n: nat, x: Lists, y: Lists, u: Node, seen: set<Node>, row: seq<bool>, seen': set<Node>, row': seq<bool>, t: nat)
    requires Searching(n, x, y, u, seen, row, seen', row', t) && u.at < |x| == |y| && t == |Row(x, y, u)|
    ensures Searched(n, x, y, u, seen, row, seen', row')
  {
    hide More, Only, Done;
    assert Whole(n, x, y, u, seen', row');
  }

  // ----- a search on its own -----

  /** The row marks exactly the points that paths from `u` leave at. */
  ghost predicate RowRight(n: nat, x: Lists, y: Lists, u: Node, row: seq<bool>) {
    |row| == 2 * n + 1 && forall k: nat :: k < 2 * n ==> (row[k + 1] <==> Out(n, x, y, u, k))
  }

  ghost predicate Blank(row: seq<bool>) {
    forall k :: 0 < k < |row| ==> !row[k]
  }

  /** Only nodes that no edge leads to had been seen before. */
  ghost predicate Outside(n: nat, seen: set<Node>) {
    forall v :: v in seen ==> !Inner(n, v)
  }

  lemma {:induction false} WalkSeen(n: nat, x: Lists, y: Lists, u: Node, seen: set<Node>, row: seq<bool>, seen': set<Node>, row': seq<bool>, path: seq<Node>, v: Node)
    requires Fine(n, x) && Fine(n, y) && Searched(n, x, y, u, seen, row, seen', row') && Outside(n, seen) && Inner(n, u) && Walk(n, x, y, path, u, v)
    ensures v in seen' && v !in seen
    decreases |path|
  {
    if |path| > 1 {
      var w := path[|path| - 2];
      assert Edge(n, x, y, path[|path| - 2], path[|path| - 1]);
      hide Only, Outside, Inner;
      ShorterWalk(n, x, y, path, u, v);
      hide Walk;
      WalkSeen(n, x, y, u, seen, row, seen', row', path[..|path| - 1], w);
      assert Whole(n, x, y, w, seen', row');
      hide Searched;
      EdgeSeen(n, x, y, w, v, seen', row');
      OutsideNot(n, seen, v);
    } else {
      OutsideNot(n, seen, u);
    }
  }

  lemma ShorterWalk(n: nat, x: Lists, y: Lists, path: seq<Node>, u: Node, v: Node)
    requires Walk(n, x, y, path, u, v) && |path| > 1
    ensures Walk(n, x, y, path[..|path| - 1], u, path[|path| - 2])
  {
    hide Edge;
    var p := path[..|path| - 1];
    forall i | 0 < i < |p| ensures Edge(n, x, y, p[i - 1], p[i]) { assert Edge(n, x, y, path[i - 1], path[i]); }
  }

  lemma EdgeSeen(n: nat, x: Lists, y: Lists, w: Node, v: Node, seen: set<Node>, row: seq<bool>)
    requires Fine(n, x) && Fine(n, y) && Edge(n, x, y, w, v) && Whole(n, x, y, w, seen, row)
    ensures v in seen && Inner(n, v)
  {
    var t :| 0 <= t < |Row(x, y, w)| && !Leaves(n, w, Row(x, y, w)[t]) && v == Next(n, w, Row(x, y, w)[t]);
    assert Handled(n, w, Row(x, y, w)[t], seen, row);
  }

  lemma OutsideNot(n: nat, seen: set<Node>, v: Node)
    requires Outside(n, seen) && Inner(n, v)
    ensures v !in seen
  {
  }

  /** A search from an inner node into a blank row marks exactly what can be reached. */
  lemma SearchRight(n: nat, x: Lists, y: Lists, u: Node, seen: set<Node>, row: seq<bool>, seen': set<Node>, row': seq<bool>)
    requires Fine(n, x) && Fine(n, y) && Searched(n, x, y, u, seen, row, seen', row') && Outside(n, seen) && Inner(n, u)
    requires |row| == 2 * n + 1 && Blank(row)
    ensures RowRight(n, x, y, u, row') && row'[0] == row[0]
  {
    assert |row'| == |row|;
    forall k: nat | k < 2 * n ensures row'[k + 1] <==> Out(n, x, y, u, k) {
      if Out(n, x, y, u, k) {
        OutSeen(n, x, y, u, seen, row, seen', row', k);
      }
    }
  }

  lemma OutSeen(n: nat, x: Lists, y: Lists, u: Node, seen: set<Node>, row: seq<bool>, seen': set<Node>, row': seq<bool>, k: nat)
    requires Fine(n, x) && Fine(n, y) && Searched(n, x, y, u, seen, row, seen', row') && Outside(n, seen) && Inner(n, u) && Out(n, x, y, u, k)
    ensures k + 1 < |row'| && row'[k + 1]
  {
    hide Only, More, Inner, Outside, Exits, Whole;
    var v :| LeavesFrom(n, x, y, u, v, k);
    var path :| Walk(n, x, y, path, u, v);
    WalkSeen(n, x, y, u, seen, row, seen', row', path, v);
    assert Whole(n, x, y, v, seen', row');
    hide Searched;
    ExitMarked(n, x, y, v, seen', row', k);
  }

  lemma ExitMarked(n: nat, x: Lists, y: Lists, v: Node, seen: set<Node>, row: seq<bool>, k: nat)
    requires Whole(n, x, y, v, seen, row) && Exits(n, x, y, v, k)
    ensures k + 1 < |row| && row[k + 1]
  {
    var t :| 0 <= t < |Row(x, y, v)| && Row(x, y, v)[t] == k;
    assert Handled(n, v, Row(x, y, v)[t], seen, row);
  }
}
