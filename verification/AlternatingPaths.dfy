/**
 * Two partitioned binary relations of degree `n` stacked on top of each other.
 *
 * A partitioned binary relation is given by the adjacency lists of its `2n`
 * points.  A node is a point of `x` or of `y` about to be left along an edge of
 * `x` or `y` respectively.  An edge to an outer point leaves the stack; an edge
 * to a point of the middle layer leads to the matching point of the other relation.
 */
module AlternatingPaths {

  type Lists = seq<seq<nat>>

  datatype Node = X(at: nat) | Y(at: nat)

  /** The adjacency lists belong to relations of degree `n`. */
  ghost predicate Fine(n: nat, x: Lists) {
    |x| == 2 * n && forall i, t :: 0 <= i < 2 * n && 0 <= t < |x[i]| ==> x[i][t] < 2 * n
  }

  function Row(x: Lists, y: Lists, u: Node): seq<nat>
    requires u.at < |x| == |y|
  {
    if u.X? then x[u.at] else y[u.at]
  }

  /** An edge to `j` ends at an outer point. */
  predicate Leaves(n: nat, u: Node, j: nat) {
    if u.X? then j < n else j >= n
  }

  /** Where an edge to a point `j` of the middle layer leads. */
  function Next(n: nat, u: Node, j: nat): Node
    requires !Leaves(n, u, j)
  {
    if u.X? then Y(j - n) else X(j + n)
  }

  ghost predicate Edge(n: nat, x: Lists, y: Lists, u: Node, v: Node) {
    u.at < |x| == |y| && exists t :: 0 <= t < |Row(x, y, u)| && !Leaves(n, u, Row(x, y, u)[t]) && v == Next(n, u, Row(x, y, u)[t])
  }

  ghost predicate Exits(n: nat, x: Lists, y: Lists, u: Node, k: nat) {
    u.at < |x| == |y| && k in Row(x, y, u) && Leaves(n, u, k)
  }

  /** Edges of `x` and `y` in turn. */
  ghost predicate Walk(n: nat, x: Lists, y: Lists, path: seq<Node>, u: Node, v: Node) {
    && path != [] && path[0] == u && path[|path| - 1] == v
    && forall i :: 0 < i < |path| ==> Edge(n, x, y, path[i - 1], path[i])
  }

  ghost predicate Reach(n: nat, x: Lists, y: Lists, u: Node, v: Node) {
    exists path :: Walk(n, x, y, path, u, v)
  }

  ghost predicate LeavesFrom(n: nat, x: Lists, y: Lists, u: Node, v: Node, k: nat) {
    Reach(n, x, y, u, v) && Exits(n, x, y, v, k)
  }

  /** An alternating path that starts at `u` leaves the stack at `k`. */
  ghost predicate Out(n: nat, x: Lists, y: Lists, u: Node, k: nat) {
    exists v :: LeavesFrom(n, x, y, u, v, k)
  }

  /** Outer points start at the relation they belong to. */
  function Start(n: nat, i: nat): Node {
    if i < n then X(i) else Y(i)
  }

  /** The points `i` and `k` of the product are related: an alternating path joins them. */
  ghost predicate Joined(n: nat, x: Lists, y: Lists, i: nat, k: nat) {
    Out(n, x, y, Start(n, i), k)
  }

  /** Where a path goes on after an edge from an outer point to a point `j` of the middle layer. */
  function Enter(n: nat, j: nat): Node {
    if j < n then X(j + n) else Y(j - n)
  }

  ghost predicate Inner(n: nat, u: Node) {
    if u.X? then n <= u.at < 2 * n else u.at < n
  }

  // ----- paths -----

  lemma ReachRefl(n: nat, x: Lists, y: Lists, u: Node)
    ensures Reach(n, x, y, u, u)
  {
    assert Walk(n, x, y, [u], u, u);
  }

  lemma ReachBefore(n: nat, x: Lists, y: Lists, u: Node, v: Node, w: Node)
    requires Edge(n, x, y, u, v) && Reach(n, x, y, v, w)
    ensures Reach(n, x, y, u, w)
  {
    var path :| Walk(n, x, y, path, v, w);
    hide Edge;
    assert Walk(n, x, y, [u] + path, u, w);
  }

  lemma OutHere(n: nat, x: Lists, y: Lists, u: Node, k: nat)
    requires Exits(n, x, y, u, k)
    ensures Out(n, x, y, u, k)
  {
    ReachRefl(n, x, y, u);
    assert LeavesFrom(n, x, y, u, u, k);
  }

  lemma OutLater(n: nat, x: Lists, y: Lists, u: Node, v: Node, k: nat)
    requires Edge(n, x, y, u, v) && Out(n, x, y, v, k)
    ensures Out(n, x, y, u, k)
  {
    var w :| LeavesFrom(n, x, y, v, w, k);
    ReachBefore(n, x, y, u, v, w);
    assert LeavesFrom(n, x, y, u, w, k);
  }

  /** What the entry `j` of the list of `u` contributes to the outer points reached. */
  ghost predicate Contributes(n: nat, x: Lists, y: Lists, u: Node, j: nat, k: nat) {
    if Leaves(n, u, j) then k == j else Out(n, x, y, Next(n, u, j), k)
  }

  ghost predicate SomeContributes(n: nat, x: Lists, y: Lists, u: Node, k: nat) {
    u.at < |x| == |y| && exists t :: 0 <= t < |Row(x, y, u)| && Contributes(n, x, y, u, Row(x, y, u)[t], k)
  }

  lemma ContributesOut(n: nat, x: Lists, y: Lists, u: Node, t: nat, k: nat)
    requires u.at < |x| == |y| && t < |Row(x, y, u)| && Contributes(n, x, y, u, Row(x, y, u)[t], k)
    ensures Out(n, x, y, u, k)
  {
    var j := Row(x, y, u)[t];
    if Leaves(n, u, j) {
      OutHere(n, x, y, u, k);
    } else {
      assert Edge(n, x, y, u, Next(n, u, j));
      OutLater(n, x, y, u, Next(n, u, j), k);
    }
  }

  lemma FirstStep(n: nat, x: Lists, y: Lists, u: Node, k: nat)
    requires Out(n, x, y, u, k)
    ensures SomeContributes(n, x, y, u, k)
  {
    var v :| LeavesFrom(n, x, y, u, v, k);
    var path :| Walk(n, x, y, path, u, v);
    if |path| == 1 {
      var t :| 0 <= t < |Row(x, y, u)| && Row(x, y, u)[t] == k;
      assert Contributes(n, x, y, u, Row(x, y, u)[t], k);
    } else {
      var w := path[1];
      assert Edge(n, x, y, path[0], path[1]);
      var t :| 0 <= t < |Row(x, y, u)| && !Leaves(n, u, Row(x, y, u)[t]) && w == Next(n, u, Row(x, y, u)[t]);
      RestOfWalk(n, x, y, path, u, v);
      assert LeavesFrom(n, x, y, w, v, k);
      assert Contributes(n, x, y, u, Row(x, y, u)[t], k);
    }
  }

  lemma RestOfWalk(n: nat, x: Lists, y: Lists, path: seq<Node>, u: Node, v: Node)
    requires Walk(n, x, y, path, u, v) && |path| > 1
    ensures Reach(n, x, y, path[1], v)
  {
    var rest := path[1..];
    hide Edge;
    forall i | 0 < i < |rest| ensures Edge(n, x, y, rest[i - 1], rest[i]) {
      assert Edge(n, x, y, path[i], path[i + 1]);
    }
    assert Walk(n, x, y, rest, path[1], v);
  }
}
