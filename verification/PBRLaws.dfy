/**
 * The product of partitioned binary relations is associative, and the identity is neutral.
 * Lines cited here are those of src/elements.cc.
 */
module PBRLaws {
  import opened AlternatingPaths
  import opened PBRs

  // ----- uniqueness -----

  lemma {:induction false} SameMembers(s: seq<nat>, t: seq<nat>)
    requires Increasing(s) && Increasing(t) && forall k: nat :: k in s <==> k in t
    ensures s == t
    decreases |s|
  {
    if s == [] {
      if t != [] {
        FirstMember(t);
      }
    } else {
      var a := s[|s| - 1];
      assert a in t;
      var p :| 0 <= p < |t| && t[p] == a;
      var b := t[|t| - 1];
      assert b in s;
      var q :| 0 <= q < |s| && s[q] == b;
      assert a == b;
      var s', t' := s[..|s| - 1], t[..|t| - 1];
      forall k: nat ensures k in s' <==> k in t' {
        Shorter(s, k);
        Shorter(t, k);
      }
      SameMembers(s', t');
      assert s == s' + [a] && t == t' + [b];
    }
  }

  lemma FirstMember(t: seq<nat>)
    requires t != []
    ensures t[0] in t
  {
  }

  lemma Shorter(s: seq<nat>, k: nat)
    requires Increasing(s) && s != []
    ensures k in s[..|s| - 1] <==> k in s && k != s[|s| - 1]
  {
    if k in s && k != s[|s| - 1] {
      var p :| 0 <= p < |s| && s[p] == k;
      assert s[..|s| - 1][p] == k;
    }
  }

  lemma ProductUnique(n: nat, x: Lists, y: Lists, z: Lists, w: Lists)
    requires IsProduct(n, x, y, z) && IsProduct(n, x, y, w)
    ensures z == w
  {
    hide Joined, Increasing;
    forall i | 0 <= i < 2 * n ensures z[i] == w[i] {
      assert ListJoined(n, x, y, i, z[i]) && ListJoined(n, x, y, i, w[i]);
      SameMembers(z[i], w[i]);
    }
  }

  lemma ProductFine(n: nat, x: Lists, y: Lists, z: Lists)
    requires IsProduct(n, x, y, z)
    ensures Fine(n, z)
  {
    hide Joined, Increasing;
    forall i, t | 0 <= i < 2 * n && 0 <= t < |z[i]| ensures z[i][t] < 2 * n {
      assert ListJoined(n, x, y, i, z[i]) && z[i][t] in z[i];
    }
  }

  lemma ProductAt(n: nat, x: Lists, y: Lists, z: Lists, i: nat, k: nat)
    requires IsProduct(n, x, y, z) && i < 2 * n
    ensures |z| == 2 * n && (k in z[i] <==> k < 2 * n && Joined(n, x, y, i, k))
  {
    hide Joined, Increasing;
    assert ListJoined(n, x, y, i, z[i]);
  }

  // ----- markings -----

  /**
   * Whether each point of some layers of `n` points can be passed going down and
   * going up.  A relation between two layers is entered from above going down
   * and from below going up.
   */
  datatype Marking = Marking(down: seq<bool>, up: seq<bool>)

  ghost predicate Marks(m: Marking, size: nat) {
    |m.down| == |m.up| == size
  }

  ghost predicate In(n: nat, m: Marking, i: nat)
    requires Marks(m, 2 * n) && i < 2 * n
  {
    if i < n then m.down[i] else m.up[i]
  }

  ghost predicate Exit(n: nat, m: Marking, k: nat)
    requires Marks(m, 2 * n) && k < 2 * n
  {
    if k < n then m.up[k] else m.down[k]
  }

  /** Whatever enters the relation leaves along its edges. */
  ghost predicate Closed(n: nat, x: Lists, m: Marking) {
    && Marks(m, 2 * n) && |x| == 2 * n
    && forall i: nat, k: nat {:trigger In(n, m, i), Exit(n, m, k)} :: i < 2 * n && k < 2 * n && k in x[i] && In(n, m, i) ==> Exit(n, m, k)
  }

  function Upper(n: nat, m: Marking): Marking
    requires |m.down| >= 2 * n && |m.up| >= 2 * n
  {
    Marking(m.down[..2 * n], m.up[..2 * n])
  }

  function Lower(n: nat, m: Marking): Marking
    requires |m.down| >= n && |m.up| >= n
  {
    Marking(m.down[n..], m.up[n..])
  }

  /** The middle one of three layers taken out. */
  function Outer(n: nat, m: Marking): Marking
    requires Marks(m, 3 * n)
  {
    Marking(m.down[..n] + m.down[2 * n..], m.up[..n] + m.up[2 * n..])
  }

  ghost predicate Closed2(n: nat, x: Lists, y: Lists, m: Marking) {
    Marks(m, 3 * n) && Closed(n, x, Upper(n, m)) && Closed(n, y, Lower(n, m))
  }

  /** Every marking closed under both relations that can be entered at `i` can be left at `k`. */
  ghost predicate Forced(n: nat, x: Lists, y: Lists, i: nat, k: nat)
    requires i < 2 * n && k < 2 * n
  {
    forall m :: Closed2(n, x, y, m) && In(n, Outer(n, m), i) ==> Exit(n, Outer(n, m), k)
  }

  // ----- paths and markings -----

  ghost predicate NodeMarked(n: nat, m: Marking, u: Node)
    requires Marks(m, 3 * n) && u.at < 2 * n
  {
    if u.X? then In(n, Upper(n, m), u.at) else In(n, Lower(n, m), u.at)
  }

  lemma EdgeMarked(n: nat, x: Lists, y: Lists, m: Marking, u: Node, v: Node)
    requires Fine(n, x) && Fine(n, y) && Closed2(n, x, y, m) && Edge(n, x, y, u, v) && NodeMarked(n, m, u)
    ensures v.at < 2 * n && NodeMarked(n, m, v)
  {
    var t :| 0 <= t < |Row(x, y, u)| && !Leaves(n, u, Row(x, y, u)[t]) && v == Next(n, u, Row(x, y, u)[t]);
    var j := Row(x, y, u)[t];
    assert j < 2 * n && j in Row(x, y, u);
    if u.X? {
      assert Exit(n, Upper(n, m), j);
    } else {
      assert Exit(n, Lower(n, m), j);
    }
  }

  lemma {:induction false} WalkMarked(n: nat, x: Lists, y: Lists, m: Marking, path: seq<Node>, u: Node, v: Node)
    requires Fine(n, x) && Fine(n, y) && Closed2(n, x, y, m) && Walk(n, x, y, path, u, v) && u.at < 2 * n && NodeMarked(n, m, u)
    ensures v.at < 2 * n && NodeMarked(n, m, v)
    decreases |path|
  {
    if |path| > 1 {
      var w := path[|path| - 2];
      assert Edge(n, x, y, path[|path| - 2], path[|path| - 1]);
      hide Closed2, NodeMarked, Edge, Fine;
      assert Walk(n, x, y, path[..|path| - 1], u, w) by { ShorterPath(n, x, y, path, u, v); }
      WalkMarked(n, x, y, m, path[..|path| - 1], u, w);
      EdgeMarked(n, x, y, m, w, v);
    }
  }

  lemma ShorterPath(n: nat, x: Lists, y: Lists, path: seq<Node>, u: Node, v: Node)
    requires Walk(n, x, y, path, u, v) && |path| > 1
    ensures Walk(n, x, y, path[..|path| - 1], u, path[|path| - 2])
  {
    hide Edge;
    var p := path[..|path| - 1];
    forall i | 0 < i < |p| ensures Edge(n, x, y, p[i - 1], p[i]) { assert Edge(n, x, y, path[i - 1], path[i]); }
  }

  lemma StartMarked(n: nat, m: Marking, i: nat)
    requires Marks(m, 3 * n) && i < 2 * n
    ensures Start(n, i).at < 2 * n && (NodeMarked(n, m, Start(n, i)) <==> In(n, Outer(n, m), i))
  {
  }

  lemma ExitMarks(n: nat, x: Lists, y: Lists, m: Marking, v: Node, k: nat)
    requires Closed2(n, x, y, m) && v.at < 2 * n && NodeMarked(n, m, v) && Exits(n, x, y, v, k) && k < 2 * n
    ensures Exit(n, Outer(n, m), k)
  {
    if v.X? {
      assert Exit(n, Upper(n, m), k);
    } else {
      assert Exit(n, Lower(n, m), k);
    }
  }

  lemma JoinedForced(n: nat, x: Lists, y: Lists, i: nat, k: nat)
    requires Fine(n, x) && Fine(n, y) && i < 2 * n && k < 2 * n && Joined(n, x, y, i, k)
    ensures Forced(n, x, y, i, k)
  {
    var v :| LeavesFrom(n, x, y, Start(n, i), v, k);
    var path :| Walk(n, x, y, path, Start(n, i), v);
    hide Closed2, Exits, Walk, Fine, NodeMarked;
    forall m | Closed2(n, x, y, m) && Marks(m, 3 * n) && Marks(Outer(n, m), 2 * n) && In(n, Outer(n, m), i) ensures Exit(n, Outer(n, m), k) {
      StartMarked(n, m, i);
      WalkMarked(n, x, y, m, path, Start(n, i), v);
      ExitMarks(n, x, y, m, v, k);
    }
    ForcedNow(n, x, y, i, k);
  }

  lemma ForcedNow(n: nat, x: Lists, y: Lists, i: nat, k: nat)
    requires i < 2 * n && k < 2 * n
    requires forall m :: Closed2(n, x, y, m) && Marks(m, 3 * n) && Marks(Outer(n, m), 2 * n) && In(n, Outer(n, m), i) ==> Exit(n, Outer(n, m), k)
    ensures Forced(n, x, y, i, k)
  {
  }

  // ----- filling in the middle layer -----

  /** Some point at which `o` can be entered leads to the node. */
  ghost predicate Lit(n: nat, x: Lists, y: Lists, o: Marking, u: Node)
    requires Marks(o, 2 * n)
  {
    exists i :: LitFrom(n, x, y, o, i, u)
  }

  ghost predicate LitFrom(n: nat, x: Lists, y: Lists, o: Marking, i: nat, u: Node)
    requires Marks(o, 2 * n)
  {
    i < 2 * n && In(n, o, i) && Reach(n, x, y, Start(n, i), u)
  }

  /** A marking of the outer layers, with what can be reached in the middle. */
  ghost function Filled(n: nat, x: Lists, y: Lists, o: Marking): Marking
    requires Marks(o, 2 * n)
  {
    Marking(o.down[..n] + seq(n, (a: nat) => Lit(n, x, y, o, Y(a))) + o.down[n..],
            o.up[..n] + seq(n, (a: nat) => Lit(n, x, y, o, X(a + n))) + o.up[n..])
  }

  lemma FilledAt(n: nat, x: Lists, y: Lists, o: Marking, v: nat)
    requires Marks(o, 2 * n) && v < 3 * n
    ensures Marks(Filled(n, x, y, o), 3 * n)
    ensures Filled(n, x, y, o).down[v] <==> if v < n then o.down[v] else if v < 2 * n then Lit(n, x, y, o, Y(v - n)) else o.down[v - n]
    ensures Filled(n, x, y, o).up[v] <==> if v < n then o.up[v] else if v < 2 * n then Lit(n, x, y, o, X(v)) else o.up[v - n]
  {
    hide Lit;
  }

  lemma FilledOuter(n: nat, x: Lists, y: Lists, o: Marking)
    requires Marks(o, 2 * n)
    ensures Marks(Filled(n, x, y, o), 3 * n) && Outer(n, Filled(n, x, y, o)) == o
  {
    hide Lit;
    var f := Filled(n, x, y, o);
    assert f.down[..n] + f.down[2 * n..] == o.down && f.up[..n] + f.up[2 * n..] == o.up;
  }

  /** The filled marking around the upper relation. */
  lemma UpperAt(n: nat, x: Lists, y: Lists, o: Marking, i: nat)
    requires Marks(o, 2 * n) && i < 2 * n
    ensures Marks(Filled(n, x, y, o), 3 * n)
    ensures In(n, Upper(n, Filled(n, x, y, o)), i) ==> Lit(n, x, y, o, X(i))
    ensures Exit(n, Upper(n, Filled(n, x, y, o)), i) <==> if i < n then Exit(n, o, i) else Lit(n, x, y, o, Y(i - n))
  {
    FilledAt(n, x, y, o, i);
    hide Lit, Filled;
    if i < n && In(n, o, i) {
      LitStart(n, x, y, o, i);
    }
  }

  /** The filled marking around the lower relation. */
  lemma LowerAt(n: nat, x: Lists, y: Lists, o: Marking, i: nat)
    requires Marks(o, 2 * n) && i < 2 * n
    ensures Marks(Filled(n, x, y, o), 3 * n)
    ensures In(n, Lower(n, Filled(n, x, y, o)), i) ==> Lit(n, x, y, o, Y(i))
    ensures Exit(n, Lower(n, Filled(n, x, y, o)), i) <==> if i >= n then Exit(n, o, i) else Lit(n, x, y, o, X(i + n))
  {
    FilledAt(n, x, y, o, i + n);
    hide Lit, Filled;
    if i >= n && In(n, o, i) {
      LitStart(n, x, y, o, i);
    }
  }

  lemma LitStart(n: nat, x: Lists, y: Lists, o: Marking, i: nat)
    requires Marks(o, 2 * n) && i < 2 * n && In(n, o, i)
    ensures Lit(n, x, y, o, Start(n, i))
  {
    ReachRefl(n, x, y, Start(n, i));
    assert LitFrom(n, x, y, o, i, Start(n, i));
  }

  lemma LitEdge(n: nat, x: Lists, y: Lists, o: Marking, u: Node, v: Node)
    requires Marks(o, 2 * n) && Lit(n, x, y, o, u) && Edge(n, x, y, u, v)
    ensures Lit(n, x, y, o, v)
  {
    var i :| LitFrom(n, x, y, o, i, u);
    ReachAfter(n, x, y, Start(n, i), u, v);
    assert LitFrom(n, x, y, o, i, v);
  }

  lemma ReachAfter(n: nat, x: Lists, y: Lists, u: Node, v: Node, w: Node)
    requires Reach(n, x, y, u, v) && Edge(n, x, y, v, w)
    ensures Reach(n, x, y, u, w)
  {
    var path :| Walk(n, x, y, path, u, v);
    hide Edge;
    assert Walk(n, x, y, path + [w], u, w);
  }

  /** What a lit node leaves at can be left at in `o`. */
  ghost predicate ExitsOk(n: nat, x: Lists, y: Lists, o: Marking)
    requires Marks(o, 2 * n)
  {
    forall u, k: nat {:trigger Exits(n, x, y, u, k)} :: k < 2 * n && Lit(n, x, y, o, u) && Exits(n, x, y, u, k) ==> Exit(n, o, k)
  }

  lemma FilledUpper(n: nat, x: Lists, y: Lists, o: Marking, i: nat, k: nat)
    requires Fine(n, x) && Fine(n, y) && Marks(o, 2 * n) && ExitsOk(n, x, y, o) && Marks(Filled(n, x, y, o), 3 * n)
    requires i < 2 * n && k < 2 * n && k in x[i] && In(n, Upper(n, Filled(n, x, y, o)), i)
    ensures Exit(n, Upper(n, Filled(n, x, y, o)), k)
  {
    FineBoth(n, x, y);
    hide *;
    UpperAt(n, x, y, o, i);
    UpperAt(n, x, y, o, k);
    ExitOrEdge(n, x, y, o, X(i), k);
    UpperEdge(n, i, k);
  }

  lemma ListEdge(n: nat, x: Lists, y: Lists, u: Node, k: nat)
    requires Fine(n, x) && Fine(n, y) && u.at < 2 * n && k in Row(x, y, u) && !Leaves(n, u, k)
    ensures Edge(n, x, y, u, Next(n, u, k))
  {
    var t :| 0 <= t < |Row(x, y, u)| && Row(x, y, u)[t] == k;
  }

  lemma FilledLower(n: nat, x: Lists, y: Lists, o: Marking, i: nat, k: nat)
    requires Fine(n, x) && Fine(n, y) && Marks(o, 2 * n) && ExitsOk(n, x, y, o) && Marks(Filled(n, x, y, o), 3 * n)
    requires i < 2 * n && k < 2 * n && k in y[i] && In(n, Lower(n, Filled(n, x, y, o)), i)
    ensures Exit(n, Lower(n, Filled(n, x, y, o)), k)
  {
    FineBoth(n, x, y);
    hide *;
    LowerAt(n, x, y, o, i);
    LowerAt(n, x, y, o, k);
    ExitOrEdge(n, x, y, o, Y(i), k);
    LowerEdge(n, i, k);
  }

  lemma LowerEdge(n: nat, i: nat, k: nat)
    ensures Leaves(n, Y(i), k) <==> k >= n
    ensures k < n ==> Next(n, Y(i), k) == X(k + n)
  {
  }

  lemma UpperEdge(n: nat, i: nat, k: nat)
    ensures Leaves(n, X(i), k) <==> k < n
    ensures k >= n ==> Next(n, X(i), k) == Y(k - n)
  {
  }

  /** An edge of a lit node leads out where `o` can be left, or to a lit node. */
  lemma ExitOrEdge(n: nat, x: Lists, y: Lists, o: Marking, u: Node, k: nat)
    requires Fine(n, x) && Fine(n, y) && Marks(o, 2 * n) && ExitsOk(n, x, y, o) && Lit(n, x, y, o, u)
    requires u.at < 2 * n && k < 2 * n && k in (if u.X? then x[u.at] else y[u.at])
    ensures if Leaves(n, u, k) then Exit(n, o, k) else Lit(n, x, y, o, Next(n, u, k))
  {
    hide Lit, Exit;
    if Leaves(n, u, k) {
      assert Exits(n, x, y, u, k);
    } else {
      ListEdge(n, x, y, u, k);
      LitEdge(n, x, y, o, u, Next(n, u, k));
    }
  }

  lemma FilledClosed(n: nat, x: Lists, y: Lists, o: Marking)
    requires Fine(n, x) && Fine(n, y) && Marks(o, 2 * n) && ExitsOk(n, x, y, o)
    ensures Closed2(n, x, y, Filled(n, x, y, o)) && Outer(n, Filled(n, x, y, o)) == o
  {
    FilledOuter(n, x, y, o);
    FineBoth(n, x, y);
    hide Filled, ExitsOk, In, Exit, Fine;
    var m := Filled(n, x, y, o);
    forall i: nat, k: nat {:trigger In(n, Upper(n, m), i), Exit(n, Upper(n, m), k)} | i < 2 * n && k < 2 * n && k in x[i] && In(n, Upper(n, m), i) ensures Exit(n, Upper(n, m), k) {
      FilledUpper(n, x, y, o, i, k);
    }
    forall i: nat, k: nat {:trigger In(n, Lower(n, m), i), Exit(n, Lower(n, m), k)} | i < 2 * n && k < 2 * n && k in y[i] && In(n, Lower(n, m), i) ensures Exit(n, Lower(n, m), k) {
      FilledLower(n, x, y, o, i, k);
    }
  }

  lemma FineBoth(n: nat, x: Lists, y: Lists)
    requires Fine(n, x) && Fine(n, y)
    ensures |x| == |y| == 2 * n
  {
  }

  // ----- joined means forced -----

  /** Can be entered at `i` only, and left wherever `i` is joined to. */
  ghost function OnlyAt(n: nat, x: Lists, y: Lists, i: nat): Marking {
    Marking(seq(2 * n, (v: nat) => if v < n then v == i else Joined(n, x, y, i, v)),
            seq(2 * n, (v: nat) => if v < n then Joined(n, x, y, i, v) else v == i))
  }

  lemma OnlyAtOk(n: nat, x: Lists, y: Lists, i: nat)
    requires i < 2 * n
    ensures Marks(OnlyAt(n, x, y, i), 2 * n) && ExitsOk(n, x, y, OnlyAt(n, x, y, i)) && In(n, OnlyAt(n, x, y, i), i)
    ensures forall k: nat :: k < 2 * n ==> (Exit(n, OnlyAt(n, x, y, i), k) <==> Joined(n, x, y, i, k))
  {
    var o := OnlyAt(n, x, y, i);
    hide Exits, Reach;
    forall u, k: nat {:trigger Exits(n, x, y, u, k)} | k < 2 * n && Lit(n, x, y, o, u) && Exits(n, x, y, u, k) ensures Exit(n, o, k) {
      var j :| LitFrom(n, x, y, o, j, u);
      assert j == i;
      assert LeavesFrom(n, x, y, Start(n, i), u, k);
    }
  }

  lemma JoinedIff(n: nat, x: Lists, y: Lists, i: nat, k: nat)
    requires Fine(n, x) && Fine(n, y) && i < 2 * n && k < 2 * n
    ensures Joined(n, x, y, i, k) <==> Forced(n, x, y, i, k)
  {
    hide Joined, ExitsOk, Closed2, Fine, OnlyAt, Filled;
    if Joined(n, x, y, i, k) {
      JoinedForced(n, x, y, i, k);
    }
    if Forced(n, x, y, i, k) {
      var o := OnlyAt(n, x, y, i);
      OnlyAtOk(n, x, y, i);
      FilledClosed(n, x, y, o);
      ForcedAt(n, x, y, i, k, Filled(n, x, y, o));
    }
  }

  lemma ForcedAt(n: nat, x: Lists, y: Lists, i: nat, k: nat, m: Marking)
    requires i < 2 * n && k < 2 * n && Forced(n, x, y, i, k) && Closed2(n, x, y, m) && In(n, Outer(n, m), i)
    ensures Exit(n, Outer(n, m), k)
  {
  }

  // ----- markings and products -----

  lemma ProductForced(n: nat, x: Lists, y: Lists, z: Lists, i: nat, k: nat)
    requires Fine(n, x) && Fine(n, y) && IsProduct(n, x, y, z) && i < 2 * n && k < 2 * n
    ensures |z| == 2 * n && (k in z[i] <==> Forced(n, x, y, i, k))
  {
    ProductAt(n, x, y, z, i, k);
    JoinedIff(n, x, y, i, k);
  }

  /** A marking of the stack is one of the product. */
  lemma Restrict(n: nat, x: Lists, y: Lists, z: Lists, m: Marking)
    requires Fine(n, x) && Fine(n, y) && IsProduct(n, x, y, z) && Closed2(n, x, y, m)
    ensures Marks(m, 3 * n) && Closed(n, z, Outer(n, m))
  {
    var o := Outer(n, m);
    ProductFine(n, x, y, z);
    FineBoth(n, z, z);
    hide Closed2, Forced, IsProduct, Fine, Outer;
    OuterMarks(n, m);
    forall i: nat, k: nat {:trigger In(n, o, i), Exit(n, o, k)} | i < 2 * n && k < 2 * n && k in z[i] && In(n, o, i) ensures Exit(n, o, k) {
      ProductForced(n, x, y, z, i, k);
      ForcedAt(n, x, y, i, k, m);
    }
  }

  lemma OuterMarks(n: nat, m: Marking)
    requires Marks(m, 3 * n)
    ensures Marks(Outer(n, m), 2 * n)
  {
  }

  /** A marking of the product comes from one of the stack. */
  lemma Extend(n: nat, x: Lists, y: Lists, z: Lists, o: Marking)
    requires Fine(n, x) && Fine(n, y) && IsProduct(n, x, y, z) && Closed(n, z, o)
    ensures Marks(o, 2 * n) && Closed2(n, x, y, Filled(n, x, y, o)) && Outer(n, Filled(n, x, y, o)) == o
  {
    hide IsProduct, Fine, Exits, Reach, Filled, Outer, Closed2;
    forall u, k: nat {:trigger Exits(n, x, y, u, k)} | k < 2 * n && Lit(n, x, y, o, u) && Exits(n, x, y, u, k) ensures Exit(n, o, k) {
      var i :| LitFrom(n, x, y, o, i, u);
      assert LeavesFrom(n, x, y, Start(n, i), u, k);
      ProductAt(n, x, y, z, i, k);
    }
    FilledClosed(n, x, y, o);
  }

  // ----- three relations -----

  ghost predicate Closed3(n: nat, x: Lists, y: Lists, z: Lists, m: Marking) {
    Marks(m, 4 * n) && Closed2(n, x, y, First(n, m)) && Closed2(n, y, z, Lower(n, m))
  }

  /** The first three of four layers. */
  function First(n: nat, m: Marking): Marking
    requires Marks(m, 4 * n)
  {
    Marking(m.down[..3 * n], m.up[..3 * n])
  }

  function Outer4(n: nat, m: Marking): Marking
    requires Marks(m, 4 * n)
  {
    Marking(m.down[..n] + m.down[3 * n..], m.up[..n] + m.up[3 * n..])
  }

  ghost predicate Forced3(n: nat, x: Lists, y: Lists, z: Lists, i: nat, k: nat)
    requires i < 2 * n && k < 2 * n
  {
    forall m :: Closed3(n, x, y, z, m) && In(n, Outer4(n, m), i) ==> Exit(n, Outer4(n, m), k)
  }

  lemma Forced3At(n: nat, x: Lists, y: Lists, z: Lists, i: nat, k: nat, m: Marking)
    requires i < 2 * n && k < 2 * n && Forced3(n, x, y, z, i, k) && Closed3(n, x, y, z, m) && In(n, Outer4(n, m), i)
    ensures Exit(n, Outer4(n, m), k)
  {
  }

  /** Four layers without the second. */
  function WithoutSecond(n: nat, m: Marking): Marking
    requires Marks(m, 4 * n)
  {
    Marking(m.down[..n] + m.down[2 * n..], m.up[..n] + m.up[2 * n..])
  }

  /** Four layers without the third. */
  function WithoutThird(n: nat, m: Marking): Marking
    requires Marks(m, 4 * n)
  {
    Marking(m.down[..2 * n] + m.down[3 * n..], m.up[..2 * n] + m.up[3 * n..])
  }

  lemma WithoutSecondParts(n: nat, m: Marking)
    requires Marks(m, 4 * n)
    ensures Upper(n, WithoutSecond(n, m)) == Outer(n, First(n, m)) && Lower(n, WithoutSecond(n, m)) == Lower(n, Lower(n, m))
    ensures Marks(WithoutSecond(n, m), 3 * n) && Outer(n, WithoutSecond(n, m)) == Outer4(n, m)
  {
    CutSecond(n, m.down);
    CutSecond(n, m.up);
  }

  lemma CutSecond(n: nat, s: seq<bool>)
    requires |s| == 4 * n
    ensures var t := s[..n] + s[2 * n..];
            t[..2 * n] == s[..3 * n][..n] + s[..3 * n][2 * n..] && t[n..] == s[n..][n..] && t[..n] + t[2 * n..] == s[..n] + s[3 * n..]
  {
  }

  lemma WithoutThirdParts(n: nat, m: Marking)
    requires Marks(m, 4 * n)
    ensures Upper(n, WithoutThird(n, m)) == Upper(n, First(n, m)) && Lower(n, WithoutThird(n, m)) == Outer(n, Lower(n, m))
    ensures Marks(WithoutThird(n, m), 3 * n) && Outer(n, WithoutThird(n, m)) == Outer4(n, m)
  {
    CutThird(n, m.down);
    CutThird(n, m.up);
  }

  lemma CutThird(n: nat, s: seq<bool>)
    requires |s| == 4 * n
    ensures var t := s[..2 * n] + s[3 * n..];
            t[..2 * n] == s[..3 * n][..2 * n] && t[n..] == s[n..][..n] + s[n..][2 * n..] && t[..n] + t[2 * n..] == s[..n] + s[3 * n..]
  {
  }

  /** Put the second layer back, as in `f`. */
  function WithSecond(n: nat, f: Marking, m: Marking): Marking
    requires Marks(f, 3 * n) && Marks(m, 3 * n)
  {
    Marking(f.down + m.down[2 * n..], f.up + m.up[2 * n..])
  }

  function WithThird(n: nat, m: Marking, f: Marking): Marking
    requires Marks(f, 3 * n) && Marks(m, 3 * n)
  {
    Marking(m.down[..n] + f.down, m.up[..n] + f.up)
  }

  lemma WithSecondParts(n: nat, f: Marking, m: Marking)
    requires Marks(f, 3 * n) && Marks(m, 3 * n) && Outer(n, f) == Upper(n, m)
    ensures var w := WithSecond(n, f, m);
            Marks(w, 4 * n) && First(n, w) == f && Upper(n, Lower(n, w)) == Lower(n, f) && Lower(n, Lower(n, w)) == Lower(n, m)
            && Marks(Lower(n, w), 3 * n) && Outer4(n, w) == Outer(n, m)
  {
    PutSecond(n, f.down, m.down);
    PutSecond(n, f.up, m.up);
  }

  lemma PutSecond(n: nat, f: seq<bool>, m: seq<bool>)
    requires |f| == |m| == 3 * n && f[..n] + f[2 * n..] == m[..2 * n]
    ensures var w := f + m[2 * n..];
            w[..3 * n] == f && w[n..][..2 * n] == f[n..] && w[n..][n..] == m[n..] && w[..n] + w[3 * n..] == m[..n] + m[2 * n..]
  {
    assert m[..n] == m[..2 * n][..n] == f[..n];
    assert m[n..2 * n] == m[..2 * n][n..] == f[2 * n..];
    assert m[n..] == m[n..2 * n] + m[2 * n..];
  }

  lemma WithThirdParts(n: nat, m: Marking, f: Marking)
    requires Marks(f, 3 * n) && Marks(m, 3 * n) && Outer(n, f) == Lower(n, m)
    ensures var w := WithThird(n, m, f);
            Marks(w, 4 * n) && Lower(n, w) == f && Upper(n, First(n, w)) == Upper(n, m) && Lower(n, First(n, w)) == Upper(n, f)
            && Marks(First(n, w), 3 * n) && Outer4(n, w) == Outer(n, m)
  {
    PutThird(n, m.down, f.down);
    PutThird(n, m.up, f.up);
  }

  lemma PutThird(n: nat, m: seq<bool>, f: seq<bool>)
    requires |f| == |m| == 3 * n && f[..n] + f[2 * n..] == m[n..]
    ensures var w := m[..n] + f;
            w[n..] == f && w[..3 * n][..2 * n] == m[..2 * n] && w[..3 * n][n..] == f[..2 * n] && w[..n] + w[3 * n..] == m[..n] + m[2 * n..]
  {
    assert m[n..2 * n] == m[n..][..n] == f[..n];
    assert m[2 * n..] == m[n..][n..] == f[2 * n..];
    assert m[..2 * n] == m[..n] + m[n..2 * n];
  }

  lemma Closed2Parts(n: nat, x: Lists, y: Lists, m: Marking)
    ensures Closed2(n, x, y, m) <==> Marks(m, 3 * n) && Closed(n, x, Upper(n, m)) && Closed(n, y, Lower(n, m))
  {
  }

  lemma Closed3Parts(n: nat, x: Lists, y: Lists, z: Lists, m: Marking)
    ensures Closed3(n, x, y, z, m) <==> Marks(m, 4 * n) && Closed2(n, x, y, First(n, m)) && Closed2(n, y, z, Lower(n, m))
  {
  }

  lemma LeftForced(n: nat, x: Lists, y: Lists, z: Lists, xy: Lists, i: nat, k: nat)
    requires Fine(n, x) && Fine(n, y) && Fine(n, z) && IsProduct(n, x, y, xy) && i < 2 * n && k < 2 * n
    ensures Forced(n, xy, z, i, k) <==> Forced3(n, x, y, z, i, k)
  {
    hide Fine, IsProduct, Closed, Closed2, Closed3, Filled, WithSecond, WithoutSecond, Outer, Outer4, Upper, Lower, First, In, Exit;
    if Forced(n, xy, z, i, k) {
      forall m | Closed3(n, x, y, z, m) && Marks(m, 4 * n) && Marks(Outer4(n, m), 2 * n) && In(n, Outer4(n, m), i) ensures Exit(n, Outer4(n, m), k) {
        Closed3Parts(n, x, y, z, m);
        WithoutSecondParts(n, m);
        Restrict(n, x, y, xy, First(n, m));
        Closed2Parts(n, y, z, Lower(n, m));
        Closed2Parts(n, xy, z, WithoutSecond(n, m));
        ForcedAt(n, xy, z, i, k, WithoutSecond(n, m));
      }
      Forced3Now(n, x, y, z, i, k);
    }
    if Forced3(n, x, y, z, i, k) {
      forall m | Closed2(n, xy, z, m) && Marks(m, 3 * n) && Marks(Outer(n, m), 2 * n) && In(n, Outer(n, m), i) ensures Exit(n, Outer(n, m), k) {
        Closed2Parts(n, xy, z, m);
        Extend(n, x, y, xy, Upper(n, m));
        var f := Filled(n, x, y, Upper(n, m));
        Closed2Parts(n, x, y, f);
        WithSecondParts(n, f, m);
        Closed2Parts(n, y, z, Lower(n, WithSecond(n, f, m)));
        Closed3Parts(n, x, y, z, WithSecond(n, f, m));
        Forced3At(n, x, y, z, i, k, WithSecond(n, f, m));
      }
      ForcedNow(n, xy, z, i, k);
    }
  }

  lemma RightForced(n: nat, x: Lists, y: Lists, z: Lists, yz: Lists, i: nat, k: nat)
    requires Fine(n, x) && Fine(n, y) && Fine(n, z) && IsProduct(n, y, z, yz) && i < 2 * n && k < 2 * n
    ensures Forced(n, x, yz, i, k) <==> Forced3(n, x, y, z, i, k)
  {
    hide Fine, IsProduct, Closed, Closed2, Closed3, Filled, WithThird, WithoutThird, Outer, Outer4, Upper, Lower, First, In, Exit;
    if Forced(n, x, yz, i, k) {
      forall m | Closed3(n, x, y, z, m) && Marks(m, 4 * n) && Marks(Outer4(n, m), 2 * n) && In(n, Outer4(n, m), i) ensures Exit(n, Outer4(n, m), k) {
        Closed3Parts(n, x, y, z, m);
        WithoutThirdParts(n, m);
        Restrict(n, y, z, yz, Lower(n, m));
        Closed2Parts(n, x, y, First(n, m));
        Closed2Parts(n, x, yz, WithoutThird(n, m));
        ForcedAt(n, x, yz, i, k, WithoutThird(n, m));
      }
      Forced3Now(n, x, y, z, i, k);
    }
    if Forced3(n, x, y, z, i, k) {
      forall m | Closed2(n, x, yz, m) && Marks(m, 3 * n) && Marks(Outer(n, m), 2 * n) && In(n, Outer(n, m), i) ensures Exit(n, Outer(n, m), k) {
        Closed2Parts(n, x, yz, m);
        Extend(n, y, z, yz, Lower(n, m));
        var f := Filled(n, y, z, Lower(n, m));
        Closed2Parts(n, y, z, f);
        WithThirdParts(n, m, f);
        Closed2Parts(n, x, y, First(n, WithThird(n, m, f)));
        Closed3Parts(n, x, y, z, WithThird(n, m, f));
        Forced3At(n, x, y, z, i, k, WithThird(n, m, f));
      }
      ForcedNow(n, x, yz, i, k);
    }
  }

  lemma Forced3Now(n: nat, x: Lists, y: Lists, z: Lists, i: nat, k: nat)
    requires i < 2 * n && k < 2 * n
    requires forall m :: Closed3(n, x, y, z, m) && Marks(m, 4 * n) && Marks(Outer4(n, m), 2 * n) && In(n, Outer4(n, m), i) ==> Exit(n, Outer4(n, m), k)
    ensures Forced3(n, x, y, z, i, k)
  {
  }

  /** The product of partitioned binary relations is associative. */
  lemma Associative(n: nat, x: Lists, y: Lists, z: Lists, xy: Lists, yz: Lists, left: Lists, right: Lists)
    requires Fine(n, x) && Fine(n, y) && Fine(n, z)
    requires IsProduct(n, x, y, xy) && IsProduct(n, y, z, yz) && IsProduct(n, xy, z, left) && IsProduct(n, x, yz, right)
    ensures left == right
  {
    ProductFine(n, x, y, xy);
    ProductFine(n, y, z, yz);
    hide Fine, Forced, Forced3, Joined, Increasing;
    forall i | 0 <= i < 2 * n ensures left[i] == right[i] {
      assert ListJoined(n, xy, z, i, left[i]) && ListJoined(n, x, yz, i, right[i]);
      forall k: nat ensures k in left[i] <==> k in right[i] {
        if k < 2 * n {
          ProductForced(n, xy, z, left, i, k);
          ProductForced(n, x, yz, right, i, k);
          LeftForced(n, x, y, z, xy, i, k);
          RightForced(n, x, y, z, yz, i, k);
        }
      }
      SameMembers(left[i], right[i]);
    }
  }

  // ----- the identity -----

  /** `identity` (lines 295-308). */
  function Identity(n: nat): Lists {
    seq(2 * n, (i: nat) => if i < n then [i + n] else [(i - n) as nat])
  }

  lemma IdentityFine(n: nat)
    ensures Fine(n, Identity(n))
  {
  }

  lemma OutIff(n: nat, x: Lists, y: Lists, u: Node, k: nat)
    ensures Out(n, x, y, u, k) <==> SomeContributes(n, x, y, u, k)
  {
    hide Contributes, Out;
    if Out(n, x, y, u, k) {
      FirstStep(n, x, y, u, k);
    }
    if SomeContributes(n, x, y, u, k) {
      var t :| 0 <= t < |Row(x, y, u)| && Contributes(n, x, y, u, Row(x, y, u)[t], k);
      ContributesOut(n, x, y, u, t, k);
    }
  }

  /** A node with a single edge. */
  lemma OutSingle(n: nat, x: Lists, y: Lists, u: Node, j: nat, k: nat)
    requires u.at < |x| == |y| && Row(x, y, u) == [j]
    ensures Out(n, x, y, u, k) <==> Contributes(n, x, y, u, j, k)
  {
    OutIff(n, x, y, u, k);
    hide Contributes, Out;
    if Contributes(n, x, y, u, j, k) {
      assert Contributes(n, x, y, u, Row(x, y, u)[0], k);
    }
  }

  /** If crossing the other relation changes nothing, the paths are the edges. */
  lemma OutDirect(n: nat, x: Lists, y: Lists, u: Node, k: nat)
    requires u.at < |x| == |y|
    requires forall j :: j in Row(x, y, u) && !Leaves(n, u, j) ==> (Out(n, x, y, Next(n, u, j), k) <==> k == j)
    ensures Out(n, x, y, u, k) <==> k in Row(x, y, u)
  {
    OutIff(n, x, y, u, k);
    hide Out;
    var r := Row(x, y, u);
    if k in r {
      var t :| 0 <= t < |r| && r[t] == k;
      assert Contributes(n, x, y, u, r[t], k);
    }
    if SomeContributes(n, x, y, u, k) {
      var t :| 0 <= t < |r| && Contributes(n, x, y, u, r[t], k);
      assert r[t] in r;
    }
  }

  lemma RightPaths(n: nat, x: Lists, i: nat, k: nat)
    requires Fine(n, x) && i < 2 * n
    ensures Joined(n, x, Identity(n), i, k) <==> k in x[i]
  {
    var e := Identity(n);
    hide Out;
    forall j | j in x[i] && !Leaves(n, X(i), j) ensures Out(n, x, e, Next(n, X(i), j), k) <==> k == j {
      assert j < 2 * n;
      assert Row(x, e, Y(j - n)) == [j];
      OutSingle(n, x, e, Y(j - n), j, k);
    }
    OutDirect(n, x, e, X(i), k);
    if i >= n {
      assert Row(x, e, Y(i)) == [i - n];
      OutSingle(n, x, e, Y(i), i - n, k);
    }
  }

  lemma LeftPaths(n: nat, x: Lists, i: nat, k: nat)
    requires Fine(n, x) && i < 2 * n
    ensures Joined(n, Identity(n), x, i, k) <==> k in x[i]
  {
    var e := Identity(n);
    hide Out;
    forall j | j in x[i] && !Leaves(n, Y(i), j) ensures Out(n, e, x, Next(n, Y(i), j), k) <==> k == j {
      assert Row(e, x, X(j + n)) == [j];
      OutSingle(n, e, x, X(j + n), j, k);
    }
    OutDirect(n, e, x, Y(i), k);
    if i < n {
      assert Row(e, x, X(i)) == [i + n];
      OutSingle(n, e, x, X(i), i + n, k);
    }
  }

  /** The identity is neutral for relations with ordered lists. */
  lemma IdentityNeutral(n: nat, x: Lists)
    requires Fine(n, x) && forall i :: 0 <= i < 2 * n ==> Increasing(x[i])
    ensures Fine(n, Identity(n)) && IsProduct(n, x, Identity(n), x) && IsProduct(n, Identity(n), x, x)
  {
    IdentityFine(n);
    hide Joined, Increasing;
    forall i | 0 <= i < 2 * n ensures ListJoined(n, x, Identity(n), i, x[i]) && ListJoined(n, Identity(n), x, i, x[i]) {
      forall k: nat ensures (k in x[i] <==> k < 2 * n && Joined(n, x, Identity(n), i, k)) && (k in x[i] <==> k < 2 * n && Joined(n, Identity(n), x, i, k)) {
        RightPaths(n, x, i, k);
        LeftPaths(n, x, i, k);
      }
    }
  }
}
