/** String rewriting with SHORTLEX-decreasing rules: normal forms, critical pairs, confluence. */
module Rewriting {
  import opened Words
  import opened ShortLex
  import opened Rank
  import opened Derivations

  /** The rules, used from left to right anywhere in a word. */
  function Directed(rules: set<Pair>): System {
    System(rules, {}, {})
  }

  /** The rules, used both ways: the congruence they generate. */
  function Undirected(rules: set<Pair>): System {
    System(Sym(rules), {}, {})
  }

  ghost predicate Reach(rules: set<Pair>, u: Word, v: Word) {
    Derives(Directed(rules), u, v)
  }

  /** `u` and `v` are related by the generated congruence. */
  ghost predicate Same(rules: set<Pair>, u: Word, v: Word) {
    Derives(Undirected(rules), u, v)
  }

  /** Left sides are larger than right sides. */
  ghost predicate Ordered(k: nat, rules: set<Pair>) {
    forall p :: p in rules ==> OrderedPair(k, p)
  }

  ghost predicate OrderedPair(k: nat, p: Pair) {
    Over(k, p.0) && Over(k, p.1) && Less(p.1, p.0)
  }

  predicate OccursAt(w: Word, l: Word, i: nat) {
    i + |l| <= |w| && w[i..i + |l|] == l
  }

  /** No rule applies. */
  ghost predicate Normal(rules: set<Pair>, w: Word) {
    forall p, i :: p in rules ==> !OccursAt(w, p.0, i)
  }

  ghost predicate Joinable(rules: set<Pair>, u: Word, v: Word) {
    exists z :: Reach(rules, u, z) && Reach(rules, v, z)
  }

  /** Words over the `k` letters that come from the same word can be brought together again. */
  ghost predicate Confluent(k: nat, rules: set<Pair>) {
    forall w, u, v :: Over(k, w) && Reach(rules, w, u) && Reach(rules, w, v) ==> Joinable(rules, u, v)
  }

  // ----- basic facts -----

  lemma ReachRefl(rules: set<Pair>, u: Word)
    ensures Reach(rules, u, u)
  {
    DerivesRefl(Directed(rules), u);
  }

  lemma ReachTrans(rules: set<Pair>, u: Word, v: Word, w: Word)
    requires Reach(rules, u, v) && Reach(rules, v, w)
    ensures Reach(rules, u, w)
  {
    DerivesTrans(Directed(rules), u, v, w);
  }

  lemma ReachMove(rules: set<Pair>, m: Move)
    requires (m.lhs, m.rhs) in rules
    ensures Reach(rules, m.Before(), m.After())
  {
    DerivesMove(Directed(rules), m);
  }

  lemma ReachInside(rules: set<Pair>, x: Word, u: Word, v: Word, y: Word)
    requires Reach(rules, u, v)
    ensures Reach(rules, x + u + y, x + v + y)
  {
    DerivesPrepend(Directed(rules), u, v, x);
    DerivesAppend(Directed(rules), x + u, x + v, y);
  }

  lemma SameRefl(rules: set<Pair>, u: Word)
    ensures Same(rules, u, u)
  {
    DerivesRefl(Undirected(rules), u);
  }

  lemma SameTrans(rules: set<Pair>, u: Word, v: Word, w: Word)
    requires Same(rules, u, v) && Same(rules, v, w)
    ensures Same(rules, u, w)
  {
    DerivesTrans(Undirected(rules), u, v, w);
  }

  lemma UndirectedSymmetric(rules: set<Pair>)
    ensures Symmetric(Undirected(rules))
  {
    SymSymmetric(rules);
  }

  lemma SameSym(rules: set<Pair>, u: Word, v: Word)
    requires Same(rules, u, v)
    ensures Same(rules, v, u)
  {
    UndirectedSymmetric(rules);
    hide Symmetric, Derives;
    DerivesSym(Undirected(rules), u, v);
  }

  lemma SameInside(rules: set<Pair>, x: Word, u: Word, v: Word, y: Word)
    requires Same(rules, u, v)
    ensures Same(rules, x + u + y, x + v + y)
  {
    DerivesPrepend(Undirected(rules), u, v, x);
    DerivesAppend(Undirected(rules), x + u, x + v, y);
  }

  lemma SamePair(rules: set<Pair>, p: Pair)
    requires p in rules
    ensures Same(rules, p.0, p.1)
  {
    var m := Move([], p.0, p.1, []);
    assert m.Before() == p.0 && m.After() == p.1;
    DerivesMove(Undirected(rules), m);
  }

  lemma ReachSame(rules: set<Pair>, u: Word, v: Word)
    requires Reach(rules, u, v)
    ensures Same(rules, u, v)
  {
    DerivesWiden(Directed(rules), Undirected(rules), u, v);
  }

  // ----- rewriting goes down -----

  lemma MoveDown(k: nat, rules: set<Pair>, m: Move)
    requires Ordered(k, rules) && (m.lhs, m.rhs) in rules
    ensures Less(m.After(), m.Before()) && (Over(k, m.Before()) ==> Over(k, m.After()))
  {
    assert OrderedPair(k, (m.lhs, m.rhs));
    LessPrepend(m.pre, m.rhs, m.lhs);
    LessAppend(m.pre + m.rhs, m.pre + m.lhs, m.post, m.post);
    if Over(k, m.Before()) {
      forall i | 0 <= i < |m.pre| ensures m.pre[i] < k { assert m.Before()[i] == m.pre[i]; }
      forall i | 0 <= i < |m.post| ensures m.post[i] < k { assert m.Before()[|m.pre| + |m.lhs| + i] == m.post[i]; }
    }
  }

  lemma {:induction false} ChainDown(k: nat, rules: set<Pair>, ms: seq<Move>, u: Word, v: Word)
    requires Ordered(k, rules) && Chain(Directed(rules), ms, u, v)
    ensures LessEq(v, u) && (ms != [] ==> Less(v, u)) && (Over(k, u) ==> Over(k, v))
  {
    if ms != [] {
      MoveDown(k, rules, ms[0]);
      ChainDown(k, rules, ms[1..], ms[0].After(), v);
      LessTrans(v, ms[0].After(), u);
    }
  }

  lemma ReachDown(k: nat, rules: set<Pair>, u: Word, v: Word)
    requires Ordered(k, rules) && Reach(rules, u, v)
    ensures LessEq(v, u) && (Over(k, u) ==> Over(k, v))
  {
    var ms :| Chain(Directed(rules), ms, u, v);
    ChainDown(k, rules, ms, u, v);
  }

  lemma MoveOccurs(m: Move)
    ensures OccursAt(m.Before(), m.lhs, |m.pre|)
  {
    assert m.Before()[|m.pre|..|m.pre| + |m.lhs|] == m.lhs;
  }

  /** A normal word reaches only itself. */
  lemma NormalReach(rules: set<Pair>, u: Word, v: Word)
    requires Normal(rules, u) && Reach(rules, u, v)
    ensures u == v
  {
    var ms: seq<Move> :| Chain(Directed(rules), ms, u, v);
    if ms != [] {
      MoveOccurs(ms[0]);
    }
  }

  lemma JoinableSym(rules: set<Pair>, u: Word, v: Word)
    requires Joinable(rules, u, v)
    ensures Joinable(rules, v, u)
  {
  }

  lemma JoinableInside(rules: set<Pair>, x: Word, u: Word, v: Word, y: Word)
    requires Joinable(rules, u, v)
    ensures Joinable(rules, x + u + y, x + v + y)
  {
    var z :| Reach(rules, u, z) && Reach(rules, v, z);
    hide Reach;
    ReachInside(rules, x, u, z, y);
    ReachInside(rules, x, v, z, y);
  }

  // ----- critical pairs -----

  /** The length of the common part when `l2` is laid over `l1` from position `i`. */
  function Common(l1: Word, l2: Word, i: nat): nat
    requires i <= |l1|
  {
    if |l1| - i <= |l2| then |l1| - i else |l2|
  }

  /** The left sides agree where they overlap. */
  ghost predicate Overlap(l1: Word, l2: Word, i: nat) {
    i < |l1| && l1[i..i + Common(l1, l2, i)] == l2[..Common(l1, l2, i)]
  }

  /** The overlapped word with the second rule applied. */
  function CriticalLeft(p: Pair, q: Pair, i: nat): Word
    requires i <= |p.0|
  {
    p.0[..i] + q.1 + p.0[i + Common(p.0, q.0, i)..]
  }

  /** The overlapped word with the first rule applied. */
  function CriticalRight(p: Pair, q: Pair, i: nat): Word
    requires i <= |p.0|
  {
    p.1 + q.0[Common(p.0, q.0, i)..]
  }

  function CriticalTop(p: Pair, q: Pair, i: nat): Word
    requires i <= |p.0|
  {
    p.0 + q.0[Common(p.0, q.0, i)..]
  }

  ghost predicate CriticalJoins(rules: set<Pair>, p: Pair, q: Pair, i: nat) {
    Overlap(p.0, q.0, i) ==> Joinable(rules, CriticalLeft(p, q, i), CriticalRight(p, q, i))
  }

  ghost predicate CriticalsJoin(rules: set<Pair>) {
    forall p, q, i :: p in rules && q in rules ==> CriticalJoins(rules, p, q, i)
  }

  /** Both sides of a critical pair come from the same word. */
  lemma CriticalTopReaches(rules: set<Pair>, p: Pair, q: Pair, i: nat)
    requires p in rules && q in rules && Overlap(p.0, q.0, i)
    ensures Reach(rules, CriticalTop(p, q, i), CriticalLeft(p, q, i)) && Reach(rules, CriticalTop(p, q, i), CriticalRight(p, q, i))
  {
    var c := Common(p.0, q.0, i);
    var m := Move([], p.0, p.1, q.0[c..]);
    var n := Move(p.0[..i], q.0, q.1, p.0[i + c..]);
    TopSplit(p.0, q.0, i, c);
    assert n.Before() == CriticalTop(p, q, i) && n.After() == CriticalLeft(p, q, i);
    Front(p.0, q.0[c..]);
    Front(p.1, q.0[c..]);
    assert m.Before() == CriticalTop(p, q, i) && m.After() == CriticalRight(p, q, i);
    hide *;
    ReachMove(rules, m);
    ReachMove(rules, n);
  }

  lemma Front(u: Word, v: Word)
    ensures [] + u + v == u + v
  {
  }

  lemma TopSplit(l: Word, l': Word, i: nat, c: nat)
    requires Overlap(l, l', i) && c == Common(l, l', i)
    ensures l[..i] + l' + l[i + c..] == l + l'[c..]
  {
    assert l == l[..i] + l[i..i + c] + l[i + c..] && l' == l'[..c] + l'[c..];
    if |l| - i <= |l'| {
      assert l[i + c..] == [];
    } else {
      assert l'[c..] == [];
    }
  }

  /** Rules applied at places that do not overlap can be applied one after the other. */
  lemma DisjointJoin(rules: set<Pair>, m: Move, n: Move)
    requires (m.lhs, m.rhs) in rules && (n.lhs, n.rhs) in rules && m.Before() == n.Before() && |m.pre| + |m.lhs| <= |n.pre|
    ensures Joinable(rules, m.After(), n.After())
  {
    var w := m.Before();
    var mid := w[|m.pre| + |m.lhs|..|n.pre|];
    assert n.pre == w[..|n.pre|] && n.pre == m.pre + m.lhs + mid;
    assert m.post == w[|m.pre| + |m.lhs|..] && m.post == mid + n.lhs + n.post;
    var m' := Move(m.pre, m.lhs, m.rhs, mid + n.rhs + n.post);
    var n' := Move(m.pre + m.rhs + mid, n.lhs, n.rhs, n.post);
    assert m'.Before() == n.After() && n'.Before() == m.After() && m'.After() == n'.After();
    hide Reach;
    ReachMove(rules, m');
    ReachMove(rules, n');
  }

  /** Rules applied at overlapping places give a critical pair inside the word. */
  lemma OverlapJoin(rules: set<Pair>, m: Move, n: Move)
    requires CriticalsJoin(rules) && (m.lhs, m.rhs) in rules && (n.lhs, n.rhs) in rules
    requires m.Before() == n.Before() && |m.pre| <= |n.pre| < |m.pre| + |m.lhs|
    ensures Joinable(rules, m.After(), n.After())
  {
    var w, p, q, i := m.Before(), (m.lhs, m.rhs), (n.lhs, n.rhs), |n.pre| - |m.pre|;
    var c := Common(p.0, q.0, i);
    MoveOccurs(m);
    MoveOccurs(n);
    OverlapAt(w, p.0, |m.pre|, q.0, |n.pre|);
    assert CriticalJoins(rules, p, q, i);
    var y := OverlapRest(m, n, c, i);
    hide Joinable, CriticalsJoin;
    JoinableInside(rules, m.pre, CriticalLeft(p, q, i), CriticalRight(p, q, i), y);
    JoinableSym(rules, m.pre + CriticalLeft(p, q, i) + y, m.pre + CriticalRight(p, q, i) + y);
  }

  lemma OverlapAt(w: Word, l: Word, a: nat, l': Word, b: nat)
    requires OccursAt(w, l, a) && OccursAt(w, l', b) && a <= b < a + |l|
    ensures Overlap(l, l', b - a)
  {
    var i, c := b - a, Common(l, l', b - a);
    forall j | 0 <= j < c ensures l[i..i + c][j] == l'[..c][j] {
      assert l[i + j] == w[a..a + |l|][i + j] == w[b + j];
      assert l'[j] == w[b..b + |l'|][j] == w[b + j];
    }
  }

  /** What follows the overlapped part. */
  lemma OverlapRest(m: Move, n: Move, c: nat, i: nat) returns (y: Word)
    requires m.Before() == n.Before() && |m.pre| <= |n.pre| < |m.pre| + |m.lhs|
    requires i == |n.pre| - |m.pre| && c == Common(m.lhs, n.lhs, i)
    ensures m.Before() == m.pre + CriticalTop((m.lhs, m.rhs), (n.lhs, n.rhs), i) + y
    ensures m.After() == m.pre + CriticalRight((m.lhs, m.rhs), (n.lhs, n.rhs), i) + y
    ensures n.After() == m.pre + CriticalLeft((m.lhs, m.rhs), (n.lhs, n.rhs), i) + y
  {
    var w := m.Before();
    var e := |m.pre| + |m.lhs| + |n.lhs| - c;
    y := w[e..];
    OverlapSlices(w, m.pre, m.lhs, m.post, n.pre, n.lhs, n.post, i);
    var l, l', q, z := m.lhs[..i], m.lhs[i + c..], n.lhs[c..], m.pre;
    assert n.post == l' + y && m.post == q + y by { OverlapEnds(w, m.pre, m.lhs, m.post, n.pre, n.lhs, n.post, i, c); }
    Regroup(z, m.lhs, q, y);
    Regroup(z, m.rhs, q, y);
    Regroup4(z, l, n.rhs, l', y);
  }

  lemma Regroup(z: Word, r: Word, q: Word, y: Word)
    ensures z + r + (q + y) == z + (r + q) + y
  {
  }

  lemma Regroup4(z: Word, l: Word, r: Word, l': Word, y: Word)
    ensures (z + l) + r + (l' + y) == z + (l + r + l') + y
  {
  }

  lemma OverlapSlices(w: Word, x: Word, l: Word, y: Word, x': Word, l': Word, y': Word, i: nat)
    requires w == x + l + y == x' + l' + y' && |x'| == |x| + i && i < |l|
    ensures x' == x + l[..i]
  {
    assert x' == w[..|x'|] && w[..|x'|] == x + l[..i];
  }

  lemma OverlapEnds(w: Word, x: Word, l: Word, y: Word, x': Word, l': Word, y': Word, i: nat, c: nat)
    requires w == x + l + y == x' + l' + y' && |x'| == |x| + i && i < |l| && c == Common(l, l', i)
    ensures var e := |x| + |l| + |l'| - c; e <= |w| && y' == l[i + c..] + w[e..] && y == l'[c..] + w[e..]
  {
    var e := |x| + |l| + |l'| - c;
    assert y == w[|x| + |l|..] && y' == w[|x'| + |l'|..];
    if |l| - i <= |l'| {
      assert l[i + c..] == [];
      assert l'[c..] == w[|x| + |l|..e];
    } else {
      assert l'[c..] == [];
      assert l[i + c..] == w[|x'| + |l'|..e];
    }
  }

  lemma LocalJoin(rules: set<Pair>, m: Move, n: Move)
    requires CriticalsJoin(rules) && (m.lhs, m.rhs) in rules && (n.lhs, n.rhs) in rules && m.Before() == n.Before()
    ensures Joinable(rules, m.After(), n.After())
  {
    hide Joinable, CriticalsJoin;
    if |m.pre| + |m.lhs| <= |n.pre| {
      DisjointJoin(rules, m, n);
    } else if |n.pre| + |n.lhs| <= |m.pre| {
      DisjointJoin(rules, n, m);
      JoinableSym(rules, n.After(), m.After());
    } else if |m.pre| <= |n.pre| {
      OverlapJoin(rules, m, n);
    } else {
      OverlapJoin(rules, n, m);
      JoinableSym(rules, n.After(), m.After());
    }
  }

  // ----- Newman's lemma -----

  /** If all critical pairs join then rewriting is confluent. */
  lemma {:induction false} Newman(k: nat, rules: set<Pair>, w: Word, u: Word, v: Word)
    requires Ordered(k, rules) && CriticalsJoin(rules) && Over(k, w) && Reach(rules, w, u) && Reach(rules, w, v)
    ensures Joinable(rules, u, v)
    decreases RankOf(k, w)
  {
    var ms: seq<Move> :| Chain(Directed(rules), ms, w, u);
    var ns: seq<Move> :| Chain(Directed(rules), ns, w, v);
    if ms == [] || ns == [] {
      ReachRefl(rules, u);
      ReachRefl(rules, v);
    } else {
      var u1, v1 := ms[0].After(), ns[0].After();
      assert Chain(Directed(rules), ms[1..], u1, u) && Chain(Directed(rules), ns[1..], v1, v);
      assert Reach(rules, u1, u) && Reach(rules, v1, v);
      assert (ms[0].lhs, ms[0].rhs) in rules && (ns[0].lhs, ns[0].rhs) in rules;
      MoveDown(k, rules, ms[0]);
      MoveDown(k, rules, ns[0]);
      RankMonotone(k, u1, w);
      RankMonotone(k, v1, w);
      LocalJoin(rules, ms[0], ns[0]);
      NewmanStep(k, rules, w, u1, v1, u, v);
    }
  }

  lemma {:induction false} NewmanStep(k: nat, rules: set<Pair>, w: Word, u1: Word, v1: Word, u: Word, v: Word)
    requires Ordered(k, rules) && CriticalsJoin(rules) && Joinable(rules, u1, v1)
    requires Over(k, u1) && Over(k, v1) && RankOf(k, u1) < RankOf(k, w) && RankOf(k, v1) < RankOf(k, w)
    requires Reach(rules, u1, u) && Reach(rules, v1, v)
    ensures Joinable(rules, u, v)
    decreases RankOf(k, w), 0
  {
    var z :| Reach(rules, u1, z) && Reach(rules, v1, z);
    hide Reach, Ordered, CriticalsJoin, RankOf, Over;
    Newman(k, rules, u1, u, z);
    var a :| Reach(rules, u, a) && Reach(rules, z, a);
    ReachTrans(rules, v1, z, a);
    Newman(k, rules, v1, v, a);
    var b :| Reach(rules, v, b) && Reach(rules, a, b);
    ReachTrans(rules, u, a, b);
  }

  /** Rewriting is confluent exactly when all critical pairs join. */
  lemma ConfluentIffCriticalsJoin(k: nat, rules: set<Pair>)
    requires Ordered(k, rules)
    ensures Confluent(k, rules) <==> CriticalsJoin(rules)
  {
    hide Reach, Joinable, CriticalTop, CriticalLeft, CriticalRight, Overlap;
    if CriticalsJoin(rules) {
      forall w, u, v | Over(k, w) && Reach(rules, w, u) && Reach(rules, w, v) ensures Joinable(rules, u, v) {
        Newman(k, rules, w, u, v);
      }
    }
    if Confluent(k, rules) {
      forall p, q, i | p in rules && q in rules ensures CriticalJoins(rules, p, q, i) {
        if Overlap(p.0, q.0, i) {
          ConfluentJoins(k, rules, p, q, i);
        }
      }
    }
  }

  lemma ConfluentJoins(k: nat, rules: set<Pair>, p: Pair, q: Pair, i: nat)
    requires Ordered(k, rules) && Confluent(k, rules) && p in rules && q in rules && Overlap(p.0, q.0, i)
    ensures Joinable(rules, CriticalLeft(p, q, i), CriticalRight(p, q, i))
  {
    CriticalTopReaches(rules, p, q, i);
    assert OrderedPair(k, p) && OrderedPair(k, q);
    assert Over(k, CriticalTop(p, q, i));
    hide Reach, Joinable, CriticalTop, CriticalLeft, CriticalRight;
  }

  // ----- deciding the congruence -----

  lemma {:induction false} ChurchRosser(k: nat, rules: set<Pair>, ms: seq<Move>, u: Word, v: Word)
    requires Ordered(k, rules) && Confluent(k, rules) && Over(k, u) && Chain(Undirected(rules), ms, u, v)
    ensures Joinable(rules, u, v)
  {
    if ms == [] {
      ReachRefl(rules, u);
    } else {
      var m := ms[0];
      var u1, p := m.After(), (m.lhs, m.rhs);
      assert p in Sym(rules);
      if p in rules {
        MoveDown(k, rules, m);
        ChurchRosser(k, rules, ms[1..], u1, v);
        ReachMove(rules, m);
        JoinForward(rules, u, u1, v);
      } else {
        FlippedOver(k, rules, m);
        ChurchRosser(k, rules, ms[1..], u1, v);
        ReachMove(rules, m.Flip());
        JoinBack(k, rules, u, u1, v);
      }
    }
  }

  lemma FlippedOver(k: nat, rules: set<Pair>, m: Move)
    requires Ordered(k, rules) && (m.lhs, m.rhs) in Sym(rules) && (m.lhs, m.rhs) !in rules && Over(k, m.Before())
    ensures (m.rhs, m.lhs) in rules && Over(k, m.After())
  {
    assert OrderedPair(k, (m.rhs, m.lhs));
    forall i | 0 <= i < |m.pre| ensures m.pre[i] < k { assert m.Before()[i] == m.pre[i]; }
    forall i | 0 <= i < |m.post| ensures m.post[i] < k { assert m.Before()[|m.pre| + |m.lhs| + i] == m.post[i]; }
  }

  lemma JoinForward(rules: set<Pair>, u: Word, u1: Word, v: Word)
    requires Reach(rules, u, u1) && Joinable(rules, u1, v)
    ensures Joinable(rules, u, v)
  {
    var z :| Reach(rules, u1, z) && Reach(rules, v, z);
    hide Reach;
    ReachTrans(rules, u, u1, z);
  }

  lemma JoinBack(k: nat, rules: set<Pair>, u: Word, u1: Word, v: Word)
    requires Confluent(k, rules) && Over(k, u1) && Reach(rules, u1, u) && Joinable(rules, u1, v)
    ensures Joinable(rules, u, v)
  {
    var z :| Reach(rules, u1, z) && Reach(rules, v, z);
    hide Reach;
    assert Joinable(rules, u, z);
    var y :| Reach(rules, u, y) && Reach(rules, z, y);
    ReachTrans(rules, v, z, y);
  }

  /** In a confluent system two words are related exactly when their normal forms agree. */
  lemma ConfluentDecides(k: nat, rules: set<Pair>, u: Word, v: Word, nu: Word, nv: Word)
    requires Ordered(k, rules) && Confluent(k, rules) && Over(k, u) && Over(k, v)
    requires Reach(rules, u, nu) && Normal(rules, nu) && Reach(rules, v, nv) && Normal(rules, nv)
    ensures Same(rules, u, v) <==> nu == nv
  {
    ReachSame(rules, u, nu);
    ReachSame(rules, v, nv);
    if nu == nv {
      hide Same;
      SameSym(rules, v, nv);
      SameTrans(rules, u, nu, v);
    }
    if Same(rules, u, v) {
      var ms :| Chain(Undirected(rules), ms, u, v);
      ChurchRosser(k, rules, ms, u, v);
      hide Reach, Same, Normal, Ordered;
      var z :| Reach(rules, u, z) && Reach(rules, v, z);
      assert Joinable(rules, nu, z) && Joinable(rules, nv, z);
      var a :| Reach(rules, nu, a) && Reach(rules, z, a);
      NormalReach(rules, nu, a);
      var b :| Reach(rules, nv, b) && Reach(rules, z, b);
      NormalReach(rules, nv, b);
      ReachTrans(rules, u, z, nu);
      ReachTrans(rules, u, z, nv);
      assert Joinable(rules, nu, nv);
      var c :| Reach(rules, nu, c) && Reach(rules, nv, c);
      NormalReach(rules, nu, c);
      NormalReach(rules, nv, c);
    }
  }
}
