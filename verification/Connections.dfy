/** Words that pairs connect through small words only, and a criterion for confluence by Winkler and Buchberger. */
module Connections {
  import opened Words
  import opened ShortLex
  import opened Rank
  import opened Derivations
  import opened Rewriting

  /** How large the words on the way may be: smaller than one word, or not larger than one of two. */
  datatype Bound = Below(top: Word) | UpTo(one: Word, other: Word)

  ghost predicate Fits(b: Bound, x: Word) {
    match b
    case Below(w) => Less(x, w)
    case UpTo(u, v) => LessEq(x, u) || LessEq(x, v)
  }

  ghost predicate Through(b: Bound, ms: seq<Move>) {
    forall i :: 0 <= i < |ms| ==> Fits(b, ms[i].Before()) && Fits(b, ms[i].After())
  }

  /** The pairs connect `u` and `v` through words within the bound. */
  ghost predicate Linked(ps: set<Pair>, b: Bound, u: Word, v: Word) {
    Fits(b, u) && Fits(b, v) && exists ms :: Chain(Undirected(ps), ms, u, v) && Through(b, ms)
  }

  /** What the pairs of `ps` connect is connected by `qs`, through words not larger than those connected. */
  ghost predicate Keeps(ps: set<Pair>, qs: set<Pair>) {
    forall p :: p in ps ==> Linked(qs, UpTo(p.0, p.1), p.0, p.1)
  }

  // ----- basic facts -----

  lemma FitsDown(b: Bound, x: Word, y: Word)
    requires LessEq(x, y) && Fits(b, y)
    ensures Fits(b, x)
  {
    match b
    case Below(w) => LessTrans(x, y, w);
    case UpTo(u, v) => if LessEq(y, u) { LessTrans(x, y, u); } else { LessTrans(x, y, v); }
  }

  lemma LinkedRefl(ps: set<Pair>, b: Bound, u: Word)
    requires Fits(b, u)
    ensures Linked(ps, b, u, u)
  {
    assert Chain(Undirected(ps), [], u, u) && Through(b, []);
  }

  lemma LinkedMove(ps: set<Pair>, b: Bound, m: Move)
    requires ((m.lhs, m.rhs) in ps || (m.rhs, m.lhs) in ps) && Fits(b, m.Before()) && Fits(b, m.After())
    ensures Linked(ps, b, m.Before(), m.After())
  {
    assert (m.rhs, m.lhs) in ps ==> (m.lhs, m.rhs) in Flipped(ps);
    assert Chain(Undirected(ps), [m], m.Before(), m.After()) && Through(b, [m]);
  }

  lemma LinkedTrans(ps: set<Pair>, b: Bound, u: Word, v: Word, w: Word)
    requires Linked(ps, b, u, v) && Linked(ps, b, v, w)
    ensures Linked(ps, b, u, w)
  {
    hide Fits;
    var ms :| Chain(Undirected(ps), ms, u, v) && Through(b, ms);
    var ns :| Chain(Undirected(ps), ns, v, w) && Through(b, ns);
    ChainConcat(Undirected(ps), ms, ns, u, v, w);
    assert Through(b, ms + ns);
  }

  lemma {:induction false} ChainBack(ps: set<Pair>, b: Bound, ms: seq<Move>, u: Word, v: Word)
    requires Chain(Undirected(ps), ms, u, v) && Through(b, ms) && Fits(b, u)
    ensures Linked(ps, b, v, u)
  {
    if ms == [] {
      LinkedRefl(ps, b, u);
    } else {
      var m := ms[0];
      ChainRest(ps, b, ms, u, v);
      ChainBack(ps, b, ms[1..], m.After(), v);
      hide Linked, Chain, Fits, Through;
      LinkedMove(ps, b, m.Flip());
      LinkedTrans(ps, b, v, m.After(), u);
    }
  }

  lemma ChainRest(ps: set<Pair>, b: Bound, ms: seq<Move>, u: Word, v: Word)
    requires ms != [] && Chain(Undirected(ps), ms, u, v) && Through(b, ms)
    ensures var m := ms[0];
            && u == m.Before() && Chain(Undirected(ps), ms[1..], m.After(), v) && Through(b, ms[1..])
            && Fits(b, m.Before()) && Fits(b, m.After()) && ((m.lhs, m.rhs) in ps || (m.rhs, m.lhs) in ps)
  {
    hide Fits;
  }

  lemma LinkedSym(ps: set<Pair>, b: Bound, u: Word, v: Word)
    requires Linked(ps, b, u, v)
    ensures Linked(ps, b, v, u)
  {
    hide Fits;
    var ms :| Chain(Undirected(ps), ms, u, v) && Through(b, ms);
    ChainBack(ps, b, ms, u, v);
  }

  /** Inside a context. */
  lemma {:induction false} ChainInside(ps: set<Pair>, b: Bound, b': Bound, ms: seq<Move>, x: Word, u: Word, v: Word, y: Word)
    requires Chain(Undirected(ps), ms, u, v) && Through(b, ms) && Fits(b, u)
    requires forall z :: Fits(b, z) ==> Fits(b', x + z + y)
    ensures Linked(ps, b', x + u + y, x + v + y)
  {
    if ms == [] {
      LinkedRefl(ps, b', x + u + y);
    } else {
      var m := ms[0];
      ChainRest(ps, b, ms, u, v);
      ChainInside(ps, b, b', ms[1..], x, m.After(), v, y);
      assert Fits(b', x + m.Before() + y) && Fits(b', x + m.After() + y);
      hide Linked, Chain, Fits, Through;
      var n := Move(x + m.pre, m.lhs, m.rhs, m.post + y);
      assert n.Before() == x + m.Before() + y && n.After() == x + m.After() + y;
      LinkedMove(ps, b', n);
      LinkedTrans(ps, b', x + u + y, x + m.After() + y, x + v + y);
    }
  }

  lemma LinkedInside(ps: set<Pair>, b: Bound, b': Bound, x: Word, u: Word, v: Word, y: Word)
    requires Linked(ps, b, u, v) && forall z :: Fits(b, z) ==> Fits(b', x + z + y)
    ensures Linked(ps, b', x + u + y, x + v + y)
  {
    hide Fits;
    var ms :| Chain(Undirected(ps), ms, u, v) && Through(b, ms);
    ChainInside(ps, b, b', ms, x, u, v, y);
  }

  lemma LessInside(x: Word, u: Word, v: Word, y: Word)
    requires LessEq(u, v)
    ensures LessEq(x + u + y, x + v + y) && (Less(u, v) ==> Less(x + u + y, x + v + y))
  {
    if u == v {
      LexIrreflexive(u);
    } else {
      LessPrepend(x, u, v);
      LessAppend(x + u, x + v, y, y);
    }
  }

  /** Below a word inside a context is below the word in the context. */
  lemma BelowInside(top: Word, x: Word, y: Word)
    ensures forall z :: Fits(Below(top), z) ==> Fits(Below(x + top + y), x + z + y)
  {
    forall z | Fits(Below(top), z) ensures Fits(Below(x + top + y), x + z + y) {
      LessInside(x, z, top, y);
    }
  }

  lemma UpToInside(b: Bound, u: Word, v: Word, x: Word, y: Word)
    requires Fits(b, x + u + y) && Fits(b, x + v + y)
    ensures forall z :: Fits(UpTo(u, v), z) ==> Fits(b, x + z + y)
  {
    forall z | Fits(UpTo(u, v), z) ensures Fits(b, x + z + y) {
      if LessEq(z, u) {
        LessInside(x, z, u, y);
        FitsDown(b, x + z + y, x + u + y);
      } else {
        LessInside(x, z, v, y);
        FitsDown(b, x + z + y, x + v + y);
      }
    }
  }

  lemma {:induction false} ChainKept(ps: set<Pair>, qs: set<Pair>, b: Bound, ms: seq<Move>, u: Word, v: Word)
    requires Keeps(ps, qs) && Chain(Undirected(ps), ms, u, v) && Through(b, ms) && Fits(b, u)
    ensures Linked(qs, b, u, v)
  {
    if ms == [] {
      LinkedRefl(qs, b, u);
    } else {
      ChainRest(ps, b, ms, u, v);
      ChainKept(ps, qs, b, ms[1..], ms[0].After(), v);
      hide *;
      MoveKept(ps, qs, b, ms[0]);
      LinkedTrans(qs, b, u, ms[0].After(), v);
    }
  }

  lemma MoveKept(ps: set<Pair>, qs: set<Pair>, b: Bound, m: Move)
    requires Keeps(ps, qs) && ((m.lhs, m.rhs) in ps || (m.rhs, m.lhs) in ps) && Fits(b, m.Before()) && Fits(b, m.After())
    ensures Linked(qs, b, m.Before(), m.After())
  {
    hide Linked, Fits;
    var l, r := m.lhs, m.rhs;
    if (l, r) in ps {
      UpToInside(b, l, r, m.pre, m.post);
      LinkedInside(qs, UpTo(l, r), b, m.pre, l, r, m.post);
    } else {
      assert Linked(qs, UpTo((r, l).0, (r, l).1), (r, l).0, (r, l).1);
      UpToInside(b, r, l, m.pre, m.post);
      LinkedInside(qs, UpTo(r, l), b, m.pre, r, l, m.post);
      LinkedSym(qs, b, m.After(), m.Before());
    }
  }

  /** What was connected stays connected, within the same bound. */
  lemma LinkedKept(ps: set<Pair>, qs: set<Pair>, b: Bound, u: Word, v: Word)
    requires Keeps(ps, qs) && Linked(ps, b, u, v)
    ensures Linked(qs, b, u, v)
  {
    hide Fits, Keeps;
    var ms :| Chain(Undirected(ps), ms, u, v) && Through(b, ms);
    ChainKept(ps, qs, b, ms, u, v);
  }

  lemma LinkedPair(ps: set<Pair>, p: Pair)
    requires p in ps
    ensures Linked(ps, UpTo(p.0, p.1), p.0, p.1)
  {
    var m := Move([], p.0, p.1, []);
    assert m.Before() == p.0 && m.After() == p.1;
    LinkedMove(ps, UpTo(p.0, p.1), m);
  }

  lemma KeepsMore(ps: set<Pair>, qs: set<Pair>)
    requires ps <= qs
    ensures Keeps(ps, qs)
  {
    hide Linked;
    forall p | p in ps ensures Linked(qs, UpTo(p.0, p.1), p.0, p.1) { LinkedPair(qs, p); }
  }

  lemma KeepsTrans(ps: set<Pair>, qs: set<Pair>, rs: set<Pair>)
    requires Keeps(ps, qs) && Keeps(qs, rs)
    ensures Keeps(ps, rs)
  {
    hide Linked;
    forall p | p in ps ensures Linked(rs, UpTo(p.0, p.1), p.0, p.1) { LinkedKept(qs, rs, UpTo(p.0, p.1), p.0, p.1); }
  }

  lemma KeepsUnion(ps: set<Pair>, p: Pair, qs: set<Pair>)
    requires Keeps(ps, qs) && Linked(qs, UpTo(p.0, p.1), p.0, p.1)
    ensures Keeps(ps + {p}, qs)
  {
    hide Linked;
  }

  lemma LinkedMore(ps: set<Pair>, qs: set<Pair>, b: Bound, u: Word, v: Word)
    requires ps <= qs && Linked(ps, b, u, v)
    ensures Linked(qs, b, u, v)
  {
    hide Linked;
    KeepsMore(ps, qs);
    LinkedKept(ps, qs, b, u, v);
  }

  /** A wider bound. */
  lemma LinkedWider(ps: set<Pair>, b: Bound, b': Bound, u: Word, v: Word)
    requires Linked(ps, b, u, v) && forall z :: Fits(b, z) ==> Fits(b', z)
    ensures Linked(ps, b', u, v)
  {
    hide Fits;
    var ms :| Chain(Undirected(ps), ms, u, v) && Through(b, ms);
    assert Through(b', ms);
  }

  lemma UpToBelow(u: Word, v: Word, top: Word)
    requires Less(u, top) && Less(v, top)
    ensures forall z :: Fits(UpTo(u, v), z) ==> Fits(Below(top), z)
  {
    forall z | Fits(UpTo(u, v), z) ensures Fits(Below(top), z) {
      if LessEq(z, u) { LessTrans(z, u, top); } else { LessTrans(z, v, top); }
    }
  }

  // ----- rewriting stays within a bound -----

  lemma {:induction false} ChainDownLinked(k: nat, rules: set<Pair>, b: Bound, ms: seq<Move>, u: Word, v: Word)
    requires Ordered(k, rules) && Chain(Directed(rules), ms, u, v) && Fits(b, u)
    ensures Linked(rules, b, u, v)
  {
    if ms == [] {
      LinkedRefl(rules, b, u);
    } else {
      var m := ms[0];
      MoveDown(k, rules, m);
      FitsDown(b, m.After(), u);
      ChainDownLinked(k, rules, b, ms[1..], m.After(), v);
      hide Linked, Fits;
      LinkedMove(rules, b, m);
      LinkedTrans(rules, b, u, m.After(), v);
    }
  }

  lemma ReachLinked(k: nat, rules: set<Pair>, ps: set<Pair>, b: Bound, u: Word, v: Word)
    requires Ordered(k, rules) && rules <= ps && Reach(rules, u, v) && Fits(b, u)
    ensures Linked(ps, b, u, v)
  {
    hide Fits, Ordered;
    var ms :| Chain(Directed(rules), ms, u, v);
    ChainDownLinked(k, rules, b, ms, u, v);
    hide Linked;
    LinkedMore(rules, ps, b, u, v);
  }

  lemma JoinableLinked(k: nat, rules: set<Pair>, b: Bound, u: Word, v: Word)
    requires Ordered(k, rules) && Joinable(rules, u, v) && Fits(b, u) && Fits(b, v)
    ensures Linked(rules, b, u, v)
  {
    var z :| Reach(rules, u, z) && Reach(rules, v, z);
    hide Fits, Ordered, Linked, Reach;
    ReachLinked(k, rules, rules, b, u, z);
    ReachLinked(k, rules, rules, b, v, z);
    LinkedSym(rules, b, v, z);
    LinkedTrans(rules, b, u, z, v);
  }

  // ----- the criterion -----

  /** The two words of a critical pair are connected below the word they come from. */
  ghost predicate CriticalLinked(ps: set<Pair>, p: Pair, q: Pair, i: nat) {
    Overlap(p.0, q.0, i) ==> Linked(ps, Below(CriticalTop(p, q, i)), CriticalLeft(p, q, i), CriticalRight(p, q, i))
  }

  ghost predicate CriticalsLinked(rules: set<Pair>) {
    forall p, q, i :: p in rules && q in rules ==> CriticalLinked(rules, p, q, i)
  }

  /** Both words of a critical pair are smaller than the word they come from. */
  lemma CriticalBelow(p: Pair, q: Pair, i: nat)
    requires Less(p.1, p.0) && Less(q.1, q.0) && Overlap(p.0, q.0, i)
    ensures Less(CriticalLeft(p, q, i), CriticalTop(p, q, i)) && Less(CriticalRight(p, q, i), CriticalTop(p, q, i))
  {
    var c := Common(p.0, q.0, i);
    TopSplit(p.0, q.0, i, c);
    Front(p.0, q.0[c..]);
    Front(p.1, q.0[c..]);
    hide Less, Overlap;
    LessInside(p.0[..i], q.1, q.0, p.0[i + c..]);
    LessInside([], p.1, p.0, q.0[c..]);
  }

  /** Two ways to rewrite a word are connected below it, if critical pairs of the two rules are. */
  lemma LocalLinked(k: nat, rules: set<Pair>, m: Move, n: Move)
    requires Ordered(k, rules) && (m.lhs, m.rhs) in rules && (n.lhs, n.rhs) in rules && m.Before() == n.Before()
    requires forall i :: CriticalLinked(rules, (m.lhs, m.rhs), (n.lhs, n.rhs), i) && CriticalLinked(rules, (n.lhs, n.rhs), (m.lhs, m.rhs), i)
    ensures Linked(rules, Below(m.Before()), m.After(), n.After())
  {
    hide Linked, CriticalLinked, Joinable, Ordered;
    MoveDown(k, rules, m);
    MoveDown(k, rules, n);
    var b := Below(m.Before());
    if |m.pre| + |m.lhs| <= |n.pre| {
      DisjointJoin(rules, m, n);
      JoinableLinked(k, rules, b, m.After(), n.After());
    } else if |n.pre| + |n.lhs| <= |m.pre| {
      DisjointJoin(rules, n, m);
      JoinableLinked(k, rules, b, n.After(), m.After());
      LinkedSym(rules, b, n.After(), m.After());
    } else if |m.pre| <= |n.pre| {
      OverlapLinked(rules, m, n);
    } else {
      OverlapLinked(rules, n, m);
      LinkedSym(rules, b, n.After(), m.After());
    }
  }

  lemma OverlapLinked(ps: set<Pair>, m: Move, n: Move)
    requires m.Before() == n.Before() && |m.pre| <= |n.pre| < |m.pre| + |m.lhs|
    requires CriticalLinked(ps, (m.lhs, m.rhs), (n.lhs, n.rhs), |n.pre| - |m.pre|)
    ensures Linked(ps, Below(m.Before()), m.After(), n.After())
  {
    hide *;
    MoveOccurs(m);
    MoveOccurs(n);
    OverlapAt(m.Before(), m.lhs, |m.pre|, n.lhs, |n.pre|);
    var p, q, i := (m.lhs, m.rhs), (n.lhs, n.rhs), |n.pre| - |m.pre|;
    OverlapBound(m.lhs, n.lhs, i);
    var y := OverlapRest(m, n, Common(p.0, q.0, i), i);
    CriticalNow(ps, p, q, i);
    BelowInside(CriticalTop(p, q, i), m.pre, y);
    LinkedInside(ps, Below(CriticalTop(p, q, i)), Below(m.Before()), m.pre, CriticalLeft(p, q, i), CriticalRight(p, q, i), y);
    LinkedSym(ps, Below(m.Before()), n.After(), m.After());
  }

  lemma OverlapBound(l: Word, l': Word, i: nat)
    requires Overlap(l, l', i)
    ensures i < |l|
  {
  }

  lemma CriticalNow(ps: set<Pair>, p: Pair, q: Pair, i: nat)
    requires CriticalLinked(ps, p, q, i) && Overlap(p.0, q.0, i)
    ensures i <= |p.0| && Linked(ps, Below(CriticalTop(p, q, i)), CriticalLeft(p, q, i), CriticalRight(p, q, i))
  {
    hide Linked;
  }

  /** If all critical pairs are connected below, rewriting is confluent. */
  lemma {:induction false} ConfluentFrom(k: nat, rules: set<Pair>, w: Word, u: Word, v: Word)
    requires Ordered(k, rules) && CriticalsLinked(rules) && Over(k, w) && Reach(rules, w, u) && Reach(rules, w, v)
    ensures Joinable(rules, u, v)
    decreases RankOf(k, w), 2, 0
  {
    var ms: seq<Move> :| Chain(Directed(rules), ms, w, u);
    var ns: seq<Move> :| Chain(Directed(rules), ns, w, v);
    if ms == [] || ns == [] {
      ReachRefl(rules, u);
      ReachRefl(rules, v);
    } else {
      var u1, v1 := ms[0].After(), ns[0].After();
      assert Chain(Directed(rules), ms[1..], u1, u) && Chain(Directed(rules), ns[1..], v1, v);
      assert Reach(rules, u1, u) && Reach(rules, v1, v);
      assert (ms[0].lhs, ms[0].rhs) in rules && (ns[0].lhs, ns[0].rhs) in rules;
      MoveDown(k, rules, ms[0]);
      MoveDown(k, rules, ns[0]);
      RankMonotone(k, u1, w);
      RankMonotone(k, v1, w);
      hide Reach, Ordered, CriticalLinked, Joinable, RankOf, Chain;
      LocalLinked(k, rules, ms[0], ns[0]);
      var ls :| Chain(Undirected(rules), ls, u1, v1) && Through(Below(w), ls);
      LinkedJoins(k, rules, w, ls, u1, v1);
      ConfluentStep(k, rules, w, u1, v1, u, v);
    }
  }

  lemma {:induction false} ConfluentStep(k: nat, rules: set<Pair>, w: Word, u1: Word, v1: Word, u: Word, v: Word)
    requires Ordered(k, rules) && CriticalsLinked(rules) && Joinable(rules, u1, v1)
    requires Over(k, u1) && Over(k, v1) && RankOf(k, u1) < RankOf(k, w) && RankOf(k, v1) < RankOf(k, w)
    requires Reach(rules, u1, u) && Reach(rules, v1, v)
    ensures Joinable(rules, u, v)
    decreases RankOf(k, w), 0, 0
  {
    var z :| Reach(rules, u1, z) && Reach(rules, v1, z);
    hide Reach, Ordered, CriticalsLinked, RankOf, Over;
    ConfluentFrom(k, rules, u1, u, z);
    var a :| Reach(rules, u, a) && Reach(rules, z, a);
    ReachTrans(rules, v1, z, a);
    ConfluentFrom(k, rules, v1, v, a);
    var b :| Reach(rules, v, b) && Reach(rules, a, b);
    ReachTrans(rules, u, a, b);
  }

  /** Words connected below `w` can be joined, if words below `w` are confluent. */
  lemma {:induction false} LinkedJoins(k: nat, rules: set<Pair>, w: Word, ms: seq<Move>, u: Word, v: Word)
    requires Ordered(k, rules) && CriticalsLinked(rules) && Over(k, w) && Over(k, u)
    requires Chain(Undirected(rules), ms, u, v) && Through(Below(w), ms)
    ensures Joinable(rules, u, v)
    decreases RankOf(k, w), 1, |ms|
  {
    if ms == [] {
      ReachRefl(rules, u);
    } else {
      var m := ms[0];
      ChainRest(rules, Below(w), ms, u, v);
      MoveOver(k, rules, m);
      LinkedJoins(k, rules, w, ms[1..], m.After(), v);
      RankMonotone(k, m.After(), w);
      hide Reach, Ordered, CriticalsLinked, Joinable, RankOf, Chain, Through;
      if (m.lhs, m.rhs) in rules {
        ReachMove(rules, m);
        JoinForward(rules, u, m.After(), v);
      } else {
        ReachMove(rules, m.Flip());
        LinkedBack(k, rules, w, u, m.After(), v);
      }
    }
  }

  lemma {:induction false} LinkedBack(k: nat, rules: set<Pair>, w: Word, u: Word, u1: Word, v: Word)
    requires Ordered(k, rules) && CriticalsLinked(rules) && Over(k, u1) && RankOf(k, u1) < RankOf(k, w)
    requires Reach(rules, u1, u) && Joinable(rules, u1, v)
    ensures Joinable(rules, u, v)
    decreases RankOf(k, w), 0, 0
  {
    var z :| Reach(rules, u1, z) && Reach(rules, v, z);
    hide Reach, Ordered, CriticalsLinked, RankOf;
    ConfluentFrom(k, rules, u1, u, z);
    var y :| Reach(rules, u, y) && Reach(rules, z, y);
    ReachTrans(rules, v, z, y);
  }

  lemma MoveOver(k: nat, rules: set<Pair>, m: Move)
    requires Ordered(k, rules) && ((m.lhs, m.rhs) in rules || (m.rhs, m.lhs) in rules) && Over(k, m.Before())
    ensures Over(k, m.After())
  {
    if (m.lhs, m.rhs) in rules {
      MoveDown(k, rules, m);
    } else {
      assert OrderedPair(k, (m.rhs, m.lhs));
      forall i | 0 <= i < |m.pre| ensures m.pre[i] < k { assert m.Before()[i] == m.pre[i]; }
      forall i | 0 <= i < |m.post| ensures m.post[i] < k { assert m.Before()[|m.pre| + |m.lhs| + i] == m.post[i]; }
    }
  }

  /** Rewriting is confluent exactly when the words of every critical pair are connected below the word they come from. */
  lemma ConfluentIffCriticalsLinked(k: nat, rules: set<Pair>)
    requires Ordered(k, rules)
    ensures Confluent(k, rules) <==> CriticalsLinked(rules)
  {
    hide Reach, Joinable, CriticalTop, CriticalLeft, CriticalRight, Linked;
    if CriticalsLinked(rules) {
      forall w, u, v | Over(k, w) && Reach(rules, w, u) && Reach(rules, w, v) ensures Joinable(rules, u, v) {
        ConfluentFrom(k, rules, w, u, v);
      }
    }
    if Confluent(k, rules) {
      forall p, q, i | p in rules && q in rules ensures CriticalLinked(rules, p, q, i) {
        if Overlap(p.0, q.0, i) {
          assert OrderedPair(k, p) && OrderedPair(k, q);
          ConfluentJoins(k, rules, p, q, i);
          CriticalBelow(p, q, i);
          JoinableLinked(k, rules, Below(CriticalTop(p, q, i)), CriticalLeft(p, q, i), CriticalRight(p, q, i));
        }
      }
    }
  }
}
