/**
 * Changes to a set of rules that keep the congruence it generates.
 * Lines cited here are those of src/rws.h.
 */
module Conservation {
  import opened Words
  import opened ShortLex
  import opened Derivations
  import opened Rewriting

  /** Every pair of `ps` follows from `qs`. */
  ghost predicate Within(ps: set<Pair>, qs: set<Pair>) {
    forall p :: p in ps ==> Same(qs, p.0, p.1)
  }

  /** Both generate the same congruence. */
  ghost predicate Equivalent(ps: set<Pair>, qs: set<Pair>) {
    Within(ps, qs) && Within(qs, ps)
  }

  lemma {:induction false} ChainWithin(ps: set<Pair>, qs: set<Pair>, ms: seq<Move>, u: Word, v: Word)
    requires Within(ps, qs) && Chain(Undirected(ps), ms, u, v)
    ensures Same(qs, u, v)
  {
    if ms == [] {
      SameRefl(qs, u);
    } else {
      var m := ms[0];
      ChainWithin(ps, qs, ms[1..], m.After(), v);
      hide Same;
      if (m.lhs, m.rhs) !in ps {
        SameSym(qs, m.rhs, m.lhs);
      }
      SameInside(qs, m.pre, m.lhs, m.rhs, m.post);
      SameTrans(qs, u, m.After(), v);
    }
  }

  lemma SameWithin(ps: set<Pair>, qs: set<Pair>, u: Word, v: Word)
    requires Within(ps, qs) && Same(ps, u, v)
    ensures Same(qs, u, v)
  {
    var ms :| Chain(Undirected(ps), ms, u, v);
    ChainWithin(ps, qs, ms, u, v);
  }

  /** Equivalent sets of pairs relate the same words. */
  lemma EquivalentSame(ps: set<Pair>, qs: set<Pair>, u: Word, v: Word)
    requires Equivalent(ps, qs)
    ensures Same(ps, u, v) <==> Same(qs, u, v)
  {
    hide Same;
    if Same(ps, u, v) { SameWithin(ps, qs, u, v); }
    if Same(qs, u, v) { SameWithin(qs, ps, u, v); }
  }

  lemma WithinSubset(ps: set<Pair>, qs: set<Pair>)
    requires ps <= qs
    ensures Within(ps, qs)
  {
    hide Same;
    forall p | p in ps ensures Same(qs, p.0, p.1) { SamePair(qs, p); }
  }

  lemma WithinTrans(ps: set<Pair>, qs: set<Pair>, rs: set<Pair>)
    requires Within(ps, qs) && Within(qs, rs)
    ensures Within(ps, rs)
  {
    hide Same;
    forall p | p in ps ensures Same(rs, p.0, p.1) { SameWithin(qs, rs, p.0, p.1); }
  }

  lemma EquivalentRefl(ps: set<Pair>)
    ensures Equivalent(ps, ps)
  {
    WithinSubset(ps, ps);
  }

  lemma EquivalentTrans(ps: set<Pair>, qs: set<Pair>, rs: set<Pair>)
    requires Equivalent(ps, qs) && Equivalent(qs, rs)
    ensures Equivalent(ps, rs)
  {
    hide Same, Within;
    WithinTrans(ps, qs, rs);
    WithinTrans(rs, qs, ps);
  }

  /** Adding the same pairs to both sides. */
  lemma EquivalentMore(ps: set<Pair>, qs: set<Pair>, rs: set<Pair>)
    requires Equivalent(ps, qs)
    ensures Equivalent(ps + rs, qs + rs)
  {
    hide Same;
    WithinMore(ps, qs, rs);
    WithinMore(qs, ps, rs);
  }

  lemma WithinMore(ps: set<Pair>, qs: set<Pair>, rs: set<Pair>)
    requires Within(ps, qs)
    ensures Within(ps + rs, qs + rs)
  {
    hide Same;
    WithinSubset(qs, qs + rs);
    forall p | p in ps + rs ensures Same(qs + rs, p.0, p.1) {
      if p in ps {
        SameWithin(qs, qs + rs, p.0, p.1);
      } else {
        SamePair(qs + rs, p);
      }
    }
  }

  /** A pair that already follows may be added or dropped. */
  lemma EquivalentAdd(ps: set<Pair>, p: Pair)
    requires Same(ps, p.0, p.1)
    ensures Equivalent(ps + {p}, ps)
  {
    hide Same;
    WithinSubset(ps, ps + {p});
    WithinSubset(ps, ps);
    assert Within(ps + {p}, ps);
  }

  /** A pair may be replaced by another one if each follows from the other and the rest. */
  lemma EquivalentReplace(ps: set<Pair>, p: Pair, q: Pair)
    requires Same(ps + {q}, p.0, p.1) && Same(ps + {p}, q.0, q.1)
    ensures Equivalent(ps + {p}, ps + {q})
  {
    hide Same;
    WithinSubset(ps, ps + {p});
    WithinSubset(ps, ps + {q});
    assert Within(ps + {p}, ps + {q}) && Within(ps + {q}, ps + {p});
  }

  /** Rewriting both sides of a pair by rules that are kept. */
  lemma RewritePair(ps: set<Pair>, rules: set<Pair>, p: Pair, q: Pair)
    requires rules <= ps && Reach(rules, p.0, q.0) && Reach(rules, p.1, q.1)
    ensures Equivalent(ps + {p}, ps + {q})
    ensures Equivalent(ps + {p}, ps + {(q.1, q.0)})
    ensures q.0 == q.1 ==> Equivalent(ps + {p}, ps)
  {
    ReachSame(rules, p.0, q.0);
    ReachSame(rules, p.1, q.1);
    var q' := (q.1, q.0);
    hide Same, Reach;
    forall r: set<Pair> | rules <= r ensures Same(r, p.0, q.0) && Same(r, p.1, q.1) && Same(r, q.0, p.0) && Same(r, q.1, p.1) {
      WithinSubset(rules, r);
      SameWithin(rules, r, p.0, q.0);
      SameWithin(rules, r, p.1, q.1);
      SameSym(r, p.0, q.0);
      SameSym(r, p.1, q.1);
    }
    SamePair(ps + {p}, p);
    SamePair(ps + {q}, q);
    SamePair(ps + {q'}, q');
    SameSym(ps + {q'}, q.1, q.0);
    SameThree(ps + {q}, p.0, q.0, q.1, p.1);
    SameThree(ps + {q'}, p.0, q.0, q.1, p.1);
    SameThree(ps + {p}, q.0, p.0, p.1, q.1);
    SameSym(ps + {p}, q.0, q.1);
    EquivalentReplace(ps, p, q);
    EquivalentReplace(ps, p, q');
    if q.0 == q.1 {
      SameTrans(ps, p.0, q.0, p.1);
      EquivalentAdd(ps, p);
    }
  }

  lemma SameThree(ps: set<Pair>, a: Word, b: Word, c: Word, d: Word)
    requires Same(ps, a, b) && Same(ps, b, c) && Same(ps, c, d)
    ensures Same(ps, a, d)
  {
    hide Same;
    SameTrans(ps, a, b, c);
    SameTrans(ps, a, c, d);
  }

  // ----- rewriting the right side of a rule -----

  lemma OccursLessEq(w: Word, l: Word, i: nat)
    requires OccursAt(w, l, i)
    ensures LessEq(l, w)
  {
    if |l| == |w| {
      assert w[i..i + |l|] == w;
    }
  }

  /** A rule is never used on words that are smaller than its left side, such as its own right side. */
  lemma {:induction false} OwnRuleUnused(k: nat, rules: set<Pair>, p: Pair, ms: seq<Move>, u: Word, v: Word)
    requires Ordered(k, rules) && p in rules && Less(u, p.0) && Chain(Directed(rules), ms, u, v)
    ensures Reach(rules - {p}, u, v)
  {
    var rest := rules - {p};
    if ms == [] {
      ReachRefl(rest, u);
    } else {
      var m := ms[0];
      MoveDown(k, rules, m);
      LessTrans(m.After(), u, p.0);
      OwnRuleUnused(k, rules, p, ms[1..], m.After(), v);
      MoveOccurs(m);
      OccursLessEq(u, m.lhs, |m.pre|);
      if (m.lhs, m.rhs) == p {
        LessTrans(p.0, u, p.0);
        LexIrreflexive(p.0);
      }
      hide Reach;
      ReachMove(rest, m);
      ReachTrans(rest, u, m.After(), v);
    }
  }

  /** Rewriting the right side of a rule in place keeps the congruence (lines 727-730). */
  lemma RewriteRight(k: nat, rules: set<Pair>, others: set<Pair>, p: Pair, r: Word)
    requires Ordered(k, rules) && p in rules && Reach(rules, p.1, r)
    ensures Equivalent(others + rules, others + (rules - {p}) + {(p.0, r)})
    ensures OrderedPair(k, (p.0, r))
  {
    hide *;
    OthersReach(k, rules, p, r);
    ReachRefl(rules - {p}, p.0);
    RewritePair(others + (rules - {p}), rules - {p}, p, (p.0, r));
    assert others + (rules - {p}) + {p} == others + rules;
  }

  lemma OthersReach(k: nat, rules: set<Pair>, p: Pair, r: Word)
    requires Ordered(k, rules) && p in rules && Reach(rules, p.1, r)
    ensures Reach(rules - {p}, p.1, r) && OrderedPair(k, (p.0, r))
  {
    assert OrderedPair(k, p);
    var ms :| Chain(Directed(rules), ms, p.1, r);
    OwnRuleUnused(k, rules, p, ms, p.1, r);
    ReachDown(k, rules, p.1, r);
    LessTrans(r, p.1, p.0);
  }
}
