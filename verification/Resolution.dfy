/**
 * The overlaps that completion looks at, and when resolving them is enough for confluence.
 * Lines cited here are those of src/rws.cc.
 */
module Resolution {
  import opened Words
  import opened Derivations
  import opened Rewriting
  import opened RuleIndex
  import opened InPlace
  import opened RuleState
  import opened Connections

  function Min(a: nat, b: nat): (r: nat)
    ensures r <= a && r <= b
  {
    if a < b then a else b
  }

  /** `overlap` looks at the indices above this one (lines 547-548). */
  function Limit(u: Rule, v: Rule): nat {
    |u.lhs| - Min(|u.lhs|, |v.lhs|)
  }

  /** The overlaps of `u` with `v` that are looked at: their critical pairs are connected below the words they come from. */
  ghost predicate PairResolved(ps: set<Pair>, u: Rule, v: Rule) {
    forall i :: Limit(u, v) < i ==> CriticalLinked(ps, u.Pair(), v.Pair(), i)
  }

  ghost predicate Resolved(rules: seq<Rule>) {
    forall u, v :: u in rules && v in rules ==> PairResolved(Pairs(rules), u, v)
  }

  /** No left side occurs in another one. */
  ghost predicate Free(rules: seq<Rule>) {
    forall a, b :: 0 <= a < |rules| && 0 <= b < |rules| && a != b ==> !Contains(rules[a].lhs, rules[b].lhs)
  }

  /** Where a left side occurs in another one, both rules lead to the same word. */
  ghost predicate NestedJoin(rules: seq<Rule>) {
    forall u, v, i :: u in rules && v in rules && u != v && OccursAt(u.lhs, v.lhs, i) ==> Joinable(Pairs(rules), Inner(u, v, i), u.rhs)
  }

  /** The left side of `u` with `v` applied in it. */
  function Inner(u: Rule, v: Rule, i: nat): Word
    requires i + |v.lhs| <= |u.lhs|
  {
    u.lhs[..i] + v.rhs + u.lhs[i + |v.lhs|..]
  }

  lemma FreeNested(rules: seq<Rule>)
    requires Free(rules)
    ensures NestedJoin(rules)
  {
    forall u, v, i: nat | u in rules && v in rules && u != v ensures !OccursAt(u.lhs, v.lhs, i) {
      var a :| 0 <= a < |rules| && rules[a] == u;
      var b :| 0 <= b < |rules| && rules[b] == v;
      assert !Contains(rules[a].lhs, rules[b].lhs);
    }
  }

  lemma SameLeft(rules: seq<Rule>, u: Rule, v: Rule)
    requires Incomparable(rules) && u in rules && v in rules && (Suffix(u.lhs, v.lhs) || Suffix(v.lhs, u.lhs))
    ensures u == v
  {
    var a :| 0 <= a < |rules| && rules[a] == u;
    var b :| 0 <= b < |rules| && rules[b] == v;
    hide Suffix;
    assert SuffixRelated(rules[a].lhs, rules[b].lhs) && SuffixRelated(rules[b].lhs, rules[a].lhs);
  }

  /** An overlap that is not looked at: one left side lies in the other. */
  lemma OtherOverlaps(rules: seq<Rule>, u: Rule, v: Rule, i: nat)
    requires Incomparable(rules) && u in rules && v in rules && Overlap(u.lhs, v.lhs, i)
    requires i <= Limit(u, v)
    ensures (u == v && i == 0) || (u != v && OccursAt(u.lhs, v.lhs, i)) || (u != v && i == 0 && OccursAt(v.lhs, u.lhs, 0))
  {
    var c := Common(u.lhs, v.lhs, i);
    if |v.lhs| < |u.lhs| {
      assert i + |v.lhs| <= |u.lhs| && c == |v.lhs|;
      assert v.lhs[..c] == v.lhs;
    } else {
      assert i == 0 && c == |u.lhs| && u.lhs[0..c] == u.lhs;
      if |u.lhs| == |v.lhs| {
        assert v.lhs[..c] == v.lhs && v.lhs[0..] == v.lhs;
        SameLeft(rules, u, v);
      }
    }
  }

  /** The critical pair of a left side inside another one. */
  lemma InnerCritical(u: Rule, v: Rule, i: nat)
    requires OccursAt(u.lhs, v.lhs, i) && i < |u.lhs|
    ensures Common(u.lhs, v.lhs, i) == |v.lhs| && CriticalLeft(u.Pair(), v.Pair(), i) == Inner(u, v, i) && CriticalRight(u.Pair(), v.Pair(), i) == u.rhs
  {
    assert v.lhs[|v.lhs|..] == [];
  }

  lemma OuterCritical(u: Rule, v: Rule)
    requires OccursAt(v.lhs, u.lhs, 0) && u.lhs != []
    ensures Common(u.lhs, v.lhs, 0) == |u.lhs| && CriticalLeft(u.Pair(), v.Pair(), 0) == v.rhs && CriticalRight(u.Pair(), v.Pair(), 0) == Inner(v, u, 0)
  {
    assert u.lhs[|u.lhs|..] == [] && u.lhs[..0] == [] && v.lhs[..0] == [];
    assert CriticalLeft(u.Pair(), v.Pair(), 0) == [] + v.rhs + [];
  }

  lemma OwnCritical(u: Rule)
    requires u.lhs != []
    ensures CriticalLeft(u.Pair(), u.Pair(), 0) == CriticalRight(u.Pair(), u.Pair(), 0)
  {
    assert u.lhs[|u.lhs|..] == [] && u.lhs[..0] == [];
    assert CriticalLeft(u.Pair(), u.Pair(), 0) == [] + u.rhs + [] && CriticalRight(u.Pair(), u.Pair(), 0) == u.rhs + [];
  }

  lemma OtherLinked(k: nat, rules: seq<Rule>, shortest: nat, u: Rule, v: Rule, i: nat)
    requires Usable(k, rules, shortest) && shortest > 0 && NestedJoin(rules) && u in rules && v in rules && i <= Limit(u, v)
    ensures CriticalLinked(Pairs(rules), u.Pair(), v.Pair(), i)
  {
    if Overlap(u.lhs, v.lhs, i) {
      var ps := Pairs(rules);
      UsableRule(k, rules, shortest, u);
      UsableRule(k, rules, shortest, v);
      OtherOverlaps(rules, u, v, i);
      CriticalBelow(u.Pair(), v.Pair(), i);
      var b, x, y := Below(CriticalTop(u.Pair(), v.Pair(), i)), CriticalLeft(u.Pair(), v.Pair(), i), CriticalRight(u.Pair(), v.Pair(), i);
      assert Fits(b, x) && Fits(b, y);
      if u == v && i == 0 {
        hide *;
        OwnCritical(u);
        LinkedRefl(ps, b, x);
      } else if OccursAt(u.lhs, v.lhs, i) {
        InnerCritical(u, v, i);
        hide Joinable, Linked, CriticalLeft, CriticalRight, CriticalTop, Inner, Fits;
        JoinableLinked(k, ps, b, x, y);
      } else {
        OuterCritical(u, v);
        hide Joinable, Linked, CriticalLeft, CriticalRight, CriticalTop, Inner, Fits;
        JoinableLinked(k, ps, b, y, x);
        LinkedSym(ps, b, y, x);
      }
    }
  }

  lemma AllLinked(k: nat, rules: seq<Rule>, shortest: nat)
    requires Usable(k, rules, shortest) && shortest > 0 && Resolved(rules) && NestedJoin(rules)
    ensures CriticalsLinked(Pairs(rules))
  {
    hide CriticalLinked, NestedJoin, Usable, Limit;
    forall p, q, i: nat | p in Pairs(rules) && q in Pairs(rules) ensures CriticalLinked(Pairs(rules), p, q, i) {
      var u :| u in rules && u.Pair() == p;
      var v :| v in rules && v.Pair() == q;
      if i <= Limit(u, v) {
        OtherLinked(k, rules, shortest, u, v, i);
      } else {
        assert PairResolved(Pairs(rules), u, v);
      }
    }
  }

  lemma ConfluentNested(k: nat, rules: seq<Rule>, shortest: nat)
    requires Usable(k, rules, shortest) && shortest > 0 && Confluent(k, Pairs(rules))
    ensures NestedJoin(rules) && Resolved(rules)
  {
    var ps := Pairs(rules);
    hide Joinable, Inner, Confluent, CriticalLinked, Limit;
    forall u, v, i: nat | u in rules && v in rules && u != v && OccursAt(u.lhs, v.lhs, i) ensures Joinable(ps, Inner(u, v, i), u.rhs) {
      UsableRule(k, rules, shortest, u);
      UsableRule(k, rules, shortest, v);
      InnerOverlap(u, v, i);
      ConfluentJoins(k, ps, u.Pair(), v.Pair(), i);
    }
    ConfluentIffCriticalsLinked(k, ps);
    forall u, v | u in rules && v in rules ensures PairResolved(ps, u, v) {
      UsableRule(k, rules, shortest, u);
      UsableRule(k, rules, shortest, v);
    }
  }

  lemma InnerOverlap(u: Rule, v: Rule, i: nat)
    requires OccursAt(u.lhs, v.lhs, i) && v.lhs != []
    ensures Overlap(u.lhs, v.lhs, i) && CriticalLeft(u.Pair(), v.Pair(), i) == Inner(u, v, i) && CriticalRight(u.Pair(), v.Pair(), i) == u.rhs
  {
    InnerCritical(u, v, i);
    assert v.lhs[..|v.lhs|] == v.lhs;
  }

  /**
   * When the overlaps that completion looks at are resolved, the rules are
   * confluent exactly if rules inside left sides of others lead to the same
   * words; so they are if no left side occurs in another one.
   */
  lemma ResolvedConfluent(k: nat, rules: seq<Rule>, shortest: nat)
    requires Usable(k, rules, shortest) && shortest > 0
    ensures Confluent(k, Pairs(rules)) <==> Resolved(rules) && NestedJoin(rules)
    ensures Free(rules) ==> NestedJoin(rules)
  {
    UsableOrdered(k, rules, shortest);
    hide Usable, Ordered, Resolved, NestedJoin, Free, Confluent;
    if Free(rules) {
      FreeNested(rules);
    }
    if Confluent(k, Pairs(rules)) {
      ConfluentNested(k, rules, shortest);
    }
    if Resolved(rules) && NestedJoin(rules) {
      AllLinked(k, rules, shortest);
      ConfluentIffCriticalsLinked(k, Pairs(rules));
    }
  }
}
