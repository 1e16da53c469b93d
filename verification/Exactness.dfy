/** When comparing normal forms decides the congruence: `RWS::test_equals` (src/rws.cc). */
module Exactness {
  import opened Words
  import opened Derivations
  import opened Rewriting
  import opened RuleIndex
  import opened InPlace
  import opened Conservation
  import opened RuleState

  /** Words over the alphabet have the same normal form exactly when the pairs relate them. */
  ghost predicate Decides(k: nat, rules: seq<Rule>, ps: set<Pair>)
    requires Ordered(k, Pairs(rules))
  {
    forall u, v {:trigger SameForm(k, rules, u, v)} :: Over(k, u) && Over(k, v) ==> (SameForm(k, rules, u, v) <==> Same(ps, u, v))
  }

  ghost predicate SameForm(k: nat, rules: seq<Rule>, u: Word, v: Word)
    requires Ordered(k, Pairs(rules)) && Over(k, u) && Over(k, v)
  {
    NormalForm(k, rules, u) == NormalForm(k, rules, v)
  }

  /** The waiting rules say nothing new: both sides have the same normal form. */
  ghost predicate NothingWaiting(k: nat, st: State)
    requires Ok(k, st) && Ordered(k, Pairs(st.active))
  {
    forall j :: 0 <= j < |st.stack| ==> Over(k, st.stack[j].lhs) && Over(k, st.stack[j].rhs) && SameForm(k, st.active, st.stack[j].lhs, st.stack[j].rhs)
  }

  lemma OkParts(k: nat, st: State)
    requires Ok(k, st)
    ensures Usable(k, st.active, st.shortest) && st.shortest > 0 && Ordered(k, Pairs(st.active))
    ensures forall j :: 0 <= j < |st.stack| ==> Over(k, st.stack[j].lhs) && Over(k, st.stack[j].rhs)
  {
    forall j | 0 <= j < |st.stack| ensures Over(k, st.stack[j].lhs) && Over(k, st.stack[j].rhs) { assert Waiting(k, st.stack[j]); }
  }

  /** Words with the same normal form are related, and can be joined. */
  lemma SameFormJoins(k: nat, rules: seq<Rule>, shortest: nat, u: Word, v: Word)
    requires Usable(k, rules, shortest) && shortest > 0 && Over(k, u) && Over(k, v) && Ordered(k, Pairs(rules)) && SameForm(k, rules, u, v)
    ensures Joinable(Pairs(rules), u, v) && Same(Pairs(rules), u, v)
  {
    NormalFormReached(k, rules, shortest, u);
    NormalFormReached(k, rules, shortest, v);
    var ps, n := Pairs(rules), NormalForm(k, rules, u);
    hide Reach, Same, Usable, Ordered, Pairs, NormalForm;
    ReachSame(ps, u, n);
    ReachSame(ps, v, n);
    SameSym(ps, v, n);
    SameTrans(ps, u, n, v);
  }

  /** If the normal forms decide, then rewriting is confluent and nothing is waiting. */
  lemma DecidesConfluent(k: nat, st: State)
    requires Ok(k, st) && Ordered(k, Pairs(st.active)) && Decides(k, st.active, Everything(st))
    ensures Confluent(k, Pairs(st.active)) && NothingWaiting(k, st)
  {
    OkParts(k, st);
    var ps := Pairs(st.active);
    hide Reach, Same, Usable, Ok, Ordered, Joinable, SameForm;
    forall w, u, v | Over(k, w) && Reach(ps, w, u) && Reach(ps, w, v) ensures Joinable(ps, u, v) {
      ReachDown(k, ps, w, u);
      ReachDown(k, ps, w, v);
      ReachSame(ps, w, u);
      ReachSame(ps, w, v);
      SameSym(ps, w, u);
      SameTrans(ps, u, w, v);
      WithinSubset(ps, Everything(st));
      SameWithin(ps, Everything(st), u, v);
      assert SameForm(k, st.active, u, v) <==> Same(Everything(st), u, v);
      SameFormJoins(k, st.active, st.shortest, u, v);
    }
    forall j | 0 <= j < |st.stack| ensures SameForm(k, st.active, st.stack[j].lhs, st.stack[j].rhs) {
      StackSame(st, j);
      assert SameForm(k, st.active, st.stack[j].lhs, st.stack[j].rhs) <==> Same(Everything(st), st.stack[j].lhs, st.stack[j].rhs);
    }
  }

  lemma StackSame(st: State, j: nat)
    requires j < |st.stack|
    ensures Same(Everything(st), st.stack[j].lhs, st.stack[j].rhs)
  {
    assert st.stack[j].Pair() in Pairs(st.stack);
    hide Same;
    SamePair(Everything(st), st.stack[j].Pair());
  }

  /** If nothing is waiting, the active rules generate the whole congruence. */
  lemma ActiveEnough(k: nat, st: State)
    requires Ok(k, st) && Ordered(k, Pairs(st.active)) && NothingWaiting(k, st)
    ensures Equivalent(Pairs(st.active), Everything(st))
  {
    OkParts(k, st);
    hide Same, Usable, Ordered, SameForm;
    WithinSubset(Pairs(st.active), Everything(st));
    forall p | p in Everything(st) ensures Same(Pairs(st.active), p.0, p.1) {
      if p in Pairs(st.active) {
        SamePair(Pairs(st.active), p);
      } else {
        var r :| r in st.stack && r.Pair() == p;
        var j :| 0 <= j < |st.stack| && st.stack[j] == r;
        SameFormJoins(k, st.active, st.shortest, r.lhs, r.rhs);
      }
    }
  }

  lemma ConfluentSameForm(k: nat, st: State, u: Word, v: Word)
    requires Ok(k, st) && Ordered(k, Pairs(st.active)) && Confluent(k, Pairs(st.active)) && NothingWaiting(k, st) && Over(k, u) && Over(k, v)
    ensures SameForm(k, st.active, u, v) <==> Same(Everything(st), u, v)
  {
    OkParts(k, st);
    ActiveEnough(k, st);
    NormalFormReached(k, st.active, st.shortest, u);
    NormalFormReached(k, st.active, st.shortest, v);
    hide Reach, Same, Usable, Ordered, Normal, NormalForm, Equivalent, Confluent, Ok;
    EquivalentSame(Pairs(st.active), Everything(st), u, v);
    ConfluentDecides(k, Pairs(st.active), u, v, NormalForm(k, st.active, u), NormalForm(k, st.active, v));
  }

  /**
   * Comparing normal forms is right about all words exactly when the active
   * rules are confluent and both sides of every waiting rule have the same
   * normal form.
   */
  lemma ExactIff(k: nat, st: State)
    requires Ok(k, st)
    ensures Ordered(k, Pairs(st.active))
    ensures Decides(k, st.active, Everything(st)) <==> Confluent(k, Pairs(st.active)) && NothingWaiting(k, st)
    ensures st.stack == [] ==> (Decides(k, st.active, Everything(st)) <==> Confluent(k, Pairs(st.active)))
  {
    OkParts(k, st);
    hide Ok, Ordered, Same, SameForm, Confluent;
    if Decides(k, st.active, Everything(st)) {
      DecidesConfluent(k, st);
    }
    if Confluent(k, Pairs(st.active)) && NothingWaiting(k, st) {
      forall u, v {:trigger SameForm(k, st.active, u, v)} | Over(k, u) && Over(k, v) ensures SameForm(k, st.active, u, v) <==> Same(Everything(st), u, v) {
        ConfluentSameForm(k, st, u, v);
      }
    }
  }

  /** Pairs that generate the same congruence are decided alike. */
  lemma DecidesAlike(k: nat, rules: seq<Rule>, ps: set<Pair>, qs: set<Pair>)
    requires Ordered(k, Pairs(rules)) && Equivalent(ps, qs)
    ensures Decides(k, rules, ps) <==> Decides(k, rules, qs)
  {
    hide Same, SameForm, Ordered, Equivalent;
    forall u, v ensures Same(ps, u, v) <==> Same(qs, u, v) { EquivalentSame(ps, qs, u, v); }
  }
}
