/** The rules of a rewriting system: the active ones, and those still waiting on the stack. */
module RuleState {
  import opened Words
  import opened Rank
  import opened Derivations
  import opened Rewriting
  import opened RuleIndex
  import opened InPlace

  /**
   * `_active_rules` and `_set_rules`, `_stack`, `_inactive_rules` and the next unused
   * rule object, `_total_rules`, `_min_length_lhs_rule`, the positions of
   * `_next_rule_it1` and `_next_rule_it2`, `_confluence_known` and `_confluent`.
   */
  datatype State = State(active: seq<Rule>, stack: seq<Rule>, inactive: seq<nat>, unused: nat, total: nat, shortest: nat,
                         next1: nat, next2: nat, known: bool, confluent: bool)

  ghost predicate Waiting(k: nat, r: Rule) {
    Over(k, r.lhs) && Over(k, r.rhs) && r.lhs != r.rhs
  }

  ghost predicate Ok(k: nat, st: State) {
    && Usable(k, st.active, st.shortest) && st.shortest > 0
    && (forall j :: 0 <= j < |st.stack| ==> Waiting(k, st.stack[j]))
    && st.next1 <= |st.active| && st.next2 <= |st.active|
  }

  /** All pairs the state holds. */
  ghost function Everything(st: State): set<Pair> {
    Pairs(st.active) + Pairs(st.stack)
  }

  /** `std::string::find` succeeds: `l` is a factor of `w`. */
  predicate Contains(w: Word, l: Word) {
    exists i | 0 <= i <= |w| :: OccursAt(w, l, i)
  }

  // ----- sets of pairs of sequences of rules -----

  function Without(s: seq<Rule>, i: nat): seq<Rule>
    requires i < |s|
  {
    s[..i] + s[i + 1..]
  }

  lemma PairsAppend(s: seq<Rule>, r: Rule)
    ensures Pairs(s + [r]) == Pairs(s) + {r.Pair()}
  {
    forall p | p in Pairs(s) + {r.Pair()} ensures p in Pairs(s + [r]) {
      if p in Pairs(s) {
        var x :| x in s && x.Pair() == p;
        assert x in s + [r];
      } else {
        assert (s + [r])[|s|] == r;
      }
    }
  }

  lemma PairsWithout(s: seq<Rule>, i: nat)
    requires i < |s|
    ensures Pairs(s) == Pairs(Without(s, i)) + {s[i].Pair()}
  {
    forall p | p in Pairs(s) ensures p in Pairs(Without(s, i)) + {s[i].Pair()} {
      var x :| x in s && x.Pair() == p;
      var j :| 0 <= j < |s| && s[j] == x;
      if j < i {
        assert Without(s, i)[j] == x;
      } else if j > i {
        assert Without(s, i)[j - 1] == x;
      }
    }
    forall x | x in Without(s, i) ensures x in s {
      var j :| 0 <= j < |Without(s, i)| && Without(s, i)[j] == x;
      assert x == s[if j < i then j else j + 1];
    }
  }

  lemma DistinctSides(s: seq<Rule>, i: nat, j: nat)
    requires i < |s| && j < |s| && i != j && Incomparable(s)
    ensures s[i].lhs != s[j].lhs
  {
    assert s[i].lhs[0..] == s[i].lhs;
    assert Suffix(s[i].lhs, s[i].lhs);
    var a, b := if i < j then i else j, if i < j then j else i;
    assert !SuffixRelated(s[a].lhs, s[b].lhs);
  }

  /** Left sides are distinct, so a rule is the only one with its pair. */
  lemma PairOnce(s: seq<Rule>, i: nat)
    requires i < |s| && Incomparable(s)
    ensures s[i].Pair() !in Pairs(Without(s, i))
  {
    var t := Without(s, i);
    forall j | 0 <= j < |t| ensures t[j].lhs != s[i].lhs {
      DistinctSides(s, i, if j < i then j else j + 1);
    }
  }

  lemma PairsUpdate(s: seq<Rule>, i: nat, r: Rule)
    requires i < |s| && Incomparable(s)
    ensures Pairs(s[i := r]) == (Pairs(s) - {s[i].Pair()}) + {r.Pair()}
  {
    PairsWithout(s, i);
    PairOnce(s, i);
    PairsWithout(s[i := r], i);
    assert Without(s[i := r], i) == Without(s, i);
  }

  // ----- usable rules stay usable -----

  lemma WithoutAt(s: seq<Rule>, i: nat, j: nat)
    requires i < |s| && j < |Without(s, i)|
    ensures Without(s, i)[j] == s[if j < i then j else j + 1]
  {
  }

  lemma IncomparableWithout(s: seq<Rule>, i: nat)
    requires Incomparable(s) && i < |s|
    ensures Incomparable(Without(s, i))
  {
    var t := Without(s, i);
    assert |t| == |s| - 1;
    hide SuffixRelated, Without;
    forall a, b | 0 <= a < b < |t| ensures !SuffixRelated(t[a].lhs, t[b].lhs) {
      WithoutAt(s, i, a);
      WithoutAt(s, i, b);
    }
  }

  lemma WithoutIn(s: seq<Rule>, i: nat, r: Rule)
    requires i < |s| && r in Without(s, i)
    ensures r in s
  {
    var j :| 0 <= j < |Without(s, i)| && Without(s, i)[j] == r;
    WithoutAt(s, i, j);
  }

  lemma UsableWithout(k: nat, s: seq<Rule>, shortest: nat, i: nat)
    requires Usable(k, s, shortest) && i < |s|
    ensures Usable(k, Without(s, i), shortest)
  {
    PairsWithout(s, i);
    IncomparableWithout(s, i);
    hide Without, Incomparable, Pairs, OrderedPair;
    forall r | r in Without(s, i) ensures shortest <= |r.lhs| { WithoutIn(s, i, r); }
  }

  lemma UsableUpdate(k: nat, s: seq<Rule>, shortest: nat, i: nat, r: Rule)
    requires Usable(k, s, shortest) && i < |s| && r.lhs == s[i].lhs && OrderedPair(k, r.Pair())
    ensures Usable(k, s[i := r], shortest)
  {
    PairsUpdate(s, i, r);
    var t := s[i := r];
    forall x | x in t ensures shortest <= |x.lhs| {
      if x != r {
        var j :| 0 <= j < |t| && t[j] == x;
        assert s[j] == x;
      } else {
        assert s[i] in s;
      }
    }
  }

  lemma UsableAppend(k: nat, s: seq<Rule>, shortest: nat, r: Rule)
    requires Usable(k, s, shortest) && OrderedPair(k, r.Pair())
    requires forall j :: 0 <= j < |s| ==> !SuffixRelated(s[j].lhs, r.lhs)
    ensures Usable(k, s + [r], if |r.lhs| < shortest then |r.lhs| else shortest)
  {
    PairsAppend(s, r);
    var t := s + [r];
    forall x | x in t ensures (if |r.lhs| < shortest then |r.lhs| else shortest) <= |x.lhs| {
      assert x in s || x == r;
    }
  }

  // ----- coverage: which words can be rewritten -----

  /** Every left side of `ps` can be rewritten by `qs`. */
  ghost predicate Covered(ps: set<Pair>, qs: set<Pair>) {
    forall p :: p in ps ==> !Normal(qs, p.0)
  }

  lemma OccursTrans(w: Word, l: Word, i: nat, l': Word, j: nat)
    requires OccursAt(w, l, i) && OccursAt(l, l', j)
    ensures OccursAt(w, l', i + j)
  {
    forall x | 0 <= x < |l'| ensures w[i + j..i + j + |l'|][x] == l'[x] {
      assert l'[x] == l[j..j + |l'|][x] == l[j + x];
      assert l[j + x] == w[i..i + |l|][j + x] == w[i + j + x];
    }
  }

  lemma CoveredWord(ps: set<Pair>, qs: set<Pair>, w: Word)
    requires Covered(ps, qs) && Normal(qs, w)
    ensures Normal(ps, w)
  {
    forall p, i: nat | p in ps ensures !OccursAt(w, p.0, i) {
      if OccursAt(w, p.0, i) {
        var q, j :| q in qs && OccursAt(p.0, q.0, j);
        OccursTrans(w, p.0, i, q.0, j);
      }
    }
  }

  lemma OccursSelf(w: Word)
    ensures OccursAt(w, w, 0)
  {
    assert w[0..|w|] == w;
  }

  lemma CoveredRefl(ps: set<Pair>, qs: set<Pair>)
    requires forall p :: p in ps ==> exists q :: q in qs && q.0 == p.0
    ensures Covered(ps, qs)
  {
    forall p | p in ps ensures !Normal(qs, p.0) {
      var q :| q in qs && q.0 == p.0;
      OccursSelf(p.0);
      assert OccursAt(p.0, q.0, 0);
    }
  }

  // ----- weights, for termination -----

  ghost function Weight(k: nat, r: Rule): nat {
    RankOf(k, r.lhs) + RankOf(k, r.rhs)
  }

  ghost function Total(k: nat, s: seq<Rule>): nat {
    if s == [] then 0 else Total(k, s[..|s| - 1]) + Weight(k, s[|s| - 1])
  }

  lemma TotalAppend(k: nat, s: seq<Rule>, r: Rule)
    ensures Total(k, s + [r]) == Total(k, s) + Weight(k, r)
  {
    assert (s + [r])[..|s|] == s;
  }

  lemma {:induction false} TotalConcat(k: nat, s: seq<Rule>, t: seq<Rule>)
    ensures Total(k, s + t) == Total(k, s) + Total(k, t)
    decreases |t|
  {
    if t == [] {
      assert s + t == s;
    } else {
      assert (s + t)[..|s + t| - 1] == s + t[..|t| - 1];
      TotalConcat(k, s, t[..|t| - 1]);
    }
  }

  lemma TotalWithout(k: nat, s: seq<Rule>, i: nat)
    requires i < |s|
    ensures Total(k, s) == Total(k, Without(s, i)) + Weight(k, s[i])
  {
    assert s == s[..i] + [s[i]] + s[i + 1..];
    TotalConcat(k, s[..i] + [s[i]], s[i + 1..]);
    TotalAppend(k, s[..i], s[i]);
    TotalConcat(k, s[..i], s[i + 1..]);
  }

  lemma TotalUpdate(k: nat, s: seq<Rule>, i: nat, r: Rule)
    requires i < |s|
    ensures Total(k, s[i := r]) == Total(k, s) - Weight(k, s[i]) + Weight(k, r)
  {
    TotalWithout(k, s, i);
    TotalWithout(k, s[i := r], i);
    assert Without(s[i := r], i) == Without(s, i);
  }

  /** How many waiting rules have a left side that no active rule rewrites. */
  ghost function Open(stack: seq<Rule>, rules: set<Pair>): nat {
    if stack == [] then 0
    else Open(stack[..|stack| - 1], rules) + (if Normal(rules, stack[|stack| - 1].lhs) then 1 else 0)
  }

  lemma {:induction false} OpenLess(stack: seq<Rule>, stack': seq<Rule>, rules: set<Pair>, rules': set<Pair>)
    requires stack <= stack' && Covered(rules, rules')
    requires forall j :: |stack| <= j < |stack'| ==> !Normal(rules', stack'[j].lhs)
    ensures Open(stack', rules') <= Open(stack, rules)
    decreases |stack'|
  {
    if stack' != [] {
      var last := stack'[|stack'| - 1];
      if |stack'| > |stack| {
        OpenLess(stack, stack'[..|stack'| - 1], rules, rules');
      } else {
        assert stack == stack';
        OpenLess(stack[..|stack| - 1], stack'[..|stack'| - 1], rules, rules');
        if Normal(rules', last.lhs) {
          CoveredWord(rules, rules', last.lhs);
        }
      }
    }
  }
}
