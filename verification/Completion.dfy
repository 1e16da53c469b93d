/**
 * Emptying the stack: every waiting rule is reduced, and reduces the active rules.
 * Lines cited here are those of src/rws.cc unless another file is named.
 */
module Completion {
  import opened Words
  import opened ShortLex
  import opened Rank
  import opened Derivations
  import opened Rewriting
  import opened RuleIndex
  import opened InPlace
  import opened Conservation
  import opened RuleState
  import opened KillFlag

  // ----- the rule in hand against the active rules -----

  /** A position in the list after the element at `i` is erased (lines 277-289). */
  function Erased(next: nat, i: nat): nat {
    if next > i then next - 1 else next
  }

  /** `remove_rule`, and the removed rule is put on the stack (lines 270-298 and 495-498). */
  function Remove(st: State, i: nat): State
    requires i < |st.active|
  {
    st.(active := Without(st.active, i), stack := st.stack + [st.active[i]], next1 := Erased(st.next1, i), next2 := Erased(st.next2, i))
  }

  /** The state, and how far the active rules have been compared with `hand`. */
  ghost predicate ScanShape(k: nat, st: State, hand: Rule, i: nat) {
    && Ok(k, st) && OrderedPair(k, hand.Pair()) && Normal(Pairs(st.active), hand.lhs)
    && i <= |st.active| && (forall j :: 0 <= j < i ==> !Contains(st.active[j].lhs, hand.lhs))
  }

  /** Together with the rule in hand the same congruence is generated. */
  ghost predicate ScanKept(st0: State, st: State, hand: Rule) {
    Equivalent(Everything(st0) + {hand.Pair()}, Everything(st) + {hand.Pair()})
  }

  /** What has been removed is on the stack, and can be rewritten by the rule in hand. */
  ghost predicate ScanStack(st0: State, st: State, hand: Rule) {
    st0.stack <= st.stack && (forall j :: |st0.stack| <= j < |st.stack| ==> Contains(st.stack[j].lhs, hand.lhs))
  }

  ghost predicate ScanCover(st0: State, st: State, hand: Rule) {
    Covered(Pairs(st0.active), Pairs(st.active) + {hand.Pair()})
  }

  ghost predicate ScanTotal(k: nat, st0: State, st: State) {
    Total(k, st.active) + Total(k, st.stack) <= Total(k, st0.active) + Total(k, st0.stack)
  }

  ghost predicate ScanRest(st0: State, st: State) {
    st0 == st.(active := st0.active, stack := st0.stack, next1 := st0.next1, next2 := st0.next2)
  }

  /** What holds while the active rules before `i` have been compared with `hand`, from the state `st0`. */
  ghost predicate Scanning(k: nat, st0: State, st: State, hand: Rule, i: nat) {
    && ScanShape(k, st, hand, i) && ScanKept(st0, st, hand) && ScanStack(st0, st, hand)
    && ScanCover(st0, st, hand) && ScanTotal(k, st0, st) && ScanRest(st0, st)
  }

  lemma ScanStart(k: nat, st: State, hand: Rule)
    requires Ok(k, st) && OrderedPair(k, hand.Pair()) && Normal(Pairs(st.active), hand.lhs)
    ensures Scanning(k, st, st, hand, 0)
  {
    hide Ok, OrderedPair, Normal, Equivalent, Covered, Contains, Everything, Total;
    EquivalentRefl(Everything(st) + {hand.Pair()});
    CoveredMore(Pairs(st.active), hand.Pair());
  }

  lemma CoveredMore(ps: set<Pair>, p: Pair)
    ensures Covered(ps, ps + {p})
  {
    CoveredRefl(ps, ps + {p});
  }

  // Removing a rule whose left side contains the one in hand.

  lemma RemoveOk(k: nat, st: State, i: nat)
    requires Ok(k, st) && i < |st.active|
    ensures Ok(k, Remove(st, i)) && Everything(Remove(st, i)) == Everything(st)
  {
    var r := st.active[i];
    UsableRule(k, st.active, st.shortest, r);
    LessIrreflexive(r.rhs, r.lhs);
    UsableWithout(k, st.active, st.shortest, i);
    PairsWithout(st.active, i);
    PairsAppend(st.stack, r);
    hide Usable, OrderedPair, Less;
  }

  lemma NormalFewer(ps: set<Pair>, qs: set<Pair>, w: Word)
    requires qs <= ps && Normal(ps, w)
    ensures Normal(qs, w)
  {
  }

  lemma ContainsReducible(qs: set<Pair>, p: Pair, w: Word)
    requires p in qs && Contains(w, p.0)
    ensures !Normal(qs, w)
  {
    var i :| 0 <= i <= |w| && OccursAt(w, p.0, i);
  }

  /** Dropping a rule whose left side the rule in hand rewrites covers as much as before. */
  lemma CoveredDrop(ps: set<Pair>, before: set<Pair>, after: set<Pair>, dropped: Pair)
    requires Covered(ps, before) && before <= after + {dropped} && !Normal(after, dropped.0)
    ensures Covered(ps, after)
  {
    forall p | p in ps ensures !Normal(after, p.0) {
      var q, i :| q in before && OccursAt(p.0, q.0, i);
      if q !in after {
        var x, j :| x in after && OccursAt(q.0, x.0, j);
        OccursTrans(p.0, q.0, i, x.0, j);
      }
    }
  }

  lemma RemoveShape(k: nat, st: State, hand: Rule, i: nat)
    requires ScanShape(k, st, hand, i) && i < |st.active|
    ensures ScanShape(k, Remove(st, i), hand, i) && Everything(Remove(st, i)) == Everything(st)
  {
    RemoveOk(k, st, i);
    PairsWithout(st.active, i);
    hide Ok, OrderedPair, Everything, Contains;
    NormalFewer(Pairs(st.active), Pairs(Remove(st, i).active), hand.lhs);
    assert forall j :: 0 <= j < i ==> Remove(st, i).active[j] == st.active[j];
  }

  lemma RemoveCover(st0: State, st: State, hand: Rule, i: nat)
    requires ScanCover(st0, st, hand) && i < |st.active| && Contains(st.active[i].lhs, hand.lhs)
    ensures ScanCover(st0, Remove(st, i), hand)
  {
    var st', r := Remove(st, i), st.active[i];
    PairsWithout(st.active, i);
    ContainsReducible(Pairs(st'.active) + {hand.Pair()}, hand.Pair(), r.lhs);
    hide Covered, Contains, Normal, Pairs;
    CoveredDrop(Pairs(st0.active), Pairs(st.active) + {hand.Pair()}, Pairs(st'.active) + {hand.Pair()}, r.Pair());
  }

  lemma RemoveStack(k: nat, st0: State, st: State, hand: Rule, i: nat)
    requires ScanStack(st0, st, hand) && ScanTotal(k, st0, st) && ScanRest(st0, st)
    requires i < |st.active| && Contains(st.active[i].lhs, hand.lhs)
    ensures ScanStack(st0, Remove(st, i), hand) && ScanTotal(k, st0, Remove(st, i)) && ScanRest(st0, Remove(st, i))
  {
    TotalWithout(k, st.active, i);
    TotalAppend(k, st.stack, st.active[i]);
    hide Contains, Total;
  }

  lemma ScanRemove(k: nat, st0: State, st: State, hand: Rule, i: nat)
    requires Scanning(k, st0, st, hand, i) && i < |st.active| && Contains(st.active[i].lhs, hand.lhs)
    ensures Scanning(k, st0, Remove(st, i), hand, i)
  {
    hide ScanShape, ScanStack, ScanCover, ScanTotal, ScanRest, Contains, Equivalent, Everything, Remove;
    RemoveShape(k, st, hand, i);
    RemoveCover(st0, st, hand, i);
    RemoveStack(k, st0, st, hand, i);
  }

  // Rewriting a right side.

  lemma UpdateOk(k: nat, st: State, i: nat, r: Word)
    requires Ok(k, st) && i < |st.active| && Reach(Pairs(st.active), st.active[i].rhs, r)
    ensures var st' := SetRight(st, i, r);
            && Ok(k, st') && Pairs(st'.active) == Pairs(st.active) - {st.active[i].Pair()} + {(st.active[i].lhs, r)}
            && Total(k, st'.active) <= Total(k, st.active)
  {
    var x, y := st.active[i], st.active[i].(rhs := r);
    UsableRule(k, st.active, st.shortest, x);
    UsableOrdered(k, st.active, st.shortest);
    OthersReach(k, Pairs(st.active), x.Pair(), r);
    assert Over(k, x.rhs) && Incomparable(st.active);
    hide Equivalent, Reach, Ordered, OrderedPair, Less, Total, RankOf, Normal, Pairs, Over, Usable;
    RankDown(k, Pairs(st.active), x.rhs, r);
    UsableUpdate(k, st.active, st.shortest, i, y);
    PairsUpdate(st.active, i, y) by { hide Incomparable; }
    TotalUpdate(k, st.active, i, y);
  }

  lemma UpdateEquivalent(k: nat, st: State, i: nat, r: Word, others: set<Pair>)
    requires Ok(k, st) && i < |st.active| && Reach(Pairs(st.active), st.active[i].rhs, r)
    ensures Equivalent(others + Pairs(st.active), others + Pairs(SetRight(st, i, r).active))
  {
    UsableRule(k, st.active, st.shortest, st.active[i]);
    UsableOrdered(k, st.active, st.shortest);
    UpdateOk(k, st, i, r);
    var p := st.active[i].Pair();
    hide Ok, Reach, Ordered, OrderedPair, Total, Pairs, Equivalent;
    RewriteRight(k, Pairs(st.active), others, p, r);
    assert others + (Pairs(st.active) - {p}) + {(p.0, r)} == others + Pairs(SetRight(st, i, r).active);
  }

  function SetRight(st: State, i: nat, r: Word): State
    requires i < |st.active|
  {
    st.(active := st.active[i := st.active[i].(rhs := r)])
  }

  ghost function Lefts(ps: set<Pair>): set<Word> {
    set p | p in ps :: p.0
  }

  lemma NormalLefts(ps: set<Pair>, w: Word)
    ensures Normal(ps, w) <==> forall l, i :: l in Lefts(ps) ==> !OccursAt(w, l, i)
  {
    if Normal(ps, w) {
      forall l, i: nat | l in Lefts(ps) ensures !OccursAt(w, l, i) {
        var p :| p in ps && p.0 == l;
      }
    } else {
      var p, i :| p in ps && OccursAt(w, p.0, i);
      assert p.0 in Lefts(ps);
    }
  }

  lemma NormalSameLeft(ps: set<Pair>, qs: set<Pair>, w: Word)
    requires Lefts(ps) == Lefts(qs)
    ensures Normal(ps, w) <==> Normal(qs, w)
  {
    NormalLefts(ps, w);
    NormalLefts(qs, w);
  }

  lemma LeftsReplace(ps: set<Pair>, qs: set<Pair>, p: Pair, q: Pair)
    requires p in ps && qs == ps - {p} + {q} && q.0 == p.0
    ensures Lefts(ps) == Lefts(qs)
  {
    forall l | l in Lefts(ps) ensures l in Lefts(qs) {
      var x :| x in ps && x.0 == l;
      assert (if x == p then q else x) in qs;
    }
    forall l | l in Lefts(qs) ensures l in Lefts(ps) {
      var x :| x in qs && x.0 == l;
      assert (if x in ps then x else p) in ps;
    }
  }

  lemma LeftsMore(ps: set<Pair>, p: Pair)
    ensures Lefts(ps + {p}) == Lefts(ps) + {p.0}
  {
    forall l | l in Lefts(ps) + {p.0} ensures l in Lefts(ps + {p}) {
      if l == p.0 {
        assert p in ps + {p};
      } else {
        var x :| x in ps && x.0 == l;
        assert x in ps + {p};
      }
    }
  }

  lemma CoveredSameLeft(ps: set<Pair>, qs: set<Pair>, qs': set<Pair>)
    requires Covered(ps, qs) && Lefts(qs) == Lefts(qs')
    ensures Covered(ps, qs')
  {
    hide Lefts;
    forall p | p in ps ensures !Normal(qs', p.0) { NormalSameLeft(qs, qs', p.0); }
  }

  lemma RewriteKept(k: nat, st0: State, st: State, hand: Rule, i: nat, r: Word)
    requires Ok(k, st) && ScanKept(st0, st, hand) && i < |st.active| && Reach(Pairs(st.active), st.active[i].rhs, r)
    ensures ScanKept(st0, SetRight(st, i, r), hand)
  {
    var st' := SetRight(st, i, r);
    var others := Pairs(st.stack) + {hand.Pair()};
    UpdateEquivalent(k, st, i, r, others) by { hide *; }
    hide Ok, Reach, Pairs, Equivalent, ScanKept;
    assert others + Pairs(st.active) == Everything(st) + {hand.Pair()} && others + Pairs(st'.active) == Everything(st') + {hand.Pair()};
    hide *;
    KeptTrans(st0, st, st', hand);
  }

  lemma KeptTrans(st0: State, st: State, st': State, hand: Rule)
    requires ScanKept(st0, st, hand) && Equivalent(Everything(st) + {hand.Pair()}, Everything(st') + {hand.Pair()})
    ensures ScanKept(st0, st', hand)
  {
    hide Equivalent, Everything;
    EquivalentTrans(Everything(st0) + {hand.Pair()}, Everything(st) + {hand.Pair()}, Everything(st') + {hand.Pair()});
  }

  lemma RewriteShape(k: nat, st0: State, st: State, hand: Rule, i: nat, r: Word)
    requires ScanShape(k, st, hand, i) && ScanCover(st0, st, hand) && i < |st.active| && Reach(Pairs(st.active), st.active[i].rhs, r)
    ensures ScanShape(k, SetRight(st, i, r), hand, i) && ScanCover(st0, SetRight(st, i, r), hand)
    ensures Total(k, SetRight(st, i, r).active) <= Total(k, st.active)
  {
    var st', x := SetRight(st, i, r), st.active[i];
    UpdateOk(k, st, i, r);
    assert x.Pair() in Pairs(st.active);
    hide Ok, Reach, OrderedPair, Equivalent, Contains, Pairs, Total, Covered, Normal;
    LeftsReplace(Pairs(st.active), Pairs(st'.active), x.Pair(), (x.lhs, r));
    LeftsMore(Pairs(st.active), hand.Pair());
    LeftsMore(Pairs(st'.active), hand.Pair());
    NormalSameLeft(Pairs(st.active), Pairs(st'.active), hand.lhs);
    CoveredSameLeft(Pairs(st0.active), Pairs(st.active) + {hand.Pair()}, Pairs(st'.active) + {hand.Pair()});
    assert forall j :: 0 <= j < i ==> st'.active[j] == st.active[j];
  }

  lemma ShapeOk(k: nat, st: State, hand: Rule, i: nat)
    requires ScanShape(k, st, hand, i)
    ensures Ok(k, st)
  {
  }

  lemma ScanRewrite(k: nat, st0: State, st: State, hand: Rule, i: nat, r: Word)
    requires Scanning(k, st0, st, hand, i) && i < |st.active| && Reach(Pairs(st.active), st.active[i].rhs, r)
    ensures Scanning(k, st0, SetRight(st, i, r), hand, i)
  {
    hide Ok, ScanShape, ScanCover, ScanKept, Reach, Pairs, Contains, Total;
    ShapeOk(k, st, hand, i);
    RewriteShape(k, st0, st, hand, i, r);
    RewriteKept(k, st0, st, hand, i, r);
  }

  lemma ScanKeep(k: nat, st0: State, st: State, hand: Rule, i: nat)
    requires Scanning(k, st0, st, hand, i) && i < |st.active| && !Contains(st.active[i].lhs, hand.lhs)
    ensures Scanning(k, st0, st, hand, i + 1)
  {
    hide Ok, OrderedPair, Normal, Equivalent, Covered, Contains, Pairs, Total, Everything;
  }

  /** The state after the active rules from `i` on have been compared with `hand`. */
  ghost function Scanned(k: nat, st: State, hand: Rule, i: nat): State
    requires Ok(k, st) && i <= |st.active|
    decreases |st.active| - i
  {
    if i == |st.active| then st
    else if Contains(st.active[i].lhs, hand.lhs) then
      RemoveOk(k, st, i);
      RemoveSize(st, i);
      Scanned(k, Remove(st, i), hand, i)
    else if Contains(st.active[i].rhs, hand.lhs) then
      RightOk(k, st, i);
      Scanned(k, SetRight(st, i, NormalForm(k, st.active, st.active[i].rhs)), hand, i + 1)
    else Scanned(k, st, hand, i + 1)
  }

  lemma RightOk(k: nat, st: State, i: nat)
    requires Ok(k, st) && i < |st.active|
    ensures Ordered(k, Pairs(st.active)) && Over(k, st.active[i].rhs)
    ensures Ok(k, SetRight(st, i, NormalForm(k, st.active, st.active[i].rhs))) && |SetRight(st, i, NormalForm(k, st.active, st.active[i].rhs)).active| == |st.active|
  {
    UsableRule(k, st.active, st.shortest, st.active[i]);
    hide Usable, Reach, OrderedPair, NormalForm, Ordered, Total, Pairs;
    NormalFormReached(k, st.active, st.shortest, st.active[i].rhs);
    UpdateOk(k, st, i, NormalForm(k, st.active, st.active[i].rhs));
  }

  /** Lines 492-505: remove the active rules that the rule in hand makes redundant, and rewrite right sides that contain its left side. */
  method Scan(k: nat, st: State, hand: Rule) returns (st': State)
    requires Ok(k, st) && OrderedPair(k, hand.Pair()) && Normal(Pairs(st.active), hand.lhs)
    ensures Scanning(k, st, st', hand, |st'.active|) && st' == Scanned(k, st, hand, 0)
  {
    hide *;
    st' := st;
    var i := 0;
    ScanStart(k, st, hand);
    ScanBound(k, st, st', hand, i);
    while i < |st'.active|
      invariant i <= |st'.active| && Scanning(k, st, st', hand, i) && Ok(k, st') && Scanned(k, st', hand, i) == Scanned(k, st, hand, 0)
      decreases |st'.active| - i
    {
      ScanUnfolded(k, st', hand, i);
      if Contains(st'.active[i].lhs, hand.lhs) {
        ScanRemove(k, st, st', hand, i);
        RemoveSize(st', i);
        st' := Remove(st', i);
        ScanOk(k, st, st', hand, i);
      } else {
        if Contains(st'.active[i].rhs, hand.lhs) {
          ScanFacts(k, st, st', hand, i);
          var r := RewriteWord(st'.active[i].rhs, st'.active, st'.shortest, k);
          ScanRewrite(k, st, st', hand, i, r);
          SetRightSame(st', i, r);
          st' := SetRight(st', i, r);
        }
        ScanKeep(k, st, st', hand, i);
        i := i + 1;
        ScanOk(k, st, st', hand, i);
      }
    }
    ScannedAll(k, st', hand);
  }

  lemma ScanUnfolded(k: nat, st: State, hand: Rule, i: nat)
    requires Ok(k, st) && i < |st.active|
    ensures Contains(st.active[i].lhs, hand.lhs) ==>
              Ok(k, Remove(st, i)) && |Remove(st, i).active| == |st.active| - 1 && Scanned(k, Remove(st, i), hand, i) == Scanned(k, st, hand, i)
    ensures !Contains(st.active[i].lhs, hand.lhs) && Contains(st.active[i].rhs, hand.lhs) ==>
              && Ordered(k, Pairs(st.active)) && Over(k, st.active[i].rhs)
              && var st' := SetRight(st, i, NormalForm(k, st.active, st.active[i].rhs));
                 Ok(k, st') && |st'.active| == |st.active| && Scanned(k, st', hand, i + 1) == Scanned(k, st, hand, i)
    ensures !Contains(st.active[i].lhs, hand.lhs) && !Contains(st.active[i].rhs, hand.lhs) ==> Scanned(k, st, hand, i + 1) == Scanned(k, st, hand, i)
  {
    RemoveOk(k, st, i);
    RemoveSize(st, i);
    RightOk(k, st, i);
    hide Ok, Contains, Remove, SetRight, NormalForm, Ordered, Everything;
  }

  lemma ScannedAll(k: nat, st: State, hand: Rule)
    requires Ok(k, st)
    ensures Scanned(k, st, hand, |st.active|) == st
  {
  }

  lemma SetRightSame(st: State, i: nat, r: Word)
    requires i < |st.active|
    ensures |SetRight(st, i, r).active| == |st.active| && SetRight(st, i, r).active[i].lhs == st.active[i].lhs
  {
  }

  lemma ScanBound(k: nat, st0: State, st: State, hand: Rule, i: nat)
    requires Scanning(k, st0, st, hand, i)
    ensures i <= |st.active|
  {
  }

  lemma RemoveSize(st: State, i: nat)
    requires i < |st.active|
    ensures |Remove(st, i).active| == |st.active| - 1
  {
  }

  lemma ScanFacts(k: nat, st0: State, st: State, hand: Rule, i: nat)
    requires Scanning(k, st0, st, hand, i) && i < |st.active|
    ensures Usable(k, st.active, st.shortest) && st.shortest > 0 && Over(k, st.active[i].rhs)
  {
    UsableRule(k, st.active, st.shortest, st.active[i]);
  }

  // ----- the rule in hand -----

  /** A rule after both its sides have been rewritten and put in order. */
  ghost predicate Reduced(k: nat, active: set<Pair>, r: Rule, hand: Rule) {
    && Over(k, hand.lhs) && Over(k, hand.rhs) && Normal(active, hand.lhs)
    && (hand.lhs != hand.rhs ==> OrderedPair(k, hand.Pair()))
    && Weight(k, hand) <= Weight(k, r) && (Weight(k, hand) == Weight(k, r) ==> Normal(active, r.lhs))
    && (forall ps: set<Pair> :: active <= ps ==> Equivalent(ps + {r.Pair()}, if hand.lhs == hand.rhs then ps else ps + {hand.Pair()}))
  }

  lemma RankDown(k: nat, rules: set<Pair>, u: Word, v: Word)
    requires Ordered(k, rules) && Over(k, u) && Reach(rules, u, v)
    ensures Over(k, v) && RankOf(k, v) <= RankOf(k, u) && (RankOf(k, v) == RankOf(k, u) ==> u == v)
  {
    ReachDown(k, rules, u, v);
    if u != v { RankMonotone(k, v, u); }
  }

  /** A rule after `Rule::rewrite`. */
  ghost function HandOf(k: nat, active: seq<Rule>, r: Rule): Rule
    requires Ordered(k, Pairs(active)) && Over(k, r.lhs) && Over(k, r.rhs)
  {
    var l, q := NormalForm(k, active, r.lhs), NormalForm(k, active, r.rhs);
    if Less(l, q) then r.(lhs := q, rhs := l, flipped := !r.flipped) else r.(lhs := l, rhs := q)
  }

  /** `Rule::rewrite`: rewrite both sides, and exchange them if necessary (src/rws.h, lines 720-725 and 768-772). */
  method Reduce(k: nat, active: seq<Rule>, shortest: nat, r: Rule) returns (hand: Rule)
    requires Usable(k, active, shortest) && shortest > 0 && Waiting(k, r)
    ensures Reduced(k, Pairs(active), r, hand) && Ordered(k, Pairs(active)) && hand == HandOf(k, active, r)
  {
    hide *;
    UsableOrdered(k, active, shortest);
    WaitingParts(k, r);
    var l := RewriteWord(r.lhs, active, shortest, k);
    var q := RewriteWord(r.rhs, active, shortest, k);
    hand := if Less(l, q) then r.(lhs := q, rhs := l, flipped := !r.flipped) else r.(lhs := l, rhs := q);
    HandIs(k, active, r, l, q, hand);
    HandReduced(k, Pairs(active), r, l, q, hand);
  }

  lemma HandIs(k: nat, active: seq<Rule>, r: Rule, l: Word, q: Word, hand: Rule)
    requires Ordered(k, Pairs(active)) && Over(k, r.lhs) && Over(k, r.rhs)
    requires l == NormalForm(k, active, r.lhs) && q == NormalForm(k, active, r.rhs)
    requires hand == if Less(l, q) then r.(lhs := q, rhs := l, flipped := !r.flipped) else r.(lhs := l, rhs := q)
    ensures hand == HandOf(k, active, r)
  {
    hide NormalForm, Ordered, Less;
  }

  lemma HandReduced(k: nat, active: set<Pair>, r: Rule, l: Word, q: Word, hand: Rule)
    requires Ordered(k, active) && Waiting(k, r)
    requires Reach(active, r.lhs, l) && Normal(active, l) && Reach(active, r.rhs, q) && Normal(active, q)
    requires hand == if Less(l, q) then r.(lhs := q, rhs := l, flipped := !r.flipped) else r.(lhs := l, rhs := q)
    ensures Reduced(k, active, r, hand)
  {
    hide Reach, Normal, Ordered, Equivalent, Less, Over, RankOf;
    RankDown(k, active, r.lhs, l);
    RankDown(k, active, r.rhs, q);
    LessTotal(l, q);
    forall ps: set<Pair> | active <= ps ensures Equivalent(ps + {r.Pair()}, if hand.lhs == hand.rhs then ps else ps + {hand.Pair()}) {
      RewritePair(ps, active, r.Pair(), (l, q));
    }
    LessEqParts(q, l);
  }

  lemma LessEqParts(u: Word, v: Word)
    ensures LessEq(u, v) ==> u == v || Less(u, v)
  {
  }

  // ----- inserting a rule -----

  /** The successful part of `add_rule` (lines 252-265). */
  function Activated(st: State, rule: Rule): State {
    st.(active := st.active + [rule], known := false, shortest := if |rule.lhs| < st.shortest then |rule.lhs| else st.shortest)
  }

  /** `add_rule` inserts a rule unless the index holds an equivalent left side (lines 246-265). */
  method Insert(k: nat, st: State, rule: Rule) returns (inserted: bool, st': State)
    requires Ok(k, st) && OrderedPair(k, rule.Pair())
    ensures inserted <==> forall r :: r in st.active ==> !SuffixRelated(r.lhs, rule.lhs)
    ensures inserted ==> st' == Activated(st, rule) && Ok(k, st')
    ensures !inserted ==> st' == st
  {
    forall i | 0 <= i < |st.active| ensures st.active[i].lhs != [] { UsableRule(k, st.active, st.shortest, st.active[i]); }
    var found, r := Find(st.active, rule.lhs);
    inserted, st' := !found, st;
    if inserted {
      hide SuffixRelated, Usable;
      UsableAppend(k, st.active, st.shortest, rule);
      st' := Activated(st, rule);
    }
  }

  lemma ActivatedEverything(st: State, rule: Rule)
    ensures Everything(Activated(st, rule)) == Everything(st) + {rule.Pair()}
    ensures Pairs(Activated(st, rule).active) == Pairs(st.active) + {rule.Pair()}
  {
    PairsAppend(st.active, rule);
    hide Pairs;
  }

  /** After the scan no active left side is comparable with the one in hand, so it can be inserted. */
  lemma CanInsert(k: nat, st0: State, st: State, hand: Rule)
    requires Scanning(k, st0, st, hand, |st.active|)
    ensures forall r :: r in st.active ==> !SuffixRelated(r.lhs, hand.lhs)
  {
    assert Normal(Pairs(st.active), hand.lhs) && forall j :: 0 <= j < |st.active| ==> !Contains(st.active[j].lhs, hand.lhs);
    hide Scanning, Suffix, Contains, Normal;
    forall r | r in st.active ensures !SuffixRelated(r.lhs, hand.lhs) {
      var j :| 0 <= j < |st.active| && st.active[j] == r;
      assert r.Pair() in Pairs(st.active);
      if Suffix(r.lhs, hand.lhs) {
        SuffixContains(r.lhs, hand.lhs);
        ContainsReducible(Pairs(st.active), r.Pair(), hand.lhs);
      }
      if Suffix(hand.lhs, r.lhs) {
        SuffixContains(hand.lhs, r.lhs);
      }
    }
  }

  lemma SuffixContains(l: Word, w: Word)
    requires Suffix(l, w)
    ensures Contains(w, l)
  {
    assert OccursAt(w, l, |w| - |l|);
  }

  // ----- emptying the stack -----

  /** What emptying the stack keeps. */
  ghost predicate Cleared(k: nat, st0: State, st: State) {
    && Ok(k, st) && Equivalent(Everything(st), Everything(st0))
    && (st0.next1 < |st0.active| ==> st.next1 < |st.active|) && (st0.next2 < |st0.active| ==> st.next2 < |st.active|)
    && st.confluent == st0.confluent && (st.known ==> st0.known && st.active == st0.active)
    && st.total == st0.total && st.unused == st0.unused
  }

  lemma ClearedRefl(k: nat, st: State)
    requires Ok(k, st)
    ensures Cleared(k, st, st)
  {
    EquivalentRefl(Everything(st));
  }

  lemma ClearedTrans(k: nat, st0: State, st1: State, st2: State)
    requires Cleared(k, st0, st1) && Cleared(k, st1, st2)
    ensures Cleared(k, st0, st2)
  {
    hide Ok, Equivalent, Everything;
    EquivalentTrans(Everything(st2), Everything(st1), Everything(st0));
  }

  function Popped(st: State): State
    requires st.stack != []
  {
    st.(stack := st.stack[..|st.stack| - 1])
  }

  function Top(st: State): Rule
    requires st.stack != []
  {
    st.stack[|st.stack| - 1]
  }

  lemma PoppedOk(k: nat, st: State)
    requires Ok(k, st) && st.stack != []
    ensures Ok(k, Popped(st)) && Waiting(k, Top(st)) && Everything(st) == Everything(Popped(st)) + {Top(st).Pair()}
    ensures Total(k, st.stack) == Total(k, Popped(st).stack) + Weight(k, Top(st))
    ensures Open(st.stack, Pairs(st.active)) == Open(Popped(st).stack, Pairs(st.active)) + (if Normal(Pairs(st.active), Top(st).lhs) then 1 else 0)
    ensures Usable(k, st.active, st.shortest) && st.shortest > 0
  {
    assert st.stack == Popped(st).stack + [Top(st)];
    PairsAppend(Popped(st).stack, Top(st));
  }

  ghost function Measure1(k: nat, st: State): nat {
    Total(k, st.active) + Total(k, st.stack)
  }

  ghost function Measure2(st: State): nat {
    Open(st.stack, Pairs(st.active))
  }

  ghost predicate Less2(k: nat, st': State, st: State) {
    Measure1(k, st') < Measure1(k, st) || (Measure1(k, st') == Measure1(k, st) && Measure2(st') < Measure2(st))
  }

  lemma WeightPositive(k: nat, r: Rule)
    requires Waiting(k, r)
    ensures Weight(k, r) > 0
  {
  }

  lemma EquivalentFlip(ps: set<Pair>, qs: set<Pair>)
    requires Equivalent(ps, qs)
    ensures Equivalent(qs, ps)
  {
  }

  lemma ReducedEquivalent(k: nat, active: set<Pair>, r: Rule, hand: Rule, ps: set<Pair>)
    requires Reduced(k, active, r, hand) && active <= ps
    ensures Equivalent(ps + {r.Pair()}, if hand.lhs == hand.rhs then ps else ps + {hand.Pair()})
  {
    hide Equivalent, Normal, Weight, OrderedPair;
  }

  /** Lines 509-511: the rule in hand has become trivial. */
  lemma DropHand(k: nat, st: State, hand: Rule, inactive: seq<nat>)
    requires Ok(k, st) && st.stack != [] && Reduced(k, Pairs(st.active), Top(st), hand) && hand.lhs == hand.rhs
    ensures var st' := Popped(st).(inactive := inactive); Cleared(k, st, st') && Less2(k, st', st)
  {
    hide *;
    PoppedOk(k, st);
    DropKept(k, st, hand, inactive);
    DropSmaller(k, st, inactive);
  }

  lemma DropKept(k: nat, st: State, hand: Rule, inactive: seq<nat>)
    requires Ok(k, st) && st.stack != [] && Ok(k, Popped(st)) && Reduced(k, Pairs(st.active), Top(st), hand) && hand.lhs == hand.rhs
    requires Everything(st) == Everything(Popped(st)) + {Top(st).Pair()}
    ensures Cleared(k, st, Popped(st).(inactive := inactive))
  {
    var ps := Everything(Popped(st));
    assert Pairs(st.active) <= ps;
    assert Everything(Popped(st).(inactive := inactive)) == ps && Ok(k, Popped(st).(inactive := inactive));
    DropEquivalent(k, Pairs(st.active), Top(st), hand, ps) by { hide *; }
    hide Everything, Equivalent, Ok, Reduced, Pairs;
  }

  lemma DropEquivalent(k: nat, active: set<Pair>, r: Rule, hand: Rule, ps: set<Pair>)
    requires Reduced(k, active, r, hand) && hand.lhs == hand.rhs && active <= ps
    ensures Equivalent(ps, ps + {r.Pair()})
  {
    hide *;
    ReducedEquivalent(k, active, r, hand, ps);
    EquivalentFlip(ps + {r.Pair()}, ps);
  }

  lemma DropSmaller(k: nat, st: State, inactive: seq<nat>)
    requires st.stack != [] && Waiting(k, Top(st)) && Total(k, st.stack) == Total(k, Popped(st).stack) + Weight(k, Top(st))
    ensures Less2(k, Popped(st).(inactive := inactive), st)
  {
    WeightPositive(k, Top(st));
    hide Total, Weight, Waiting, Open;
  }

  /** Lines 491-506: the rule in hand has been inserted. */
  lemma InsertHand(k: nat, st: State, hand: Rule, st1: State, st2: State)
    requires Ok(k, st) && st.stack != [] && Reduced(k, Pairs(st.active), Top(st), hand) && hand.lhs != hand.rhs
    requires Scanning(k, Popped(st), st1, hand, |st1.active|) && st2 == Activated(st1, hand) && Ok(k, st2)
    ensures Cleared(k, st, st2) && Less2(k, st2, st)
  {
    hide *;
    ScanParts(k, Popped(st), st1, hand, |st1.active|);
    InsertKept(k, st, hand, st1, st2);
    InsertSmaller(k, st, hand, st1, st2);
    InsertRest(k, st, hand, st1, st2);
  }

  lemma ScanParts(k: nat, st0: State, st: State, hand: Rule, i: nat)
    requires Scanning(k, st0, st, hand, i)
    ensures Ok(k, st) && ScanKept(st0, st, hand) && ScanStack(st0, st, hand) && ScanCover(st0, st, hand)
    ensures ScanTotal(k, st0, st) && ScanRest(st0, st)
  {
    hide ScanKept, ScanStack, ScanCover, ScanTotal, ScanRest, Ok, Contains;
  }

  lemma InsertKept(k: nat, st: State, hand: Rule, st1: State, st2: State)
    requires Ok(k, st) && st.stack != [] && Reduced(k, Pairs(st.active), Top(st), hand) && hand.lhs != hand.rhs
    requires ScanKept(Popped(st), st1, hand) && st2 == Activated(st1, hand)
    ensures Equivalent(Everything(st2), Everything(st))
  {
    PoppedOk(k, st);
    ActivatedEverything(st1, hand);
    var ps := Everything(Popped(st));
    assert Pairs(st.active) <= ps;
    hide Ok, Waiting, Total, Open, Pairs, Normal, Usable, Everything, OrderedPair, Weight, Over;
    assert Equivalent(ps + {Top(st).Pair()}, ps + {hand.Pair()});
    hide Within;
    EquivalentTrans(Everything(st), ps + {hand.Pair()}, Everything(st2));
  }

  lemma InsertSmaller(k: nat, st: State, hand: Rule, st1: State, st2: State)
    requires Ok(k, st) && st.stack != [] && Reduced(k, Pairs(st.active), Top(st), hand)
    requires ScanStack(Popped(st), st1, hand) && ScanCover(Popped(st), st1, hand) && ScanTotal(k, Popped(st), st1)
    requires st2 == Activated(st1, hand)
    ensures Less2(k, st2, st)
  {
    PoppedOk(k, st);
    ActivatedEverything(st1, hand);
    TotalAppend(k, st1.active, hand);
    var rules := Pairs(st2.active);
    hide Ok, Waiting, Total, Open, Pairs, Normal, Usable, Everything, OrderedPair, Weight, Equivalent, Covered, Contains, Over;
    forall j | |Popped(st).stack| <= j < |st2.stack| ensures !Normal(rules, st2.stack[j].lhs) {
      ContainsReducible(rules, hand.Pair(), st2.stack[j].lhs);
    }
    OpenLess(Popped(st).stack, st2.stack, Pairs(st.active), rules);
  }

  lemma InsertRest(k: nat, st: State, hand: Rule, st1: State, st2: State)
    requires st.stack != [] && ScanRest(Popped(st), st1) && st2 == Activated(st1, hand) && Ok(k, st1) && Ok(k, st2)
    requires Equivalent(Everything(st2), Everything(st))
    ensures Cleared(k, st, st2)
  {
    hide Equivalent, Everything, Usable;
  }

  lemma ScanOk(k: nat, st0: State, st: State, hand: Rule, i: nat)
    requires Scanning(k, st0, st, hand, i)
    ensures Ok(k, st) && OrderedPair(k, hand.Pair())
  {
  }

  lemma ReducedParts(k: nat, active: set<Pair>, r: Rule, hand: Rule)
    requires Reduced(k, active, r, hand)
    ensures Normal(active, hand.lhs) && (hand.lhs != hand.rhs ==> OrderedPair(k, hand.Pair()))
  {
  }

  /** The state after one turn of the loop. */
  ghost function Turn(k: nat, st: State): State
    requires Ok(k, st) && st.stack != []
  {
    PoppedOk(k, st);
    UsableOrdered(k, st.active, st.shortest);
    var hand := HandOf(k, st.active, Top(st));
    if hand.lhs == hand.rhs then Popped(st).(inactive := st.inactive + [hand.at])
    else Activated(Scanned(k, Popped(st), hand, 0), hand)
  }

  lemma TurnIs(k: nat, st: State, hand: Rule)
    requires Ok(k, st) && st.stack != [] && Ok(k, Popped(st)) && Ordered(k, Pairs(st.active)) && Over(k, Top(st).lhs) && Over(k, Top(st).rhs)
    requires hand == HandOf(k, st.active, Top(st))
    ensures Turn(k, st) == if hand.lhs == hand.rhs then Popped(st).(inactive := st.inactive + [hand.at])
                           else Activated(Scanned(k, Popped(st), hand, 0), hand)
  {
    hide Ok, HandOf, Scanned, Activated;
  }

  /** One turn of the loop (lines 484-511). */
  method ClearOne(k: nat, st: State) returns (st': State)
    requires Ok(k, st) && st.stack != []
    ensures Cleared(k, st, st') && Less2(k, st', st) && st' == Turn(k, st)
  {
    hide *;
    PoppedOk(k, st);
    var st0, rule := st.(stack := st.stack[..|st.stack| - 1]), st.stack[|st.stack| - 1];
    PoppedIs(st);
    var hand := Reduce(k, st.active, st.shortest, rule);
    ReducedParts(k, Pairs(st.active), rule, hand);
    WaitingParts(k, rule);
    TurnIs(k, st, hand);
    if hand.lhs != hand.rhs {
      var st1 := Scan(k, st0, hand);
      ScanOk(k, st0, st1, hand, |st1.active|);
      CanInsert(k, st0, st1, hand);
      var inserted;
      inserted, st' := Insert(k, st1, hand);
      assert inserted;
      InsertHand(k, st, hand, st1, st');
    } else {
      st' := st0.(inactive := st0.inactive + [hand.at]);
      DropHand(k, st, hand, st0.inactive + [hand.at]);
    }
  }

  lemma WaitingParts(k: nat, r: Rule)
    requires Waiting(k, r)
    ensures Over(k, r.lhs) && Over(k, r.rhs)
  {
  }

  lemma PoppedIs(st: State)
    requires st.stack != []
    ensures Popped(st) == st.(stack := st.stack[..|st.stack| - 1]) && Top(st) == st.stack[|st.stack| - 1]
    ensures Popped(st).inactive == st.inactive && Popped(st).active == st.active
  {
  }

  /** `st'` comes from `st` by `n` turns of the loop. */
  ghost predicate Turned(k: nat, st: State, st': State, n: nat)
    decreases n
  {
    if n == 0 then st' == st
    else Ok(k, st) && st.stack != [] && Turned(k, Turn(k, st), st', n - 1)
  }

  /** `st'` comes from `st` by some turns of the loop. */
  ghost predicate Cleaned(k: nat, st: State, st': State) {
    exists n: nat :: Turned(k, st, st', n)
  }

  lemma {:induction false} TurnedOnce(k: nat, st: State, st': State, n: nat)
    requires Turned(k, st, st', n) && Ok(k, st') && st'.stack != []
    ensures Turned(k, st, Turn(k, st'), n + 1)
    decreases n
  {
    hide Ok, Turn;
    if n > 0 {
      TurnedOnce(k, Turn(k, st), st', n - 1);
    }
  }

  lemma CleanedRefl(k: nat, st: State)
    ensures Cleaned(k, st, st)
  {
    assert Turned(k, st, st, 0);
  }

  lemma CleanedOnce(k: nat, st: State, st': State)
    requires Cleaned(k, st, st') && Ok(k, st') && st'.stack != []
    ensures Cleaned(k, st, Turn(k, st'))
  {
    hide Turned, Ok, Turn;
    var n: nat :| Turned(k, st, st', n);
    TurnedOnce(k, st, st', n);
  }

  lemma {:induction false} TurnedUnique(k: nat, st: State, a: State, n: nat, b: State, m: nat)
    requires Turned(k, st, a, n) && Turned(k, st, b, m) && a.stack == b.stack == []
    ensures a == b
    decreases n
  {
    hide Ok, Turn;
    if n > 0 && m > 0 {
      TurnedUnique(k, Turn(k, st), a, n - 1, b, m - 1);
    }
  }

  /** However often clearing the stack is killed and taken up again, the state in which the stack is empty is the same. */
  lemma ClearedUnique(k: nat, st: State, a: State, b: State)
    requires Cleaned(k, st, a) && Cleaned(k, st, b) && a.stack == b.stack == []
    ensures a == b
  {
    hide Turned;
    var n: nat :| Turned(k, st, a, n);
    var m: nat :| Turned(k, st, b, m);
    TurnedUnique(k, st, a, n, b, m);
  }

  /** `clear_stack` (lines 478-527): it terminates, with an empty stack unless it is killed. */
  method ClearStack(k: nat, st: State, canKill: bool) returns (st': State, killed: bool)
    requires Ok(k, st)
    ensures Cleared(k, st, st') && (killed || st'.stack == []) && (killed ==> canKill)
    ensures Cleaned(k, st, st') && (st.stack == [] ==> st' == st)
  {
    hide *;
    st' := st;
    killed := Killed(canKill);
    ClearedRefl(k, st);
    CleanedRefl(k, st);
    while st'.stack != [] && !killed
      invariant Ok(k, st') && Cleared(k, st, st') && Cleaned(k, st, st') && (st.stack == [] ==> st' == st) && (killed ==> canKill)
      decreases Measure1(k, st'), Measure2(st')
    {
      ghost var before := st';
      CleanedOnce(k, st, st');
      st' := ClearOne(k, st');
      Less2Parts(k, st', before);
      ClearedTrans(k, st, before, st');
      ClearedOk(k, st, st');
      killed := Killed(canKill);
    }
  }

  lemma Less2Parts(k: nat, st': State, st: State)
    requires Less2(k, st', st)
    ensures Measure1(k, st') < Measure1(k, st) || (Measure1(k, st') == Measure1(k, st) && Measure2(st') < Measure2(st))
  {
  }

  lemma ClearedOk(k: nat, st0: State, st: State)
    requires Cleared(k, st0, st)
    ensures Ok(k, st)
  {
  }
}
