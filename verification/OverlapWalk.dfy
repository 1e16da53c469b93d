/**
 * Which overlaps have been dealt with: those of the rules before the first of the two positions in the list of active rules.
 * Lines cited here are those of src/rws.cc.
 */
module OverlapWalk {
  import opened Derivations
  import opened Rewriting
  import opened RuleIndex
  import opened RuleState
  import opened Connections
  import opened Resolution
  import opened Persistence

  // ----- resolved overlaps stay resolved -----

  /** The overlaps of `u` with `v` above both the limit and `it`. */
  ghost predicate ResolvedFrom(ps: set<Pair>, u: Rule, v: Rule, it: int) {
    forall i :: Limit(u, v) < i && it < i ==> CriticalLinked(ps, u.Pair(), v.Pair(), i)
  }

  /** Rewriting the right side of the second rule. */
  lemma LeftWord(ps: set<Pair>, u: Rule, v: Rule, v': Rule, i: nat)
    requires Overlap(u.lhs, v.lhs, i) && Stayed(ps, v, v')
    ensures v'.lhs == v.lhs && Linked(ps, Below(CriticalTop(u.Pair(), v.Pair(), i)), CriticalLeft(u.Pair(), v.Pair(), i), CriticalLeft(u.Pair(), v'.Pair(), i))
  {
    var c := Common(u.lhs, v.lhs, i);
    var x, y := u.lhs[..i], u.lhs[i + c..];
    assert v'.lhs == Left(v').lhs == v.lhs;
    TopSplit(u.lhs, v.lhs, i, c);
    hide Linked, Overlap, Fits;
    BelowInside(v.lhs, x, y);
    LinkedInside(ps, Below(v.lhs), Below(x + v.lhs + y), x, v.rhs, v'.rhs, y);
  }

  /** Rewriting the right side of the first rule. */
  lemma RightWord(ps: set<Pair>, u: Rule, u': Rule, v: Rule, i: nat)
    requires Overlap(u.lhs, v.lhs, i) && Stayed(ps, u, u')
    ensures u'.lhs == u.lhs && Linked(ps, Below(CriticalTop(u.Pair(), v.Pair(), i)), CriticalRight(u.Pair(), v.Pair(), i), CriticalRight(u'.Pair(), v.Pair(), i))
  {
    var c := Common(u.lhs, v.lhs, i);
    var y := v.lhs[c..];
    assert u'.lhs == Left(u').lhs == u.lhs;
    hide Linked, Overlap, Fits;
    BelowInside(u.lhs, [], y);
    LinkedInside(ps, Below(u.lhs), Below([] + u.lhs + y), [], u.rhs, u'.rhs, y);
    Front(u.lhs, y);
    Front(u.rhs, y);
    Front(u'.rhs, y);
  }

  /** A resolved overlap stays resolved while both rules stay. */
  lemma CriticalStays(ps: set<Pair>, u: Rule, v: Rule, ps': set<Pair>, u': Rule, v': Rule, i: nat)
    requires Keeps(ps, ps') && CriticalLinked(ps, u.Pair(), v.Pair(), i) && Stayed(ps', u, u') && Stayed(ps', v, v')
    ensures CriticalLinked(ps', u'.Pair(), v'.Pair(), i)
  {
    assert u'.lhs == Left(u').lhs == u.lhs && v'.lhs == Left(v').lhs == v.lhs;
    if Overlap(u.lhs, v.lhs, i) {
      var b := Below(CriticalTop(u.Pair(), v.Pair(), i));
      LeftWord(ps', u, v, v', i);
      RightWord(ps', u, u', v, i);
      assert CriticalLeft(u'.Pair(), v'.Pair(), i) == CriticalLeft(u.Pair(), v'.Pair(), i);
      assert CriticalRight(u'.Pair(), v'.Pair(), i) == CriticalRight(u'.Pair(), v.Pair(), i);
      assert CriticalTop(u'.Pair(), v'.Pair(), i) == CriticalTop(u.Pair(), v.Pair(), i);
      var x, y, x', y' := CriticalLeft(u.Pair(), v.Pair(), i), CriticalRight(u.Pair(), v.Pair(), i), CriticalLeft(u.Pair(), v'.Pair(), i), CriticalRight(u'.Pair(), v.Pair(), i);
      hide Linked, Keeps, Overlap, CriticalLeft, CriticalRight, CriticalTop, Stayed;
      LinkedKept(ps, ps', b, x, y);
      LinkedSym(ps', b, x, x');
      LinkedTrans(ps', b, x', x, y);
      LinkedTrans(ps', b, x', y, y');
    }
  }

  lemma StayedLimit(ps: set<Pair>, u: Rule, v: Rule, u': Rule, v': Rule)
    requires Stayed(ps, u, u') && Stayed(ps, v, v')
    ensures u'.lhs == u.lhs && v'.lhs == v.lhs && u'.at == u.at && v'.at == v.at && u'.id == u.id && v'.id == v.id && Limit(u', v') == Limit(u, v)
  {
    assert u'.lhs == Left(u').lhs == u.lhs && v'.lhs == Left(v').lhs == v.lhs;
    assert u'.at == Left(u').at && v'.at == Left(v').at && u'.id == Left(u').id && v'.id == Left(v').id;
  }

  lemma FromStays(ps: set<Pair>, u: Rule, v: Rule, ps': set<Pair>, u': Rule, v': Rule, it: int)
    requires Keeps(ps, ps') && ResolvedFrom(ps, u, v, it) && Stayed(ps', u, u') && Stayed(ps', v, v')
    ensures ResolvedFrom(ps', u', v', it)
  {
    StayedLimit(ps', u, v, u', v');
    hide Keeps, CriticalLinked, Stayed, Limit;
    forall i: nat | Limit(u', v') < i && it < i ensures CriticalLinked(ps', u'.Pair(), v'.Pair(), i) {
      CriticalStays(ps, u, v, ps', u', v', i);
    }
  }

  // ----- before the first position -----

  /** The position is before the first of the two positions in the list. */
  predicate Passed(st: State, a: int) {
    0 <= a < st.next1 && a < |st.active|
  }

  /** Pairs of passed rules: those in two objects, those in other objects than one, one and those between the two positions, or all. */
  datatype Which = InObjects(p: nat, q: nat) | NotIn(other: nat) | WithBetween(object: nat) | AllPassed

  ghost predicate Chosen(w: Which, st: State, a: int, b: int)
    requires Passed(st, a) && Passed(st, b)
  {
    match w
    case InObjects(p, q) => st.active[a].at == p && st.active[b].at == q
    case NotIn(p) => st.active[a].at != p && st.active[b].at != p
    case WithBetween(p) => (st.next2 <= a && st.active[b].at == p) || (st.next2 <= b && st.active[a].at == p)
    case AllPassed => true
  }

  /** The overlaps above `it` of the chosen pairs of rules are resolved. */
  ghost predicate Dealt(st: State, w: Which, it: int) {
    forall a, b :: Passed(st, a) && Passed(st, b) && Chosen(w, st, a, b) ==> ResolvedFrom(Everything(st), st.active[a], st.active[b], it)
  }

  /** Where a passed rule was before. */
  lemma PassedBefore(st: State, st': State, a': int) returns (a: nat)
    requires Carried(st, st') && Passed(st', a')
    ensures Passed(st, a) && Stayed(Everything(st'), st.active[a], st'.active[a']) && st.active[a].at == st'.active[a'].at
    ensures st'.next2 <= a' ==> st.next2 <= a
  {
    hide Everything, Keeps, Linked;
    var ps := Everything(st');
    if st'.next2 <= a' {
      assert FromOne(ps, st.active, st.next2, st.next1, st'.active[a']);
      a :| st.next2 <= a < st.next1 && a < |st.active| && Stayed(ps, st.active[a], st'.active[a']);
    } else {
      assert FromOne(ps, st.active, 0, st.next1, st'.active[a']);
      a :| a < st.next1 && a < |st.active| && Stayed(ps, st.active[a], st'.active[a']);
    }
    assert Left(st'.active[a']).at == Left(st.active[a]).at;
  }

  lemma CarriedKeeps(st: State, st': State)
    requires Carried(st, st')
    ensures Keeps(Everything(st), Everything(st'))
  {
    hide Everything, Keeps, From;
  }

  /** What has been dealt with stays so. */
  lemma DealtCarried(st: State, st': State, w: Which, it: int)
    requires Carried(st, st') && Dealt(st, w, it)
    ensures Dealt(st', w, it)
  {
    CarriedKeeps(st, st');
    hide Everything, Keeps, Carried, Stayed, ResolvedFrom, Passed;
    forall a', b' | Passed(st', a') && Passed(st', b') && Chosen(w, st', a', b')
      ensures ResolvedFrom(Everything(st'), st'.active[a'], st'.active[b'], it) {
      var a := PassedBefore(st, st', a');
      var b := PassedBefore(st, st', b');
      assert Chosen(w, st, a, b);
      FromStays(Everything(st), st.active[a], st.active[b], Everything(st'), st'.active[a'], st'.active[b'], it);
    }
  }

  // ----- one pair of rules -----

  /** The rules found at the start of a walk. */
  ghost predicate Found(st: State, p: nat, u: Rule) {
    u in st.active && u.at == p
  }

  /** A passed rule in the object is the one found there. */
  lemma FoundPassed(st: State, p: nat, u: Rule, a: int)
    requires Own(st) && Found(st, p, u) && Passed(st, a) && st.active[a].at == p
    ensures st.active[a] == u
  {
    hide Own;
    var j :| 0 <= j < |st.active| && st.active[j] == u;
    OwnRule(st, a, j);
  }

  /** A rule that is passed in the object is the same as at the start, but for its right side. */
  lemma StillPassed(st: State, st': State, p: nat, u: Rule, a: int)
    requires Own(st) && Carried(st, st') && Found(st, p, u) && Passed(st', a) && st'.active[a].at == p
    ensures Left(st'.active[a]) == Left(u) && st'.active[a].lhs == u.lhs && st'.active[a].id == u.id && st'.active[a].flipped == u.flipped
  {
    hide Own, Carried, Everything, Linked;
    var b := PassedBefore(st, st', a);
    FoundPassed(st, p, u, b);
    var l := Left(st'.active[a]);
    assert l.lhs == st'.active[a].lhs && l.id == st'.active[a].id && l.flipped == st'.active[a].flipped;
  }

  /** At the start no index is above the last one. */
  lemma WalkStart(st: State, p: nat, q: nat, u: Rule)
    requires Own(st) && Found(st, p, u)
    ensures Dealt(st, InObjects(p, q), |u.lhs| - 1)
  {
    hide Own, Everything, Limit, Found, Linked;
    forall a, b | Passed(st, a) && Passed(st, b) && Chosen(InObjects(p, q), st, a, b)
      ensures ResolvedFrom(Everything(st), st.active[a], st.active[b], |u.lhs| - 1) {
      FoundPassed(st, p, u, a);
    }
  }

  /** If one of the objects holds no active rule, or not the same as at the start, nothing is left to do. */
  lemma WalkOver(st: State, st': State, p: nat, q: nat, u: Rule, v: Rule)
    requires Own(st) && Carried(st, st') && Found(st, p, u) && Found(st, q, v) && Own(st')
    requires (forall r :: r in st'.active ==> r.at != p) || (forall r :: r in st'.active ==> r.at != q) ||
             exists r :: (Found(st', p, r) && (r.id != u.id || r.lhs != u.lhs || r.flipped != u.flipped)) || (Found(st', q, r) && r.id != v.id)
    ensures Dealt(st', InObjects(p, q), -1)
  {
    hide Own, Carried, Everything, ResolvedFrom, Found;
    forall a, b | Passed(st', a) && Passed(st', b) ensures !Chosen(InObjects(p, q), st', a, b) {
      if Chosen(InObjects(p, q), st', a, b) {
        PassedIn(st', a);
        PassedIn(st', b);
        var r :| (Found(st', p, r) && (r.id != u.id || r.lhs != u.lhs || r.flipped != u.flipped)) || (Found(st', q, r) && r.id != v.id);
        if Found(st', p, r) {
          FoundPassed(st', p, r, a);
          StillPassed(st, st', p, u, a);
        }
        if Found(st', q, r) {
          FoundPassed(st', q, r, b);
          StillPassed(st, st', q, v, b);
        }
      }
    }
  }

  lemma PassedIn(st: State, a: int)
    requires Passed(st, a)
    ensures 0 <= a < |st.active| && st.active[a] in st.active
  {
  }

  /** The overlap at `it` has been dealt with; `u` and `v` are the rules there were in the two objects. */
  lemma WalkPushed(st: State, st': State, p: nat, q: nat, u: Rule, v: Rule, it: nat)
    requires Own(st) && Carried(st, st') && Found(st, p, u) && Found(st, q, v)
    requires Dealt(st, InObjects(p, q), it) && CriticalLinked(Everything(st'), u.Pair(), v.Pair(), it)
    ensures Dealt(st', InObjects(p, q), it - 1)
  {
    DealtCarried(st, st', InObjects(p, q), it);
    KeepsMore(Everything(st'), Everything(st'));
    hide Own, Carried, Everything, Stayed, CriticalLinked, Found, Keeps;
    forall a, b | Passed(st', a) && Passed(st', b) && Chosen(InObjects(p, q), st', a, b)
      ensures ResolvedFrom(Everything(st'), st'.active[a], st'.active[b], it - 1) {
      var i := PassedBefore(st, st', a);
      var j := PassedBefore(st, st', b);
      FoundPassed(st, p, u, i);
      FoundPassed(st, q, v, j);
      CriticalStays(Everything(st'), u, v, Everything(st'), st'.active[a], st'.active[b], it);
    }
  }

  /** Nothing overlaps at `it`. */
  lemma WalkSkipped(st: State, p: nat, q: nat, u: Rule, v: Rule, it: nat)
    requires Own(st) && Found(st, p, u) && Found(st, q, v) && Dealt(st, InObjects(p, q), it)
    requires it < |u.lhs| && Limit(u, v) < it && !(|u.lhs| - it <= |v.lhs| && u.lhs[it..] == v.lhs[..|u.lhs| - it])
    ensures Dealt(st, InObjects(p, q), it - 1)
  {
    assert !Overlap(u.lhs, v.lhs, it) by {
      assert Common(u.lhs, v.lhs, it) == |u.lhs| - it && u.lhs[it..|u.lhs|] == u.lhs[it..];
    }
    hide Own, Everything, Linked, Found, Overlap;
    forall a, b | Passed(st, a) && Passed(st, b) && Chosen(InObjects(p, q), st, a, b)
      ensures ResolvedFrom(Everything(st), st.active[a], st.active[b], it - 1) {
      FoundPassed(st, p, u, a);
      FoundPassed(st, q, v, b);
      assert CriticalLinked(Everything(st), u.Pair(), v.Pair(), it);
    }
  }

  /** At the limit everything has been dealt with. */
  lemma WalkEnd(st: State, st': State, p: nat, q: nat, u: Rule, v: Rule, it: int)
    requires Own(st) && Carried(st, st') && Found(st, p, u) && Found(st, q, v) && Dealt(st', InObjects(p, q), it) && it <= Limit(u, v)
    ensures Dealt(st', InObjects(p, q), -1)
  {
    hide Own, Carried, Everything, CriticalLinked, Found;
    forall a, b | Passed(st', a) && Passed(st', b) && Chosen(InObjects(p, q), st', a, b)
      ensures ResolvedFrom(Everything(st'), st'.active[a], st'.active[b], -1) {
      StillPassed(st, st', p, u, a);
      StillPassed(st, st', q, v, b);
    }
  }

  // ----- one rule and those before it -----

  /** Moving the first position on, and the second one to the rule it was at. */
  lemma RuleStart(st: State, st': State, p: nat)
    requires Own(st) && st.next1 < |st.active| && st.active[st.next1].at == p && Dealt(st, AllPassed, -1)
    requires st' == st.(next1 := st.next1 + 1, next2 := st.next1)
    ensures Dealt(st', NotIn(p), -1)
  {
    hide Own, ResolvedFrom;
    forall a, b | Passed(st', a) && Passed(st', b) && Chosen(NotIn(p), st', a, b) ensures ResolvedFrom(Everything(st'), st'.active[a], st'.active[b], -1) {
      assert Passed(st, a) && Passed(st, b) && Chosen(AllPassed, st, a, b);
    }
  }

  /** The rule with itself: nothing else is between the positions. */
  lemma RuleItself(st: State, st': State, p: nat)
    requires Own(st) && Carried(st, st') && Own(st') && st.next1 == st.next2 + 1 && st.next2 < |st.active| && st.active[st.next2].at == p
    requires Dealt(st', InObjects(p, p), -1)
    ensures Dealt(st', WithBetween(p), -1)
  {
    hide Own, ResolvedFrom, Carried, Everything, Stayed;
    forall a, b | Passed(st', a) && Passed(st', b) && Chosen(WithBetween(p), st', a, b) ensures ResolvedFrom(Everything(st'), st'.active[a], st'.active[b], -1) {
      var i := PassedBefore(st, st', a);
      var j := PassedBefore(st, st', b);
      assert Chosen(InObjects(p, p), st', a, b);
    }
  }

  /** One more rule between the positions. */
  lemma RuleMore(st: State, st1: State, st': State, p: nat, q: nat)
    requires Own(st) && 0 < st.next2 <= |st.active| && st1 == st.(next2 := st.next2 - 1) && st.active[st.next2 - 1].at == q
    requires Carried(st1, st') && Dealt(st, WithBetween(p), -1)
    requires Dealt(st', InObjects(p, q), -1) && Dealt(st', InObjects(q, p), -1)
    ensures Dealt(st', WithBetween(p), -1)
  {
    hide Own, ResolvedFrom, Carried, Everything;
    forall a, b | Passed(st', a) && Passed(st', b) && Chosen(WithBetween(p), st', a, b) ensures ResolvedFrom(Everything(st'), st'.active[a], st'.active[b], -1) {
      RulePair(st, st1, st', p, q, a, b);
    }
  }

  lemma RulePair(st: State, st1: State, st': State, p: nat, q: nat, a: int, b: int)
    requires 0 < st.next2 <= |st.active| && st1 == st.(next2 := st.next2 - 1) && st.active[st.next2 - 1].at == q
    requires Carried(st1, st') && Dealt(st, WithBetween(p), -1) && Passed(st', a) && Passed(st', b) && Chosen(WithBetween(p), st', a, b)
    requires Dealt(st', InObjects(p, q), -1) && Dealt(st', InObjects(q, p), -1)
    ensures ResolvedFrom(Everything(st'), st'.active[a], st'.active[b], -1)
  {
    CarriedKeeps(st1, st');
    SameState(st, st1);
    hide ResolvedFrom, Carried, Everything, Stayed, Keeps;
    var i := PassedBefore(st1, st', a);
    var j := PassedBefore(st1, st', b);
    if i == st1.next2 && st'.active[b].at == p {
      assert Chosen(InObjects(q, p), st', a, b);
    } else if j == st1.next2 && st'.active[a].at == p {
      assert Chosen(InObjects(p, q), st', a, b);
    } else {
      assert Chosen(WithBetween(p), st, i, j);
      FromStays(Everything(st), st.active[i], st.active[j], Everything(st'), st'.active[a], st'.active[b], -1);
    }
  }

  lemma SameState(st: State, st1: State)
    requires st1 == st.(next2 := st1.next2)
    ensures Everything(st1) == Everything(st)
  {
  }

  /** All rules before it have been looked at, or the rule is not among the passed ones any more. */
  lemma RuleEnd(st: State, p: nat)
    requires Dealt(st, NotIn(p), -1) && Dealt(st, WithBetween(p), -1)
    requires st.next2 == 0 || forall r :: r in st.active ==> r.at != p
    ensures Dealt(st, AllPassed, -1)
  {
    hide ResolvedFrom, Everything;
    forall a, b | Passed(st, a) && Passed(st, b) && Chosen(AllPassed, st, a, b) ensures ResolvedFrom(Everything(st), st.active[a], st.active[b], -1) {
      assert Chosen(NotIn(p), st, a, b) || Chosen(WithBetween(p), st, a, b);
    }
  }

  // ----- all rules -----

  /** At the end of the list, and with nothing waiting, the active rules are resolved. */
  lemma AllDealt(st: State)
    requires Dealt(st, AllPassed, -1) && st.next1 == |st.active| && (st.stack == [] || st.active == [])
    ensures Resolved(st.active)
  {
    hide CriticalLinked, Limit;
    if st.stack == [] {
      assert Everything(st) == Pairs(st.active);
      forall u, v | u in st.active && v in st.active ensures PairResolved(Pairs(st.active), u, v) {
        var a :| 0 <= a < |st.active| && st.active[a] == u;
        var b :| 0 <= b < |st.active| && st.active[b] == v;
        assert Passed(st, a) && Passed(st, b) && Chosen(AllPassed, st, a, b);
      }
    }
  }

  lemma NothingPassed(st: State, w: Which)
    requires st.next1 == 0
    ensures Dealt(st, w, -1)
  {
  }
}
