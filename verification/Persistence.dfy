/**
 * What becomes of the rules while the stack is emptied: which ones stay, and what stays connected.
 * Lines cited here are those of src/rws.cc.
 */
module Persistence {
  import opened Words
  import opened Derivations
  import opened Rewriting
  import opened RuleIndex
  import opened InPlace
  import opened Conservation
  import opened RuleState
  import opened Completion
  import opened Connections
  import opened Resolution

  // ----- rules that stay -----

  /** A rule without its right side. */
  function Left(r: Rule): Rule {
    r.(rhs := [])
  }

  /** `r'` is the same rule, its right side perhaps rewritten, through words below the left side. */
  ghost predicate Stayed(ps: set<Pair>, r: Rule, r': Rule) {
    Left(r') == Left(r) && Linked(ps, Below(r.lhs), r.rhs, r'.rhs)
  }

  ghost predicate FromOne(ps: set<Pair>, s: seq<Rule>, a: nat, b: nat, r': Rule) {
    exists j :: a <= j < b && j < |s| && Stayed(ps, s[j], r')
  }

  /** The rules at the positions from `a'` to `b'` were at the positions from `a` to `b`. */
  ghost predicate From(ps: set<Pair>, s: seq<Rule>, a: nat, b: nat, s': seq<Rule>, a': nat, b': nat) {
    forall j {:trigger s'[j]} :: a' <= j < b' && j < |s'| ==> FromOne(ps, s, a, b, s'[j])
  }

  /**
   * From `st` with the pairs `ps` to `st'` with the pairs `ps'`: what was
   * connected still is, and the rules before the first position, and those
   * between the two positions, were there before.
   */
  ghost predicate CarriedOver(ps: set<Pair>, st: State, ps': set<Pair>, st': State) {
    && Keeps(ps, ps') && From(ps', st.active, 0, st.next1, st'.active, 0, st'.next1)
    && From(ps', st.active, st.next2, st.next1, st'.active, st'.next2, st'.next1)
  }

  ghost predicate Carried(st: State, st': State) {
    CarriedOver(Everything(st), st, Everything(st'), st')
  }

  lemma StayedTrans(ps1: set<Pair>, ps2: set<Pair>, r: Rule, r1: Rule, r2: Rule)
    requires Keeps(ps1, ps2) && Stayed(ps1, r, r1) && Stayed(ps2, r1, r2)
    ensures Stayed(ps2, r, r2)
  {
    hide Keeps, Linked;
    assert r1.lhs == Left(r1).lhs == r.lhs;
    LinkedKept(ps1, ps2, Below(r.lhs), r.rhs, r1.rhs);
    LinkedTrans(ps2, Below(r.lhs), r.rhs, r1.rhs, r2.rhs);
  }

  lemma FromTrans(ps1: set<Pair>, ps2: set<Pair>, s: seq<Rule>, a: nat, b: nat, s1: seq<Rule>, a1: nat, b1: nat, s2: seq<Rule>, a2: nat, b2: nat)
    requires Keeps(ps1, ps2) && From(ps1, s, a, b, s1, a1, b1) && From(ps2, s1, a1, b1, s2, a2, b2)
    ensures From(ps2, s, a, b, s2, a2, b2)
  {
    hide Keeps, Stayed;
    forall j {:trigger s2[j]} | a2 <= j < b2 && j < |s2| ensures FromOne(ps2, s, a, b, s2[j]) {
      assert FromOne(ps2, s1, a1, b1, s2[j]);
      var i :| a1 <= i < b1 && i < |s1| && Stayed(ps2, s1[i], s2[j]);
      assert FromOne(ps1, s, a, b, s1[i]);
      var h :| a <= h < b && h < |s| && Stayed(ps1, s[h], s1[i]);
      StayedTrans(ps1, ps2, s[h], s1[i], s2[j]);
    }
  }

  lemma CarriedTrans(ps: set<Pair>, st: State, ps1: set<Pair>, st1: State, ps2: set<Pair>, st2: State)
    requires CarriedOver(ps, st, ps1, st1) && CarriedOver(ps1, st1, ps2, st2)
    ensures CarriedOver(ps, st, ps2, st2)
  {
    hide Keeps, From;
    KeepsTrans(ps, ps1, ps2);
    FromTrans(ps1, ps2, st.active, 0, st.next1, st1.active, 0, st1.next1, st2.active, 0, st2.next1);
    FromTrans(ps1, ps2, st.active, st.next2, st.next1, st1.active, st1.next2, st1.next1, st2.active, st2.next2, st2.next1);
  }

  lemma StayedSame(k: nat, ps: set<Pair>, active: seq<Rule>, r: Rule)
    requires Ordered(k, Pairs(active)) && r in active
    ensures Stayed(ps, r, r)
  {
    assert r.Pair() in Pairs(active);
    LinkedRefl(ps, Below(r.lhs), r.rhs);
  }

  lemma FromSame(k: nat, ps: set<Pair>, s: seq<Rule>, a: nat, b: nat, s': seq<Rule>)
    requires Ordered(k, Pairs(s)) && s <= s' && b <= |s|
    ensures From(ps, s, a, b, s', a, b)
  {
    hide Ordered, Stayed;
    forall j {:trigger s'[j]} | a <= j < b && j < |s'| ensures FromOne(ps, s, a, b, s'[j]) {
      StayedSame(k, ps, s, s[j]);
    }
  }

  /** Rules may be appended and pairs added. */
  lemma CarriedMore(k: nat, ps: set<Pair>, st: State, ps': set<Pair>, st': State)
    requires Ok(k, st) && Keeps(ps, ps') && st.active <= st'.active && st'.next1 == st.next1 && st'.next2 == st.next2
    ensures CarriedOver(ps, st, ps', st')
  {
    UsableOrdered(k, st.active, st.shortest);
    hide Usable, Ordered, Keeps, From;
    FromSame(k, ps', st.active, 0, st.next1, st'.active);
    FromSame(k, ps', st.active, st.next2, st.next1, st'.active);
  }

  // ----- the rule in hand -----

  /** The pairs with the rule in hand. */
  ghost function WithHand(st: State, hand: Rule): set<Pair> {
    Everything(st) + {hand.Pair()}
  }

  lemma FromWithout(k: nat, ps: set<Pair>, s: seq<Rule>, i: nat, a: nat, b: nat)
    requires Ordered(k, Pairs(s)) && i < |s| && b <= |s|
    ensures From(ps, s, a, b, Without(s, i), Erased(a, i), Erased(b, i))
  {
    hide Ordered, Stayed;
    var t := Without(s, i);
    forall j {:trigger t[j]} | Erased(a, i) <= j < Erased(b, i) && j < |t| ensures FromOne(ps, s, a, b, t[j]) {
      var h := if j < i then j else j + 1;
      StayedSame(k, ps, s, s[h]);
    }
  }

  lemma RemoveCarried(k: nat, st: State, hand: Rule, i: nat)
    requires Ok(k, st) && i < |st.active|
    ensures CarriedOver(WithHand(st, hand), st, WithHand(Remove(st, i), hand), Remove(st, i))
  {
    RemoveOk(k, st, i);
    UsableOrdered(k, st.active, st.shortest);
    hide Usable, Ordered, Everything, From, Keeps;
    var ps := WithHand(st, hand);
    KeepsMore(ps, ps);
    FromWithout(k, ps, st.active, i, 0, st.next1);
    FromWithout(k, ps, st.active, i, st.next2, st.next1);
  }

  lemma FromUpdate(k: nat, ps: set<Pair>, s: seq<Rule>, i: nat, r: Word, a: nat, b: nat)
    requires Ordered(k, Pairs(s)) && i < |s| && b <= |s| && Linked(ps, Below(s[i].lhs), s[i].rhs, r)
    ensures From(ps, s, a, b, s[i := s[i].(rhs := r)], a, b)
  {
    hide Ordered, Linked;
    var t := s[i := s[i].(rhs := r)];
    forall j {:trigger t[j]} | a <= j < b && j < |t| ensures FromOne(ps, s, a, b, t[j]) {
      if j != i {
        StayedSame(k, ps, s, s[j]);
      } else {
        assert Stayed(ps, s[i], t[i]);
      }
    }
  }

  /** Rewriting a right side: the new one is connected to the old one by the other rules, below the left side. */
  lemma RightLinked(k: nat, st: State, i: nat, r: Word)
    requires Ok(k, st) && i < |st.active| && Reach(Pairs(st.active), st.active[i].rhs, r)
    ensures var l, q, ps := st.active[i].lhs, st.active[i].rhs, Pairs(SetRight(st, i, r).active);
            Linked(ps, Below(l), q, r) && Linked(ps, UpTo(l, q), l, q)
    ensures Pairs(SetRight(st, i, r).active) == Pairs(st.active) - {st.active[i].Pair()} + {(st.active[i].lhs, r)}
  {
    var x := st.active[i];
    UsableRule(k, st.active, st.shortest, x);
    UsableOrdered(k, st.active, st.shortest);
    UpdateOk(k, st, i, r);
    var l, q, rest, ps := x.lhs, x.rhs, Pairs(st.active) - {x.Pair()}, Pairs(SetRight(st, i, r).active);
    OthersReach(k, Pairs(st.active), x.Pair(), r);
    hide Usable, Reach, Pairs, Linked, Total, Ok, SetRight;
    assert Ordered(k, rest);
    hide Ordered;
    ReachLinked(k, rest, ps, Below(l), q, r);
    ReachLinked(k, rest, ps, UpTo(l, q), q, r);
    PairUpTo(ps, l, q, r);
    LinkedSym(ps, UpTo(l, q), q, r);
    LinkedTrans(ps, UpTo(l, q), l, r, q);
  }

  lemma PairUpTo(ps: set<Pair>, l: Word, q: Word, r: Word)
    requires (l, r) in ps && Less(r, l)
    ensures Linked(ps, UpTo(l, q), l, r)
  {
    var m := Move([], l, r, []);
    assert m.Before() == l && m.After() == r;
    hide Linked;
    LinkedMove(ps, UpTo(l, q), m);
  }

  lemma SetRightCarried(k: nat, st: State, hand: Rule, i: nat, r: Word)
    requires Ok(k, st) && i < |st.active| && Reach(Pairs(st.active), st.active[i].rhs, r)
    ensures CarriedOver(WithHand(st, hand), st, WithHand(SetRight(st, i, r), hand), SetRight(st, i, r))
  {
    RightLinked(k, st, i, r);
    UsableOrdered(k, st.active, st.shortest);
    var st', x := SetRight(st, i, r), st.active[i];
    var ps, ps', rules := WithHand(st, hand), WithHand(st', hand), Pairs(st'.active);
    hide Usable, Ordered, Linked, Reach, From, Pairs;
    LinkedMore(rules, ps', Below(x.lhs), x.rhs, r);
    LinkedMore(rules, ps', UpTo(x.lhs, x.rhs), x.lhs, x.rhs);
    forall p | p in ps ensures Linked(ps', UpTo(p.0, p.1), p.0, p.1) {
      if p != x.Pair() {
        LinkedPair(ps', p);
      }
    }
    FromUpdate(k, ps', st.active, i, r, 0, st.next1);
    FromUpdate(k, ps', st.active, i, r, st.next2, st.next1);
  }

  lemma {:induction false} ScannedCarried(k: nat, st: State, hand: Rule, i: nat)
    requires Ok(k, st) && i <= |st.active|
    ensures CarriedOver(WithHand(st, hand), st, WithHand(Scanned(k, st, hand, i), hand), Scanned(k, st, hand, i))
    decreases |st.active| - i
  {
    if i == |st.active| {
      ScannedAll(k, st, hand);
      KeepsMore(WithHand(st, hand), WithHand(st, hand));
      hide *;
      CarriedMore(k, WithHand(st, hand), st, WithHand(st, hand), st);
    } else {
      ScanUnfolded(k, st, hand, i);
      hide *;
      if Contains(st.active[i].lhs, hand.lhs) {
        RemoveCarried(k, st, hand, i);
        ScannedCarried(k, Remove(st, i), hand, i);
        CarriedTrans(WithHand(st, hand), st, WithHand(Remove(st, i), hand), Remove(st, i), WithHand(Scanned(k, st, hand, i), hand), Scanned(k, st, hand, i));
      } else if Contains(st.active[i].rhs, hand.lhs) {
        RightReached(k, st, i);
        var st' := SetRight(st, i, NormalForm(k, st.active, st.active[i].rhs));
        SetRightCarried(k, st, hand, i, NormalForm(k, st.active, st.active[i].rhs));
        ScannedCarried(k, st', hand, i + 1);
        CarriedTrans(WithHand(st, hand), st, WithHand(st', hand), st', WithHand(Scanned(k, st, hand, i), hand), Scanned(k, st, hand, i));
      } else {
        ScannedCarried(k, st, hand, i + 1);
      }
    }
  }

  lemma RightReached(k: nat, st: State, i: nat)
    requires Ok(k, st) && i < |st.active|
    ensures Ordered(k, Pairs(st.active)) && Over(k, st.active[i].rhs)
    ensures Reach(Pairs(st.active), st.active[i].rhs, NormalForm(k, st.active, st.active[i].rhs))
  {
    UsableRule(k, st.active, st.shortest, st.active[i]);
    UsableOrdered(k, st.active, st.shortest);
    hide Usable, Reach, NormalForm, Pairs, Ordered;
    NormalFormReached(k, st.active, st.shortest, st.active[i].rhs);
  }

  // ----- one turn -----

  /** The two sides of the rule on top are connected by what is left and the rule in hand. */
  lemma TopLinked(k: nat, active: seq<Rule>, shortest: nat, r: Rule, ps: set<Pair>)
    requires Usable(k, active, shortest) && shortest > 0 && Waiting(k, r) && Pairs(active) <= ps && Ordered(k, Pairs(active))
    requires var hand := HandOf(k, active, r); hand.lhs != hand.rhs ==> hand.Pair() in ps
    ensures Linked(ps, UpTo(r.lhs, r.rhs), r.lhs, r.rhs)
  {
    var rules, l, q, b := Pairs(active), NormalForm(k, active, r.lhs), NormalForm(k, active, r.rhs), UpTo(r.lhs, r.rhs);
    NormalFormReached(k, active, shortest, r.lhs);
    NormalFormReached(k, active, shortest, r.rhs);
    assert (l, q) in ps || (q, l) in ps || l == q;
    ReachDown(k, rules, r.lhs, l);
    ReachDown(k, rules, r.rhs, q);
    assert Fits(b, l) && Fits(b, q);
    hide Reach, Normal, NormalForm, Usable, Ordered, Linked, HandOf, LessEq;
    ReachLinked(k, rules, ps, b, r.lhs, l);
    ReachLinked(k, rules, ps, b, r.rhs, q);
    LinkedSym(ps, b, r.rhs, q);
    if l == q {
      LinkedRefl(ps, b, l);
    } else {
      PairLinked(ps, b, l, q);
    }
    LinkedTrans(ps, b, r.lhs, l, q);
    LinkedTrans(ps, b, r.lhs, q, r.rhs);
  }

  lemma PairLinked(ps: set<Pair>, b: Bound, l: Word, q: Word)
    requires ((l, q) in ps || (q, l) in ps) && Fits(b, l) && Fits(b, q)
    ensures Linked(ps, b, l, q)
  {
    var m := Move([], l, q, []);
    assert m.Before() == l && m.After() == q;
    hide Linked, Fits;
    LinkedMove(ps, b, m);
  }

  /** Taking the top rule in hand. */
  lemma TakeCarried(k: nat, st: State, ps: set<Pair>)
    requires Ok(k, st) && st.stack != [] && Everything(Popped(st)) <= ps
    requires Ordered(k, Pairs(st.active)) && Over(k, Top(st).lhs) && Over(k, Top(st).rhs)
    requires var hand := HandOf(k, st.active, Top(st)); hand.lhs != hand.rhs ==> hand.Pair() in ps
    ensures CarriedOver(Everything(st), st, ps, Popped(st))
  {
    PoppedOk(k, st);
    assert Pairs(st.active) <= Everything(Popped(st));
    hide Usable, Ordered, Everything, Linked, HandOf, Total, Open, Ok, Pairs;
    TopLinked(k, st.active, st.shortest, Top(st), ps);
    KeepsMore(Everything(Popped(st)), ps);
    KeepsUnion(Everything(Popped(st)), Top(st).Pair(), ps);
    CarriedMore(k, Everything(st), st, ps, Popped(st));
  }

  lemma DroppedCarried(k: nat, st: State, inactive: seq<nat>)
    requires Ok(k, st)
    ensures CarriedOver(Everything(st), st, Everything(st), st.(inactive := inactive))
  {
    KeepsMore(Everything(st), Everything(st));
    hide Ok, Everything, Keeps, From;
    CarriedMore(k, Everything(st), st, Everything(st), st.(inactive := inactive));
  }

  lemma ActivatedCarried(k: nat, st: State, hand: Rule)
    requires Ok(k, st)
    ensures CarriedOver(WithHand(st, hand), st, Everything(Activated(st, hand)), Activated(st, hand))
  {
    ActivatedEverything(st, hand);
    hide Ok, Everything, Keeps, From, Pairs;
    KeepsMore(WithHand(st, hand), WithHand(st, hand));
    CarriedMore(k, WithHand(st, hand), st, WithHand(st, hand), Activated(st, hand));
  }

  lemma TurnCarried(k: nat, st: State)
    requires Ok(k, st) && st.stack != []
    ensures Carried(st, Turn(k, st))
  {
    hide *;
    PoppedOk(k, st);
    UsableOrdered(k, st.active, st.shortest);
    WaitingParts(k, Top(st));
    var hand := HandOf(k, st.active, Top(st));
    TurnIs(k, st, hand);
    var p, all := Popped(st), Everything(st);
    if hand.lhs == hand.rhs {
      TakeCarried(k, st, Everything(p));
      DroppedCarried(k, p, st.inactive + [hand.at]);
      CarriedTrans(all, st, Everything(p), p, Everything(p), p.(inactive := st.inactive + [hand.at]));
      SameEverything(p, st.inactive + [hand.at]);
    } else {
      WithHandIs(p, hand);
      TakeCarried(k, st, WithHand(p, hand));
      ScannedCarried(k, p, hand, 0);
      var s := Scanned(k, p, hand, 0);
      ScannedOk(k, p, hand, 0);
      ActivatedCarried(k, s, hand);
      CarriedTrans(all, st, WithHand(p, hand), p, WithHand(s, hand), s);
      CarriedTrans(all, st, WithHand(s, hand), s, Everything(Activated(s, hand)), Activated(s, hand));
    }
    CarriedNow(st, Turn(k, st));
  }

  lemma CarriedNow(st: State, st': State)
    requires CarriedOver(Everything(st), st, Everything(st'), st')
    ensures Carried(st, st')
  {
  }

  lemma SameEverything(st: State, inactive: seq<nat>)
    ensures Everything(st.(inactive := inactive)) == Everything(st)
  {
  }

  lemma WithHandIs(st: State, hand: Rule)
    ensures Everything(st) <= WithHand(st, hand) && hand.Pair() in WithHand(st, hand)
  {
    hide Everything;
  }

  lemma {:induction false} ScannedOk(k: nat, st: State, hand: Rule, i: nat)
    requires Ok(k, st) && i <= |st.active|
    ensures Ok(k, Scanned(k, st, hand, i))
    decreases |st.active| - i
  {
    if i == |st.active| {
      ScannedAll(k, st, hand);
    } else {
      ScanUnfolded(k, st, hand, i);
      hide *;
      if Contains(st.active[i].lhs, hand.lhs) {
        ScannedOk(k, Remove(st, i), hand, i);
      } else if Contains(st.active[i].rhs, hand.lhs) {
        ScannedOk(k, SetRight(st, i, NormalForm(k, st.active, st.active[i].rhs)), hand, i + 1);
      } else {
        ScannedOk(k, st, hand, i + 1);
      }
    }
  }

  // ----- what a turn leaves -----

  lemma {:induction false} ScannedScanning(k: nat, st0: State, st: State, hand: Rule, i: nat)
    requires Scanning(k, st0, st, hand, i)
    ensures Ok(k, st) && i <= |st.active|
    ensures Scanning(k, st0, Scanned(k, st, hand, i), hand, |Scanned(k, st, hand, i).active|)
    decreases |st.active| - i
  {
    hide *;
    ScanOk(k, st0, st, hand, i);
    ScanBound(k, st0, st, hand, i);
    if i == |st.active| {
      ScannedAll(k, st, hand);
    } else {
      ScanUnfolded(k, st, hand, i);
      if Contains(st.active[i].lhs, hand.lhs) {
        ScanRemove(k, st0, st, hand, i);
        ScannedScanning(k, st0, Remove(st, i), hand, i);
      } else {
        if Contains(st.active[i].rhs, hand.lhs) {
          RightReached(k, st, i);
          var r := NormalForm(k, st.active, st.active[i].rhs);
          ScanRewrite(k, st0, st, hand, i, r);
          SetRightSame(st, i, r);
          ScanKeep(k, st0, SetRight(st, i, r), hand, i);
          ScannedScanning(k, st0, SetRight(st, i, r), hand, i + 1);
        } else {
          ScanKeep(k, st0, st, hand, i);
          ScannedScanning(k, st0, st, hand, i + 1);
        }
      }
    }
  }

  lemma {:induction false} ScannedFree(k: nat, st: State, hand: Rule, i: nat)
    requires Ok(k, st) && i <= |st.active| && Free(st.active)
    ensures Free(Scanned(k, st, hand, i).active)
    decreases |st.active| - i
  {
    if i == |st.active| {
      ScannedAll(k, st, hand);
    } else {
      ScanUnfolded(k, st, hand, i);
      hide *;
      if Contains(st.active[i].lhs, hand.lhs) {
        FreeWithout(st, i);
        ScannedFree(k, Remove(st, i), hand, i);
      } else if Contains(st.active[i].rhs, hand.lhs) {
        var r := NormalForm(k, st.active, st.active[i].rhs);
        FreeSetRight(st, i, r);
        ScannedFree(k, SetRight(st, i, r), hand, i + 1);
      } else {
        ScannedFree(k, st, hand, i + 1);
      }
    }
  }

  lemma FreeWithout(st: State, i: nat)
    requires i < |st.active| && Free(st.active)
    ensures Free(Remove(st, i).active)
  {
    hide Contains;
    var t := Without(st.active, i);
    forall a, b | 0 <= a < |t| && 0 <= b < |t| && a != b ensures !Contains(t[a].lhs, t[b].lhs) {
      assert t[a] == st.active[if a < i then a else a + 1] && t[b] == st.active[if b < i then b else b + 1];
    }
  }

  lemma FreeSetRight(st: State, i: nat, r: Word)
    requires i < |st.active| && Free(st.active)
    ensures Free(SetRight(st, i, r).active)
  {
    hide Contains;
    var t := SetRight(st, i, r).active;
    forall a, b | 0 <= a < |t| && 0 <= b < |t| && a != b ensures !Contains(t[a].lhs, t[b].lhs) {
      assert t[a].lhs == st.active[a].lhs && t[b].lhs == st.active[b].lhs;
    }
  }

  /** A rule whose left side contains no other one, and is contained in none, can be added. */
  lemma FreeAppend(s: seq<Rule>, hand: Rule)
    requires Free(s) && Normal(Pairs(s), hand.lhs) && forall j :: 0 <= j < |s| ==> !Contains(s[j].lhs, hand.lhs)
    ensures Free(s + [hand])
  {
    var t := s + [hand];
    forall a, b | 0 <= a < |t| && 0 <= b < |t| && a != b ensures !Contains(t[a].lhs, t[b].lhs) {
      if a < |s| && b < |s| {
        assert !Contains(s[a].lhs, s[b].lhs);
      } else if a == |s| {
        assert s[b].Pair() in Pairs(s);
        if Contains(hand.lhs, s[b].lhs) {
          ContainsReducible(Pairs(s), s[b].Pair(), hand.lhs);
        }
      }
    }
  }

  lemma HandReducedNow(k: nat, active: seq<Rule>, shortest: nat, r: Rule)
    requires Usable(k, active, shortest) && shortest > 0 && Waiting(k, r)
    ensures Ordered(k, Pairs(active)) && Over(k, r.lhs) && Over(k, r.rhs)
    ensures Completion.Reduced(k, Pairs(active), r, HandOf(k, active, r))
  {
    hide *;
    UsableOrdered(k, active, shortest);
    WaitingParts(k, r);
    var l, q := NormalForm(k, active, r.lhs), NormalForm(k, active, r.rhs);
    NormalFormReached(k, active, shortest, r.lhs);
    NormalFormReached(k, active, shortest, r.rhs);
    var hand := if Less(l, q) then r.(lhs := q, rhs := l, flipped := !r.flipped) else r.(lhs := l, rhs := q);
    HandIs(k, active, r, l, q, hand);
    HandReduced(k, Pairs(active), r, l, q, hand);
  }

  lemma ScannedShape(k: nat, st0: State, st: State, hand: Rule)
    requires Scanning(k, st0, st, hand, |st.active|)
    ensures Ok(k, st) && OrderedPair(k, hand.Pair()) && Normal(Pairs(st.active), hand.lhs)
    ensures forall j :: 0 <= j < |st.active| ==> !Contains(st.active[j].lhs, hand.lhs)
    ensures forall r :: r in st.active ==> !SuffixRelated(r.lhs, hand.lhs)
  {
    CanInsert(k, st0, st, hand);
    hide Ok, OrderedPair, Normal, Contains, ScanKept, ScanStack, ScanCover, ScanTotal, ScanRest, SuffixRelated;
  }

  lemma ActivatedOk(k: nat, st: State, hand: Rule)
    requires Ok(k, st) && OrderedPair(k, hand.Pair()) && forall r :: r in st.active ==> !SuffixRelated(r.lhs, hand.lhs)
    ensures Ok(k, Activated(st, hand)) && Activated(st, hand).active == st.active + [hand]
  {
    UsableRuleLength(k, hand);
    hide SuffixRelated, Usable, OrderedPair;
    UsableAppend(k, st.active, st.shortest, hand);
  }

  lemma UsableRuleLength(k: nat, hand: Rule)
    requires OrderedPair(k, hand.Pair())
    ensures |hand.lhs| > 0
  {
  }

  /** A turn keeps the rules usable, and left sides that do not occur in each other stay so. */
  lemma TurnKeeps(k: nat, st: State)
    requires Ok(k, st) && st.stack != []
    ensures Ok(k, Turn(k, st)) && (Free(st.active) ==> Free(Turn(k, st).active)) && (st.active != [] ==> Turn(k, st).active != [])
  {
    hide *;
    PoppedOk(k, st);
    PoppedIs(st);
    HandReducedNow(k, st.active, st.shortest, Top(st));
    var hand, p := HandOf(k, st.active, Top(st)), Popped(st);
    TurnIs(k, st, hand);
    ReducedParts(k, Pairs(st.active), Top(st), hand);
    if hand.lhs == hand.rhs {
      OkInactive(k, p, st.inactive + [hand.at]);
    } else {
      ScanStart(k, p, hand);
      ScannedScanning(k, p, p, hand, 0);
      var s := Scanned(k, p, hand, 0);
      ScannedShape(k, p, s, hand);
      ActivatedOk(k, s, hand);
      if Free(st.active) {
        ScannedFree(k, p, hand, 0);
        FreeAppend(s.active, hand);
      }
    }
  }

  lemma OkInactive(k: nat, st: State, inactive: seq<nat>)
    requires Ok(k, st)
    ensures Ok(k, st.(inactive := inactive))
  {
    hide Usable;
  }

  // ----- any number of turns -----

  lemma CarriedRefl(k: nat, st: State)
    requires Ok(k, st)
    ensures Carried(st, st)
  {
    KeepsMore(Everything(st), Everything(st));
    hide Ok, Everything, Keeps, From;
    CarriedMore(k, Everything(st), st, Everything(st), st);
  }

  lemma CarriedTwice(st: State, st1: State, st2: State)
    requires Carried(st, st1) && Carried(st1, st2)
    ensures Carried(st, st2)
  {
    hide CarriedOver, Everything;
    CarriedTrans(Everything(st), st, Everything(st1), st1, Everything(st2), st2);
  }

  // ----- left sides inside others -----

  /** One left side occurs in another one. */
  ghost predicate Nested(rules: seq<Rule>, c: int, d: int) {
    0 <= c < |rules| && 0 <= d < |rules| && c != d && Contains(rules[c].lhs, rules[d].lhs)
  }

  /** Rules of which one left side occurs in the other have both been active before. */
  ghost predicate NestedBefore(ps: set<Pair>, s: seq<Rule>, s': seq<Rule>) {
    forall c, d :: Nested(s', c, d) ==> FromOne(ps, s, 0, |s|, s'[c]) && FromOne(ps, s, 0, |s|, s'[d])
  }

  /**
   * What lasts: connections, left sides that do not occur in each other, and that
   * some rule is active; rules with a left side in another one are not new.
   */
  ghost predicate Lasting(st: State, st': State) {
    && Keeps(Everything(st), Everything(st')) && (Free(st.active) ==> Free(st'.active)) && (st.active != [] ==> st'.active != [])
    && NestedBefore(Everything(st'), st.active, st'.active)
  }

  lemma LeftSame(r: Rule, r': Rule)
    requires Left(r) == Left(r')
    ensures r.lhs == r'.lhs && r.at == r'.at && r.id == r'.id && r.flipped == r'.flipped
  {
    assert Left(r).lhs == r.lhs && Left(r').lhs == r'.lhs && Left(r).at == r.at && Left(r').at == r'.at;
    assert Left(r).id == r.id && Left(r').id == r'.id && Left(r).flipped == r.flipped && Left(r').flipped == r'.flipped;
  }

  /** Where the rules were, one left side occurred in the other too. */
  lemma NestedThen(ps: set<Pair>, s: seq<Rule>, s': seq<Rule>, c': int, d': int) returns (c: nat, d: nat)
    requires NestedBefore(ps, s, s') && Nested(s', c', d') && Incomparable(s')
    ensures Nested(s, c, d) && Stayed(ps, s[c], s'[c']) && Stayed(ps, s[d], s'[d'])
  {
    hide Linked, Contains, Incomparable;
    assert FromOne(ps, s, 0, |s|, s'[c']) && FromOne(ps, s, 0, |s|, s'[d']);
    c :| c < |s| && Stayed(ps, s[c], s'[c']);
    d :| d < |s| && Stayed(ps, s[d], s'[d']);
    LeftSame(s[c], s'[c']);
    LeftSame(s[d], s'[d']);
    DistinctSides(s', c', d');
  }

  lemma NestedTrans(ps1: set<Pair>, ps2: set<Pair>, s: seq<Rule>, s1: seq<Rule>, s2: seq<Rule>)
    requires Keeps(ps1, ps2) && NestedBefore(ps1, s, s1) && NestedBefore(ps2, s1, s2) && Incomparable(s2)
    ensures NestedBefore(ps2, s, s2)
  {
    hide Stayed, Keeps, Contains, Incomparable;
    forall c2, d2 | Nested(s2, c2, d2) ensures FromOne(ps2, s, 0, |s|, s2[c2]) && FromOne(ps2, s, 0, |s|, s2[d2]) {
      var c1, d1 := NestedThen(ps2, s1, s2, c2, d2);
      FromOneTrans(ps1, ps2, s, s1[c1], s2[c2]);
      FromOneTrans(ps1, ps2, s, s1[d1], s2[d2]);
    }
  }

  lemma FromOneTrans(ps1: set<Pair>, ps2: set<Pair>, s: seq<Rule>, r1: Rule, r2: Rule)
    requires Keeps(ps1, ps2) && FromOne(ps1, s, 0, |s|, r1) && Stayed(ps2, r1, r2)
    ensures FromOne(ps2, s, 0, |s|, r2)
  {
    hide Stayed, Keeps;
    var h :| 0 <= h < |s| && Stayed(ps1, s[h], r1);
    StayedTrans(ps1, ps2, s[h], r1, r2);
  }

  lemma NestedSame(k: nat, ps: set<Pair>, s: seq<Rule>)
    requires Ordered(k, Pairs(s))
    ensures NestedBefore(ps, s, s)
  {
    hide Stayed, Ordered, Contains;
    forall c, d | Nested(s, c, d) ensures FromOne(ps, s, 0, |s|, s[c]) && FromOne(ps, s, 0, |s|, s[d]) {
      StayedSame(k, ps, s, s[c]);
      StayedSame(k, ps, s, s[d]);
    }
  }

  /** With a rule in hand: what was connected still is, and all active rules were there before. */
  ghost predicate AllFrom(st: State, st': State, hand: Rule) {
    && Keeps(WithHand(st, hand), WithHand(st', hand))
    && From(WithHand(st', hand), st.active, 0, |st.active|, st'.active, 0, |st'.active|)
  }

  lemma AllFromTrans(st: State, st1: State, st2: State, hand: Rule)
    requires AllFrom(st, st1, hand) && AllFrom(st1, st2, hand)
    ensures AllFrom(st, st2, hand)
  {
    hide WithHand, Keeps, From;
    KeepsTrans(WithHand(st, hand), WithHand(st1, hand), WithHand(st2, hand));
    FromTrans(WithHand(st1, hand), WithHand(st2, hand), st.active, 0, |st.active|, st1.active, 0, |st1.active|, st2.active, 0, |st2.active|);
  }

  lemma AllFromRefl(k: nat, st: State, hand: Rule)
    requires Ok(k, st)
    ensures AllFrom(st, st, hand)
  {
    OkOrdered(k, st);
    hide Ok, WithHand, Keeps, From, Ordered, Usable;
    KeepsMore(WithHand(st, hand), WithHand(st, hand));
    FromSame(k, WithHand(st, hand), st.active, 0, |st.active|, st.active);
  }

  lemma AllFromRemove(k: nat, st: State, hand: Rule, i: nat)
    requires Ok(k, st) && i < |st.active|
    ensures AllFrom(st, Remove(st, i), hand)
  {
    OkOrdered(k, st);
    RemoveCarried(k, st, hand, i);
    hide Ok, WithHand, Keeps, From, Ordered, Usable;
    FromWithout(k, WithHand(Remove(st, i), hand), st.active, i, 0, |st.active|);
  }

  lemma AllFromUpdate(k: nat, st: State, hand: Rule, i: nat, r: Word)
    requires Ok(k, st) && i < |st.active| && Reach(Pairs(st.active), st.active[i].rhs, r)
    ensures AllFrom(st, SetRight(st, i, r), hand)
  {
    OkOrdered(k, st);
    SetRightCarried(k, st, hand, i, r);
    RightLinked(k, st, i, r);
    var ps := WithHand(SetRight(st, i, r), hand);
    hide Ok, Ordered, From, Linked, Reach, Pairs, Keeps, Usable;
    LinkedMore(Pairs(SetRight(st, i, r).active), ps, Below(st.active[i].lhs), st.active[i].rhs, r);
    FromUpdate(k, ps, st.active, i, r, 0, |st.active|);
  }

  /** All rules that the scan leaves were there before. */
  lemma {:induction false} ScannedFrom(k: nat, st: State, hand: Rule, i: nat)
    requires Ok(k, st) && i <= |st.active|
    ensures AllFrom(st, Scanned(k, st, hand, i), hand)
    decreases |st.active| - i
  {
    if i == |st.active| {
      ScannedAll(k, st, hand);
      hide *;
      AllFromRefl(k, st, hand);
    } else {
      ScanUnfolded(k, st, hand, i);
      hide *;
      if Contains(st.active[i].lhs, hand.lhs) {
        AllFromRemove(k, st, hand, i);
        ScannedFrom(k, Remove(st, i), hand, i);
        AllFromTrans(st, Remove(st, i), Scanned(k, st, hand, i), hand);
      } else if Contains(st.active[i].rhs, hand.lhs) {
        RightReached(k, st, i);
        var r := NormalForm(k, st.active, st.active[i].rhs);
        AllFromUpdate(k, st, hand, i, r);
        ScannedFrom(k, SetRight(st, i, r), hand, i + 1);
        AllFromTrans(st, SetRight(st, i, r), Scanned(k, st, hand, i), hand);
      } else {
        ScannedFrom(k, st, hand, i + 1);
      }
    }
  }

  lemma OkOrdered(k: nat, st: State)
    requires Ok(k, st)
    ensures Ordered(k, Pairs(st.active)) && Usable(k, st.active, st.shortest) && st.shortest > 0 && Incomparable(st.active)
  {
  }

  /** The rule in hand neither contains a left side nor is contained in one, so it is not in question. */
  lemma TurnNested(k: nat, st: State)
    requires Ok(k, st) && st.stack != []
    ensures NestedBefore(Everything(Turn(k, st)), st.active, Turn(k, st).active)
  {
    hide *;
    PoppedOk(k, st);
    PoppedIs(st);
    OkOrdered(k, st);
    HandReducedNow(k, st.active, st.shortest, Top(st));
    var hand, p := HandOf(k, st.active, Top(st)), Popped(st);
    TurnIs(k, st, hand);
    ReducedParts(k, Pairs(st.active), Top(st), hand);
    if hand.lhs == hand.rhs {
      NestedSame(k, Everything(Turn(k, st)), st.active);
    } else {
      ScanStart(k, p, hand);
      ScannedScanning(k, p, p, hand, 0);
      var s := Scanned(k, p, hand, 0);
      ScannedShape(k, p, s, hand);
      ScannedFrom(k, p, hand, 0);
      ActivatedEverything(s, hand);
      ActivatedOk(k, s, hand);
      FromAll(p, s, hand);
      NestedAppend(Everything(Turn(k, st)), st.active, s.active, hand);
    }
  }

  lemma FromAll(st: State, st': State, hand: Rule)
    requires AllFrom(st, st', hand)
    ensures WithHand(st', hand) == Everything(st') + {hand.Pair()}
    ensures From(WithHand(st', hand), st.active, 0, |st.active|, st'.active, 0, |st'.active|) && Keeps(WithHand(st, hand), WithHand(st', hand))
  {
  }

  lemma NestedAppend(ps: set<Pair>, s: seq<Rule>, t: seq<Rule>, hand: Rule)
    requires From(ps, s, 0, |s|, t, 0, |t|) && Normal(Pairs(t), hand.lhs) && forall j :: 0 <= j < |t| ==> !Contains(t[j].lhs, hand.lhs)
    ensures NestedBefore(ps, s, t + [hand])
  {
    hide FromOne;
    var t' := t + [hand];
    forall c, d | Nested(t', c, d) ensures FromOne(ps, s, 0, |s|, t'[c]) && FromOne(ps, s, 0, |s|, t'[d]) {
      NotHand(t, hand, c, d);
      assert t'[c] == t[c] && t'[d] == t[d];
    }
  }

  lemma NotHand(t: seq<Rule>, hand: Rule, c: int, d: int)
    requires Normal(Pairs(t), hand.lhs) && (forall j :: 0 <= j < |t| ==> !Contains(t[j].lhs, hand.lhs)) && Nested(t + [hand], c, d)
    ensures c < |t| && d < |t|
  {
    forall j | 0 <= j < |t| ensures !Contains(hand.lhs, t[j].lhs) {
      assert t[j].Pair() in Pairs(t);
      if Contains(hand.lhs, t[j].lhs) {
        ContainsReducible(Pairs(t), t[j].Pair(), hand.lhs);
      }
    }
  }

  lemma TurnLasting(k: nat, st: State)
    requires Ok(k, st) && st.stack != []
    ensures Lasting(st, Turn(k, st))
  {
    TurnKeeps(k, st);
    TurnCarried(k, st);
    TurnNested(k, st);
    hide Ok, Turn, Everything, Free, Keeps, NestedBefore, From;
  }

  // ----- rule objects -----

  function Ats(s: seq<Rule>): seq<nat> {
    seq(|s|, i requires 0 <= i < |s| => s[i].at)
  }

  /** The objects that hold an active or a waiting rule, and those that can be used again. */
  ghost function Objects(st: State): multiset<nat> {
    multiset(Ats(st.active)) + multiset(Ats(st.stack)) + multiset(st.inactive)
  }

  /** No object is in two places. */
  ghost predicate Own(st: State) {
    forall x :: Objects(st)[x] <= 1 && (x in Objects(st) ==> x < st.unused)
  }

  ghost predicate SameObjects(st: State, st': State) {
    Objects(st') == Objects(st) && st'.unused == st.unused
  }

  lemma AtsAppend(s: seq<Rule>, r: Rule)
    ensures multiset(Ats(s + [r])) == multiset(Ats(s)) + multiset{r.at}
  {
    assert Ats(s + [r]) == Ats(s) + [r.at];
  }

  lemma AtsWithout(s: seq<Rule>, i: nat)
    requires i < |s|
    ensures multiset(Ats(s)) == multiset(Ats(Without(s, i))) + multiset{s[i].at}
  {
    var x, y := Ats(s[..i]), Ats(s[i + 1..]);
    assert Ats(s) == x + [s[i].at] + y;
    assert Ats(Without(s, i)) == x + y;
  }

  lemma RemoveObjects(st: State, i: nat)
    requires i < |st.active|
    ensures SameObjects(st, Remove(st, i))
  {
    AtsWithout(st.active, i);
    AtsAppend(st.stack, st.active[i]);
    hide Ats, Without;
  }

  lemma SetRightObjects(st: State, i: nat, r: Word)
    requires i < |st.active|
    ensures SameObjects(st, SetRight(st, i, r))
  {
    assert Ats(SetRight(st, i, r).active) == Ats(st.active);
  }

  lemma {:induction false} ScannedObjects(k: nat, st: State, hand: Rule, i: nat)
    requires Ok(k, st) && i <= |st.active|
    ensures SameObjects(st, Scanned(k, st, hand, i))
    decreases |st.active| - i
  {
    if i == |st.active| {
      ScannedAll(k, st, hand);
    } else {
      ScanUnfolded(k, st, hand, i);
      hide Ok, Scanned, Contains, Objects, Remove, SetRight, NormalForm, Ordered;
      if Contains(st.active[i].lhs, hand.lhs) {
        RemoveObjects(st, i);
        ScannedObjects(k, Remove(st, i), hand, i);
      } else if Contains(st.active[i].rhs, hand.lhs) {
        SetRightObjects(st, i, NormalForm(k, st.active, st.active[i].rhs));
        ScannedObjects(k, SetRight(st, i, NormalForm(k, st.active, st.active[i].rhs)), hand, i + 1);
      } else {
        ScannedObjects(k, st, hand, i + 1);
      }
    }
  }

  lemma PoppedObjects(st: State)
    requires st.stack != []
    ensures Objects(st) == Objects(Popped(st)) + multiset{Top(st).at} && Popped(st).unused == st.unused
  {
    assert st.stack == Popped(st).stack + [Top(st)];
    AtsAppend(Popped(st).stack, Top(st));
    hide Ats;
  }

  lemma DroppedObjects(st: State, at: nat)
    ensures Objects(st.(inactive := st.inactive + [at])) == Objects(st) + multiset{at}
  {
    hide Ats;
  }

  lemma ActivatedObjects(st: State, hand: Rule)
    ensures Objects(Activated(st, hand)) == Objects(st) + multiset{hand.at} && Activated(st, hand).unused == st.unused
  {
    AtsAppend(st.active, hand);
    hide Ats;
  }

  lemma HandAt(k: nat, active: seq<Rule>, r: Rule)
    requires Ordered(k, Pairs(active)) && Over(k, r.lhs) && Over(k, r.rhs)
    ensures HandOf(k, active, r).at == r.at
  {
    hide NormalForm, Ordered, Less;
  }

  lemma TurnObjects(k: nat, st: State)
    requires Ok(k, st) && st.stack != []
    ensures SameObjects(st, Turn(k, st))
  {
    hide *;
    PoppedOk(k, st);
    PoppedIs(st);
    UsableOrdered(k, st.active, st.shortest);
    WaitingParts(k, Top(st));
    HandAt(k, st.active, Top(st));
    var hand, p := HandOf(k, st.active, Top(st)), Popped(st);
    TurnIs(k, st, hand);
    PoppedObjects(st);
    if hand.lhs == hand.rhs {
      DroppedObjects(p, hand.at);
      ObjectsNow(st, p.(inactive := st.inactive + [hand.at]));
    } else {
      ScannedObjects(k, p, hand, 0);
      ObjectsThen(p, Scanned(k, p, hand, 0));
      ActivatedObjects(Scanned(k, p, hand, 0), hand);
      ObjectsNow(st, Activated(Scanned(k, p, hand, 0), hand));
    }
  }

  lemma ObjectsNow(st: State, st': State)
    requires Objects(st') == Objects(st) && st'.unused == st.unused
    ensures SameObjects(st, st')
  {
  }

  lemma ObjectsThen(st: State, st': State)
    requires SameObjects(st, st')
    ensures Objects(st') == Objects(st) && st'.unused == st.unused
  {
  }

  lemma OwnKept(st: State, st': State)
    requires SameObjects(st, st')
    ensures Own(st') <==> Own(st)
  {
    hide Objects;
  }

  lemma CountTwo(s: seq<nat>, i: nat, j: nat)
    requires i < j < |s| && s[i] == s[j]
    ensures multiset(s)[s[i]] >= 2
  {
    var x, y := s[..j], s[j..];
    assert s == x + y && x[i] == s[i] && y[0] == s[i];
    assert s[i] in multiset(x) && s[i] in multiset(y);
  }

  /** An object holds one active rule at most. */
  lemma OwnRule(st: State, a: nat, b: nat)
    requires Own(st) && a < |st.active| && b < |st.active| && st.active[a].at == st.active[b].at
    ensures a == b
  {
    var s := Ats(st.active);
    assert Objects(st)[s[a]] <= 1;
    hide Own;
    if a < b {
      CountTwo(s, a, b);
    } else if b < a {
      CountTwo(s, b, a);
    }
  }

  // ----- any number of turns, in all -----

  /** What emptying the stack, as far as it gets, leaves. */
  lemma {:induction false} TurnedKeeps(k: nat, st: State, st': State, n: nat)
    requires Ok(k, st) && Turned(k, st, st', n)
    ensures Ok(k, st') && Carried(st, st') && Lasting(st, st') && SameObjects(st, st')
    decreases n
  {
    if n == 0 {
      hide *;
      TurnedNone(k, st, st');
      CarriedRefl(k, st);
      LastingRefl(k, st);
      ObjectsNow(st, st);
    } else {
      hide Ok, Turn, Carried, Objects, Free, Lasting;
      TurnKeeps(k, st);
      TurnCarried(k, st);
      TurnLasting(k, st);
      TurnObjects(k, st);
      TurnedKeeps(k, Turn(k, st), st', n - 1);
      CarriedTwice(st, Turn(k, st), st');
      LastingTrans(k, st, Turn(k, st), st');
    }
  }

  lemma TurnedNone(k: nat, st: State, st': State)
    requires Turned(k, st, st', 0)
    ensures st' == st
  {
  }

  lemma LastingRefl(k: nat, st: State)
    requires Ok(k, st)
    ensures Lasting(st, st)
  {
    LastingSame(k, st, st);
  }

  /** With the same active rules, and perhaps more waiting. */
  lemma LastingSame(k: nat, st: State, st': State)
    requires Ok(k, st) && st'.active == st.active && Everything(st) <= Everything(st')
    ensures Lasting(st, st')
  {
    OkOrdered(k, st);
    hide Ok, Everything, Keeps, NestedBefore, Ordered, Usable;
    KeepsMore(Everything(st), Everything(st'));
    NestedSame(k, Everything(st'), st.active);
  }

  lemma LastingTrans(k: nat, st: State, st1: State, st2: State)
    requires Lasting(st, st1) && Lasting(st1, st2) && Ok(k, st2)
    ensures Lasting(st, st2)
  {
    OkOrdered(k, st2);
    hide Ok, Everything, Keeps, NestedBefore, Ordered, Usable, Free, Incomparable;
    KeepsTrans(Everything(st), Everything(st1), Everything(st2));
    NestedTrans(Everything(st1), Everything(st2), st.active, st1.active, st2.active);
  }

  lemma CleanedKeeps(k: nat, st: State, st': State)
    requires Ok(k, st) && Cleaned(k, st, st')
    ensures Ok(k, st') && Carried(st, st') && Lasting(st, st') && SameObjects(st, st')
  {
    hide Ok, Turned, Carried, Lasting, SameObjects;
    var n: nat :| Turned(k, st, st', n);
    TurnedKeeps(k, st, st', n);
  }
}
