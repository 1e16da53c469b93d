/**
 * What pushing a copy of a rule achieves: if another left side occurs in its own one, both ways to rewrite it are connected below it.
 * Lines cited here are those of src/rws.cc.
 */
module Reduction {
  import opened Words
  import opened ShortLex
  import opened Rank
  import opened Derivations
  import opened Rewriting
  import opened RuleIndex
  import opened InPlace
  import opened RuleState
  import opened Completion
  import opened Connections
  import opened Resolution
  import opened Persistence

  /** A part of `l` shorter than it can be rewritten so that the result is connected with `r` below `l`. */
  ghost predicate Tamed(ps: set<Pair>, l: Word, r: Word) {
    exists m :: TamedBy(ps, m, l, r)
  }

  ghost predicate TamedBy(ps: set<Pair>, m: Move, l: Word, r: Word) {
    m.Before() == l && |m.lhs| < |l| && DownBy(ps, m) && Linked(ps, Below(l), m.After(), r)
  }

  ghost predicate DownBy(ps: set<Pair>, m: Move) {
    Less(m.rhs, m.lhs) && ((m.lhs, m.rhs) in ps || (m.rhs, m.lhs) in ps)
  }

  // ----- it stays so -----

  lemma LessOutside(x: Word, u: Word, v: Word, y: Word)
    requires Less(x + u + y, x + v + y)
    ensures Less(u, v)
  {
    LessTotal(u, v);
    if LessEq(v, u) {
      LessInside(x, v, u, y);
      LessIrreflexive(x + u + y, x + v + y);
      LessTrans(x + v + y, x + u + y, x + v + y);
      LexIrreflexive(x + v + y);
    }
  }

  /** The step of a chain that leaves `a` for good, when all words are up to `a` and the last one is below. */
  ghost predicate Leaves(ps: set<Pair>, a: Word, n: Move, b: Word) {
    n.Before() == a && DownBy(ps, n) && Linked(ps, Below(a), n.After(), b)
  }

  lemma {:induction false} Leave(ps: set<Pair>, a: Word, ms: seq<Move>, u: Word, b: Word)
    requires Chain(Undirected(ps), ms, u, b) && Through(UpTo(a, a), ms) && LessEq(u, a) && Less(b, a)
    ensures (Less(u, a) && Linked(ps, Below(a), u, b)) || exists n :: Leaves(ps, a, n, b)
  {
    if ms == [] {
      LinkedRefl(ps, Below(a), b);
    } else {
      var m := ms[0];
      ChainRest(ps, UpTo(a, a), ms, u, b);
      Leave(ps, a, ms[1..], m.After(), b);
      hide Linked, Chain, Through;
      if !exists n :: Leaves(ps, a, n, b) {
        if Less(u, a) {
          LinkedMove(ps, Below(a), m);
          LinkedTrans(ps, Below(a), u, m.After(), b);
        } else {
          LessOutside(m.pre, m.rhs, m.lhs, m.post);
          assert Leaves(ps, a, m, b);
        }
      }
    }
  }

  lemma LinkedLeaves(ps: set<Pair>, a: Word, b: Word) returns (n: Move)
    requires Linked(ps, UpTo(a, b), a, b) && Less(b, a)
    ensures Leaves(ps, a, n, b)
  {
    hide Leaves, Fits;
    UpToOne(a, b);
    LinkedWider(ps, UpTo(a, b), UpTo(a, a), a, b);
    var ms :| Chain(Undirected(ps), ms, a, b) && Through(UpTo(a, a), ms);
    Leave(ps, a, ms, a, b);
    LexIrreflexive(a);
    n :| Leaves(ps, a, n, b);
  }

  lemma UpToOne(a: Word, b: Word)
    requires Less(b, a)
    ensures forall z :: Fits(UpTo(a, b), z) ==> Fits(UpTo(a, a), z)
  {
    forall z | Fits(UpTo(a, b), z) ensures Fits(UpTo(a, a), z) {
      if LessEq(z, b) { LessTrans(z, b, a); }
    }
  }

  /** A pair of the old set, in the direction down, in the new one. */
  lemma DownKept(ps: set<Pair>, qs: set<Pair>, m: Move)
    requires Keeps(ps, qs) && DownBy(ps, m)
    ensures Linked(qs, UpTo(m.lhs, m.rhs), m.lhs, m.rhs)
  {
    hide Linked;
    var a, b := m.lhs, m.rhs;
    if (a, b) in ps {
      assert Linked(qs, UpTo((a, b).0, (a, b).1), (a, b).0, (a, b).1);
    } else {
      assert Linked(qs, UpTo((b, a).0, (b, a).1), (b, a).0, (b, a).1);
      LinkedSym(qs, UpTo(b, a), b, a);
      LinkedWider(qs, UpTo(b, a), UpTo(a, b), a, b);
    }
  }

  lemma TamedKept(ps: set<Pair>, qs: set<Pair>, l: Word, r: Word)
    requires Keeps(ps, qs) && Tamed(ps, l, r)
    ensures Tamed(qs, l, r)
  {
    hide Keeps, Linked, DownBy;
    var m :| TamedBy(ps, m, l, r);
    DownKept(ps, qs, m);
    LinkedKept(ps, qs, Below(l), m.After(), r);
    DownLess(ps, m);
    var n := LinkedLeaves(qs, m.lhs, m.rhs);
    TamedThrough(qs, m, n, l, r);
  }

  lemma DownLess(ps: set<Pair>, m: Move)
    requires DownBy(ps, m)
    ensures Less(m.rhs, m.lhs)
  {
  }

  /** The step `n` inside the place of the step `m`. */
  lemma TamedThrough(ps: set<Pair>, m: Move, n: Move, l: Word, r: Word)
    requires m.Before() == l && |m.lhs| < |l| && Leaves(ps, m.lhs, n, m.rhs) && Linked(ps, Below(l), m.After(), r)
    ensures Tamed(ps, l, r)
  {
    var t := Move(m.pre + n.pre, n.lhs, n.rhs, n.post + m.post);
    assert t.Before() == m.pre + n.Before() + m.post && t.After() == m.pre + n.After() + m.post;
    assert |n.lhs| <= |m.lhs|;
    hide Linked, DownBy, Fits;
    BelowInside(m.lhs, m.pre, m.post);
    LinkedInside(ps, Below(m.lhs), Below(l), m.pre, n.After(), m.rhs, m.post);
    LinkedTrans(ps, Below(l), t.After(), m.After(), r);
    DownSame(ps, n, t);
    assert TamedBy(ps, t, l, r);
  }

  lemma DownSame(ps: set<Pair>, m: Move, n: Move)
    requires DownBy(ps, m) && n.lhs == m.lhs && n.rhs == m.rhs
    ensures DownBy(ps, n)
  {
  }

  lemma TamedMore(ps: set<Pair>, l: Word, r: Word, r': Word)
    requires Tamed(ps, l, r) && Linked(ps, Below(l), r, r')
    ensures Tamed(ps, l, r')
  {
    hide Linked, DownBy;
    var m :| TamedBy(ps, m, l, r);
    LinkedTrans(ps, Below(l), m.After(), r, r');
    assert TamedBy(ps, m, l, r');
  }

  // ----- the first left side that ends in a word -----

  lemma {:induction false} ReducedReach(k: nat, rules: seq<Rule>, v: Word, w: Word)
    requires Ordered(k, Pairs(rules)) && Over(k, v + w)
    ensures Reach(Pairs(rules), v + w, InPlace.Reduced(k, rules, v, w))
    decreases RankOf(k, v + w), |w|
  {
    if w == [] {
      assert v + w == v;
      ReachRefl(Pairs(rules), v);
    } else if Completes(rules, v + [w[0]]) {
      var r := TheRule(rules, v + [w[0]]);
      var n := |v| + 1 - |r.lhs|;
      RuleDown(k, rules, v, w, r);
      ReducedUnfolded(k, rules, v, w);
      hide *;
      ReducedReach(k, rules, v[..n], r.rhs + w[1..]);
      var m := Move(v[..n], r.lhs, r.rhs, w[1..]);
      PairListed(k, rules, r);
      RuleNonempty(k, r);
      StepShape(v, w, r.lhs, r.rhs);
      MoveIs(k, Pairs(rules), m, r);
      ReachMove(Pairs(rules), m);
      ReachTrans(Pairs(rules), v + w, m.After(), InPlace.Reduced(k, rules, v, w));
    } else {
      Shift(v, v, w);
      ReducedReach(k, rules, v + [w[0]], w[1..]);
    }
  }

  /** If a left side ends before the end of the word, the first one that ends is applied first. */
  lemma {:induction false} FirstRedex(k: nat, rules: seq<Rule>, shortest: nat, l: Word, v: Word, w: Word) returns (m: Move)
    requires Usable(k, rules, shortest) && Over(k, v + w) && l == v + w && Normal(Pairs(rules), v)
    requires l != [] && !Normal(Pairs(rules), l[..|l| - 1])
    ensures (m.lhs, m.rhs) in Pairs(rules) && m.Before() == l && m.post != [] && Ordered(k, Pairs(rules))
    ensures Reach(Pairs(rules), m.After(), InPlace.Reduced(k, rules, v, w))
    decreases |w|
  {
    hide *;
    UsableOrdered(k, rules, shortest);
    MoreLetters(rules, l, v, w);
    if Completes(rules, v + [w[0]]) {
      m := RedexHere(k, rules, v, w);
    } else {
      Shift(v, v, w);
      NoneEnds(rules, v + [w[0]]);
      ReducedLetter(k, rules, v, w);
      NormalLetter(k, rules, shortest, v, w[0]);
      m := FirstRedex(k, rules, shortest, l, v + [w[0]], w[1..]);
    }
  }

  lemma MoreLetters(rules: seq<Rule>, l: Word, v: Word, w: Word)
    requires l == v + w && Normal(Pairs(rules), v) && l != [] && !Normal(Pairs(rules), l[..|l| - 1])
    ensures |w| > 1
  {
    hide Normal;
    if |w| <= 1 {
      assert l[..|l| - 1] == v[..|l| - 1];
      NormalPrefix(Pairs(rules), v, |l| - 1);
    }
  }

  lemma RedexHere(k: nat, rules: seq<Rule>, v: Word, w: Word) returns (m: Move)
    requires Ordered(k, Pairs(rules)) && Over(k, v + w) && |w| > 1 && Completes(rules, v + [w[0]])
    ensures (m.lhs, m.rhs) in Pairs(rules) && m.Before() == v + w && m.post != []
    ensures Reach(Pairs(rules), m.After(), InPlace.Reduced(k, rules, v, w))
  {
    hide *;
    var r := TheRule(rules, v + [w[0]]);
    var n := |v| + 1 - |r.lhs|;
    RuleDown(k, rules, v, w, r);
    ReducedUnfolded(k, rules, v, w);
    m := Move(v[..n], r.lhs, r.rhs, w[1..]);
    ReducedReach(k, rules, v[..n], r.rhs + w[1..]);
    PairListed(k, rules, r);
    RuleNonempty(k, r);
    StepShape(v, w, r.lhs, r.rhs);
    MoveIs(k, Pairs(rules), m, r);
  }

  lemma NoneEnds(rules: seq<Rule>, x: Word)
    requires !Completes(rules, x)
    ensures forall r :: r in rules ==> !Suffix(r.lhs, x)
  {
    hide Suffix;
  }

  // ----- the copy of a rule on the stack -----

  /** Both sides are rewritten: that the two results are connected is what a turn sees to. */
  lemma FormsLinked(k: nat, active: seq<Rule>, shortest: nat, copy: Rule, ps: set<Pair>)
    requires Usable(k, active, shortest) && shortest > 0 && Waiting(k, copy) && Less(copy.rhs, copy.lhs)
    requires Ordered(k, Pairs(active)) && Over(k, copy.lhs) && Over(k, copy.rhs) && Pairs(active) <= ps
    requires var hand := HandOf(k, active, copy); hand.lhs != hand.rhs ==> hand.Pair() in ps
    requires Less(NormalForm(k, active, copy.lhs), copy.lhs)
    ensures Linked(ps, Below(copy.lhs), NormalForm(k, active, copy.lhs), copy.rhs)
  {
    var rules, l, q, b := Pairs(active), NormalForm(k, active, copy.lhs), NormalForm(k, active, copy.rhs), Below(copy.lhs);
    NormalFormReached(k, active, shortest, copy.rhs);
    assert (l, q) in ps || (q, l) in ps || l == q;
    ReachDown(k, rules, copy.rhs, q);
    LessTrans(q, copy.rhs, copy.lhs);
    assert Fits(b, l) && Fits(b, q) && Fits(b, copy.rhs);
    hide Reach, Normal, NormalForm, Usable, Ordered, Linked, HandOf, LessEq, Less;
    ReachLinked(k, rules, ps, b, copy.rhs, q);
    LinkedSym(ps, b, copy.rhs, q);
    if l == q {
      LinkedRefl(ps, b, l);
    } else {
      PairLinked(ps, b, l, q);
    }
    LinkedTrans(ps, b, l, q, copy.rhs);
  }

  lemma CopyTamed(k: nat, active: seq<Rule>, shortest: nat, copy: Rule, ps: set<Pair>)
    requires Usable(k, active, shortest) && shortest > 0 && Waiting(k, copy) && Less(copy.rhs, copy.lhs) && copy.lhs != []
    requires Ordered(k, Pairs(active)) && Over(k, copy.lhs) && Over(k, copy.rhs) && Pairs(active) <= ps
    requires var hand := HandOf(k, active, copy); hand.lhs != hand.rhs ==> hand.Pair() in ps
    requires !Normal(Pairs(active), copy.lhs[..|copy.lhs| - 1])
    ensures Tamed(ps, copy.lhs, copy.rhs)
  {
    hide *;
    var l, r := copy.lhs, copy.rhs;
    NoneYet(k, active, l);
    NormalEmpty(k, active, shortest);
    var m := FirstRedex(k, active, shortest, l, [], l);
    MoveDown(k, Pairs(active), m);
    var n := NormalForm(k, active, l);
    ReachDown(k, Pairs(active), m.After(), n);
    LessTrans(n, m.After(), l);
    LessIsLessEq(m.After(), l);
    FormsLinked(k, active, shortest, copy, ps);
    BelowFits(m.After(), l);
    ReachLinked(k, Pairs(active), ps, Below(l), m.After(), n);
    LinkedTrans(ps, Below(l), m.After(), n, r);
    TamedNow(k, Pairs(active), ps, m, l, r);
  }

  lemma NoneYet(k: nat, active: seq<Rule>, l: Word)
    requires Ordered(k, Pairs(active)) && Over(k, l)
    ensures [] + l == l && NormalForm(k, active, l) == InPlace.Reduced(k, active, [], l)
  {
    assert [] + l == l;
  }

  lemma NormalEmpty(k: nat, active: seq<Rule>, shortest: nat)
    requires Usable(k, active, shortest) && shortest > 0
    ensures Normal(Pairs(active), [])
  {
    NormalShort(k, active, shortest, []);
  }

  lemma LessIsLessEq(u: Word, v: Word)
    requires Less(u, v)
    ensures LessEq(u, v)
  {
  }

  lemma BelowFits(u: Word, v: Word)
    requires Less(u, v)
    ensures Fits(Below(v), u)
  {
  }

  lemma TamedNow(k: nat, rules: set<Pair>, ps: set<Pair>, m: Move, l: Word, r: Word)
    requires Ordered(k, rules) && rules <= ps && (m.lhs, m.rhs) in rules && m.Before() == l && m.post != [] && Linked(ps, Below(l), m.After(), r)
    ensures Tamed(ps, l, r)
  {
    assert OrderedPair(k, (m.lhs, m.rhs));
    hide Linked;
    assert TamedBy(ps, m, l, r);
  }

  lemma TurnTamed(k: nat, st: State)
    requires Ok(k, st) && st.stack != [] && Less(Top(st).rhs, Top(st).lhs) && Top(st).lhs != []
    requires !Normal(Pairs(st.active), Top(st).lhs[..|Top(st).lhs| - 1])
    ensures Tamed(Everything(Turn(k, st)), Top(st).lhs, Top(st).rhs)
  {
    hide *;
    PoppedOk(k, st);
    PoppedIs(st);
    OkOrdered(k, st);
    WaitingParts(k, Top(st));
    var hand, p, l, r := HandOf(k, st.active, Top(st)), Popped(st), Top(st).lhs, Top(st).rhs;
    TurnIs(k, st, hand);
    ActivePairs(p);
    if hand.lhs == hand.rhs {
      CopyTamed(k, st.active, st.shortest, Top(st), Everything(p));
      SameEverything(p, st.inactive + [hand.at]);
    } else {
      WithHandIs(p, hand);
      CopyTamed(k, st.active, st.shortest, Top(st), WithHand(p, hand));
      ScannedFrom(k, p, hand, 0);
      var s := Scanned(k, p, hand, 0);
      FromAll(p, s, hand);
      ActivatedEverything(s, hand);
      TamedKept(WithHand(p, hand), WithHand(s, hand), l, r);
    }
  }

  lemma ActivePairs(st: State)
    ensures Pairs(st.active) <= Everything(st)
  {
    hide Pairs;
  }

  /** After the copy has been pushed and the stack emptied. */
  lemma CleanedTamed(k: nat, st: State, st': State)
    requires Ok(k, st) && st.stack != [] && Less(Top(st).rhs, Top(st).lhs) && Top(st).lhs != []
    requires !Normal(Pairs(st.active), Top(st).lhs[..|Top(st).lhs| - 1])
    requires Cleaned(k, st, st') && st'.stack == []
    ensures Tamed(Everything(st'), Top(st).lhs, Top(st).rhs)
  {
    hide Ok, Turn, Normal, Tamed, Everything, Less;
    var n: nat :| Turned(k, st, st', n);
    assert n > 0;
    TurnKeeps(k, st);
    TurnTamed(k, st);
    hide Turned;
    TurnedKeeps(k, Turn(k, st), st', n - 1);
    LastingKeeps(Turn(k, st), st');
    TamedKept(Everything(Turn(k, st)), Everything(st'), Top(st).lhs, Top(st).rhs);
  }

  lemma LastingKeeps(st: State, st': State)
    requires Lasting(st, st')
    ensures Keeps(Everything(st), Everything(st')) && NestedBefore(Everything(st'), st.active, st'.active)
  {
    hide Everything, Keeps, NestedBefore;
  }

  // ----- the active rules -----

  /** If another left side occurs in that of the rule, both ways to rewrite it are connected. */
  ghost predicate TamedRule(ps: set<Pair>, rules: seq<Rule>, c: int)
    requires 0 <= c < |rules|
  {
    forall d :: Nested(rules, c, d) ==> Tamed(ps, rules[c].lhs, rules[c].rhs)
  }

  ghost predicate TamedTo(st: State, n: nat) {
    forall c :: 0 <= c < n && c < |st.active| ==> TamedRule(Everything(st), st.active, c)
  }

  lemma TamedStays(ps: set<Pair>, qs: set<Pair>, r: Rule, r': Rule)
    requires Keeps(ps, qs) && Tamed(ps, r.lhs, r.rhs) && Stayed(qs, r, r')
    ensures Tamed(qs, r'.lhs, r'.rhs)
  {
    LeftSame(r, r');
    hide Keeps, Tamed, Linked;
    TamedKept(ps, qs, r.lhs, r.rhs);
    TamedMore(qs, r.lhs, r.rhs, r'.rhs);
  }

  /** What holds for all active rules stays so. */
  lemma TamedLasts(k: nat, st: State, st': State)
    requires Lasting(st, st') && Ok(k, st') && TamedTo(st, |st.active|)
    ensures TamedTo(st', |st'.active|)
  {
    OkOrdered(k, st');
    LastingKeeps(st, st');
    hide Ok, Everything, Keeps, NestedBefore, Ordered, Usable, Incomparable, Tamed, Stayed, Lasting;
    forall c', d' | Nested(st'.active, c', d') ensures Tamed(Everything(st'), st'.active[c'].lhs, st'.active[c'].rhs) {
      var c, d := NestedThen(Everything(st'), st.active, st'.active, c', d');
      assert TamedRule(Everything(st), st.active, c);
      TamedStays(Everything(st), Everything(st'), st.active[c], st'.active[c']);
    }
  }

  lemma SameIndex(k: nat, st: State, a: nat, b: nat)
    requires Ok(k, st) && a < |st.active| && b < |st.active| && st.active[a].lhs == st.active[b].lhs
    ensures a == b
  {
    OkOrdered(k, st);
    hide Ok, Incomparable;
    if a != b {
      DistinctSides(st.active, a, b);
    }
  }

  lemma FromBefore(st: State, st': State, c': int) returns (c: nat)
    requires Carried(st, st') && 0 <= c' < st'.next1 && c' < |st'.active|
    ensures c < st.next1 && c < |st.active| && Left(st'.active[c']) == Left(st.active[c])
  {
    hide Everything, Keeps, Linked;
    assert FromOne(Everything(st'), st.active, 0, st.next1, st'.active[c']);
    c :| c < st.next1 && c < |st.active| && Stayed(Everything(st'), st.active[c], st'.active[c']);
  }

  /** What holds for the rules before the first position stays so. */
  lemma TamedCarried(k: nat, st: State, st': State)
    requires Carried(st, st') && Lasting(st, st') && Ok(k, st) && Ok(k, st') && TamedTo(st, st.next1)
    ensures TamedTo(st', st'.next1)
  {
    OkOrdered(k, st');
    LastingKeeps(st, st');
    hide Ok, Everything, Keeps, NestedBefore, Ordered, Usable, Incomparable, Tamed, Lasting, Carried, Linked, Contains;
    forall c', d' | c' < st'.next1 && Nested(st'.active, c', d') ensures Tamed(Everything(st'), st'.active[c'].lhs, st'.active[c'].rhs) {
      var c, d := NestedThen(Everything(st'), st.active, st'.active, c', d');
      var a := FromBefore(st, st', c');
      LeftSame(st.active[a], st'.active[c']);
      LeftSame(st.active[c], st'.active[c']);
      SameIndex(k, st, a, c);
      assert TamedRule(Everything(st), st.active, c);
      TamedStays(Everything(st), Everything(st'), st.active[c], st'.active[c']);
    }
  }

  /** A left side that occurs in another one ends before its end. */
  lemma NestedReducible(k: nat, st: State, c: int, d: int)
    requires Ok(k, st) && Nested(st.active, c, d)
    ensures var l := st.active[c].lhs; l != [] && !Normal(Pairs(st.active), l[..|l| - 1])
  {
    var l, x := st.active[c].lhs, st.active[d].lhs;
    UsableRule(k, st.active, st.shortest, st.active[c]);
    UsableRule(k, st.active, st.shortest, st.active[d]);
    var i :| 0 <= i <= |l| && OccursAt(l, x, i);
    NotSuffix(k, st, c, d);
    hide Suffix, Usable;
    EndsBefore(l, x, i);
    assert st.active[d].Pair() in Pairs(st.active) && OccursAt(l[..|l| - 1], st.active[d].Pair().0, i);
  }

  lemma EndsBefore(l: Word, x: Word, i: nat)
    requires OccursAt(l, x, i) && !Suffix(x, l) && l != []
    ensures OccursAt(l[..|l| - 1], x, i)
  {
    assert i + |x| < |l|;
    assert l[..|l| - 1][i..i + |x|] == l[i..i + |x|];
  }

  lemma NotSuffix(k: nat, st: State, c: int, d: int)
    requires Ok(k, st) && 0 <= c < |st.active| && 0 <= d < |st.active| && c != d
    ensures !Suffix(st.active[d].lhs, st.active[c].lhs)
  {
    hide Suffix;
    var a, b := if c < d then c else d, if c < d then d else c;
    assert !SuffixRelated(st.active[a].lhs, st.active[b].lhs);
  }

  /** The rule at the first position after its copy has been pushed, if it is still there. */
  lemma TamedAt(k: nat, st: State, st': State, n: nat)
    requires Ok(k, st) && Ok(k, st') && Lasting(st, st') && n < |st.active| && st'.next1 < |st'.active|
    requires Left(st'.active[st'.next1]) == Left(st.active[n])
    requires var l := st.active[n].lhs; l != [] && !Normal(Pairs(st.active), l[..|l| - 1]) ==> Tamed(Everything(st'), l, st.active[n].rhs)
    ensures TamedRule(Everything(st'), st'.active, st'.next1)
  {
    OkOrdered(k, st');
    LastingKeeps(st, st');
    var c' := st'.next1;
    KeepsMore(Everything(st'), Everything(st'));
    hide Ok, Everything, Keeps, NestedBefore, Ordered, Usable, Incomparable, Tamed, Lasting, Linked, Contains, Normal;
    forall d' | Nested(st'.active, c', d') ensures Tamed(Everything(st'), st'.active[c'].lhs, st'.active[c'].rhs) {
      var c, d := NestedThen(Everything(st'), st.active, st'.active, c', d');
      LeftSame(st.active[n], st'.active[c']);
      LeftSame(st.active[c], st'.active[c']);
      SameIndex(k, st, n, c);
      NestedReducible(k, st, c, d);
      TamedStays(Everything(st'), Everything(st'), st.active[n], st'.active[c']);
    }
  }

  lemma TamedStep(st: State, st': State)
    requires TamedTo(st, st.next1) && st.next1 < |st.active| && TamedRule(Everything(st), st.active, st.next1)
    requires st' == st.(next1 := st.next1 + 1)
    ensures TamedTo(st', st'.next1)
  {
    assert Everything(st') == Everything(st);
    hide TamedRule, Everything;
  }

  lemma TamedNone(st: State)
    ensures TamedTo(st, 0)
  {
  }

  // ----- and the overlaps of all rules -----

  lemma TamedMove(k: nat, rules: seq<Rule>, l: Word, r: Word) returns (m: Move, w: Rule)
    requires Ordered(k, Pairs(rules)) && Tamed(Pairs(rules), l, r)
    ensures m.Before() == l && |m.lhs| < |l| && w in rules && w.lhs == m.lhs && w.rhs == m.rhs && Linked(Pairs(rules), Below(l), m.After(), r)
    ensures (m.lhs, m.rhs) in Pairs(rules)
  {
    hide Linked;
    m :| TamedBy(Pairs(rules), m, l, r);
    if (m.lhs, m.rhs) !in Pairs(rules) {
      assert OrderedPair(k, (m.rhs, m.lhs));
      LessIrreflexive(m.rhs, m.lhs);
    }
    w :| w in rules && w.Pair() == (m.lhs, m.rhs);
  }

  function Longer(u: Rule, v: Rule): nat {
    if |u.lhs| < |v.lhs| then |v.lhs| else |u.lhs|
  }

  /** All rules are tamed. */
  ghost predicate AllTamed(rules: seq<Rule>) {
    forall c :: 0 <= c < |rules| ==> TamedRule(Pairs(rules), rules, c)
  }

  lemma {:induction false} TamedCritical(k: nat, rules: seq<Rule>, shortest: nat, u: Rule, v: Rule, i: nat)
    requires Usable(k, rules, shortest) && shortest > 0 && Resolved(rules) && AllTamed(rules) && u in rules && v in rules
    ensures CriticalLinked(Pairs(rules), u.Pair(), v.Pair(), i)
    decreases Longer(u, v), 1
  {
    var ps := Pairs(rules);
    assert PairResolved(ps, u, v);
    hide Resolved, AllTamed, Linked;
    if i <= Limit(u, v) && Overlap(u.lhs, v.lhs, i) {
      UsableRule(k, rules, shortest, u);
      UsableRule(k, rules, shortest, v);
      OtherOverlaps(rules, u, v, i);
      if u == v && i == 0 {
        CriticalBelow(u.Pair(), v.Pair(), i);
        OwnCritical(u);
        LinkedRefl(ps, Below(CriticalTop(u.Pair(), v.Pair(), i)), CriticalLeft(u.Pair(), v.Pair(), i));
      } else if OccursAt(u.lhs, v.lhs, i) {
        InnerLinked(k, rules, shortest, u, v, i);
        InnerCritical(u, v, i);
        InnerTop(u, v, i);
      } else {
        InnerLinked(k, rules, shortest, v, u, 0);
        OuterCritical(u, v);
        OuterTop(u, v);
        LinkedSym(ps, Below(v.lhs), Inner(v, u, 0), v.rhs);
      }
    }
  }

  lemma InnerTop(u: Rule, v: Rule, i: nat)
    requires OccursAt(u.lhs, v.lhs, i) && i < |u.lhs|
    ensures CriticalTop(u.Pair(), v.Pair(), i) == u.lhs
  {
    assert v.lhs[|v.lhs|..] == [] && u.lhs + [] == u.lhs;
  }

  lemma OuterTop(u: Rule, v: Rule)
    requires OccursAt(v.lhs, u.lhs, 0) && u.lhs != []
    ensures CriticalTop(u.Pair(), v.Pair(), 0) == v.lhs
  {
    assert v.lhs == v.lhs[..|u.lhs|] + v.lhs[|u.lhs|..] && v.lhs[0..|u.lhs|] == u.lhs;
  }

  /** A left side inside another one: both ways to rewrite are connected below. */
  lemma {:induction false} InnerLinked(k: nat, rules: seq<Rule>, shortest: nat, u: Rule, v: Rule, i: nat)
    requires Usable(k, rules, shortest) && shortest > 0 && Resolved(rules) && AllTamed(rules) && u in rules && v in rules
    requires u != v && OccursAt(u.lhs, v.lhs, i)
    ensures Linked(Pairs(rules), Below(u.lhs), Inner(u, v, i), u.rhs)
    decreases |u.lhs|, 0
  {
    hide *;
    var ps := Pairs(rules);
    UsableOrdered(k, rules, shortest);
    NestedTamed(rules, u, v, i);
    var m, w := TamedMove(k, rules, u.lhs, u.rhs);
    ShorterInside(k, rules, shortest, u, v, i);
    BothShorter(v, w, |u.lhs|);
    PairIn(rules, v);
    PairIn(rules, w);
    var n := InnerMove(u, v, i);
    forall j: nat ensures CriticalLinked(ps, v.Pair(), w.Pair(), j) && CriticalLinked(ps, w.Pair(), v.Pair(), j) {
      TamedCritical(k, rules, shortest, v, w, j);
      TamedCritical(k, rules, shortest, w, v, j);
    }
    LocalLinked(k, ps, n, m);
    LinkedTrans(ps, Below(u.lhs), Inner(u, v, i), m.After(), u.rhs);
  }

  lemma BothShorter(v: Rule, w: Rule, n: nat)
    requires |v.lhs| < n && |w.lhs| < n
    ensures Longer(v, w) < n && Longer(w, v) < n
  {
  }

  lemma PairIn(rules: seq<Rule>, r: Rule)
    requires r in rules
    ensures r.Pair() in Pairs(rules) && r.Pair() == (r.lhs, r.rhs)
  {
  }

  lemma InnerMove(u: Rule, v: Rule, i: nat) returns (n: Move)
    requires OccursAt(u.lhs, v.lhs, i)
    ensures n.Before() == u.lhs && n.After() == Inner(u, v, i) && n.lhs == v.lhs && n.rhs == v.rhs && v.Pair() == (n.lhs, n.rhs)
  {
    n := Move(u.lhs[..i], v.lhs, v.rhs, u.lhs[i + |v.lhs|..]);
    assert u.lhs == u.lhs[..i] + u.lhs[i..i + |v.lhs|] + u.lhs[i + |v.lhs|..];
  }

  lemma NestedTamed(rules: seq<Rule>, u: Rule, v: Rule, i: nat)
    requires AllTamed(rules) && u in rules && v in rules && u != v && OccursAt(u.lhs, v.lhs, i)
    ensures Tamed(Pairs(rules), u.lhs, u.rhs)
  {
    hide Tamed;
    var c :| 0 <= c < |rules| && rules[c] == u;
    var d :| 0 <= d < |rules| && rules[d] == v;
    assert TamedRule(Pairs(rules), rules, c);
    assert Nested(rules, c, d);
  }

  lemma ShorterInside(k: nat, rules: seq<Rule>, shortest: nat, u: Rule, v: Rule, i: nat)
    requires Usable(k, rules, shortest) && u in rules && v in rules && u != v && OccursAt(u.lhs, v.lhs, i)
    ensures |v.lhs| < |u.lhs| && i + |v.lhs| <= |u.lhs|
  {
    if |v.lhs| == |u.lhs| {
      assert u.lhs[0..|u.lhs|] == u.lhs && v.lhs[0..] == v.lhs;
      SameLeft(rules, u, v);
    }
  }

  /** If no rule has been skipped, resolving the other overlaps makes the rules confluent. */
  lemma TamedConfluent(k: nat, rules: seq<Rule>, shortest: nat)
    requires Usable(k, rules, shortest) && shortest > 0 && Resolved(rules) && AllTamed(rules)
    ensures Confluent(k, Pairs(rules))
  {
    UsableOrdered(k, rules, shortest);
    hide Resolved, AllTamed, CriticalLinked, Usable, Ordered, Confluent;
    forall p, q, i: nat | p in Pairs(rules) && q in Pairs(rules) ensures CriticalLinked(Pairs(rules), p, q, i) {
      var u :| u in rules && u.Pair() == p;
      var v :| v in rules && v.Pair() == q;
      TamedCritical(k, rules, shortest, u, v, i);
    }
    ConfluentIffCriticalsLinked(k, Pairs(rules));
  }

  lemma TamedAllNow(st: State)
    requires TamedTo(st, |st.active|) && st.stack == []
    ensures AllTamed(st.active)
  {
    assert Everything(st) == Pairs(st.active);
    hide TamedRule;
  }
}
