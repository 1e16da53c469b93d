/**
 * A system that completion calls confluent although it is not: a rule is skipped when copies of the rules are pushed.
 * Lines cited here are those of src/rws.cc.
 */
module SkippedRule {
  import opened Words
  import opened Derivations
  import opened Rewriting
  import opened RuleIndex
  import opened InPlace
  import opened ConfluenceTest
  import opened RuleState
  import opened Completion
  import opened Connections
  import opened Resolution
  import opened Persistence
  import opened KnuthBendix
  import opened RewritingSystem
  import opened StrayIterator

  // Letters 0, 1, 2, 3; the rules 012 = 1, 013 = empty and 01 = empty are added in this order.

  function A(): Rule { Rule(0, 1, [0, 1, 2], [1], false) }

  function B(): Rule { Rule(1, 2, [0, 1, 3], [], false) }

  function C(): Rule { Rule(2, 3, [0, 1], [], false) }

  /** The rule that the copy of the first one becomes: 2 = 1. */
  function D(): Rule { Rule(3, 4, [2], [1], false) }

  /** Before any copy has been pushed; the confluence test has said no. */
  function Start(): State {
    State([A(), B(), C()], [], [], 3, 3, 2, 0, 0, true, false)
  }

  /** The copy of the first rule is on the stack. */
  function CopyPushed1(): State {
    Start().(stack := [Rule(3, 4, [0, 1, 2], [1], false)], unused := 4, total := 4)
  }

  /** It has become 2 = 1 and has thrown the first rule out; the first position is now at the second rule. */
  function Thrown(): State {
    State([B(), C(), D()], [A()], [], 4, 4, 1, 0, 0, false, false)
  }

  /** The first rule has become trivial. */
  function Settled(): State {
    State([B(), C(), D()], [], [0], 4, 4, 1, 0, 0, false, false)
  }

  /** The position, and the total number of rules, later on. */
  function Later(next: nat, total: nat): State {
    Settled().(next1 := next, total := total)
  }

  /**
   * Pushing the copy of the first rule removes it, and the second one, 013 =
   * empty, is skipped.  It keeps its left side, in which 01 occurs at the start,
   * where `overlap` does not look; no other overlaps are left to look at.  So
   * completion ends by itself and calls the rules confluent, but 013 can be
   * rewritten to the empty word and to 3, which are told apart although related.
   */
  lemma SkippedRule()
    ensures AddedTo(4, Fresh(), [0, 1, 2], [1], Start().(active := [A()], unused := 1, total := 1, shortest := 3, known := false))
    ensures AddedTo(4, Start().(active := [A()], unused := 1, total := 1, shortest := 3, known := false), [0, 1, 3], [],
                    Start().(active := [A(), B()], unused := 2, total := 2, shortest := 3, known := false))
    ensures AddedTo(4, Start().(active := [A(), B()], unused := 2, total := 2, shortest := 3, known := false), [0, 1], [], Start().(known := false))
    ensures Ok(4, Start()) && Copied(4, Start(), Later(3, 6), 3, true) && Later(3, 6).next1 == |Later(3, 6).active|
    ensures forall u, v, i :: u in Later(3, 6).active && v in Later(3, 6).active && Limit(u, v) < i ==> !Overlap(u.lhs, v.lhs, i)
    ensures CourseOk(4, Start(), Later(3, 6).(known := true, confluent := true, inactive := []), false, AfterCopies(Start(), Later(3, 6), 3, true))
    ensures Resolved(Later(3, 6).active) && !Confluent(4, Pairs(Later(3, 6).active)) && !NestedJoin(Later(3, 6).active)
    ensures Same(Pairs(Start().active), [3], []) && Ordered(4, Pairs(Later(3, 6).active)) && Over(4, [3]) && Over(4, [])
    ensures NormalForm(4, Later(3, 6).active, [3]) != NormalForm(4, Later(3, 6).active, [])
  {
    hide *;
    Added();
    FirstOk();
    LaterOk();
    LaterIs();
    NoOverlaps();
    NotConfluent();
    Related();
    AllCopies();
    Ended(Start(), Later(3, 6), 3);
  }

  /** The natural end right after the copies. */
  lemma Ended(st: State, reduced: State, copies: nat)
    requires Copied(4, st, reduced, copies, true) && st.next1 == 0 && reduced.next1 == |reduced.active|
    ensures CourseOk(4, st, reduced.(known := true, confluent := true, inactive := []), false, AfterCopies(st, reduced, copies, true))
  {
    var st' := reduced.(known := true, confluent := true, inactive := []);
    assert Everything(st') == Everything(reduced);
    KeepsMore(Everything(st'), Everything(st'));
    hide Copied, Keeps, Everything, Confluent;
  }

  lemma LaterIs()
    ensures Later(3, 6).active == [B(), C(), D()] && Later(3, 6).next1 == 3 && Start().next1 == 0 && Start().active == [A(), B(), C()]
  {
  }

  // ----- adding the rules -----

  lemma Added()
    ensures AddedTo(4, Fresh(), [0, 1, 2], [1], Start().(active := [A()], unused := 1, total := 1, shortest := 3, known := false))
    ensures AddedTo(4, Start().(active := [A()], unused := 1, total := 1, shortest := 3, known := false), [0, 1, 3], [],
                    Start().(active := [A(), B()], unused := 2, total := 2, shortest := 3, known := false))
    ensures AddedTo(4, Start().(active := [A(), B()], unused := 2, total := 2, shortest := 3, known := false), [0, 1], [], Start().(known := false))
  {
    LastLetters();
    var st1 := Start().(active := [A()], unused := 1, total := 1, shortest := 3, known := false);
    var st2 := Start().(active := [A(), B()], unused := 2, total := 2, shortest := 3, known := false);
    assert OrderedRule(Fresh(), [0, 1, 2], [1]) == A() && OrderedRule(st1, [0, 1, 3], []) == B() && OrderedRule(st2, [0, 1], []) == C();
    hide SuffixRelated, OrderedRule;
    assert Activated(NewObject(Fresh()).1, A()) == st1;
    assert Activated(NewObject(st1).1, B()) == st2;
    assert Activated(NewObject(st2).1, C()) == Start().(known := false);
  }

  lemma LastLetters()
    ensures !SuffixRelated(A().lhs, B().lhs) && !SuffixRelated(A().lhs, C().lhs) && !SuffixRelated(B().lhs, C().lhs)
    ensures !SuffixRelated(B().lhs, D().lhs) && !SuffixRelated(C().lhs, D().lhs)
  {
    forall x, y | x in [A(), B(), C(), D()] && y in [A(), B(), C(), D()] && x.lhs[|x.lhs| - 1] != y.lhs[|y.lhs| - 1] ensures !Suffix(x.lhs, y.lhs) {
      LastLetter(x.lhs, y.lhs);
    }
    assert A() in [A(), B(), C(), D()] && B() in [A(), B(), C(), D()] && C() in [A(), B(), C(), D()] && D() in [A(), B(), C(), D()];
  }

  lemma ThreeUsable(x: Rule, y: Rule, z: Rule, shortest: nat)
    requires OrderedPair(4, x.Pair()) && OrderedPair(4, y.Pair()) && OrderedPair(4, z.Pair())
    requires !SuffixRelated(x.lhs, y.lhs) && !SuffixRelated(x.lhs, z.lhs) && !SuffixRelated(y.lhs, z.lhs)
    requires shortest <= |x.lhs| && shortest <= |y.lhs| && shortest <= |z.lhs|
    ensures Usable(4, [x, y, z], shortest)
  {
    var rules := [x, y, z];
    hide OrderedPair, SuffixRelated;
    forall p | p in Pairs(rules) ensures OrderedPair(4, p) {
      assert p == x.Pair() || p == y.Pair() || p == z.Pair();
    }
  }

  lemma FirstOk()
    ensures Ok(4, Start()) && Ok(4, CopyPushed1()) && Usable(4, [A(), B(), C()], 2)
  {
    LastLetters();
    ThreeUsable(A(), B(), C(), 2);
    assert Over(4, [0, 1, 2]) && Over(4, [1]);
    hide Usable;
  }

  lemma LaterOk()
    ensures Ok(4, Thrown()) && Ok(4, Settled()) && Usable(4, [B(), C(), D()], 1) && Ordered(4, Pairs([B(), C(), D()]))
    ensures Over(4, [3]) && Over(4, [])
  {
    LastLetters();
    ThreeUsable(B(), C(), D(), 1);
    assert Over(4, [0, 1, 2]) && Over(4, [1]);
  }

  // ----- what is left -----

  lemma NoOverlaps()
    ensures forall u, v, i :: u in [B(), C(), D()] && v in [B(), C(), D()] && Limit(u, v) < i ==> !Overlap(u.lhs, v.lhs, i)
    ensures Resolved([B(), C(), D()])
  {
    var rules := [B(), C(), D()];
    hide Overlap;
    forall u, v, i: nat | u in rules && v in rules && Limit(u, v) < i ensures !Overlap(u.lhs, v.lhs, i) {
      if Overlap(u.lhs, v.lhs, i) {
        FirstLetter(u.lhs, v.lhs, i);
      }
    }
    hide Limit;
    forall u, v | u in rules && v in rules ensures PairResolved(Pairs(rules), u, v) {
    }
  }

  lemma FirstLetter(l: Word, l': Word, i: nat)
    requires Overlap(l, l', i) && l' != []
    ensures i < |l| && l[i] == l'[0]
  {
    var c := Common(l, l', i);
    assert l[i..i + c][0] == l[i] && l'[..c][0] == l'[0];
  }

  lemma Related()
    ensures Same(Pairs(Start().active), [3], [])
  {
    var ps := Pairs(Start().active);
    assert B() in Start().active && C() in Start().active;
    assert B().Pair() in ps && C().Pair() in ps;
    var m := Move([], [0, 1], [], [3]);
    assert m.Before() == [0, 1, 3] && m.After() == [3];
    hide Pairs, Same, Reach;
    ReachMove(ps, m);
    ReachSame(ps, [0, 1, 3], [3]);
    SamePair(ps, B().Pair());
    SameSym(ps, [0, 1, 3], [3]);
    SameTrans(ps, [3], [0, 1, 3], []);
  }

  lemma LaterNormal(w: Word)
    requires w == [3] || w == []
    ensures Normal(Pairs([B(), C(), D()]), w)
  {
    forall p, i: nat | p in Pairs([B(), C(), D()]) ensures !OccursAt(w, p.0, i) {
      assert p == B().Pair() || p == C().Pair() || p == D().Pair();
      NotOccurs(w, p.0, i);
    }
  }

  lemma NotConfluent()
    ensures !Confluent(4, Pairs([B(), C(), D()])) && !NestedJoin([B(), C(), D()]) && Ordered(4, Pairs([B(), C(), D()]))
    ensures Over(4, [3]) && Over(4, [])
    ensures NormalForm(4, [B(), C(), D()], [3]) != NormalForm(4, [B(), C(), D()], [])
  {
    hide *;
    var rules := [B(), C(), D()];
    var ps := Pairs(rules);
    LaterOk();
    LaterNormal([3]);
    LaterNormal([]);
    LaterReach();
    NormalSelf(4, rules, 1, [3]);
    NormalSelf(4, rules, 1, []);
    ReachRefl(ps, [3]);
    ReachRefl(ps, []);
    if Confluent(4, ps) {
      ConfluentNormals(4, ps, [0, 1, 3], [3], [], [3], []);
    }
    NoOverlaps();
    ResolvedConfluent(4, rules, 1);
  }

  lemma LaterReach()
    ensures Reach(Pairs([B(), C(), D()]), [0, 1, 3], [3]) && Reach(Pairs([B(), C(), D()]), [0, 1, 3], []) && Over(4, [0, 1, 3])
  {
    var rules := [B(), C(), D()];
    var ps := Pairs(rules);
    assert rules[0].Pair() in ps && rules[1].Pair() in ps;
    var m, n := Move([], [0, 1], [], [3]), Move([], [0, 1, 3], [], []);
    assert m.Before() == [0, 1, 3] == n.Before() && m.After() == [3] && n.After() == [];
    hide Reach, Pairs;
    ReachMove(ps, m);
    ReachMove(ps, n);
  }

  // ----- normal forms -----

  /** Neither a letter nor the empty word ends in one of these left sides, except for the letter 2 once there is a rule for it. */
  lemma NoneEnds(x: Word)
    requires x == [0] || x == [1] || x == [2]
    ensures forall r :: r in [A(), B(), C()] ==> !Suffix(r.lhs, x)
    ensures x != [2] ==> forall r :: r in [B(), C(), D()] ==> !Suffix(r.lhs, x)
  {
  }

  /** 01 is rewritten to the empty word, whatever follows. */
  lemma ReadPair(rules: seq<Rule>, shortest: nat, w: Word)
    requires Usable(4, rules, shortest) && C() in rules && Over(4, w) && Ordered(4, Pairs(rules))
    requires forall r :: r in rules ==> !Suffix(r.lhs, [0])
    ensures Over(4, [] + ([0, 1] + w)) && Over(4, [] + w)
    ensures InPlace.Reduced(4, rules, [], [0, 1] + w) == InPlace.Reduced(4, rules, [], w)
  {
    hide *;
    PairWords(w);
    PairLetters(w);
    ReducedLetter(4, rules, [], [0, 1] + w);
    ReducedRule(4, rules, shortest, [0], [1] + w, C());
  }

  lemma PairWords(w: Word)
    ensures [] + ([0, 1] + w)[..1] == [0] && ([0, 1] + w)[0] == 0 && ([0, 1] + w)[1..] == [1] + w && [] + [0] == [0]
    ensures ([1] + w)[0] == 1 && ([1] + w)[1..] == w && [0] + [1] == [0, 1] && C().rhs + w == w && [0][..0] == [] && |C().lhs| == 2
    ensures Suffix(C().lhs, [0] + [1])
  {
  }

  lemma PairLetters(w: Word)
    requires Over(4, w)
    ensures Over(4, [] + ([0, 1] + w)) && Over(4, [] + w) && Over(4, [0] + ([1] + w))
  {
  }

  lemma ReadOne(rules: seq<Rule>, w: Word)
    requires |w| == 1 && Over(4, w) && Ordered(4, Pairs(rules)) && forall r :: r in rules ==> !Suffix(r.lhs, w)
    ensures Over(4, [] + w) && InPlace.Reduced(4, rules, [], w) == w
  {
    assert [] + w == w && [] + [w[0]] == w && w[1..] == [];
    hide Ordered, Suffix;
    ReducedLetter(4, rules, [], w);
  }

  lemma ReadEmpty(rules: seq<Rule>)
    requires Ordered(4, Pairs(rules))
    ensures Over(4, [] + []) && InPlace.Reduced(4, rules, [], []) == []
  {
  }

  lemma ReadTwo()
    ensures Ordered(4, Pairs([B(), C(), D()])) && Over(4, [] + [2]) && InPlace.Reduced(4, [B(), C(), D()], [], [2]) == [1]
  {
    hide *;
    LaterOk();
    NoneEnds([1]);
    Letters();
    TwoWords();
    ReadOne([B(), C(), D()], [1]);
    ReducedRule(4, [B(), C(), D()], 1, [], [2], D());
  }

  lemma TwoWords()
    ensures var e: Word := []; e + [2] == [2] && e + [1] == [1] && Suffix(D().lhs, e + [2]) && [2][1..] == e && D().rhs + e == [1] && e[..0] == e && |D().lhs| == 1
    ensures D() in [B(), C(), D()] && C() in [B(), C(), D()] && C() in [A(), B(), C()]
  {
  }

  lemma Letters()
    ensures Over(4, [2]) && Over(4, [1]) && Over(4, [0]) && Over(4, []) && Over(4, [0, 1]) && Over(4, [0, 1, 2]) && Over(4, [] + [2])
    ensures [0, 1] + [2] == [0, 1, 2] && [0, 1] + [] == [0, 1]
  {
  }

  lemma FormIs(rules: seq<Rule>, w: Word)
    requires Ordered(4, Pairs(rules)) && Over(4, w)
    ensures Over(4, [] + w) && NormalForm(4, rules, w) == InPlace.Reduced(4, rules, [], w)
  {
    assert [] + w == w;
  }

  lemma Forms()
    ensures Ordered(4, Pairs([A(), B(), C()])) && Over(4, [0, 1, 2]) && Over(4, [1])
    ensures NormalForm(4, [A(), B(), C()], [0, 1, 2]) == [2] && NormalForm(4, [A(), B(), C()], [1]) == [1]
  {
    hide *;
    var rules := [A(), B(), C()];
    FirstOk();
    UsableOrdered(4, rules, 2);
    NoneEnds([0]);
    NoneEnds([1]);
    NoneEnds([2]);
    Letters();
    TwoWords();
    FormIs(rules, [0, 1, 2]);
    FormIs(rules, [1]);
    ReadPair(rules, 2, [2]);
    ReadOne(rules, [2]);
    ReadOne(rules, [1]);
  }

  lemma LaterForms()
    ensures Ordered(4, Pairs([B(), C(), D()])) && Over(4, [0, 1, 2]) && Over(4, [0, 1]) && Over(4, [2]) && Over(4, [1]) && Over(4, [])
    ensures NormalForm(4, [B(), C(), D()], [0, 1, 2]) == [1] && NormalForm(4, [B(), C(), D()], [1]) == [1]
    ensures NormalForm(4, [B(), C(), D()], [0, 1]) == [] && NormalForm(4, [B(), C(), D()], []) == [] && NormalForm(4, [B(), C(), D()], [2]) == [1]
  {
    hide *;
    var rules := [B(), C(), D()];
    LaterOk();
    NoneEnds([0]);
    NoneEnds([1]);
    ReadTwo();
    Letters();
    TwoWords();
    FormIs(rules, [0, 1, 2]);
    FormIs(rules, [0, 1]);
    FormIs(rules, [2]);
    FormIs(rules, [1]);
    FormIs(rules, []);
    ReadPair(rules, 1, [2]);
    ReadPair(rules, 1, []);
    ReadEmpty(rules);
    ReadOne(rules, [1]);
  }

  // ----- the turns -----

  lemma FirstTurn()
    ensures Ok(4, CopyPushed1()) && CopyPushed1().stack != [] && Turn(4, CopyPushed1()) == Thrown()
  {
    hide *;
    FirstOk();
    FirstHand();
    FirstScan();
    TurnIs(4, CopyPushed1(), D());
  }

  lemma FirstHand()
    ensures Ordered(4, Pairs([A(), B(), C()])) && CopyPushed1().stack != [] && Popped(CopyPushed1()) == CopyPushed1().(stack := [])
    ensures CopyPushed1().active == [A(), B(), C()] && D().lhs != D().rhs
    ensures var copy := Top(CopyPushed1()); Over(4, copy.lhs) && Over(4, copy.rhs) && HandOf(4, [A(), B(), C()], copy) == D()
  {
    Forms();
    assert !Less([2], [1]);
    hide Ordered, NormalForm, Less;
  }

  lemma FirstScan()
    ensures Ok(4, CopyPushed1().(stack := [])) && Activated(Scanned(4, CopyPushed1().(stack := []), D(), 0), D()) == Thrown()
  {
    var st := CopyPushed1().(stack := []);
    FirstOk();
    var st1 := Remove(st, 0);
    assert st1.active == [B(), C()] && st1.stack == [A()] && st1 == Thrown().(active := [B(), C()], shortest := 2, known := true);
    TwoContained();
    hide Ok, Contains, Usable, Remove, Scanned;
    ScanUnfolded(4, st, D(), 0);
    ScanUnfolded(4, st1, D(), 0);
    ScanUnfolded(4, st1, D(), 1);
    ScannedAll(4, st1, D());
  }

  lemma TwoContained()
    ensures Contains(A().lhs, D().lhs) && !Contains(B().lhs, D().lhs) && !Contains(B().rhs, D().lhs)
    ensures !Contains(C().lhs, D().lhs) && !Contains(C().rhs, D().lhs)
  {
    assert OccursAt(A().lhs, D().lhs, 2);
    NotContains(B().lhs, D().lhs);
    NotContains(B().rhs, D().lhs);
    NotContains(C().lhs, D().lhs);
    NotContains(C().rhs, D().lhs);
  }

  lemma SecondTurn()
    ensures Ok(4, Thrown()) && Thrown().stack != [] && Turn(4, Thrown()) == Settled()
  {
    hide *;
    LaterOk();
    SecondHand();
    TurnIs(4, Thrown(), A().(lhs := [1], rhs := [1]));
  }

  lemma SecondHand()
    ensures Ordered(4, Pairs([B(), C(), D()])) && Thrown().stack != [] && Ok(4, Popped(Thrown())) && Thrown().active == [B(), C(), D()]
    ensures var r := Top(Thrown()); Over(4, r.lhs) && Over(4, r.rhs) && HandOf(4, [B(), C(), D()], r) == A().(lhs := [1], rhs := [1])
    ensures Popped(Thrown()).(inactive := Thrown().inactive + [A().(lhs := [1], rhs := [1]).at]) == Settled()
  {
    LaterOk();
    LaterForms();
    assert !Less([1], [1]);
    hide Ordered, NormalForm, Less, Usable;
  }

  // ----- the copies -----

  lemma OneTurn(st: State, st': State)
    requires Ok(4, st) && st.stack != [] && st' == Turn(4, st)
    ensures Cleaned(4, st, st')
  {
    hide Ok, Turn;
    assert Turned(4, st', st', 0);
    assert Turned(4, st, st', 1);
  }

  lemma TwoTurnsAfter(st: State, st1: State, st': State)
    requires Ok(4, st) && st.stack != [] && st1 == Turn(4, st) && Ok(4, st1) && st1.stack != [] && st' == Turn(4, st1)
    ensures Cleaned(4, st, st')
  {
    hide Ok, Turn;
    assert Turned(4, st', st', 0);
    assert Turned(4, st1, st', 1);
    assert Turned(4, st, st', 2);
  }

  lemma FirstCopy()
    ensures CopyPushed(4, Start(), Later(1, 4)) && Skips(Start(), Later(1, 4))
  {
    hide *;
    FirstTurn();
    SecondTurn();
    TwoTurnsAfter(CopyPushed1(), Thrown(), Settled());
    FirstPushed();
  }

  lemma FirstPushed()
    requires Cleaned(4, CopyPushed1(), Settled())
    ensures CopyPushed(4, Start(), Later(1, 4)) && Skips(Start(), Later(1, 4))
  {
    hide Cleaned;
    assert NewObject(Start()).1.(stack := [] + [Rule(3, 4, [0, 1, 2], [1], false)]) == CopyPushed1();
    assert Later(1, 4).(next1 := 0) == Settled();
    assert PushedPair(4, Start(), [0, 1, 2], [1], Settled());
    assert Left(B()).at != Left(A()).at;
  }

  /** A copy whose left side only the rule itself rewrites becomes trivial. */
  lemma TrivialCopy(n: nat, total: nat)
    requires n == 1 || n == 2
    ensures CopyPushed(4, Later(n, total), Later(n + 1, total + 1)) && !Skips(Later(n, total), Later(n + 1, total + 1))
  {
    hide *;
    var st1 := WithCopy(n, total);
    CopyOk(n, total);
    CopyHand(n, total);
    var hand := HandOf(4, [B(), C(), D()], Top(st1));
    TurnIs(4, st1, hand);
    OneTurn(st1, Later(n, total + 1));
    TrivialPushed(n, total);
  }

  function CopyOf(n: nat, total: nat): Rule
    requires n < 3
  {
    var r := [B(), C(), D()][n];
    Rule(0, total + 1, r.lhs, r.rhs, false)
  }

  function WithCopy(n: nat, total: nat): State
    requires n < 3
  {
    Later(n, total + 1).(inactive := [], stack := [CopyOf(n, total)])
  }

  lemma CopyHand(n: nat, total: nat)
    requires n == 1 || n == 2
    ensures var st1, rules := WithCopy(n, total), [B(), C(), D()];
            && st1.stack != [] && st1.active == rules && Ordered(4, Pairs(rules)) && Over(4, Top(st1).lhs) && Over(4, Top(st1).rhs)
            && var hand := HandOf(4, rules, Top(st1));
               hand.lhs == hand.rhs && Popped(st1).(inactive := st1.inactive + [hand.at]) == Later(n, total + 1)
  {
    LaterForms();
    assert !Less([1], [1]) && !Less([], []);
    hide Ordered, NormalForm, Less;
  }

  lemma TrivialPushed(n: nat, total: nat)
    requires (n == 1 || n == 2) && Cleaned(4, WithCopy(n, total), Later(n, total + 1))
    ensures CopyPushed(4, Later(n, total), Later(n + 1, total + 1)) && !Skips(Later(n, total), Later(n + 1, total + 1))
  {
    hide Cleaned;
    var r := [B(), C(), D()][n];
    assert Later(n, total).inactive[1..] == [];
    assert NewObject(Later(n, total)) == (0, Later(n, total + 1).(inactive := []));
    assert [] + [CopyOf(n, total)] == [CopyOf(n, total)];
    assert PushedPair(4, Later(n, total), r.lhs, r.rhs, Later(n, total + 1));
    assert Later(n + 1, total + 1).(next1 := n) == Later(n, total + 1);
  }

  lemma CopyOk(n: nat, total: nat)
    requires n == 1 || n == 2
    ensures Ok(4, WithCopy(n, total)) && Ok(4, Popped(WithCopy(n, total)))
  {
    LaterOk();
    Letters();
    hide Usable;
  }

  lemma AllCopies()
    ensures Copied(4, Start(), Later(3, 6), 3, true)
  {
    hide *;
    FirstCopy();
    TrivialCopy(1, 4);
    TrivialCopy(2, 5);
    CopiedNone(4, Start());
    CopiedMore(4, Start(), Start(), Later(1, 4), 0, false);
    CopiedMore(4, Start(), Later(1, 4), Later(2, 5), 1, true);
    CopiedMore(4, Start(), Later(2, 5), Later(3, 6), 2, true);
  }
}
