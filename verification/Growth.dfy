/**
 * How completion gets on: a position moves, or a rule is activated that makes one more word reducible.
 * As long as the words are bounded the latter can only happen so often, which is why pushing copies of the rules ends.
 */
module Growth {
  import opened Finite
  import opened Words
  import opened Derivations
  import opened Rewriting
  import opened RuleIndex
  import opened InPlace
  import opened RuleState
  import opened Completion
  import opened Persistence

  // ----- words of bounded length -----

  /** The words over `k` letters of length up to `n`. */
  ghost function WordsUpTo(k: nat, n: nat): set<Word> {
    if n == 0 then {[]} else WordsUpTo(k, n - 1) + set w, a: nat | w in WordsUpTo(k, n - 1) && a < k :: w + [a]
  }

  lemma {:induction false} InWords(k: nat, n: nat, w: Word)
    requires Over(k, w) && |w| <= n
    ensures w in WordsUpTo(k, n)
    decreases n
  {
    if n > 0 && w != [] {
      var v := w[..|w| - 1];
      InWords(k, n - 1, v);
      assert w == v + [w[|w| - 1]];
    } else if n > 0 {
      InWords(k, n - 1, w);
    }
  }

  ghost function Irreducible(k: nat, n: nat, st: State): set<Word> {
    set w | w in WordsUpTo(k, n) && Normal(Pairs(st.active), w)
  }

  ghost predicate ShortRule(n: nat, r: Rule) {
    |r.lhs| <= n && |r.rhs| <= n
  }

  /** No side is longer than `n`. */
  ghost predicate Short(n: nat, st: State) {
    (forall j :: 0 <= j < |st.active| ==> ShortRule(n, st.active[j])) && forall j :: 0 <= j < |st.stack| ==> ShortRule(n, st.stack[j])
  }

  ghost function Longest(s: seq<Rule>): (n: nat)
    ensures forall j :: 0 <= j < |s| ==> ShortRule(n, s[j])
  {
    if s == [] then 0
    else
      var r, n := s[|s| - 1], Longest(s[..|s| - 1]);
      assert forall j :: 0 <= j < |s| - 1 ==> ShortRule(n, s[..|s| - 1][j]) && s[j] == s[..|s| - 1][j];
      n + |r.lhs| + |r.rhs|
  }

  lemma ShortStart(st: State) returns (n: nat)
    ensures Short(n, st)
  {
    n := Longest(st.active) + Longest(st.stack);
    forall j | 0 <= j < |st.active| ensures ShortRule(n, st.active[j]) {
      assert ShortRule(Longest(st.active), st.active[j]);
    }
    forall j | 0 <= j < |st.stack| ensures ShortRule(n, st.stack[j]) {
      assert ShortRule(Longest(st.stack), st.stack[j]);
    }
  }

  // ----- a turn -----

  lemma CoveredFewer(k: nat, n: nat, st: State, st': State)
    requires Covered(Pairs(st.active), Pairs(st'.active))
    ensures Irreducible(k, n, st') <= Irreducible(k, n, st)
  {
    hide Covered, Normal;
    forall w | w in Irreducible(k, n, st') ensures w in Irreducible(k, n, st) {
      CoveredWord(Pairs(st.active), Pairs(st'.active), w);
    }
  }

  lemma OneFewer(a: set<Word>, b: set<Word>, w: Word)
    requires a <= b && w in b && w !in a
    ensures |a| < |b|
  {
    SubsetSize(a, b - {w});
  }

  lemma ReachShort(k: nat, rules: set<Pair>, u: Word, v: Word)
    requires Ordered(k, rules) && Reach(rules, u, v)
    ensures |v| <= |u|
  {
    hide Ordered, Reach;
    ReachDown(k, rules, u, v);
  }

  lemma {:induction false} ScannedShort(k: nat, st: State, hand: Rule, i: nat, n: nat)
    requires Ok(k, st) && i <= |st.active| && Short(n, st)
    ensures Short(n, Scanned(k, st, hand, i))
    decreases |st.active| - i
  {
    if i == |st.active| {
      ScannedAll(k, st, hand);
    } else {
      ScanUnfolded(k, st, hand, i);
      hide *;
      if Contains(st.active[i].lhs, hand.lhs) {
        ShortRemove(st, i, n);
        ScannedShort(k, Remove(st, i), hand, i, n);
      } else if Contains(st.active[i].rhs, hand.lhs) {
        RightReached(k, st, i);
        var r := NormalForm(k, st.active, st.active[i].rhs);
        ReachShort(k, Pairs(st.active), st.active[i].rhs, r);
        ShortUpdate(st, i, r, n);
        ScannedShort(k, SetRight(st, i, r), hand, i + 1, n);
      } else {
        ScannedShort(k, st, hand, i + 1, n);
      }
    }
  }

  lemma ShortRemove(st: State, i: nat, n: nat)
    requires i < |st.active| && Short(n, st)
    ensures Short(n, Remove(st, i))
  {
    hide ShortRule;
    forall j | 0 <= j < |Without(st.active, i)| ensures ShortRule(n, Without(st.active, i)[j]) { WithoutAt(st.active, i, j); }
  }

  lemma ShortUpdate(st: State, i: nat, r: Word, n: nat)
    requires i < |st.active| && Short(n, st) && |r| <= |st.active[i].rhs|
    ensures Short(n, SetRight(st, i, r))
  {
    assert ShortRule(n, st.active[i]);
  }

  lemma ShortPopped(st: State, n: nat)
    requires st.stack != [] && Short(n, st)
    ensures Short(n, Popped(st)) && ShortRule(n, Top(st))
  {
    hide ShortRule;
  }

  lemma ShortHand(k: nat, active: seq<Rule>, shortest: nat, r: Rule, n: nat)
    requires Usable(k, active, shortest) && shortest > 0 && Over(k, r.lhs) && Over(k, r.rhs) && Ordered(k, Pairs(active)) && ShortRule(n, r)
    ensures ShortRule(n, HandOf(k, active, r))
  {
    NormalFormReached(k, active, shortest, r.lhs);
    NormalFormReached(k, active, shortest, r.rhs);
    hide Usable, Ordered, Reach, NormalForm, Less, Pairs, Normal;
    ReachShort(k, Pairs(active), r.lhs, NormalForm(k, active, r.lhs));
    ReachShort(k, Pairs(active), r.rhs, NormalForm(k, active, r.rhs));
  }

  lemma ShortActivated(st: State, hand: Rule, n: nat)
    requires Short(n, st) && ShortRule(n, hand)
    ensures Short(n, Activated(st, hand))
  {
    hide ShortRule;
  }

  // ----- getting on -----

  /** Every word that could be rewritten still can, and so can some other one of length up to `n`. */
  ghost predicate Richer(k: nat, n: nat, rules: set<Pair>, rules': set<Pair>) {
    Covered(rules, rules') && exists w :: Over(k, w) && |w| <= n && Normal(rules, w) && !Normal(rules', w)
  }

  /** The active rules and both positions are the same. */
  ghost predicate SameRules(st: State, st': State) {
    st'.active == st.active && st'.next1 == st.next1 && st'.next2 == st.next2
  }

  /** The active rules and the positions stay as they are, or more words can be rewritten; the second position does not move up. */
  ghost predicate Grown(k: nat, n: nat, st: State, st': State) {
    st'.next2 <= st.next2 && (SameRules(st, st') || Richer(k, n, Pairs(st.active), Pairs(st'.active)))
  }

  /** The same, for words of any length. */
  ghost predicate Advanced(k: nat, st: State, st': State) {
    exists n: nat :: Grown(k, n, st, st')
  }

  lemma CoveredTrans(ps: set<Pair>, qs: set<Pair>, rs: set<Pair>)
    requires Covered(ps, qs) && Covered(qs, rs)
    ensures Covered(ps, rs)
  {
    hide Normal;
    forall p | p in ps ensures !Normal(rs, p.0) {
      if Normal(rs, p.0) {
        CoveredWord(qs, rs, p.0);
      }
    }
  }

  lemma RicherTrans(k: nat, n: nat, ps: set<Pair>, m: nat, qs: set<Pair>, rs: set<Pair>)
    requires Richer(k, n, ps, qs) && Richer(k, m, qs, rs)
    ensures Richer(k, n, ps, rs)
  {
    hide Normal, Covered, Over;
    CoveredTrans(ps, qs, rs);
    var w :| Over(k, w) && |w| <= n && Normal(ps, w) && !Normal(qs, w);
    if Normal(rs, w) {
      CoveredWord(qs, rs, w);
    }
  }

  lemma GrownTrans(k: nat, n: nat, st: State, st1: State, st2: State)
    requires Grown(k, n, st, st1) && Grown(k, n, st1, st2)
    ensures Grown(k, n, st, st2)
  {
    hide Richer, Pairs;
    if Richer(k, n, Pairs(st.active), Pairs(st1.active)) && Richer(k, n, Pairs(st1.active), Pairs(st2.active)) {
      RicherTrans(k, n, Pairs(st.active), n, Pairs(st1.active), Pairs(st2.active));
    }
  }

  lemma AdvancedTrans(k: nat, st: State, st1: State, st2: State)
    requires Advanced(k, st, st1) && Advanced(k, st1, st2)
    ensures Advanced(k, st, st2)
  {
    hide Richer, Pairs;
    var n: nat :| Grown(k, n, st, st1);
    var m: nat :| Grown(k, m, st1, st2);
    if Richer(k, n, Pairs(st.active), Pairs(st1.active)) && Richer(k, m, Pairs(st1.active), Pairs(st2.active)) {
      RicherTrans(k, n, Pairs(st.active), m, Pairs(st1.active), Pairs(st2.active));
      assert Grown(k, n, st, st2);
    } else if Richer(k, n, Pairs(st.active), Pairs(st1.active)) {
      assert Grown(k, n, st, st2);
    } else {
      assert Grown(k, m, st, st2);
    }
  }

  lemma AdvancedSame(k: nat, st: State, st': State)
    requires SameRules(st, st')
    ensures Advanced(k, st, st')
  {
    assert Grown(k, 0, st, st');
  }

  /** If the rules are the same in the end, nothing has moved, nor had it in between. */
  lemma AdvancedUnchanged(k: nat, st: State, st1: State, st': State)
    requires Advanced(k, st, st1) && Advanced(k, st1, st') && st'.active == st.active
    ensures SameRules(st, st1) && SameRules(st1, st')
  {
    hide Covered, Normal, Pairs, Over;
    var n: nat :| Grown(k, n, st, st1);
    var m: nat :| Grown(k, m, st1, st');
    if Richer(k, n, Pairs(st.active), Pairs(st1.active)) {
      var w :| Over(k, w) && |w| <= n && Normal(Pairs(st.active), w) && !Normal(Pairs(st1.active), w);
      if Richer(k, m, Pairs(st1.active), Pairs(st'.active)) {
        CoveredWord(Pairs(st1.active), Pairs(st'.active), w);
      }
    }
  }

  /** The second position may be counted from another start. */
  lemma AdvancedLower(k: nat, st: State, st': State, d: nat)
    requires Advanced(k, st, st') && d <= st'.next2 <= st.next2
    ensures Advanced(k, st.(next2 := st.next2 - d), st'.(next2 := st'.next2 - d))
  {
    hide Richer;
    var n: nat :| Grown(k, n, st, st');
    assert Grown(k, n, st.(next2 := st.next2 - d), st'.(next2 := st'.next2 - d));
  }

  lemma AdvancedSecond(k: nat, st: State, st': State)
    requires Advanced(k, st, st')
    ensures Advanced(k, st.(next2 := st'.next2), st')
  {
    hide Richer;
    var n: nat :| Grown(k, n, st, st');
    assert Grown(k, n, st.(next2 := st'.next2), st');
  }

  lemma AdvancedParts(k: nat, st: State, st': State)
    requires Advanced(k, st, st')
    ensures st'.next2 <= st.next2 && (st'.active == st.active ==> SameRules(st, st'))
  {
    hide Covered, Normal, Pairs, Over;
  }

  /** Only so many words of bounded length can become reducible. */
  lemma GrownFewer(k: nat, n: nat, st: State, st': State)
    requires Grown(k, n, st, st')
    ensures (st'.active == st.active && st'.next1 == st.next1) || |Irreducible(k, n, st')| < |Irreducible(k, n, st)|
  {
    if !(st'.active == st.active && st'.next1 == st.next1) {
      hide Normal, Covered, WordsUpTo, Over;
      var w :| Over(k, w) && |w| <= n && Normal(Pairs(st.active), w) && !Normal(Pairs(st'.active), w);
      CoveredFewer(k, n, st, st');
      InWords(k, n, w);
      OneFewer(Irreducible(k, n, st'), Irreducible(k, n, st), w);
    }
  }

  lemma SameIrreducible(k: nat, n: nat, st: State, st': State)
    requires st'.active == st.active
    ensures Irreducible(k, n, st') == Irreducible(k, n, st)
  {
  }

  lemma {:induction false} ScannedNext(k: nat, st: State, hand: Rule, i: nat)
    requires Ok(k, st) && i <= |st.active|
    ensures Scanned(k, st, hand, i).next2 <= st.next2
    decreases |st.active| - i
  {
    if i == |st.active| {
      ScannedAll(k, st, hand);
    } else {
      ScanUnfolded(k, st, hand, i);
      hide *;
      SecondPosition(st, i);
      if Contains(st.active[i].lhs, hand.lhs) {
        ScannedNext(k, Remove(st, i), hand, i);
      } else if Contains(st.active[i].rhs, hand.lhs) {
        ScannedNext(k, SetRight(st, i, NormalForm(k, st.active, st.active[i].rhs)), hand, i + 1);
      } else {
        ScannedNext(k, st, hand, i + 1);
      }
    }
  }

  lemma SecondPosition(st: State, i: nat)
    requires i < |st.active|
    ensures Remove(st, i).next2 <= st.next2 && forall r :: SetRight(st, i, r).next2 == st.next2
  {
  }

  lemma TurnGrows(k: nat, st: State, n: nat)
    requires Ok(k, st) && st.stack != [] && Short(n, st)
    ensures Short(n, Turn(k, st)) && Grown(k, n, st, Turn(k, st))
  {
    hide *;
    PoppedOk(k, st);
    PoppedIs(st);
    OkOrdered(k, st);
    WaitingParts(k, Top(st));
    HandReducedNow(k, st.active, st.shortest, Top(st));
    var hand, p := HandOf(k, st.active, Top(st)), Popped(st);
    TurnIs(k, st, hand);
    ReducedParts(k, Pairs(st.active), Top(st), hand);
    ShortPopped(st, n);
    ShortHand(k, st.active, st.shortest, Top(st), n);
    if hand.lhs == hand.rhs {
      DroppedGrows(k, st, hand, n);
    } else {
      ScanStart(k, p, hand);
      ScannedScanning(k, p, p, hand, 0);
      ScannedShort(k, p, hand, 0, n);
      ScannedNext(k, p, hand, 0);
      var s := Scanned(k, p, hand, 0);
      ScanParts(k, p, s, hand, |s.active|);
      ShortActivated(s, hand, n);
      ActivatedEverything(s, hand);
      CoverOf(p, s, hand);
      HandOver(k, hand);
      ActivatedGrows(k, st, s, hand, n);
    }
  }

  lemma DroppedGrows(k: nat, st: State, hand: Rule, n: nat)
    requires st.stack != [] && Short(n, Popped(st))
    ensures var st' := Popped(st).(inactive := st.inactive + [hand.at]); Short(n, st') && Grown(k, n, st, st')
  {
    hide ShortRule;
  }

  lemma CoverOf(st0: State, st: State, hand: Rule)
    requires ScanCover(st0, st, hand)
    ensures Covered(Pairs(st0.active), Pairs(st.active) + {hand.Pair()})
  {
  }

  lemma HandOver(k: nat, hand: Rule)
    requires OrderedPair(k, hand.Pair())
    ensures Over(k, hand.lhs)
  {
  }

  lemma ActivatedGrows(k: nat, st: State, s: State, hand: Rule, n: nat)
    requires st.stack != [] && s.next2 <= Popped(st).next2
    requires Covered(Pairs(st.active), Pairs(s.active) + {hand.Pair()}) && Pairs(Activated(s, hand).active) == Pairs(s.active) + {hand.Pair()}
    requires Normal(Pairs(st.active), hand.lhs) && Over(k, hand.lhs) && ShortRule(n, hand)
    ensures Grown(k, n, st, Activated(s, hand))
  {
    var rules := Pairs(Activated(s, hand).active);
    OccursSelf(hand.lhs);
    assert hand.Pair() in rules && OccursAt(hand.lhs, hand.Pair().0, 0);
    assert !Normal(rules, hand.lhs);
    hide Normal, Covered, Over, Pairs;
    assert Richer(k, n, Pairs(st.active), rules);
  }

  lemma {:induction false} TurnedGrows(k: nat, st: State, st': State, m: nat, n: nat)
    requires Ok(k, st) && Turned(k, st, st', m) && Short(n, st)
    ensures Short(n, st') && Grown(k, n, st, st')
    decreases m
  {
    if m == 0 {
      hide *;
      TurnedNone(k, st, st');
      GrownRefl(k, n, st);
    } else {
      hide Ok, Turn, Short, Grown;
      TurnKeeps(k, st);
      TurnGrows(k, st, n);
      TurnedGrows(k, Turn(k, st), st', m - 1, n);
      GrownTrans(k, n, st, Turn(k, st), st');
    }
  }

  lemma GrownRefl(k: nat, n: nat, st: State)
    ensures Grown(k, n, st, st)
  {
  }

  /** Emptying the stack, as far as it gets. */
  lemma CleanedGrows(k: nat, st: State, st': State, n: nat)
    requires Ok(k, st) && Cleaned(k, st, st') && Short(n, st)
    ensures Short(n, st') && Grown(k, n, st, st')
  {
    hide Ok, Turned, Short, Grown;
    var m: nat :| Turned(k, st, st', m);
    TurnedGrows(k, st, st', m, n);
  }

  lemma CleanedAdvances(k: nat, st: State, st': State)
    requires Ok(k, st) && Cleaned(k, st, st')
    ensures Advanced(k, st, st')
  {
    hide Ok, Cleaned, Short, Grown;
    var n := ShortStart(st);
    CleanedGrows(k, st, st', n);
  }
}
