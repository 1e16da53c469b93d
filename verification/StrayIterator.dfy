/**
 * An overlap during which the left side that is walked is replaced: the iterator of `overlap` in src/rws.cc goes astray.
 * Lines cited here are those of that file.
 */
module StrayIterator {
  import opened Words
  import opened Derivations
  import opened Rewriting
  import opened RuleIndex
  import opened InPlace
  import opened RuleState
  import opened Completion
  import opened Resolution
  import opened KnuthBendix

  // Four letters; the rules 000001 = empty and 123 = empty are added, and completion is started.

  function First(): Rule {
    Rule(0, 1, [0, 0, 0, 0, 0, 1], [], false)
  }

  function Second(): Rule {
    Rule(1, 2, [1, 2, 3], [], false)
  }

  /** The overlap of the first rule with the second one is reached; object 2 was used for copies of both. */
  function AtOverlap(): State {
    State([First(), Second()], [], [2], 3, 4, 3, 2, 0, true, false)
  }

  /** The rule that the overlap at the last letter gives: 00000 = 23. */
  function Found(): Rule {
    Rule(2, 5, [0, 0, 0, 0, 0], [2, 3], false)
  }

  function Pushed(): State {
    State([First(), Second()], [Found()], [], 3, 5, 3, 2, 0, true, false)
  }

  /** The new rule has thrown the first one out. */
  function Between(): State {
    State([Second(), Found()], [First()], [], 3, 5, 3, 1, 0, false, false)
  }

  /** The first rule is active again, as 231 = empty, under its old identifier. */
  function Afterwards(): State {
    State([Second(), Found(), First().(lhs := [2, 3, 1])], [], [], 3, 5, 3, 1, 0, false, false)
  }

  /**
   * The push at index 5 of the left side 000001 ends with the left side 231 in
   * the same object under the same identifier.  The next index, 4, is above the
   * limit 3, so the loop goes on; but it lies beyond the end of the new word.
   */
  lemma Stray()
    ensures var u, v, st := First(), Second(), AtOverlap();
            && Ok(4, st) && u.lhs[5..] == v.lhs[..1]
            && var (at, st1) := NewObject(st);
               var rule := Rule(at, st1.total, u.lhs[..5] + v.rhs, u.rhs + v.lhs[1..], false);
               Cleaned(4, st1.(stack := st1.stack + [rule]), Afterwards())
    ensures Afterwards().stack == [] && First().(lhs := [2, 3, 1]) in Afterwards().active && Replaced(Afterwards(), First())
    ensures |First().lhs| - Min(|First().lhs|, |Second().lhs|) < 4 && 4 > |[2, 3, 1]|
  {
    assert First().lhs[..5] + Second().rhs == Found().lhs && First().rhs + Second().lhs[1..] == Found().rhs;
    assert NewObject(AtOverlap()).1.(stack := [] + [Found()]) == Pushed();
    PushedOk();
    assert Afterwards().active[2] == First().(lhs := [2, 3, 1]);
    hide Ok, Cleaned;
    TwoTurns();
  }

  lemma TwoTurns()
    ensures Cleaned(4, Pushed(), Afterwards())
  {
    FirstTurn();
    SecondTurn();
    assert Pushed().stack != [] && Between().stack != [];
    hide Ok, Turn, Pushed, Between, Afterwards;
    assert Turned(4, Afterwards(), Afterwards(), 0);
    assert Turned(4, Between(), Afterwards(), 1);
    assert Turned(4, Pushed(), Afterwards(), 2);
  }

  lemma PushedOk()
    ensures Ok(4, AtOverlap()) && Ok(4, Pushed()) && Usable(4, [First(), Second()], 3)
  {
    var rules := [First(), Second()];
    TwoUsable(First(), Second());
    assert Over(4, Found().lhs) && Over(4, Found().rhs);
  }

  /** Two ordered rules without common suffixes. */
  lemma TwoUsable(a: Rule, b: Rule)
    requires OrderedPair(4, a.Pair()) && OrderedPair(4, b.Pair()) && |a.lhs| >= 3 && |b.lhs| >= 3 && a.lhs[|a.lhs| - 1] != b.lhs[|b.lhs| - 1]
    ensures Usable(4, [a, b], 3)
  {
    var rules := [a, b];
    hide OrderedPair;
    forall p | p in Pairs(rules) ensures OrderedPair(4, p) {
      assert p == a.Pair() || p == b.Pair();
    }
    assert !SuffixRelated(a.lhs, b.lhs) by {
      LastLetter(a.lhs, b.lhs);
      LastLetter(b.lhs, a.lhs);
    }
  }

  lemma LastLetter(l: Word, w: Word)
    requires l != [] && w != [] && l[|l| - 1] != w[|w| - 1]
    ensures !Suffix(l, w)
  {
    if |l| <= |w| {
      assert w[|w| - |l|..][|l| - 1] == w[|w| - 1];
    }
  }

  // ----- normal forms for two rules -----

  lemma TwoNormal(a: Rule, b: Rule, w: Word)
    requires forall i: nat :: !OccursAt(w, a.lhs, i) && !OccursAt(w, b.lhs, i)
    ensures Normal(Pairs([a, b]), w)
  {
    forall p, i: nat | p in Pairs([a, b]) ensures !OccursAt(w, p.0, i) {
      assert p == a.Pair() || p == b.Pair();
    }
  }

  /** A word to which no rule applies is its own normal form. */
  lemma NormalSelf(k: nat, rules: seq<Rule>, shortest: nat, w: Word)
    requires Usable(k, rules, shortest) && shortest > 0 && Over(k, w) && Normal(Pairs(rules), w)
    ensures Ordered(k, Pairs(rules)) && NormalForm(k, rules, w) == w
  {
    hide *;
    NormalFormReached(k, rules, shortest, w);
    NormalReach(Pairs(rules), w, NormalForm(k, rules, w));
  }

  /** A word does not occur in one that lacks its first letter. */
  lemma NotOccurs(w: Word, l: Word, i: nat)
    requires l != [] && l[0] !in w
    ensures !OccursAt(w, l, i)
  {
    if i + |l| <= |w| {
      assert w[i..i + |l|][0] == w[i];
    }
  }

  lemma NotContains(w: Word, l: Word)
    requires (l != [] && l[0] !in w) || |w| < |l|
    ensures !Contains(w, l)
  {
    forall i: nat ensures !OccursAt(w, l, i) {
      if |w| >= |l| { NotOccurs(w, l, i); }
    }
  }

  // ----- the first turn -----

  lemma FirstTurn()
    ensures Ok(4, Pushed()) && Turn(4, Pushed()) == Between()
  {
    var rules := [First(), Second()];
    PushedOk();
    FoundNormal();
    NormalSelf(4, rules, 3, Found().lhs);
    NormalSelf(4, rules, 3, Found().rhs);
    hide Ok, Usable, Ordered, Scanned, NormalForm, Normal;
    assert Popped(Pushed()) == Pushed().(stack := []) && Top(Pushed()) == Found();
    assert HandOf(4, rules, Found()) == Found();
    FirstScan();
    TurnIs(4, Pushed(), Found());
  }

  lemma FoundNormal()
    ensures Normal(Pairs([First(), Second()]), Found().lhs) && Normal(Pairs([First(), Second()]), Found().rhs)
    ensures Over(4, Found().lhs) && Over(4, Found().rhs)
  {
    forall i: nat ensures !OccursAt(Found().lhs, First().lhs, i) && !OccursAt(Found().lhs, Second().lhs, i) {
      NotOccurs(Found().lhs, Second().lhs, i);
    }
    TwoNormal(First(), Second(), Found().lhs);
    TwoNormal(First(), Second(), Found().rhs);
  }

  lemma FirstScan()
    ensures Ok(4, Pushed().(stack := [])) && Activated(Scanned(4, Pushed().(stack := []), Found(), 0), Found()) == Between()
  {
    var st := Pushed().(stack := []);
    PushedOk();
    var st1 := Remove(st, 0);
    assert st1.active == [Second()] && st1.stack == [First()] && st1 == Between().(active := [Second()], shortest := 3, known := true);
    FoundContains();
    hide Ok, Contains, Usable, Remove, Scanned;
    ScanUnfolded(4, st, Found(), 0);
    ScanUnfolded(4, st1, Found(), 0);
    ScannedAll(4, st1, Found());
  }

  lemma FoundContains()
    ensures Contains(First().lhs, Found().lhs) && !Contains(Second().lhs, Found().lhs) && !Contains(Second().rhs, Found().lhs)
  {
    assert OccursAt(First().lhs, Found().lhs, 0);
    NotContains(Second().lhs, Found().lhs);
    NotContains(Second().rhs, Found().lhs);
  }

  // ----- the second turn -----

  lemma BetweenOk()
    ensures Ok(4, Between()) && Usable(4, [Second(), Found()], 3) && Over(4, First().lhs) && Over(4, First().rhs)
  {
    TwoUsable(Second(), Found());
  }

  lemma SecondTurn()
    ensures Ok(4, Between()) && Turn(4, Between()) == Afterwards()
  {
    var rules, hand := [Second(), Found()], First().(lhs := [2, 3, 1]);
    BetweenOk();
    FirstNormalForm();
    hide Ok, Usable, Ordered, Scanned, NormalForm, Normal;
    assert Popped(Between()) == Between().(stack := []) && Top(Between()) == First();
    assert HandOf(4, rules, First()) == hand;
    SecondScan();
    TurnIs(4, Between(), hand);
  }

  lemma SecondScan()
    ensures var st, hand := Between().(stack := []), First().(lhs := [2, 3, 1]);
            Ok(4, st) && Activated(Scanned(4, st, hand, 0), hand) == Afterwards()
  {
    var st, hand := Between().(stack := []), First().(lhs := [2, 3, 1]);
    BetweenOk();
    assert !Contains(Second().lhs, hand.lhs) by { assert Second().lhs[0..3] == [1, 2, 3]; }
    NotContains(Second().rhs, hand.lhs);
    NotContains(Found().lhs, hand.lhs);
    NotContains(Found().rhs, hand.lhs);
    hide Ok, Contains, Usable, Scanned;
    ScanUnfolded(4, st, hand, 0);
    ScanUnfolded(4, st, hand, 1);
    ScannedAll(4, st, hand);
  }

  /** Read from the left, 000001 becomes 231. */
  lemma FirstNormalForm()
    ensures Ordered(4, Pairs([Second(), Found()]))
    ensures Over(4, First().lhs) && NormalForm(4, [Second(), Found()], First().lhs) == [2, 3, 1]
    ensures Over(4, First().rhs) && NormalForm(4, [Second(), Found()], First().rhs) == []
  {
    var rules := [Second(), Found()];
    BetweenOk();
    UsableOrdered(4, rules, 3);
    ShortNormalForm(4, rules, 3, []);
    ReadZeros();
    ReadFound();
    ReadRest();
    hide InPlace.Reduced, Ordered;
    assert [] + First().lhs == First().lhs;
  }

  lemma ReadZeros()
    requires Ordered(4, Pairs([Second(), Found()]))
    ensures Over(4, [0, 0, 0, 0] + [0, 1]) && Over(4, [] + First().lhs)
    ensures InPlace.Reduced(4, [Second(), Found()], [0, 0, 0, 0], [0, 1]) == InPlace.Reduced(4, [Second(), Found()], [], First().lhs)
  {
    var w := First().lhs;
    forall i | 0 < i <= 4 ensures !Suffix(Second().lhs, [] + w[..i]) {
      LastLetter(Second().lhs, [] + w[..i]);
    }
    hide InPlace.Reduced, Ordered;
    assert [] + w == w;
    ReadLetters([], w, 4);
    assert [] + w[..4] == [0, 0, 0, 0] && w[4..] == [0, 1];
  }

  lemma ReadFound()
    requires Ordered(4, Pairs([Second(), Found()]))
    ensures Over(4, [0, 0, 0, 0] + [0, 1]) && Over(4, [] + [2, 3, 1])
    ensures InPlace.Reduced(4, [Second(), Found()], [], [2, 3, 1]) == InPlace.Reduced(4, [Second(), Found()], [0, 0, 0, 0], [0, 1])
  {
    var rules, v, w: Word := [Second(), Found()], [0, 0, 0, 0], [0, 1];
    BetweenOk();
    assert v + [w[0]] == Found().lhs && Suffix(Found().lhs, v + [w[0]]) && Found() in rules;
    hide InPlace.Reduced, Ordered, Usable;
    ReducedRule(4, rules, 3, v, w, Found());
    assert v[..0] == [] && Found().rhs + w[1..] == [2, 3, 1];
  }

  lemma ReadRest()
    requires Ordered(4, Pairs([Second(), Found()]))
    ensures Over(4, [] + [2, 3, 1]) && InPlace.Reduced(4, [Second(), Found()], [], [2, 3, 1]) == [2, 3, 1]
  {
    var w: Word := [2, 3, 1];
    assert [] + w == w;
    forall i {:trigger w[..i]} | 0 < i <= 3 ensures !Suffix(Second().lhs, [] + w[..i]) && !Suffix(Found().lhs, [] + w[..i]) {
      if i == 3 {
        LastLetter(Second().lhs, [] + w[..i]);
      }
    }
    ReadLetters([], w, 3);
    assert [] + w[..3] == w && w[3..] == [];
  }

  /** As long as no left side ends in what has been read, nothing happens to the letters. */
  lemma {:induction false} ReadLetters(v: Word, w: Word, n: nat)
    requires Over(4, v + w) && n <= |w| && Ordered(4, Pairs([Second(), Found()]))
    requires forall i {:trigger w[..i]} :: 0 < i <= n ==> !Suffix(Second().lhs, v + w[..i]) && !Suffix(Found().lhs, v + w[..i])
    ensures Over(4, (v + w[..n]) + w[n..])
    ensures InPlace.Reduced(4, [Second(), Found()], v + w[..n], w[n..]) == InPlace.Reduced(4, [Second(), Found()], v, w)
    decreases n
  {
    hide InPlace.Reduced, Ordered, Suffix;
    if n == 0 {
      assert v + w[..0] == v && w[0..] == w;
    } else {
      assert w[..1] == [w[0]];
      ReducedLetter(4, [Second(), Found()], v, w);
      var v', w' := v + [w[0]], w[1..];
      forall i {:trigger w'[..i]} | 0 < i <= n - 1 ensures !Suffix(Second().lhs, v' + w'[..i]) && !Suffix(Found().lhs, v' + w'[..i]) {
        assert v' + w'[..i] == v + w[..i + 1];
      }
      ReadLetters(v', w', n - 1);
      assert v' + w'[..n - 1] == v + w[..n] && w'[n - 1..] == w[n..];
    }
  }
}
