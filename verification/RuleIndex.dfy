/**
 * Rules and the index of their left sides, ordered by reversed words.
 * Lines cited here are those of src/rws.h.
 */
module RuleIndex {
  import opened Words
  import opened Derivations

  /**
   * A rule: which object it is, the absolute value of its identifier, its two
   * sides, and whether they have exchanged the two strings of the object.
   */
  datatype Rule = Rule(at: nat, id: nat, lhs: Word, rhs: Word, flipped: bool) {
    function Pair(): Pair { (lhs, rhs) }
  }

  function Pairs(rules: seq<Rule>): set<Pair> {
    set r | r in rules :: r.Pair()
  }

  /** `l` is a suffix of `w`. */
  predicate Suffix(l: Word, w: Word) {
    |l| <= |w| && w[|w| - |l|..] == l
  }

  predicate SuffixRelated(u: Word, v: Word) {
    Suffix(u, v) || Suffix(v, u)
  }

  /** No left side is a suffix of another one. */
  ghost predicate Incomparable(rules: seq<Rule>) {
    forall i, j :: 0 <= i < j < |rules| ==> !SuffixRelated(rules[i].lhs, rules[j].lhs)
  }

  /** The last letters in which the words differ, read from the end, decide; if there are none the words are not comparable. */
  ghost predicate ReverseLess(u: Word, v: Word) {
    u != [] && v != [] &&
    if u[|u| - 1] != v[|v| - 1] then u[|u| - 1] < v[|v| - 1]
    else ReverseLess(u[..|u| - 1], v[..|v| - 1])
  }

  /** `RuleLookup::operator<` (lines 805-814). */
  method IndexLess(u: Word, v: Word) returns (less: bool)
    requires u != [] && v != []
    ensures less <==> ReverseLess(u, v)
  {
    var i, j := |u| - 1, |v| - 1;
    assert u[..i + 1] == u && v[..j + 1] == v;
    while i > 0 && j > 0 && u[i] == v[j]
      invariant 0 <= i < |u| && 0 <= j < |v|
      invariant ReverseLess(u, v) <==> ReverseLess(u[..i + 1], v[..j + 1])
    {
      assert u[..i + 1][..i] == u[..i] && v[..j + 1][..j] == v[..j];
      i, j := i - 1, j - 1;
    }
    less := u[i] < v[j];
    assert u[..i + 1][..i] == u[..i] && v[..j + 1][..j] == v[..j];
  }

  lemma SuffixSplit(u: Word, v: Word)
    requires u != [] && v != []
    ensures Suffix(u, v) <==> u[|u| - 1] == v[|v| - 1] && Suffix(u[..|u| - 1], v[..|v| - 1])
  {
    var u', v' := u[..|u| - 1], v[..|v| - 1];
    if Suffix(u, v) {
      assert v[|v| - |u|..][|u| - 1] == v[|v| - 1];
      forall i | 0 <= i < |u'| ensures v'[|v'| - |u'|..][i] == u'[i] { assert v[|v| - |u|..][i] == u[i]; }
    }
    if u[|u| - 1] == v[|v| - 1] && Suffix(u', v') {
      forall i | 0 <= i < |u| ensures v[|v| - |u|..][i] == u[i] {
        if i < |u'| { assert v'[|v'| - |u'|..][i] == u'[i]; }
      }
    }
  }

  /** Two words are not comparable exactly when one is a suffix of the other. */
  lemma {:induction false} ReverseIncomparable(u: Word, v: Word)
    ensures !ReverseLess(u, v) && !ReverseLess(v, u) <==> SuffixRelated(u, v)
    decreases |u|
  {
    if u != [] && v != [] {
      SuffixSplit(u, v);
      SuffixSplit(v, u);
      ReverseIncomparable(u[..|u| - 1], v[..|v| - 1]);
    } else {
      assert v[|v|..] == [] && u[|u|..] == [];
    }
  }

  lemma {:induction false} ReverseTrans(u: Word, v: Word, w: Word)
    requires ReverseLess(u, v) && ReverseLess(v, w)
    ensures ReverseLess(u, w) && !ReverseLess(v, u)
    decreases |u|
  {
    if u[|u| - 1] == v[|v| - 1] && v[|v| - 1] == w[|w| - 1] {
      ReverseTrans(u[..|u| - 1], v[..|v| - 1], w[..|w| - 1]);
    } else {
      ReverseAsymmetric(u, v);
    }
  }

  lemma {:induction false} ReverseAsymmetric(u: Word, v: Word)
    requires ReverseLess(u, v)
    ensures !ReverseLess(v, u)
    decreases |u|
  {
    if u[|u| - 1] == v[|v| - 1] {
      ReverseAsymmetric(u[..|u| - 1], v[..|v| - 1]);
    }
  }

  /**
   * What `std::set` needs: on left sides of which none is a suffix of another
   * the order is a strict total one, and a key splits them into those below
   * it, those equivalent to it and those above it.
   */
  lemma IndexIsOrdered(rules: seq<Rule>, i: nat, j: nat, key: Word)
    requires Incomparable(rules) && i < |rules| && j < |rules| && i != j
    ensures ReverseLess(rules[i].lhs, rules[j].lhs) != ReverseLess(rules[j].lhs, rules[i].lhs)
    ensures ReverseLess(rules[i].lhs, rules[j].lhs) && ReverseLess(rules[j].lhs, key) ==> ReverseLess(rules[i].lhs, key)
    ensures ReverseLess(rules[i].lhs, rules[j].lhs) && ReverseLess(key, rules[i].lhs) ==> ReverseLess(key, rules[j].lhs)
  {
    var u, v := rules[i].lhs, rules[j].lhs;
    ReverseIncomparable(u, v);
    if ReverseLess(u, v) {
      ReverseAsymmetric(u, v);
      if ReverseLess(v, key) { ReverseTrans(u, v, key); }
      if ReverseLess(key, u) { ReverseTrans(key, u, v); }
    }
  }

  /** A left side that is a suffix of the key is the only one equivalent to the key. */
  lemma SuffixUnique(rules: seq<Rule>, i: nat, j: nat, key: Word)
    requires Incomparable(rules) && i < |rules| && j < |rules|
    requires Suffix(rules[i].lhs, key) && SuffixRelated(rules[j].lhs, key)
    ensures i == j
  {
    if i != j {
      SuffixesRelated(rules[i].lhs, rules[j].lhs, key);
    }
  }

  lemma SuffixesRelated(u: Word, v: Word, key: Word)
    requires Suffix(u, key) && SuffixRelated(v, key)
    ensures SuffixRelated(u, v)
  {
    if Suffix(v, key) {
      if |u| <= |v| {
        assert v[|v| - |u|..] == key[|key| - |u|..];
      } else {
        assert u[|u| - |v|..] == key[|key| - |v|..];
      }
    } else {
      assert key == v[|v| - |key|..];
      assert v[|v| - |u|..] == key[|key| - |u|..];
    }
  }

  /** `_set_rules.find`: a rule whose left side is equivalent to the key. */
  method Find(rules: seq<Rule>, key: Word) returns (found: bool, rule: Rule)
    requires key != [] && forall i :: 0 <= i < |rules| ==> rules[i].lhs != []
    ensures found ==> rule in rules && SuffixRelated(rule.lhs, key)
    ensures !found ==> forall r :: r in rules ==> !SuffixRelated(r.lhs, key)
  {
    rule := Rule(0, 0, [], [], false);
    var i := 0;
    while i < |rules|
      invariant i <= |rules| && forall j :: 0 <= j < i ==> !SuffixRelated(rules[j].lhs, key)
    {
      var below := IndexLess(rules[i].lhs, key);
      var above := IndexLess(key, rules[i].lhs);
      ReverseIncomparable(rules[i].lhs, key);
      if !below && !above {
        return true, rules[i];
      }
      i := i + 1;
    }
    found := false;
  }
}
