/**
 * Rewriting a word from the left in a single buffer.
 * Lines cited here are those of src/rws.cc.
 */
module InPlace {
  import opened Words
  import opened ShortLex
  import opened Rank
  import opened Derivations
  import opened Rewriting
  import opened RuleIndex

  /** The rules may be used: they go down, none of their left sides is a suffix of another, none is shorter than `shortest`. */
  ghost predicate Usable(k: nat, rules: seq<Rule>, shortest: nat) {
    && Ordered(k, Pairs(rules)) && Incomparable(rules)
    && forall r :: r in rules ==> shortest <= |r.lhs|
  }

  lemma UsableRule(k: nat, rules: seq<Rule>, shortest: nat, r: Rule)
    requires Usable(k, rules, shortest) && r in rules
    ensures r.Pair() in Pairs(rules) && OrderedPair(k, r.Pair()) && |r.rhs| <= |r.lhs| && r.lhs != [] && shortest <= |r.lhs|
  {
    assert r.Pair() in Pairs(rules);
  }

  // ----- normal words -----

  lemma OccursPrefix(w: Word, n: nat, l: Word, i: nat)
    requires n <= |w| && OccursAt(w[..n], l, i)
    ensures OccursAt(w, l, i)
  {
    assert w[i..i + |l|] == w[..n][i..i + |l|];
  }

  lemma OccursLetter(w: Word, a: Letter, l: Word, i: nat)
    requires OccursAt(w + [a], l, i)
    ensures OccursAt(w, l, i) || Suffix(l, w + [a])
  {
    if i + |l| <= |w| {
      assert w[i..i + |l|] == (w + [a])[i..i + |l|];
    } else {
      assert (w + [a])[|w| + 1 - |l|..] == (w + [a])[i..i + |l|];
    }
  }

  lemma NormalPrefix(rules: set<Pair>, w: Word, n: nat)
    requires Normal(rules, w) && n <= |w|
    ensures Normal(rules, w[..n])
  {
    forall p, i: nat | p in rules ensures !OccursAt(w[..n], p.0, i) {
      if OccursAt(w[..n], p.0, i) {
        OccursPrefix(w, n, p.0, i);
      }
    }
  }

  lemma NormalShort(k: nat, rules: seq<Rule>, shortest: nat, w: Word)
    requires Usable(k, rules, shortest) && |w| < shortest
    ensures Normal(Pairs(rules), w)
  {
  }

  /** Appending a letter to a normal word can only complete a left side at its end. */
  lemma NormalLetter(k: nat, rules: seq<Rule>, shortest: nat, w: Word, a: Letter)
    requires Usable(k, rules, shortest) && Normal(Pairs(rules), w)
    requires forall r :: r in rules ==> !Suffix(r.lhs, w + [a])
    ensures Normal(Pairs(rules), w + [a])
  {
    forall p, i: nat | p in Pairs(rules) ensures !OccursAt(w + [a], p.0, i) {
      if OccursAt(w + [a], p.0, i) {
        OccursLetter(w, a, p.0, i);
      }
    }
  }

  // ----- the normal form -----

  ghost predicate Completes(rules: seq<Rule>, x: Word) {
    exists r :: r in rules && Suffix(r.lhs, x)
  }

  /** A rule whose left side is a suffix. */
  ghost function TheRule(rules: seq<Rule>, x: Word): (r: Rule)
    requires Completes(rules, x)
    ensures r in rules && Suffix(r.lhs, x)
  {
    var r :| r in rules && Suffix(r.lhs, x);
    r
  }

  /** No left side is a suffix of another one, so there is only one such rule. */
  lemma OneRule(k: nat, rules: seq<Rule>, shortest: nat, x: Word, r: Rule)
    requires Usable(k, rules, shortest) && r in rules && Suffix(r.lhs, x)
    ensures Completes(rules, x) && TheRule(rules, x) == r
  {
    var s := TheRule(rules, x);
    var i :| 0 <= i < |rules| && rules[i] == r;
    var j :| 0 <= j < |rules| && rules[j] == s;
    SuffixUnique(rules, i, j, x);
  }

  /** What `v`, already processed, followed by `w` is rewritten to: letters are taken from `w` and rules applied where they end. */
  ghost function Reduced(k: nat, rules: seq<Rule>, v: Word, w: Word): Word
    requires Ordered(k, Pairs(rules)) && Over(k, v + w)
    decreases RankOf(k, v + w), |w|
  {
    if w == [] then v
    else if Completes(rules, v + [w[0]]) then
      var r := TheRule(rules, v + [w[0]]);
      RuleDown(k, rules, v, w, r);
      Reduced(k, rules, v[..|v| + 1 - |r.lhs|], r.rhs + w[1..])
    else
      Shift(v, v, w);
      Reduced(k, rules, v + [w[0]], w[1..])
  }

  ghost function NormalForm(k: nat, rules: seq<Rule>, u: Word): Word
    requires Ordered(k, Pairs(rules)) && Over(k, u)
  {
    assert [] + u == u;
    Reduced(k, rules, [], u)
  }

  /** Applying a rule at the end of the processed part takes the word down. */
  lemma RuleDown(k: nat, rules: seq<Rule>, v: Word, w: Word, r: Rule)
    requires Ordered(k, Pairs(rules)) && Over(k, v + w) && w != [] && r in rules && Suffix(r.lhs, v + [w[0]])
    ensures |r.lhs| <= |v| + 1
    ensures var n := |v| + 1 - |r.lhs|;
            n <= |v| && Over(k, v[..n] + (r.rhs + w[1..])) && RankOf(k, v[..n] + (r.rhs + w[1..])) < RankOf(k, v + w)
  {
    hide *;
    PairListed(k, rules, r);
    RuleNonempty(k, r);
    SuffixFits(r.lhs, v + [w[0]]);
    var n := |v| + 1 - |r.lhs|;
    var m := Move(v[..n], r.lhs, r.rhs, w[1..]);
    StepShape(v, w, r.lhs, r.rhs);
    MoveIs(k, Pairs(rules), m, r);
    MoveDown(k, Pairs(rules), m);
    RankMonotone(k, m.After(), v + w);
  }

  lemma PairListed(k: nat, rules: seq<Rule>, r: Rule)
    requires Ordered(k, Pairs(rules)) && r in rules
    ensures r.Pair() in Pairs(rules) && OrderedPair(k, r.Pair())
  {
  }

  lemma SuffixFits(l: Word, w: Word)
    requires Suffix(l, w)
    ensures |l| <= |w|
  {
  }

  lemma MoveIs(k: nat, rules: set<Pair>, m: Move, r: Rule)
    requires r.Pair() in rules && m.lhs == r.lhs && m.rhs == r.rhs
    ensures (m.lhs, m.rhs) in rules && Legal(Directed(rules), m)
  {
  }

  lemma RuleNonempty(k: nat, r: Rule)
    requires OrderedPair(k, r.Pair())
    ensures r.lhs != []
  {
  }

  /** As long as the processed part is shorter than every left side nothing happens to the letters. */
  lemma {:induction false} ReducedShort(k: nat, rules: seq<Rule>, shortest: nat, v: Word, w: Word, n: nat)
    requires Usable(k, rules, shortest) && Over(k, v + w) && n <= |w| && |v| + n < shortest
    ensures Over(k, (v + w[..n]) + w[n..]) && Reduced(k, rules, v + w[..n], w[n..]) == Reduced(k, rules, v, w)
    decreases n
  {
    if n == 0 {
      assert v + w[..0] == v && w[0..] == w;
    } else {
      Shift(v, v, w);
      assert !Completes(rules, v + [w[0]]);
      ReducedShort(k, rules, shortest, v + [w[0]], w[1..], n - 1);
      assert (v + [w[0]]) + w[1..][..n - 1] == v + w[..n] && w[1..][n - 1..] == w[n..];
    }
  }

  // ----- one step -----

  /** `v`, the part already processed, and `w`, the rest, together come from `u` by rewriting; `v` is normal, and the result will be that of `u`. */
  ghost predicate Processing(k: nat, rules: seq<Rule>, u: Word, v: Word, w: Word) {
    && Over(k, v + w) && Reach(Pairs(rules), u, v + w) && Normal(Pairs(rules), v)
    && Ordered(k, Pairs(rules)) && Over(k, u) && Reduced(k, rules, v, w) == NormalForm(k, rules, u)
  }

  lemma Shift(u: Word, v: Word, w: Word)
    requires w != []
    ensures v + w == (v + [w[0]]) + w[1..]
  {
  }

  /** The processed part grows by a letter, which completes no left side. */
  lemma StepLetter(k: nat, rules: seq<Rule>, shortest: nat, u: Word, v: Word, w: Word)
    requires Usable(k, rules, shortest) && Processing(k, rules, u, v, w) && w != []
    requires forall r :: r in rules ==> !Suffix(r.lhs, v + [w[0]])
    ensures Processing(k, rules, u, v + [w[0]], w[1..])
  {
    Shift(u, v, w);
    ReducedLetter(k, rules, v, w);
    hide Normal, Reach, Usable, Over, Ordered, Reduced, NormalForm;
    NormalLetter(k, rules, shortest, v, w[0]);
  }

  lemma ReducedLetter(k: nat, rules: seq<Rule>, v: Word, w: Word)
    requires Ordered(k, Pairs(rules)) && Over(k, v + w) && w != [] && forall r :: r in rules ==> !Suffix(r.lhs, v + [w[0]])
    ensures Over(k, (v + [w[0]]) + w[1..]) && Reduced(k, rules, v + [w[0]], w[1..]) == Reduced(k, rules, v, w)
  {
    Shift(v, v, w);
    assert !Completes(rules, v + [w[0]]);
  }

  lemma ReducedRule(k: nat, rules: seq<Rule>, shortest: nat, v: Word, w: Word, r: Rule)
    requires Usable(k, rules, shortest) && Over(k, v + w) && w != [] && r in rules && Suffix(r.lhs, v + [w[0]])
    ensures |r.lhs| <= |v| + 1
    ensures var n := |v| + 1 - |r.lhs|;
            n <= |v| && Over(k, v[..n] + (r.rhs + w[1..])) && Reduced(k, rules, v[..n], r.rhs + w[1..]) == Reduced(k, rules, v, w)
  {
    hide *;
    UsableOrdered(k, rules, shortest);
    OneRule(k, rules, shortest, v + [w[0]], r);
    ReducedUnfolded(k, rules, v, w);
  }

  lemma ReducedUnfolded(k: nat, rules: seq<Rule>, v: Word, w: Word)
    requires Ordered(k, Pairs(rules)) && Over(k, v + w) && w != [] && Completes(rules, v + [w[0]])
    ensures var r := TheRule(rules, v + [w[0]]); var n := |v| + 1 - |r.lhs|;
            0 <= n <= |v| && Over(k, v[..n] + (r.rhs + w[1..])) && Reduced(k, rules, v[..n], r.rhs + w[1..]) == Reduced(k, rules, v, w)
  {
    var r := TheRule(rules, v + [w[0]]);
    RuleDown(k, rules, v, w, r);
    hide Over, RankOf, Ordered, Suffix, Completes, TheRule, Pairs, Usable, Less;
  }

  /** The new letter completes the left side of `r`. */
  lemma StepRule(k: nat, rules: seq<Rule>, shortest: nat, u: Word, v: Word, w: Word, r: Rule)
    requires Usable(k, rules, shortest) && Processing(k, rules, u, v, w) && w != []
    requires r in rules && Suffix(r.lhs, v + [w[0]])
    ensures |r.rhs| <= |r.lhs| && 0 < |r.lhs| <= |v| + 1
    ensures var n := |v| + 1 - |r.lhs|;
            Processing(k, rules, u, v[..n], r.rhs + w[1..]) && RankOf(k, v[..n] + (r.rhs + w[1..])) < RankOf(k, v + w)
  {
    hide *;
    ProcessingParts(k, rules, u, v, w);
    UsableRule(k, rules, shortest, r);
    ReducedRule(k, rules, shortest, v, w, r);
    RuleDown(k, rules, v, w, r);
    var n := |v| + 1 - |r.lhs|;
    var m := Move(v[..n], r.lhs, r.rhs, w[1..]);
    StepShape(v, w, r.lhs, r.rhs);
    PairOf(r);
    ReachMove(Pairs(rules), m);
    ReachTrans(Pairs(rules), u, v + w, m.After());
    NormalPrefix(Pairs(rules), v, n);
    ProcessingNow(k, rules, u, v[..n], r.rhs + w[1..]);
  }

  lemma PairOf(r: Rule)
    ensures r.Pair() == (r.lhs, r.rhs)
  {
  }

  lemma ProcessingParts(k: nat, rules: seq<Rule>, u: Word, v: Word, w: Word)
    requires Processing(k, rules, u, v, w)
    ensures Over(k, v + w) && Reach(Pairs(rules), u, v + w) && Normal(Pairs(rules), v)
    ensures Ordered(k, Pairs(rules)) && Over(k, u) && Reduced(k, rules, v, w) == NormalForm(k, rules, u)
  {
  }

  lemma ProcessingNow(k: nat, rules: seq<Rule>, u: Word, v: Word, w: Word)
    requires Over(k, v + w) && Reach(Pairs(rules), u, v + w) && Normal(Pairs(rules), v)
    requires Ordered(k, Pairs(rules)) && Over(k, u) && Reduced(k, rules, v, w) == NormalForm(k, rules, u)
    ensures Processing(k, rules, u, v, w)
  {
  }

  lemma UsableOrdered(k: nat, rules: seq<Rule>, shortest: nat)
    requires Usable(k, rules, shortest)
    ensures Ordered(k, Pairs(rules))
  {
  }

  lemma StepShape(v: Word, w: Word, l: Word, r: Word)
    requires w != [] && l != [] && Suffix(l, v + [w[0]])
    ensures var n := |v| + 1 - |l|; var m := Move(v[..n], l, r, w[1..]);
            m.Before() == v + w && m.After() == v[..n] + (r + w[1..])
  {
    var n := |v| + 1 - |l|;
    var x := v + [w[0]];
    assert x[..n] == v[..n] && x == x[..n] + l;
    assert v + w == x + w[1..];
    Assoc(v[..n], r, w[1..]);
  }

  /** Copy `word` into the buffer from position `at` on (`string_replace`, lines 33-41). */
  method Replace(u: array<Letter>, at: nat, word: Word)
    requires at + |word| <= u.Length
    modifies u
    ensures u[at..at + |word|] == word && u[..at] == old(u[..at]) && u[at + |word|..] == old(u[at + |word|..])
  {
    var i := 0;
    while i < |word|
      invariant i <= |word| && u[at..at + i] == word[..i]
      invariant u[..at] == old(u[..at]) && u[at + |word|..] == old(u[at + |word|..])
    {
      u[at + i] := word[i];
      i := i + 1;
    }
  }

  /** Lines 403-405: the left side goes, the right side is put back in front of the rest. */
  method Apply(u: array<Letter>, vEnd: nat, wBegin: nat, rule: Rule) returns (vEnd': nat, wBegin': nat)
    requires vEnd <= wBegin <= u.Length && |rule.rhs| <= |rule.lhs| <= vEnd
    modifies u
    ensures vEnd' == vEnd - |rule.lhs| && vEnd' <= wBegin' <= u.Length
    ensures u[..vEnd'] == old(u[..vEnd])[..vEnd'] && u[wBegin'..] == rule.rhs + old(u[wBegin..])
  {
    vEnd', wBegin' := vEnd - |rule.lhs|, wBegin - |rule.rhs|;
    Replace(u, wBegin', rule.rhs);
  }

  /** Lines 393-407: move one letter, and apply the rule whose left side it completes, if there is one. */
  method Advance(u: array<Letter>, vEnd: nat, wBegin: nat, rules: seq<Rule>, shortest: nat, ghost k: nat, ghost start: Word)
    returns (vEnd': nat, wBegin': nat)
    requires Usable(k, rules, shortest) && vEnd <= wBegin < u.Length
    requires Processing(k, rules, start, u[..vEnd], u[wBegin..])
    modifies u
    ensures vEnd' <= wBegin' <= u.Length && Processing(k, rules, start, u[..vEnd'], u[wBegin'..])
    ensures var before, after := RankOf(k, old(u[..vEnd]) + old(u[wBegin..])), RankOf(k, u[..vEnd'] + u[wBegin'..]);
            after < before || (after == before && wBegin' == wBegin + 1)
  {
    hide *;
    ghost var v, w := u[..vEnd], u[wBegin..];
    vEnd', wBegin' := MoveLetter(u, vEnd, wBegin);
    var found, rule := FindSuffix(rules, u[..vEnd'], shortest, k);
    if found {
      StepRule(k, rules, shortest, start, v, w, rule);
      vEnd', wBegin' := ApplyMoved(u, vEnd', wBegin', rule, v, w);
    } else {
      StepLetter(k, rules, shortest, start, v, w);
      Shift(start, v, w);
    }
  }

  /** The same, after the first letter of `w` has moved to `v`. */
  method ApplyMoved(u: array<Letter>, vEnd: nat, wBegin: nat, rule: Rule, ghost v: Word, ghost w: Word) returns (vEnd': nat, wBegin': nat)
    requires vEnd <= wBegin <= u.Length && |rule.rhs| <= |rule.lhs| <= |v| + 1 && w != [] && u[..vEnd] == v + [w[0]] && u[wBegin..] == w[1..]
    requires 0 < |rule.lhs|
    modifies u
    ensures vEnd' == |v| + 1 - |rule.lhs| && vEnd' <= wBegin' <= u.Length
    ensures u[..vEnd'] == v[..vEnd'] && u[wBegin'..] == rule.rhs + w[1..]
  {
    vEnd', wBegin' := Apply(u, vEnd, wBegin, rule);
    Front(v, w[0], vEnd');
  }

  lemma Front(v: Word, a: Letter, n: nat)
    requires n <= |v|
    ensures (v + [a])[..n] == v[..n]
  {
  }

  /** Lines 408-414: while the processed part is shorter than every left side, only move letters. */
  method Refill(u: array<Letter>, vEnd: nat, wBegin: nat, rules: seq<Rule>, shortest: nat, ghost k: nat, ghost start: Word)
    returns (vEnd': nat, wBegin': nat)
    requires Usable(k, rules, shortest) && vEnd <= wBegin <= u.Length
    requires Processing(k, rules, start, u[..vEnd], u[wBegin..])
    modifies u
    ensures vEnd' <= wBegin' <= u.Length && wBegin <= wBegin' && Processing(k, rules, start, u[..vEnd'], u[wBegin'..])
    ensures u[..vEnd'] + u[wBegin'..] == old(u[..vEnd]) + old(u[wBegin..])
  {
    hide *;
    vEnd', wBegin' := vEnd, wBegin;
    while wBegin' != u.Length && shortest - 1 > vEnd'
      invariant 0 <= vEnd' <= wBegin' <= u.Length && wBegin <= wBegin'
      invariant Processing(k, rules, start, u[..vEnd'], u[wBegin'..])
      invariant u[..vEnd'] + u[wBegin'..] == old(u[..vEnd]) + old(u[wBegin..])
      decreases u.Length - wBegin'
    {
      ghost var v, w := u[..vEnd'], u[wBegin'..];
      vEnd', wBegin' := MoveLetter(u, vEnd', wBegin');
      Shift(start, v, w);
      ShortStep(k, rules, shortest, start, v, w);
    }
  }

  /**
   * `internal_rewrite` (lines 381-417): the processed part ends at `vEnd`, the
   * rest starts at `wBegin`, and both live in `u`.
   */
  method Rewrite(u: array<Letter>, rules: seq<Rule>, shortest: nat, ghost k: nat) returns (len: nat)
    requires Usable(k, rules, shortest) && shortest > 0 && Over(k, u[..])
    modifies u
    ensures len <= u.Length && Ordered(k, Pairs(rules))
    ensures Reach(Pairs(rules), old(u[..]), u[..len]) && Normal(Pairs(rules), u[..len]) && u[..len] == NormalForm(k, rules, old(u[..]))
  {
    hide *;
    ghost var start := u[..];
    UsableOrdered(k, rules, shortest);
    ReachRefl(Pairs(rules), start);
    if u.Length < shortest {
      NormalShort(k, rules, shortest, u[..]);
      ShortNormalForm(k, rules, shortest, u[..]);
      assert u[..u.Length] == u[..];
      return u.Length;
    }
    var vEnd, wBegin := shortest - 1, shortest - 1;
    assert u[..vEnd] + u[wBegin..] == start;
    Start(k, rules, shortest, start, u[..vEnd], u[wBegin..]);
    while wBegin != u.Length
      invariant 0 <= vEnd <= wBegin <= u.Length
      invariant Processing(k, rules, start, u[..vEnd], u[wBegin..])
      decreases RankOf(k, u[..vEnd] + u[wBegin..]), u.Length - wBegin
    {
      vEnd, wBegin := Advance(u, vEnd, wBegin, rules, shortest, k, start);
      vEnd, wBegin := Refill(u, vEnd, wBegin, rules, shortest, k, start);
    }
    Finish(k, rules, start, u[..vEnd], u[wBegin..]);
    len := vEnd;
  }

  /** Lines 393-395. */
  method MoveLetter(u: array<Letter>, vEnd: nat, wBegin: nat) returns (vEnd': nat, wBegin': nat)
    requires vEnd <= wBegin < u.Length
    modifies u
    ensures vEnd' == vEnd + 1 && wBegin' == wBegin + 1
    ensures u[..vEnd'] == old(u[..vEnd]) + [old(u[wBegin])] && u[wBegin'..] == old(u[wBegin'..])
    ensures u[..vEnd] == old(u[..vEnd]) && old(u[wBegin..])[0] == old(u[wBegin]) && old(u[wBegin..])[1..] == u[wBegin'..]
  {
    u[vEnd] := u[wBegin];
    vEnd', wBegin' := vEnd + 1, wBegin + 1;
  }

  /** Lines 397-400: the index finds a rule exactly when some left side is a suffix. */
  method FindSuffix(rules: seq<Rule>, v: Word, shortest: nat, ghost k: nat) returns (found: bool, rule: Rule)
    requires Usable(k, rules, shortest) && v != []
    ensures found ==> rule in rules && Suffix(rule.lhs, v)
    ensures !found ==> forall r :: r in rules ==> !Suffix(r.lhs, v)
  {
    assert forall i :: 0 <= i < |rules| ==> rules[i].lhs != [] by {
      forall i | 0 <= i < |rules| ensures rules[i].lhs != [] { UsableRule(k, rules, shortest, rules[i]); }
    }
    found, rule := Find(rules, v);
    if found && |rule.lhs| > |v| {
      forall r | r in rules ensures !Suffix(r.lhs, v) {
        if Suffix(r.lhs, v) {
          var i :| 0 <= i < |rules| && rules[i] == r;
          var j :| 0 <= j < |rules| && rules[j] == rule;
          SuffixUnique(rules, i, j, v);
        }
      }
      found := false;
    } else if found {
      assert Suffix(rule.lhs, v) by {
        if Suffix(v, rule.lhs) { assert rule.lhs == v && v[0..] == v; }
      }
    }
  }

  lemma Start(k: nat, rules: seq<Rule>, shortest: nat, u: Word, v: Word, w: Word)
    requires Usable(k, rules, shortest) && Reach(Pairs(rules), u, u) && v + w == u && Over(k, u) && |v| < shortest
    ensures Processing(k, rules, u, v, w)
  {
    NormalShort(k, rules, shortest, v);
    assert [] + u == u && u[..|v|] == v && u[|v|..] == w && [] + u[..|v|] == v;
    ReducedShort(k, rules, shortest, [], u, |v|);
    hide Reduced, Reach, Normal, Over;
  }

  lemma Finish(k: nat, rules: seq<Rule>, u: Word, v: Word, w: Word)
    requires Processing(k, rules, u, v, w) && w == []
    ensures Reach(Pairs(rules), u, v) && Normal(Pairs(rules), v) && Ordered(k, Pairs(rules)) && Over(k, u) && v == NormalForm(k, rules, u)
  {
    assert v + w == v;
    hide NormalForm;
  }

  /** Lines 408-414: while the processed part is shorter than every left side it is normal. */
  lemma ShortStep(k: nat, rules: seq<Rule>, shortest: nat, u: Word, v: Word, w: Word)
    requires Usable(k, rules, shortest) && Processing(k, rules, u, v, w) && w != [] && |v| + 1 < shortest
    ensures Processing(k, rules, u, v + [w[0]], w[1..])
  {
    Shift(u, v, w);
    NormalShort(k, rules, shortest, v + [w[0]]);
    ReducedLetter(k, rules, v, w);
    hide Reduced, NormalForm;
  }

  /** A word rewritten in a buffer of its own. */
  method RewriteWord(u: Word, rules: seq<Rule>, shortest: nat, ghost k: nat) returns (r: Word)
    requires Usable(k, rules, shortest) && shortest > 0 && Over(k, u)
    ensures Reach(Pairs(rules), u, r) && Normal(Pairs(rules), r) && Ordered(k, Pairs(rules)) && r == NormalForm(k, rules, u)
  {
    var buffer := new Letter[|u|](i requires 0 <= i < |u| => u[i]);
    assert buffer[..] == u;
    hide Reach, Normal, Ordered, NormalForm;
    var len := Rewrite(buffer, rules, shortest, k);
    r := buffer[..len];
  }

  // ----- what the normal form is -----

  /** A word shorter than every left side is its own normal form. */
  lemma ShortNormalForm(k: nat, rules: seq<Rule>, shortest: nat, u: Word)
    requires Usable(k, rules, shortest) && Over(k, u) && |u| < shortest
    ensures Ordered(k, Pairs(rules)) && NormalForm(k, rules, u) == u
  {
    assert [] + u == u && u[..|u|] == u && u[|u|..] == [] && [] + u[..|u|] == u;
    ReducedShort(k, rules, shortest, [], u, |u|);
  }

  lemma {:induction false} ReducedFrom(k: nat, rules: seq<Rule>, shortest: nat, u: Word, v: Word, w: Word)
    requires Usable(k, rules, shortest) && Processing(k, rules, u, v, w)
    ensures Reach(Pairs(rules), u, NormalForm(k, rules, u)) && Normal(Pairs(rules), NormalForm(k, rules, u))
    decreases RankOf(k, v + w), |w|
  {
    hide Usable, Processing, RankOf, Reduced, NormalForm, Reach, Normal;
    if w == [] {
      Finish(k, rules, u, v, w);
    } else if Completes(rules, v + [w[0]]) {
      var r := TheRule(rules, v + [w[0]]);
      StepRule(k, rules, shortest, u, v, w, r);
      ReducedFrom(k, rules, shortest, u, v[..|v| + 1 - |r.lhs|], r.rhs + w[1..]);
    } else {
      StepLetter(k, rules, shortest, u, v, w);
      Shift(u, v, w);
      ReducedFrom(k, rules, shortest, u, v + [w[0]], w[1..]);
    }
  }

  /** The normal form is reached, and is irreducible. */
  lemma NormalFormReached(k: nat, rules: seq<Rule>, shortest: nat, u: Word)
    requires Usable(k, rules, shortest) && shortest > 0 && Over(k, u)
    ensures Ordered(k, Pairs(rules)) && Reach(Pairs(rules), u, NormalForm(k, rules, u)) && Normal(Pairs(rules), NormalForm(k, rules, u))
  {
    UsableOrdered(k, rules, shortest);
    ReachRefl(Pairs(rules), u);
    assert [] + u == u;
    hide *;
    Start(k, rules, shortest, u, [], u);
    ReducedFrom(k, rules, shortest, u, [], u);
  }
}
