/**
 * The critical-pair test for confluence.
 * Lines cited here are those of src/rws.cc.
 */
module ConfluenceTest {
  import opened Words
  import opened Derivations
  import opened Rewriting
  import opened RuleIndex
  import opened InPlace
  import opened KillFlag

  /** The length of the longest common prefix of `u[i..]` and `v` (lines 85-97). */
  method CommonPrefix(u: Word, i: nat, v: Word) returns (c: nat)
    requires i <= |u|
    ensures c <= |u| - i && c <= |v|
    ensures i < |u| ==> (i + c == |u| || c == |v| <==> Overlap(u, v, i))
    ensures i + c == |u| || c == |v| ==> c == Common(u, v, i)
  {
    c := 0;
    while i + c < |u| && c < |v| && u[i + c] == v[c]
      invariant c <= |u| - i && c <= |v| && u[i..i + c] == v[..c]
    {
      assert u[i..i + c + 1] == u[i..i + c] + [u[i + c]] && v[..c + 1] == v[..c] + [v[c]];
      c := c + 1;
    }
    if i + c < |u| && c < |v| {
      assert u[i..i + Common(u, v, i)][c] == u[i + c] && v[..Common(u, v, i)][c] == v[c];
    }
  }

  lemma ConfluentNormals(k: nat, rules: set<Pair>, top: Word, x: Word, y: Word, nx: Word, ny: Word)
    requires Confluent(k, rules) && Over(k, top) && Reach(rules, top, x) && Reach(rules, top, y)
    requires Reach(rules, x, nx) && Normal(rules, nx) && Reach(rules, y, ny) && Normal(rules, ny)
    ensures nx == ny
  {
    hide Reach, Normal, Over;
    ReachTrans(rules, top, x, nx);
    ReachTrans(rules, top, y, ny);
    assert Joinable(rules, nx, ny);
    var z :| Reach(rules, nx, z) && Reach(rules, ny, z);
    NormalReach(rules, nx, z);
    NormalReach(rules, ny, z);
  }

  /** The two words of a critical pair are made of the same letters as the rules. */
  lemma CriticalOver(k: nat, p: Pair, q: Pair, i: nat)
    requires OrderedPair(k, p) && OrderedPair(k, q) && i <= |p.0|
    ensures Over(k, CriticalLeft(p, q, i)) && Over(k, CriticalRight(p, q, i)) && Over(k, CriticalTop(p, q, i))
  {
  }

  lemma JoinsIfSame(rules: set<Pair>, x: Word, y: Word, z: Word)
    requires Reach(rules, x, z) && Reach(rules, y, z)
    ensures Joinable(rules, x, y)
  {
  }

  /** One overlap of two rules (lines 438-466). */
  method CheckOverlap(rules: seq<Rule>, shortest: nat, r1: Rule, r2: Rule, i: nat, ghost k: nat) returns (ok: bool)
    requires Usable(k, rules, shortest) && shortest > 0 && r1 in rules && r2 in rules && i < |r1.lhs|
    ensures ok ==> CriticalJoins(Pairs(rules), r1.Pair(), r2.Pair(), i)
    ensures !ok ==> !Confluent(k, Pairs(rules))
  {
    ghost var p, q, ps := r1.Pair(), r2.Pair(), Pairs(rules);
    UsableRule(k, rules, shortest, r1);
    UsableRule(k, rules, shortest, r2);
    CriticalOver(k, p, q, i);
    hide Usable, Reach, Normal, Joinable, Overlap, Confluent, Over, OrderedPair, Pairs;
    ok := true;
    var c := CommonPrefix(r1.lhs, i, r2.lhs);
    if i + c == |r1.lhs| || c == |r2.lhs| {
      var word1 := r1.lhs[..i] + r2.rhs + r1.lhs[i + c..];
      var word2 := r1.rhs + r2.lhs[c..];
      assert word1 == CriticalLeft(p, q, i) && word2 == CriticalRight(p, q, i);
      if word1 != word2 {
        var n1 := RewriteWord(word1, rules, shortest, k);
        var n2 := RewriteWord(word2, rules, shortest, k);
        ok := n1 == n2;
        if ok {
          JoinsIfSame(ps, word1, word2, n1);
        } else {
          CriticalTopReaches(ps, p, q, i);
          if Confluent(k, ps) {
            ConfluentNormals(k, ps, CriticalTop(p, q, i), word1, word2, n1, n2);
          }
        }
      } else {
        ReachRefl(ps, word1);
        JoinsIfSame(ps, word1, word1, word1);
      }
    }
  }

  ghost predicate PairChecked(rules: set<Pair>, p: Pair, q: Pair) {
    forall i :: CriticalJoins(rules, p, q, i)
  }

  /** All overlaps of two rules, from the end of the first (lines 438-467). */
  method CheckPair(rules: seq<Rule>, shortest: nat, r1: Rule, r2: Rule, canKill: bool, ghost k: nat) returns (ok: bool, killed: bool)
    requires Usable(k, rules, shortest) && shortest > 0 && r1 in rules && r2 in rules
    ensures killed ==> canKill
    ensures ok && !killed ==> PairChecked(Pairs(rules), r1.Pair(), r2.Pair())
    ensures !ok ==> !Confluent(k, Pairs(rules))
  {
    var i: nat := |r1.lhs|;
    ok := true;
    killed := Killed(canKill);
    hide Usable, Joinable, Confluent;
    while i > 0 && !killed
      invariant (killed ==> canKill) && i <= |r1.lhs| && ok && forall j :: i <= j < |r1.lhs| ==> CriticalJoins(Pairs(rules), r1.Pair(), r2.Pair(), j)
      decreases i
    {
      i := i - 1;
      ok := CheckOverlap(rules, shortest, r1, r2, i, k);
      if !ok {
        return;
      }
      killed := Killed(canKill);
    }
    if !killed {
      forall j: nat ensures CriticalJoins(Pairs(rules), r1.Pair(), r2.Pair(), j) {
        if j >= |r1.lhs| { assert !Overlap(r1.lhs, r2.lhs, j); }
      }
    }
  }

  ghost predicate RowChecked(rules: seq<Rule>, a: nat)
    requires a < |rules|
  {
    forall b :: 0 <= b < |rules| ==> PairChecked(Pairs(rules), rules[a].Pair(), rules[b].Pair())
  }

  /** One rule against all rules, from the last (lines 434-468). */
  method CheckRow(rules: seq<Rule>, shortest: nat, a: nat, canKill: bool, ghost k: nat) returns (ok: bool, killed: bool)
    requires Usable(k, rules, shortest) && shortest > 0 && a < |rules|
    ensures killed ==> canKill
    ensures ok && !killed ==> RowChecked(rules, a)
    ensures !ok ==> !Confluent(k, Pairs(rules))
  {
    var b: nat := |rules|;
    ok := true;
    killed := Killed(canKill);
    hide Usable, PairChecked, Confluent, Pairs;
    while b > 0 && !killed
      invariant b <= |rules| && ok && (killed ==> canKill)
      invariant forall j {:trigger rules[j]} :: b <= j < |rules| ==> PairChecked(Pairs(rules), rules[a].Pair(), rules[j].Pair())
      decreases b
    {
      b := b - 1;
      ok, killed := CheckPair(rules, shortest, rules[a], rules[b], canKill, k);
      if !ok || killed {
        return;
      }
      killed := Killed(canKill);
    }
  }

  lemma AllRowsChecked(rules: seq<Rule>)
    requires forall a :: 0 <= a < |rules| ==> RowChecked(rules, a)
    ensures CriticalsJoin(Pairs(rules))
  {
    hide CriticalJoins;
    forall p, q, i | p in Pairs(rules) && q in Pairs(rules) ensures CriticalJoins(Pairs(rules), p, q, i) {
      var r :| r in rules && r.Pair() == p;
      var s :| s in rules && s.Pair() == q;
      var a :| 0 <= a < |rules| && rules[a] == r;
      var b :| 0 <= b < |rules| && rules[b] == s;
      assert RowChecked(rules, a);
      assert PairChecked(Pairs(rules), rules[a].Pair(), rules[b].Pair());
    }
  }

  /** `confluent`, when nothing is known yet (lines 424-472): unless it is killed, the answer is exact. */
  method CheckConfluent(rules: seq<Rule>, shortest: nat, canKill: bool, ghost k: nat) returns (ok: bool, killed: bool)
    requires Usable(k, rules, shortest) && shortest > 0
    ensures killed ==> canKill
    ensures ok && !killed ==> Confluent(k, Pairs(rules))
    ensures !ok ==> !Confluent(k, Pairs(rules))
  {
    var a := 0;
    ok := true;
    killed := Killed(canKill);
    UsableOrdered(k, rules, shortest);
    hide Usable, Confluent, RowChecked, CriticalsJoin;
    while a < |rules| && !killed
      invariant (killed ==> canKill) && a <= |rules| && ok && forall j :: 0 <= j < a ==> RowChecked(rules, j)
    {
      ok, killed := CheckRow(rules, shortest, a, canKill, k);
      if !ok || killed {
        return;
      }
      a := a + 1;
      killed := Killed(canKill);
    }
    if !killed {
      AllRowsChecked(rules);
      ConfluentIffCriticalsJoin(k, Pairs(rules));
    }
  }
}
