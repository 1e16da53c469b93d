/** SHORTLEX over finitely many letters is well-founded: it agrees with the order of ranks. */
module Rank {
  import opened Words
  import opened ShortLex

  /** The place of a word over `k` letters, read as a numeral in base `k + 1` with digits from 1 to `k`. */
  function RankOf(k: nat, w: Word): nat {
    if w == [] then 0 else RankOf(k, w[..|w| - 1]) * (k + 1) + w[|w| - 1] + 1
  }

  lemma RankStep(x: nat, y: nat, k: nat, a: nat, b: nat)
    requires x < y && a < k
    ensures x * (k + 1) + a + 1 < y * (k + 1) + b + 1
  {
    assert (x + 1) * (k + 1) <= y * (k + 1);
  }

  lemma {:induction false} RankMonotone(k: nat, u: Word, v: Word)
    requires Over(k, u) && Over(k, v) && Less(u, v)
    ensures RankOf(k, u) < RankOf(k, v)
    decreases |v|
  {
    if u != [] {
      var u', a, v', b := u[..|u| - 1], u[|u| - 1], v[..|v| - 1], v[|v| - 1];
      assert u == u' + [a] && v == v' + [b];
      LessLast(u', a, v', b);
      LexIrreflexive(u');
      if u' != v' {
        RankMonotone(k, u', v');
        RankStep(RankOf(k, u'), RankOf(k, v'), k, a, b);
      }
    }
  }
}
