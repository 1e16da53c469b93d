/** Words over the generators and the short-lex order on them. */
module Words {

  type Letter = nat
  type Word = seq<Letter>

  /** Every letter is the index of one of the `k` generators. */
  ghost predicate Over(k: nat, w: Word) {
    forall i :: 0 <= i < |w| ==> w[i] < k
  }

  /** A nonempty word over the generators. */
  ghost predicate Nonempty(k: nat, w: Word) {
    w != [] && Over(k, w)
  }

  function Power(a: Letter, i: nat): (w: Word)
    ensures |w| == i && forall j :: 0 <= j < i ==> w[j] == a
  {
    seq(i, j => a)
  }

  /** Strict lexicographic order on words of equal length. */
  predicate LexLess(u: Word, v: Word)
    requires |u| == |v|
  {
    |u| > 0 && (u[0] < v[0] || (u[0] == v[0] && LexLess(u[1..], v[1..])))
  }

  /** The SHORTLEX order: shorter words first, then lexicographically. */
  predicate Less(u: Word, v: Word) {
    |u| < |v| || (|u| == |v| && LexLess(u, v))
  }

  predicate LessEq(u: Word, v: Word) {
    u == v || Less(u, v)
  }
}
