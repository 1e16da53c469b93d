/**
 * Presentations and the congruences they generate.
 *
 * A `System` holds pairs of words.  Pairs in `both` may be applied anywhere in
 * a word, pairs in `right` only at the front (so the generated relation is
 * closed under multiplication on the right), pairs in `left` only at the end.
 */
module Derivations {
  import opened Words

  type Pair = (Word, Word)

  /** On which sides a congruence is closed under multiplication. */
  datatype Kind = LeftSided | RightSided | TwoSided

  datatype System = System(both: set<Pair>, right: set<Pair>, left: set<Pair>)

  /** One application of a pair inside a word. */
  datatype Move = Move(pre: Word, lhs: Word, rhs: Word, post: Word) {
    function Before(): Word { pre + lhs + post }
    function After(): Word { pre + rhs + post }
    function Flip(): Move { Move(pre, rhs, lhs, post) }
    function Append(w: Word): Move { Move(pre, lhs, rhs, post + w) }
    function Prepend(w: Word): Move { Move(w + pre, lhs, rhs, post) }
  }

  ghost predicate Legal(s: System, m: Move) {
    || (m.lhs, m.rhs) in s.both
    || ((m.lhs, m.rhs) in s.right && m.pre == [])
    || ((m.lhs, m.rhs) in s.left && m.post == [])
  }

  ghost predicate Chain(s: System, ms: seq<Move>, u: Word, v: Word) {
    if ms == [] then u == v
    else Legal(s, ms[0]) && u == ms[0].Before() && Chain(s, ms[1..], ms[0].After(), v)
  }

  /** `v` is obtained from `u` by finitely many moves. */
  ghost predicate Derives(s: System, u: Word, v: Word) {
    exists ms :: Chain(s, ms, u, v)
  }

  function Flipped(ps: set<Pair>): set<Pair> {
    set p | p in ps :: (p.1, p.0)
  }

  function Sym(ps: set<Pair>): set<Pair> {
    ps + Flipped(ps)
  }

  /** Every pair may also be used backwards. */
  ghost predicate Symmetric(s: System) {
    && (forall p :: p in s.both ==> (p.1, p.0) in s.both)
    && (forall p :: p in s.right ==> (p.1, p.0) in s.right)
    && (forall p :: p in s.left ==> (p.1, p.0) in s.left)
  }

  lemma SymSymmetric(ps: set<Pair>)
    ensures forall p :: p in Sym(ps) ==> (p.1, p.0) in Sym(ps)
  {
    forall p | p in Sym(ps) ensures (p.1, p.0) in Sym(ps) {
      if p in ps {
        assert (p.1, p.0) in Flipped(ps);
      }
    }
  }

  lemma DerivesRefl(s: System, u: Word)
    ensures Derives(s, u, u)
  {
    assert Chain(s, [], u, u);
  }

  lemma DerivesMove(s: System, m: Move)
    requires Legal(s, m)
    ensures Derives(s, m.Before(), m.After())
  {
    assert Chain(s, [m], m.Before(), m.After());
  }

  lemma {:induction false} ChainConcat(s: System, ms: seq<Move>, ns: seq<Move>, u: Word, v: Word, w: Word)
    requires Chain(s, ms, u, v) && Chain(s, ns, v, w)
    ensures Chain(s, ms + ns, u, w)
  {
    if ms == [] {
      assert ms + ns == ns;
    } else {
      ChainConcat(s, ms[1..], ns, ms[0].After(), v, w);
      assert (ms + ns)[1..] == ms[1..] + ns;
    }
  }

  lemma DerivesTrans(s: System, u: Word, v: Word, w: Word)
    requires Derives(s, u, v) && Derives(s, v, w)
    ensures Derives(s, u, w)
  {
    var ms :| Chain(s, ms, u, v);
    var ns :| Chain(s, ns, v, w);
    ChainConcat(s, ms, ns, u, v, w);
  }

  lemma {:induction false} ChainFlip(s: System, ms: seq<Move>, u: Word, v: Word)
    requires Symmetric(s) && Chain(s, ms, u, v)
    ensures Derives(s, v, u)
  {
    if ms == [] {
      DerivesRefl(s, u);
    } else {
      ChainFlip(s, ms[1..], ms[0].After(), v);
      var m := ms[0];
      assert Legal(s, m.Flip()) by {
        assert (m.lhs, m.rhs) in s.both ==> (m.rhs, m.lhs) in s.both;
        assert (m.lhs, m.rhs) in s.right ==> (m.rhs, m.lhs) in s.right;
        assert (m.lhs, m.rhs) in s.left ==> (m.rhs, m.lhs) in s.left;
      }
      DerivesMove(s, m.Flip());
      DerivesTrans(s, v, m.After(), u);
    }
  }

  /** A symmetric system generates a symmetric relation. */
  lemma DerivesSym(s: System, u: Word, v: Word)
    requires Symmetric(s) && Derives(s, u, v)
    ensures Derives(s, v, u)
  {
    var ms :| Chain(s, ms, u, v);
    ChainFlip(s, ms, u, v);
  }

  lemma {:induction false} ChainAppend(s: System, ms: seq<Move>, u: Word, v: Word, w: Word)
    requires s.left == {} && Chain(s, ms, u, v)
    ensures Derives(s, u + w, v + w)
  {
    if ms == [] {
      DerivesRefl(s, u + w);
    } else {
      var m := ms[0].Append(w);
      ChainAppend(s, ms[1..], ms[0].After(), v, w);
      assert m.Before() == u + w && m.After() == ms[0].After() + w;
      DerivesMove(s, m);
      DerivesTrans(s, u + w, m.After(), v + w);
    }
  }

  /** Without left pairs the derivability relation is compatible on the right. */
  lemma DerivesAppend(s: System, u: Word, v: Word, w: Word)
    requires s.left == {} && Derives(s, u, v)
    ensures Derives(s, u + w, v + w)
  {
    var ms :| Chain(s, ms, u, v);
    ChainAppend(s, ms, u, v, w);
  }

  lemma {:induction false} ChainPrepend(s: System, ms: seq<Move>, u: Word, v: Word, w: Word)
    requires s.right == {} && Chain(s, ms, u, v)
    ensures Derives(s, w + u, w + v)
  {
    if ms == [] {
      DerivesRefl(s, w + u);
    } else {
      var m := ms[0].Prepend(w);
      ChainPrepend(s, ms[1..], ms[0].After(), v, w);
      assert m.Before() == w + u && m.After() == w + ms[0].After();
      DerivesMove(s, m);
      DerivesTrans(s, w + u, m.After(), w + v);
    }
  }

  /** Without right pairs the derivability relation is compatible on the left. */
  lemma DerivesPrepend(s: System, u: Word, v: Word, w: Word)
    requires s.right == {} && Derives(s, u, v)
    ensures Derives(s, w + u, w + v)
  {
    var ms :| Chain(s, ms, u, v);
    ChainPrepend(s, ms, u, v, w);
  }

  /** More pairs, more derivations. */
  lemma {:induction false} ChainWiden(s: System, s': System, ms: seq<Move>, u: Word, v: Word)
    requires s.both <= s'.both && s.right <= s'.right && s.left <= s'.left && Chain(s, ms, u, v)
    ensures Chain(s', ms, u, v)
  {
    if ms != [] {
      ChainWiden(s, s', ms[1..], ms[0].After(), v);
    }
  }

  lemma DerivesWiden(s: System, s': System, u: Word, v: Word)
    requires s.both <= s'.both && s.right <= s'.right && s.left <= s'.left && Derives(s, u, v)
    ensures Derives(s', u, v)
  {
    var ms :| Chain(s, ms, u, v);
    ChainWiden(s, s', ms, u, v);
  }

  function PairsOf(ps: seq<Pair>): set<Pair> {
    set j | 0 <= j < |ps| :: ps[j]
  }

  /**
   * The congruence asked for: the defining relations everywhere, the extra
   * pairs with multiplication on the right, on the left, or on both sides.
   */
  ghost function Presentation(kind: Kind, defining: seq<Pair>, extra: seq<Pair>): System {
    match kind
    case LeftSided => System(Sym(PairsOf(defining)), {}, Sym(PairsOf(extra)))
    case RightSided => System(Sym(PairsOf(defining)), Sym(PairsOf(extra)), {})
    case TwoSided => System(Sym(PairsOf(extra) + PairsOf(defining)), {}, {})
  }

  /** Pairwise unrelated nonempty words. */
  ghost predicate Unrelated(s: System, k: nat, ws: seq<Word>) {
    && (forall i :: 0 <= i < |ws| ==> Nonempty(k, ws[i]))
    && (forall i, j :: 0 <= i < j < |ws| ==> !Derives(s, ws[i], ws[j]))
  }

  // ----- reversal: exchanging left and right -----

  function Reverse(w: Word): (r: Word)
    ensures |r| == |w| && forall i :: 0 <= i < |w| ==> r[i] == w[|w| - 1 - i]
  {
    seq(|w|, i requires 0 <= i < |w| => w[|w| - 1 - i])
  }

  function ReversePair(p: Pair): Pair {
    (Reverse(p.0), Reverse(p.1))
  }

  function ReversePairs(ps: set<Pair>): set<Pair> {
    set p | p in ps :: ReversePair(p)
  }

  function ReverseSystem(s: System): System {
    System(ReversePairs(s.both), ReversePairs(s.left), ReversePairs(s.right))
  }

  lemma ReverseTwice(w: Word)
    ensures Reverse(Reverse(w)) == w
  {
  }

  lemma ReverseConcat(u: Word, v: Word)
    ensures Reverse(u + v) == Reverse(v) + Reverse(u)
  {
  }

  lemma ReversePairsTwice(ps: set<Pair>)
    ensures ReversePairs(ReversePairs(ps)) == ps
  {
    forall p | p in ps ensures p in ReversePairs(ReversePairs(ps)) {
      ReverseTwice(p.0);
      ReverseTwice(p.1);
      assert ReversePair(p) in ReversePairs(ps);
      assert p == ReversePair(ReversePair(p));
    }
    forall p | p in ReversePairs(ReversePairs(ps)) ensures p in ps {
      var q :| q in ReversePairs(ps) && p == ReversePair(q);
      var r :| r in ps && q == ReversePair(r);
      ReverseTwice(r.0);
      ReverseTwice(r.1);
    }
  }

  lemma {:induction false} ChainReverse(s: System, ms: seq<Move>, u: Word, v: Word)
    requires Chain(s, ms, u, v)
    ensures Derives(ReverseSystem(s), Reverse(u), Reverse(v))
  {
    if ms == [] {
      DerivesRefl(ReverseSystem(s), Reverse(u));
    } else {
      var m := ms[0];
      ChainReverse(s, ms[1..], m.After(), v);
      var r := Move(Reverse(m.post), Reverse(m.lhs), Reverse(m.rhs), Reverse(m.pre));
      assert ReversePair((m.lhs, m.rhs)) == (r.lhs, r.rhs);
      assert Legal(ReverseSystem(s), r);
      ReverseConcat(m.pre + m.lhs, m.post);
      ReverseConcat(m.pre, m.lhs);
      ReverseConcat(m.pre + m.rhs, m.post);
      ReverseConcat(m.pre, m.rhs);
      assert r.Before() == Reverse(m.Before()) && r.After() == Reverse(m.After());
      DerivesMove(ReverseSystem(s), r);
      DerivesTrans(ReverseSystem(s), Reverse(u), Reverse(m.After()), Reverse(v));
    }
  }

  /** Reading everything backwards exchanges the two one-sided congruences. */
  lemma DerivesReverse(s: System, u: Word, v: Word)
    ensures Derives(s, u, v) <==> Derives(ReverseSystem(s), Reverse(u), Reverse(v))
  {
    if Derives(s, u, v) {
      var ms :| Chain(s, ms, u, v);
      ChainReverse(s, ms, u, v);
    }
    if Derives(ReverseSystem(s), Reverse(u), Reverse(v)) {
      var ms :| Chain(ReverseSystem(s), ms, Reverse(u), Reverse(v));
      ChainReverse(ReverseSystem(s), ms, Reverse(u), Reverse(v));
      ReversePairsTwice(s.both);
      ReversePairsTwice(s.left);
      ReversePairsTwice(s.right);
      ReverseTwice(u);
      ReverseTwice(v);
    }
  }
}
