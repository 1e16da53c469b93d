/**
 * A quick test for infinitely many classes: `Congruence::is_obviously_infinite`.
 * Lines cited here are those of src/cong.cc.
 */
module ObviouslyInfinite {
  import opened Words
  import opened Derivations

  // ----- weights -----

  /** The sum of the weights of the letters; letters without a weight count nothing. */
  ghost function Weight(ws: seq<int>, w: Word): int {
    if w == [] then 0 else Weight(ws, w[..|w| - 1]) + LetterWeight(ws, w[|w| - 1])
  }

  ghost function LetterWeight(ws: seq<int>, a: Letter): int {
    if a < |ws| then ws[a] else 0
  }

  lemma {:induction false} WeightConcat(ws: seq<int>, u: Word, v: Word)
    ensures Weight(ws, u + v) == Weight(ws, u) + Weight(ws, v)
    decreases |v|
  {
    if v == [] {
      assert u + v == u;
    } else {
      var x, a := v[..|v| - 1], v[|v| - 1];
      assert (u + v)[..|u + v| - 1] == u + x;
      WeightConcat(ws, u, x);
    }
  }

  lemma {:induction false} PowerWeight(ws: seq<int>, a: Letter, i: nat)
    ensures Weight(ws, Power(a, i)) == i * LetterWeight(ws, a)
  {
    if i > 0 {
      assert Power(a, i)[..i - 1] == Power(a, i - 1);
      PowerWeight(ws, a, i - 1);
    }
  }

  ghost predicate PairBalanced(ws: seq<int>, p: Pair) {
    Weight(ws, p.0) == Weight(ws, p.1)
  }

  /** Both sides of every pair have the same weight. */
  ghost predicate Balanced(ws: seq<int>, s: System) {
    forall p :: p in s.both || p in s.right || p in s.left ==> PairBalanced(ws, p)
  }

  lemma {:induction false} ChainWeight(ws: seq<int>, s: System, ms: seq<Move>, u: Word, v: Word)
    requires Balanced(ws, s) && Chain(s, ms, u, v)
    ensures Weight(ws, u) == Weight(ws, v)
  {
    if ms != [] {
      var m := ms[0];
      ChainWeight(ws, s, ms[1..], m.After(), v);
      assert PairBalanced(ws, (m.lhs, m.rhs));
      WeightConcat(ws, m.pre + m.lhs, m.post);
      WeightConcat(ws, m.pre, m.lhs);
      WeightConcat(ws, m.pre + m.rhs, m.post);
      WeightConcat(ws, m.pre, m.rhs);
    }
  }

  /** Derivations do not change weights. */
  lemma DerivesWeight(ws: seq<int>, s: System, u: Word, v: Word)
    requires Balanced(ws, s) && Derives(s, u, v)
    ensures Weight(ws, u) == Weight(ws, v)
  {
    var ms :| Chain(s, ms, u, v);
    ChainWeight(ws, s, ms, u, v);
  }

  /** There are arbitrarily many classes. */
  ghost predicate Unbounded(s: System, k: nat) {
    forall n: nat :: ManyClasses(s, k, n)
  }

  ghost predicate ManyClasses(s: System, k: nat, n: nat) {
    exists ws :: |ws| == n && Unrelated(s, k, ws)
  }

  ghost function PowersOf(a: Letter, n: nat): seq<Word> {
    seq(n, i requires 0 <= i < n => Power(a, i + 1))
  }

  /** The powers of a letter whose weight is not zero are pairwise unrelated. */
  lemma WeightUnbounded(ws: seq<int>, s: System, k: nat, a: Letter)
    requires Balanced(ws, s) && |ws| == k && a < k && ws[a] != 0
    ensures Unbounded(s, k)
  {
    forall n: nat ensures ManyClasses(s, k, n) {
      var ps := PowersOf(a, n);
      forall i, j | 0 <= i < j < n ensures !Derives(s, ps[i], ps[j]) {
        PowerWeight(ws, a, i + 1);
        PowerWeight(ws, a, j + 1);
        Multiples(i + 1, j + 1, ws[a]);
        if Derives(s, ps[i], ps[j]) {
          DerivesWeight(ws, s, ps[i], ps[j]);
        }
      }
      assert Unrelated(s, k, ps);
    }
  }

  lemma Multiples(i: int, j: int, c: int)
    requires i < j && c != 0
    ensures i * c != j * c
  {
    assert (j - i) * c != 0;
  }

  // ----- fewer equations than unknowns -----

  ghost function Dot(u: seq<int>, w: seq<int>): int
    requires |u| == |w|
  {
    if u == [] then 0 else Dot(u[..|u| - 1], w[..|w| - 1]) + u[|u| - 1] * w[|w| - 1]
  }

  ghost function Scaled(c: int, u: seq<int>): seq<int> {
    seq(|u|, i requires 0 <= i < |u| => c * u[i])
  }

  /** `c` times the first vector minus `d` times the second. */
  ghost function Combined(c: int, u: seq<int>, d: int, v: seq<int>): seq<int>
    requires |u| == |v|
  {
    seq(|u|, i requires 0 <= i < |u| => c * u[i] - d * v[i])
  }

  ghost function Unit(k: nat, a: nat): seq<int> {
    seq(k, i => if i == a then 1 else 0)
  }

  lemma {:induction false} DotScaled(u: seq<int>, c: int, w: seq<int>)
    requires |u| == |w|
    ensures Dot(u, Scaled(c, w)) == c * Dot(u, w)
  {
    if u != [] {
      var n := |u| - 1;
      assert Scaled(c, w)[..n] == Scaled(c, w[..n]);
      DotScaled(u[..n], c, w[..n]);
      assert u[n] * (c * w[n]) == c * (u[n] * w[n]);
      assert c * Dot(u, w) == c * Dot(u[..n], w[..n]) + c * (u[n] * w[n]);
    }
  }

  lemma {:induction false} DotCombined(c: int, u: seq<int>, d: int, v: seq<int>, w: seq<int>)
    requires |u| == |v| == |w|
    ensures Dot(Combined(c, u, d, v), w) == c * Dot(u, w) - d * Dot(v, w)
  {
    if u != [] {
      var n := |u| - 1;
      assert Combined(c, u, d, v)[..n] == Combined(c, u[..n], d, v[..n]);
      DotCombined(c, u[..n], d, v[..n], w[..n]);
      CombinedTerm(c, Dot(u[..n], w[..n]), u[n], d, Dot(v[..n], w[..n]), v[n], w[n]);
    }
  }

  lemma CombinedTerm(c: int, x: int, a: int, d: int, y: int, b: int, w: int)
    ensures (c * x - d * y) + (c * a - d * b) * w == c * (x + a * w) - d * (y + b * w)
  {
    assert (c * a - d * b) * w == (c * a) * w - (d * b) * w;
    assert (c * a) * w == c * (a * w) && (d * b) * w == d * (b * w);
    assert c * (x + a * w) == c * x + c * (a * w) && d * (y + b * w) == d * y + d * (b * w);
  }

  lemma {:induction false} DotUnit(u: seq<int>, a: nat)
    requires a < |u|
    ensures Dot(u, Unit(|u|, a)) == u[a]
  {
    var n := |u| - 1;
    assert Unit(|u|, a)[..n] == Unit(n, a);
    if a < n {
      DotUnit(u[..n], a);
    } else {
      DotNone(u[..n], a);
    }
  }

  lemma {:induction false} DotNone(u: seq<int>, a: nat)
    requires a >= |u|
    ensures Dot(u, Unit(|u|, a)) == 0
  {
    if u != [] {
      var n := |u| - 1;
      assert Unit(|u|, a)[..n] == Unit(n, a);
      DotNone(u[..n], a);
    }
  }

  ghost predicate Solves(eqs: seq<seq<int>>, w: seq<int>) {
    forall j :: 0 <= j < |eqs| ==> |eqs[j]| == |w| && Dot(eqs[j], w) == 0
  }

  ghost predicate NonZero(w: seq<int>) {
    exists i :: 0 <= i < |w| && w[i] != 0
  }

  /** One unknown eliminated from an equation by means of another one. */
  ghost function Eliminated(a: seq<int>, b: seq<int>): seq<int>
    requires |a| == |b| > 0
  {
    var n := |a| - 1;
    Combined(a[n], b[..n], b[n], a[..n])
  }

  /** The solution after the eliminated unknown has been put back. */
  ghost function Back(a: seq<int>, w: seq<int>): seq<int>
    requires |a| == |w| + 1
  {
    var n := |w|;
    Scaled(a[n], w) + [-Dot(a[..n], w)]
  }

  lemma BackDot(a: seq<int>, b: seq<int>, w: seq<int>)
    requires |a| == |b| == |w| + 1
    ensures Dot(b, Back(a, w)) == Dot(Eliminated(a, b), w)
  {
    var n := |w|;
    var c, d, e := a[n], b[n], Dot(a[..n], w);
    DotLast(b, Scaled(c, w), -e);
    DotScaled(b[..n], c, w);
    DotCombined(c, b[..n], d, a[..n], w);
    hide Dot, Scaled, Combined;
    Negated(d, e);
  }

  lemma DotLast(u: seq<int>, w: seq<int>, x: int)
    requires |u| == |w| + 1
    ensures Dot(u, w + [x]) == Dot(u[..|w|], w) + u[|w|] * x
  {
    assert (w + [x])[..|w|] == w;
  }

  lemma Negated(d: int, e: int)
    ensures d * (-e) == -(d * e)
  {
  }

  lemma EliminatedSize(a: seq<int>, b: seq<int>)
    requires |a| == |b| > 0
    ensures |Eliminated(a, b)| == |a| - 1
  {
  }

  lemma BackPivot(a: seq<int>, w: seq<int>)
    requires |a| == |w| + 1
    ensures Dot(a, Back(a, w)) == 0
  {
    BackDot(a, a, w);
    var n := |w|;
    DotCombined(a[n], a[..n], a[n], a[..n], w);
  }

  lemma BackNonZero(a: seq<int>, w: seq<int>)
    requires |a| == |w| + 1 && a[|w|] != 0 && NonZero(w)
    ensures NonZero(Back(a, w))
  {
    var i :| 0 <= i < |w| && w[i] != 0;
    Multiples(0, 1, w[i]);
    assert a[|w|] * w[i] != 0 by { Product(a[|w|], w[i]); }
    assert Back(a, w)[i] == a[|w|] * w[i];
  }

  lemma Product(c: int, d: int)
    requires c != 0 && d != 0
    ensures c * d != 0
  {
  }

  /** The other equations without the last unknown. */
  ghost function Rest(eqs: seq<seq<int>>, p: nat, k: nat): seq<seq<int>>
    requires p < |eqs| && k > 0 && forall j :: 0 <= j < |eqs| ==> |eqs[j]| == k
  {
    seq(|eqs| - 1, j requires 0 <= j < |eqs| - 1 => Eliminated(eqs[p], eqs[if j < p then j else j + 1]))
  }

  /** A homogeneous system with fewer equations than unknowns has a solution that is not zero. */
  lemma {:induction false} Solution(eqs: seq<seq<int>>, k: nat) returns (w: seq<int>)
    requires |eqs| < k && forall j :: 0 <= j < |eqs| ==> |eqs[j]| == k
    ensures |w| == k && Solves(eqs, w) && NonZero(w)
    decreases k
  {
    var n := k - 1;
    if p :| 0 <= p < |eqs| && eqs[p][n] != 0 {
      var rest := Rest(eqs, p, k);
      forall j | 0 <= j < |rest| ensures |rest[j]| == n { EliminatedSize(eqs[p], eqs[if j < p then j else j + 1]); }
      var v := Solution(rest, n);
      w := Back(eqs[p], v);
      BackNonZero(eqs[p], v);
      forall j | 0 <= j < |eqs| ensures Dot(eqs[j], w) == 0 {
        if j == p {
          BackPivot(eqs[p], v);
        } else {
          BackDot(eqs[p], eqs[j], v);
          var h := if j < p then j else j - 1;
          assert rest[h] == Eliminated(eqs[p], eqs[j]) && Dot(rest[h], v) == 0;
        }
      }
    } else {
      w := Unit(k, n);
      forall j | 0 <= j < |eqs| ensures Dot(eqs[j], w) == 0 {
        DotUnit(eqs[j], n);
      }
      assert w[n] != 0;
    }
  }

  // ----- relations as equations -----

  ghost function Zeros(k: nat): seq<int> {
    seq(k, _ => 0)
  }

  /** How often each letter occurs. */
  ghost function Counts(k: nat, w: Word): (c: seq<int>)
    ensures |c| == k
  {
    if w == [] then Zeros(k)
    else
      var c, a := Counts(k, w[..|w| - 1]), w[|w| - 1];
      if a < k then c[a := c[a] + 1] else c
  }

  lemma {:induction false} DotZeros(w: seq<int>)
    ensures Dot(Zeros(|w|), w) == 0
  {
    if w != [] {
      assert Zeros(|w|)[..|w| - 1] == Zeros(|w| - 1);
      DotZeros(w[..|w| - 1]);
    }
  }

  lemma {:induction false} DotOneMore(c: seq<int>, a: nat, ws: seq<int>)
    requires |c| == |ws| && a < |c|
    ensures Dot(c[a := c[a] + 1], ws) == Dot(c, ws) + ws[a]
  {
    var n := |c| - 1;
    var d := c[a := c[a] + 1];
    if a < n {
      assert d[..n] == c[..n][a := c[..n][a] + 1];
      DotOneMore(c[..n], a, ws[..n]);
    } else {
      assert d[..n] == c[..n];
      assert d[n] * ws[n] == c[n] * ws[n] + ws[n];
    }
  }

  /** Weights are products with the numbers of occurrences. */
  lemma {:induction false} CountsWeight(ws: seq<int>, w: Word)
    ensures Dot(Counts(|ws|, w), ws) == Weight(ws, w)
  {
    if w == [] {
      DotZeros(ws);
    } else {
      CountsWeight(ws, w[..|w| - 1]);
      var c, a := Counts(|ws|, w[..|w| - 1]), w[|w| - 1];
      if a < |ws| {
        DotOneMore(c, a, ws);
      }
    }
  }

  ghost function Equation(k: nat, p: Pair): seq<int> {
    Combined(1, Counts(k, p.0), 1, Counts(k, p.1))
  }

  ghost function Equations(k: nat, ps: seq<Pair>): seq<seq<int>> {
    seq(|ps|, j requires 0 <= j < |ps| => Equation(k, ps[j]))
  }

  lemma EquationBalanced(ws: seq<int>, p: Pair)
    ensures Dot(Equation(|ws|, p), ws) == Weight(ws, p.0) - Weight(ws, p.1)
  {
    DotCombined(1, Counts(|ws|, p.0), 1, Counts(|ws|, p.1), ws);
    CountsWeight(ws, p.0);
    CountsWeight(ws, p.1);
  }

  ghost predicate AllBalanced(ws: seq<int>, ps: seq<Pair>) {
    forall j :: 0 <= j < |ps| ==> PairBalanced(ws, ps[j])
  }

  /** With fewer pairs than generators there is a weighting that is not zero under which all pairs are balanced. */
  lemma FewPairs(k: nat, ps: seq<Pair>) returns (ws: seq<int>)
    requires |ps| < k
    ensures |ws| == k && NonZero(ws) && AllBalanced(ws, ps)
  {
    var eqs := Equations(k, ps);
    ws := Solution(eqs, k);
    hide NonZero;
    forall j | 0 <= j < |ps| ensures PairBalanced(ws, ps[j]) {
      assert eqs[j] == Equation(k, ps[j]);
      EquationBalanced(ws, ps[j]);
    }
  }

  /** The pairs of the system are the given ones and their reverses. */
  lemma PresentationBalanced(ws: seq<int>, kind: Kind, relations: seq<Pair>, extra: seq<Pair>)
    requires AllBalanced(ws, relations) && AllBalanced(ws, extra)
    ensures Balanced(ws, Presentation(kind, relations, extra))
  {
    SymBalanced(ws, relations);
    SymBalanced(ws, extra);
    var s := Presentation(kind, relations, extra);
    hide AllBalanced, PairBalanced;
    forall p | p in s.both || p in s.right || p in s.left ensures PairBalanced(ws, p) {
      assert p in Sym(PairsOf(relations)) || p in Sym(PairsOf(extra)) by { SymUnion(PairsOf(extra), PairsOf(relations)); }
    }
  }

  lemma SymUnion(a: set<Pair>, b: set<Pair>)
    ensures Sym(a + b) == Sym(a) + Sym(b)
  {
    forall p | p in Flipped(a + b) ensures p in Flipped(a) + Flipped(b) {
      var q :| q in a + b && p == (q.1, q.0);
    }
  }

  lemma SymBalanced(ws: seq<int>, ps: seq<Pair>)
    requires AllBalanced(ws, ps)
    ensures forall p :: p in Sym(PairsOf(ps)) ==> PairBalanced(ws, p)
  {
    forall p | p in Sym(PairsOf(ps)) ensures PairBalanced(ws, p) {
      var q := if p in PairsOf(ps) then p else (p.1, p.0);
      assert q in PairsOf(ps);
      var j :| 0 <= j < |ps| && ps[j] == q;
      assert PairBalanced(ws, ps[j]);
    }
  }

  // ----- the test -----

  predicate Occurs(gen: nat, p: Pair) {
    gen in p.0 || gen in p.1
  }

  /** Lines 262-268 and 271-279. */
  method OccursInSome(gen: nat, ps: seq<Pair>) returns (found: bool)
    ensures found <==> exists j :: 0 <= j < |ps| && Occurs(gen, ps[j])
  {
    found := false;
    var j := 0;
    while j < |ps| && !found
      invariant j <= |ps| && (found <==> exists h :: 0 <= h < j && Occurs(gen, ps[h]))
      decreases |ps| - j
    {
      found := Occurs(gen, ps[j]);
      j := j + 1;
    }
  }

  /** The generator occurs in no pair. */
  ghost predicate Unused(gen: nat, relations: seq<Pair>, extra: seq<Pair>) {
    (forall j :: 0 <= j < |relations| ==> !Occurs(gen, relations[j])) && (forall j :: 0 <= j < |extra| ==> !Occurs(gen, extra[j]))
  }

  lemma {:induction false} NoOccurrence(k: nat, a: nat, w: Word)
    requires a !in w
    ensures Weight(Unit(k, a), w) == 0
  {
    if w != [] {
      assert w[|w| - 1] in w;
      NoOccurrence(k, a, w[..|w| - 1]);
    }
  }

  lemma UnusedBalanced(k: nat, gen: nat, ps: seq<Pair>)
    requires forall j :: 0 <= j < |ps| ==> !Occurs(gen, ps[j])
    ensures AllBalanced(Unit(k, gen), ps)
  {
    forall j | 0 <= j < |ps| ensures PairBalanced(Unit(k, gen), ps[j]) {
      NoOccurrence(k, gen, ps[j].0);
      NoOccurrence(k, gen, ps[j].1);
    }
  }

  /** A generator that occurs in no pair has pairwise unrelated powers. */
  lemma UnusedUnbounded(k: nat, gen: nat, kind: Kind, relations: seq<Pair>, extra: seq<Pair>)
    requires gen < k && Unused(gen, relations, extra)
    ensures Unbounded(Presentation(kind, relations, extra), k)
  {
    UnusedBalanced(k, gen, relations);
    UnusedBalanced(k, gen, extra);
    PresentationBalanced(Unit(k, gen), kind, relations, extra);
    WeightUnbounded(Unit(k, gen), Presentation(kind, relations, extra), k, gen);
  }

  /** Fewer pairs than generators leave some generator with pairwise unrelated powers. */
  lemma FewPairsUnbounded(k: nat, kind: Kind, relations: seq<Pair>, extra: seq<Pair>)
    requires k > |relations| + |extra|
    ensures Unbounded(Presentation(kind, relations, extra), k)
  {
    var ws := FewPairs(k, relations + extra);
    assert forall j :: 0 <= j < |relations| ==> (relations + extra)[j] == relations[j];
    assert forall j :: 0 <= j < |extra| ==> (relations + extra)[|relations| + j] == extra[j];
    hide PairBalanced, Presentation, Unbounded;
    PresentationBalanced(ws, kind, relations, extra);
    var a :| 0 <= a < |ws| && ws[a] != 0;
    WeightUnbounded(ws, Presentation(kind, relations, extra), k, a);
  }

  /** `is_obviously_infinite` (lines 247-290): a congruence it accepts has infinitely many classes. */
  method IsObviouslyInfinite(hasSemigroup: bool, nrgens: nat, relations: seq<Pair>, extra: seq<Pair>, ghost kind: Kind) returns (infinite: bool)
    ensures infinite ==> !hasSemigroup && Unbounded(Presentation(kind, relations, extra), nrgens)
    ensures infinite <==> !hasSemigroup && (nrgens > |relations| + |extra| || exists gen :: 0 <= gen < nrgens && Unused(gen, relations, extra))
  {
    hide Unbounded, Presentation;
    if hasSemigroup {
      return false;
    }
    if nrgens > |relations| + |extra| {
      FewPairsUnbounded(nrgens, kind, relations, extra);
      return true;
    }
    var gen := 0;
    while gen < nrgens
      invariant gen <= nrgens && forall g :: 0 <= g < gen ==> !Unused(g, relations, extra)
    {
      var found := OccursInSome(gen, relations);
      if !found {
        found := OccursInSome(gen, extra);
      }
      if !found {
        UnusedUnbounded(nrgens, gen, kind, relations, extra);
        return true;
      }
      gen := gen + 1;
    }
    infinite := false;
  }
}
