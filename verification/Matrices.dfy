/**
 * Square matrices over a semiring, stored row by row: the class `MatrixOverSemiringBase`.
 * Lines cited here are those of src/elements.h.
 */
module Matrices {
  import opened Semirings

  // ----- sums -----

  ghost function Sum<T>(s: Semiring<T>, m: nat, f: nat -> T): T {
    if m == 0 then s.zero else s.plus(Sum(s, m - 1, f), f(m - 1))
  }

  ghost function TimesBy<T>(s: Semiring<T>, f: nat -> T, c: T): nat -> T {
    (k: nat) => s.prod(f(k), c)
  }

  ghost function ByTimes<T>(s: Semiring<T>, c: T, f: nat -> T): nat -> T {
    (k: nat) => s.prod(c, f(k))
  }

  ghost function Added<T>(s: Semiring<T>, f: nat -> T, g: nat -> T): nat -> T {
    (k: nat) => s.plus(f(k), g(k))
  }

  ghost function RowOf<T>(g: (nat, nat) -> T, l: nat): nat -> T {
    (k: nat) => g(l, k)
  }

  ghost function ColumnOf<T>(g: (nat, nat) -> T, k: nat): nat -> T {
    (l: nat) => g(l, k)
  }

  ghost predicate All<T>(s: Semiring<T>, m: nat, f: nat -> T) {
    forall k: nat :: k < m ==> s.has(f(k))
  }

  lemma {:induction false} SumHas<T(!new)>(s: Semiring<T>, m: nat, f: nat -> T)
    requires IsSemiring(s) && All(s, m, f)
    ensures s.has(Sum(s, m, f))
  {
    if m > 0 {
      SumHas(s, m - 1, f);
      LawsAt(s, Sum(s, m - 1, f), f(m - 1), s.zero);
    }
  }

  lemma {:induction false} SumEqual<T>(s: Semiring<T>, m: nat, f: nat -> T, g: nat -> T)
    requires forall k: nat :: k < m ==> f(k) == g(k)
    ensures Sum(s, m, f) == Sum(s, m, g)
  {
    if m > 0 {
      SumEqual(s, m - 1, f, g);
    }
  }

  lemma {:induction false} SumZero<T(!new)>(s: Semiring<T>, m: nat, f: nat -> T)
    requires IsSemiring(s) && forall k: nat :: k < m ==> f(k) == s.zero
    ensures Sum(s, m, f) == s.zero
  {
    if m > 0 {
      SumZero(s, m - 1, f);
      LawsAt(s, s.zero, s.zero, s.zero);
    }
  }

  /** All summands but one are zero. */
  lemma {:induction false} SumSingle<T(!new)>(s: Semiring<T>, m: nat, f: nat -> T, a: nat)
    requires IsSemiring(s) && a < m && s.has(f(a)) && forall k: nat :: k < m && k != a ==> f(k) == s.zero
    ensures Sum(s, m, f) == f(a)
  {
    LawsAt(s, f(a), s.zero, s.zero);
    if a == m - 1 {
      SumZero(s, m - 1, f);
    } else {
      SumSingle(s, m - 1, f, a);
    }
  }

  lemma {:induction false} SumTimes<T(!new)>(s: Semiring<T>, m: nat, f: nat -> T, c: T)
    requires IsSemiring(s) && All(s, m, f) && s.has(c)
    ensures s.prod(Sum(s, m, f), c) == Sum(s, m, TimesBy(s, f, c))
  {
    LawsAt(s, c, c, c);
    if m > 0 {
      SumTimes(s, m - 1, f, c);
      SumHas(s, m - 1, f);
      LawsAt(s, Sum(s, m - 1, f), f(m - 1), c);
    }
  }

  lemma {:induction false} TimesSum<T(!new)>(s: Semiring<T>, m: nat, f: nat -> T, c: T)
    requires IsSemiring(s) && All(s, m, f) && s.has(c)
    ensures s.prod(c, Sum(s, m, f)) == Sum(s, m, ByTimes(s, c, f))
  {
    LawsAt(s, c, c, c);
    if m > 0 {
      TimesSum(s, m - 1, f, c);
      SumHas(s, m - 1, f);
      LawsAt(s, c, Sum(s, m - 1, f), f(m - 1));
    }
  }

  lemma FourSummands<T(!new)>(s: Semiring<T>, a: T, b: T, c: T, d: T)
    requires IsSemiring(s) && s.has(a) && s.has(b) && s.has(c) && s.has(d)
    ensures s.plus(s.plus(a, b), s.plus(c, d)) == s.plus(s.plus(a, c), s.plus(b, d))
  {
    LawsAt(s, c, d, d);
    LawsAt(s, b, d, d);
    LawsAt(s, a, b, s.plus(c, d));
    LawsAt(s, b, c, d);
    LawsAt(s, c, b, d);
    LawsAt(s, a, c, s.plus(b, d));
  }

  lemma {:induction false} SumPlus<T(!new)>(s: Semiring<T>, m: nat, f: nat -> T, g: nat -> T)
    requires IsSemiring(s) && All(s, m, f) && All(s, m, g)
    ensures Sum(s, m, Added(s, f, g)) == s.plus(Sum(s, m, f), Sum(s, m, g))
  {
    if m == 0 {
      LawsAt(s, s.zero, s.zero, s.zero);
    } else {
      SumPlus(s, m - 1, f, g);
      SumHas(s, m - 1, f);
      SumHas(s, m - 1, g);
      FourSummands(s, Sum(s, m - 1, f), Sum(s, m - 1, g), f(m - 1), g(m - 1));
    }
  }

  ghost function RowSum<T>(s: Semiring<T>, m: nat, g: (nat, nat) -> T): nat -> T {
    (l: nat) => Sum(s, m, RowOf(g, l))
  }

  ghost function ColumnSum<T>(s: Semiring<T>, m: nat, g: (nat, nat) -> T): nat -> T {
    (k: nat) => Sum(s, m, ColumnOf(g, k))
  }

  /** The order of summation does not matter. */
  lemma {:induction false} SumSwap<T(!new)>(s: Semiring<T>, m: nat, n: nat, g: (nat, nat) -> T)
    requires IsSemiring(s) && forall l: nat, k: nat :: l < m && k < n ==> s.has(g(l, k))
    ensures Sum(s, m, RowSum(s, n, g)) == Sum(s, n, ColumnSum(s, m, g))
    decreases m
  {
    if m == 0 {
      SumZero(s, n, ColumnSum(s, 0, g));
    } else {
      SumSwap(s, m - 1, n, g);
      hide IsSemiring;
      var above := ColumnSum(s, m - 1, g);
      forall k: nat | k < n ensures s.has(above(k)) {
        SumHas(s, m - 1, ColumnOf(g, k));
      }
      SumPlus(s, n, ColumnSum(s, m - 1, g), RowOf(g, m - 1));
      SumEqual(s, n, ColumnSum(s, m, g), Added(s, ColumnSum(s, m - 1, g), RowOf(g, m - 1)));
    }
  }

  // ----- entries -----

  lemma IndexBound(n: nat, i: nat, j: nat)
    requires i < n && j < n
    ensures i * n + j < n * n
  {
    assert (i + 1) * n <= n * n by { Widen(i + 1, n, n); }
  }

  lemma Widen(a: nat, b: nat, n: nat)
    requires a <= b
    ensures a * n <= b * n
  {
    assert b * n == a * n + (b - a) * n;
  }

  /** Position and entry determine each other. */
  lemma DivMod(n: nat, i: nat, j: nat)
    requires j < n
    ensures (i * n + j) / n == i && (i * n + j) % n == j
  {
    var e := i * n + j;
    assert e == n * (e / n) + e % n;
    assert n * (e / n) - n * i == j - e % n;
    assert n * (e / n - i) == n * (e / n) - n * i;
    Between(e / n - i + 1, n, j, e % n);
  }

  lemma Position(n: nat, e: nat)
    requires e < n * n
    ensures n > 0 && e / n < n && e % n < n && e == (e / n) * n + e % n
  {
    assert e == n * (e / n) + e % n;
    if e / n >= n {
      Widen(n, e / n, n);
    }
  }

  function Get<T>(s: Semiring<T>, n: nat, a: seq<T>, i: nat, j: nat): T {
    if i * n + j < |a| then a[i * n + j] else s.zero
  }

  ghost predicate IsMatrix<T>(s: Semiring<T>, n: nat, a: seq<T>) {
    |a| == n * n && forall e :: 0 <= e < |a| ==> s.has(a[e])
  }

  lemma GetHas<T(!new)>(s: Semiring<T>, n: nat, a: seq<T>, i: nat, j: nat)
    requires IsSemiring(s) && IsMatrix(s, n, a)
    ensures s.has(Get(s, n, a, i, j))
  {
  }

  ghost function Terms<T>(s: Semiring<T>, n: nat, a: seq<T>, b: seq<T>, i: nat, j: nat): nat -> T {
    (k: nat) => s.prod(Get(s, n, a, i, k), Get(s, n, b, k, j))
  }

  /** Row `i` of `a` times column `j` of `b`. */
  ghost function Cell<T>(s: Semiring<T>, n: nat, a: seq<T>, b: seq<T>, i: nat, j: nat): T {
    Sum(s, n, Terms(s, n, a, b, i, j))
  }

  ghost predicate IsProduct<T>(s: Semiring<T>, n: nat, a: seq<T>, b: seq<T>, c: seq<T>) {
    |c| == n * n && forall i: nat, j: nat :: i < n && j < n ==> Get(s, n, c, i, j) == Cell(s, n, a, b, i, j)
  }

  lemma SameEntries<T>(s: Semiring<T>, n: nat, a: seq<T>, b: seq<T>)
    requires |a| == |b| == n * n && forall i: nat, j: nat :: i < n && j < n ==> Get(s, n, a, i, j) == Get(s, n, b, i, j)
    ensures a == b
  {
    forall e | 0 <= e < |a| ensures a[e] == b[e] {
      Position(n, e);
      assert Get(s, n, a, e / n, e % n) == Get(s, n, b, e / n, e % n);
    }
  }

  lemma TermsHave<T(!new)>(s: Semiring<T>, n: nat, a: seq<T>, b: seq<T>, i: nat, j: nat)
    requires IsSemiring(s) && IsMatrix(s, n, a) && IsMatrix(s, n, b)
    ensures All(s, n, Terms(s, n, a, b, i, j)) && s.has(Cell(s, n, a, b, i, j))
  {
    forall k: nat | k < n ensures s.has(Terms(s, n, a, b, i, j)(k)) {
      GetHas(s, n, a, i, k);
      GetHas(s, n, b, k, j);
      LawsAt(s, Get(s, n, a, i, k), Get(s, n, b, k, j), s.zero);
    }
    hide Terms, IsSemiring;
    SumHas(s, n, Terms(s, n, a, b, i, j));
  }

  lemma ProductMatrix<T(!new)>(s: Semiring<T>, n: nat, a: seq<T>, b: seq<T>, c: seq<T>)
    requires IsSemiring(s) && IsMatrix(s, n, a) && IsMatrix(s, n, b) && IsProduct(s, n, a, b, c)
    ensures IsMatrix(s, n, c)
  {
    hide Cell, Terms, IsSemiring;
    forall e | 0 <= e < |c| ensures s.has(c[e]) {
      Position(n, e);
      TermsHave(s, n, a, b, e / n, e % n);
      assert Get(s, n, c, e / n, e % n) == Cell(s, n, a, b, e / n, e % n);
    }
  }

  // ----- associativity -----

  /** The products of three entries that make up an entry of a triple product. */
  ghost function Triple<T>(s: Semiring<T>, n: nat, a: seq<T>, b: seq<T>, c: seq<T>, i: nat, j: nat): (nat, nat) -> T {
    (l: nat, k: nat) => s.prod(s.prod(Get(s, n, a, i, l), Get(s, n, b, l, k)), Get(s, n, c, k, j))
  }

  lemma LeftTerm<T(!new)>(s: Semiring<T>, n: nat, a: seq<T>, b: seq<T>, c: seq<T>, ab: seq<T>, i: nat, j: nat, k: nat)
    requires IsSemiring(s) && IsMatrix(s, n, a) && IsMatrix(s, n, b) && IsMatrix(s, n, c) && IsProduct(s, n, a, b, ab) && i < n && k < n
    ensures Terms(s, n, ab, c, i, j)(k) == ColumnSum(s, n, Triple(s, n, a, b, c, i, j))(k)
  {
    var f, z := Terms(s, n, a, b, i, k), Get(s, n, c, k, j);
    GetHas(s, n, c, k, j);
    TermsHave(s, n, a, b, i, k);
    hide IsSemiring;
    SumTimes(s, n, f, z);
    assert Get(s, n, ab, i, k) == Cell(s, n, a, b, i, k);
    SumEqual(s, n, TimesBy(s, f, z), ColumnOf(Triple(s, n, a, b, c, i, j), k));
  }

  lemma RightTerm<T(!new)>(s: Semiring<T>, n: nat, a: seq<T>, b: seq<T>, c: seq<T>, bc: seq<T>, i: nat, j: nat, l: nat)
    requires IsSemiring(s) && IsMatrix(s, n, a) && IsMatrix(s, n, b) && IsMatrix(s, n, c) && IsProduct(s, n, b, c, bc) && j < n && l < n
    ensures Terms(s, n, a, bc, i, j)(l) == RowSum(s, n, Triple(s, n, a, b, c, i, j))(l)
  {
    var f, x := Terms(s, n, b, c, l, j), Get(s, n, a, i, l);
    GetHas(s, n, a, i, l);
    TermsHave(s, n, b, c, l, j);
    TimesSum(s, n, f, x);
    assert Get(s, n, bc, l, j) == Cell(s, n, b, c, l, j);
    hide IsSemiring;
    forall k: nat | k < n ensures ByTimes(s, x, f)(k) == RowOf(Triple(s, n, a, b, c, i, j), l)(k) {
      GetHas(s, n, b, l, k);
      GetHas(s, n, c, k, j);
      LawsAt(s, x, Get(s, n, b, l, k), Get(s, n, c, k, j));
    }
    SumEqual(s, n, ByTimes(s, x, f), RowOf(Triple(s, n, a, b, c, i, j), l));
  }

  lemma TripleHas<T(!new)>(s: Semiring<T>, n: nat, a: seq<T>, b: seq<T>, c: seq<T>, i: nat, j: nat, l: nat, k: nat)
    requires IsSemiring(s) && IsMatrix(s, n, a) && IsMatrix(s, n, b) && IsMatrix(s, n, c)
    ensures s.has(Triple(s, n, a, b, c, i, j)(l, k))
  {
    GetHas(s, n, a, i, l);
    GetHas(s, n, b, l, k);
    GetHas(s, n, c, k, j);
    LawsAt(s, Get(s, n, a, i, l), Get(s, n, b, l, k), s.zero);
    LawsAt(s, s.prod(Get(s, n, a, i, l), Get(s, n, b, l, k)), Get(s, n, c, k, j), s.zero);
  }

  lemma CellsAssociate<T(!new)>(s: Semiring<T>, n: nat, a: seq<T>, b: seq<T>, c: seq<T>, ab: seq<T>, bc: seq<T>, i: nat, j: nat)
    requires IsSemiring(s) && IsMatrix(s, n, a) && IsMatrix(s, n, b) && IsMatrix(s, n, c)
    requires IsProduct(s, n, a, b, ab) && IsProduct(s, n, b, c, bc) && i < n && j < n
    ensures Cell(s, n, ab, c, i, j) == Cell(s, n, a, bc, i, j)
  {
    hide IsSemiring, IsMatrix, IsProduct, Triple, Terms, RowSum, ColumnSum;
    var g := Triple(s, n, a, b, c, i, j);
    forall k: nat | k < n ensures Terms(s, n, ab, c, i, j)(k) == ColumnSum(s, n, g)(k) { LeftTerm(s, n, a, b, c, ab, i, j, k); }
    forall l: nat | l < n ensures Terms(s, n, a, bc, i, j)(l) == RowSum(s, n, g)(l) { RightTerm(s, n, a, b, c, bc, i, j, l); }
    SumEqual(s, n, Terms(s, n, ab, c, i, j), ColumnSum(s, n, g));
    SumEqual(s, n, Terms(s, n, a, bc, i, j), RowSum(s, n, g));
    forall l: nat, k: nat | l < n && k < n ensures s.has(g(l, k)) { TripleHas(s, n, a, b, c, i, j, l, k); }
    SumSwap(s, n, n, g);
  }

  /** The matrix product is associative, in every dimension and over every semiring. */
  lemma Associative<T(!new)>(s: Semiring<T>, n: nat, a: seq<T>, b: seq<T>, c: seq<T>, ab: seq<T>, bc: seq<T>, left: seq<T>, right: seq<T>)
    requires IsSemiring(s) && IsMatrix(s, n, a) && IsMatrix(s, n, b) && IsMatrix(s, n, c)
    requires IsProduct(s, n, a, b, ab) && IsProduct(s, n, b, c, bc) && IsProduct(s, n, ab, c, left) && IsProduct(s, n, a, bc, right)
    ensures left == right
  {
    hide IsSemiring, IsMatrix, Cell, Get;
    forall i: nat, j: nat | i < n && j < n ensures Get(s, n, left, i, j) == Get(s, n, right, i, j) {
      CellsAssociate(s, n, a, b, c, ab, bc, i, j);
    }
    SameEntries(s, n, left, right);
  }

  // ----- the identity -----

  ghost predicate IsIdentity<T>(s: Semiring<T>, n: nat, e: seq<T>) {
    |e| == n * n && forall i: nat, j: nat :: i < n && j < n ==> Get(s, n, e, i, j) == if i == j then s.one else s.zero
  }

  lemma IdentityNeutral<T(!new)>(s: Semiring<T>, n: nat, e: seq<T>, a: seq<T>)
    requires IsSemiring(s) && IsMatrix(s, n, a) && IsIdentity(s, n, e)
    ensures IsProduct(s, n, a, e, a) && IsProduct(s, n, e, a, a)
  {
    forall i: nat, j: nat | i < n && j < n ensures Get(s, n, a, i, j) == Cell(s, n, a, e, i, j) && Get(s, n, a, i, j) == Cell(s, n, e, a, i, j) {
      GetHas(s, n, a, i, j);
      LawsAt(s, Get(s, n, a, i, j), s.zero, s.zero);
      forall k: nat | k < n && k != j ensures Terms(s, n, a, e, i, j)(k) == s.zero {
        GetHas(s, n, a, i, k);
        LawsAt(s, Get(s, n, a, i, k), s.zero, s.zero);
        assert Get(s, n, e, k, j) == s.zero;
      }
      forall k: nat | k < n && k != i ensures Terms(s, n, e, a, i, j)(k) == s.zero {
        GetHas(s, n, a, k, j);
        LawsAt(s, Get(s, n, a, k, j), s.zero, s.zero);
        assert Get(s, n, e, i, k) == s.zero;
      }
      assert Get(s, n, e, j, j) == s.one && Get(s, n, e, i, i) == s.one;
      hide IsSemiring, IsMatrix, IsIdentity, Get;
      SumSingle(s, n, Terms(s, n, a, e, i, j), j);
      SumSingle(s, n, Terms(s, n, e, a, i, j), i);
    }
  }

  // ----- matrices with a single entry -----

  /** `x` in row `a` and column `b`, and zero elsewhere. */
  ghost predicate IsUnit<T>(s: Semiring<T>, n: nat, m: seq<T>, a: nat, b: nat, x: T) {
    |m| == n * n && forall i: nat, j: nat :: i < n && j < n ==> Get(s, n, m, i, j) == if i == a && j == b then x else s.zero
  }

  /** The product of two matrices with one entry each: which rows and columns meet, and in which order entries are multiplied. */
  lemma UnitsMultiply<T(!new)>(s: Semiring<T>, n: nat, u: seq<T>, a: nat, b: nat, x: T, v: seq<T>, c: nat, d: nat, y: T, p: seq<T>)
    requires IsSemiring(s) && s.has(x) && s.has(y) && a < n && b < n && c < n && d < n
    requires IsUnit(s, n, u, a, b, x) && IsUnit(s, n, v, c, d, y) && IsProduct(s, n, u, v, p)
    ensures IsUnit(s, n, p, a, d, if b == c then s.prod(x, y) else s.zero)
  {
    hide Cell, Get;
    forall i: nat, j: nat | i < n && j < n ensures Get(s, n, p, i, j) == if b == c && i == a && j == d then s.prod(x, y) else s.zero {
      assert Get(s, n, p, i, j) == Cell(s, n, u, v, i, j);
      UnitCell(s, n, u, a, b, x, v, c, d, y, i, j);
    }
  }

  lemma UnitCell<T(!new)>(s: Semiring<T>, n: nat, u: seq<T>, a: nat, b: nat, x: T, v: seq<T>, c: nat, d: nat, y: T, i: nat, j: nat)
    requires IsSemiring(s) && s.has(x) && s.has(y) && a < n && b < n && c < n && d < n && i < n && j < n
    requires IsUnit(s, n, u, a, b, x) && IsUnit(s, n, v, c, d, y)
    ensures Cell(s, n, u, v, i, j) == if b == c && i == a && j == d then s.prod(x, y) else s.zero
  {
    var f := Terms(s, n, u, v, i, j);
    LawsAt(s, x, y, s.zero);
    LawsAt(s, y, x, s.zero);
    LawsAt(s, s.zero, s.zero, s.zero);
    hide IsSemiring, Get;
    forall k: nat | k < n ensures f(k) == if i == a && k == b && k == c && j == d then s.prod(x, y) else s.zero {
    }
    hide IsUnit, Terms;
    if b == c && i == a && j == d {
      SumSingle(s, n, f, b);
    } else {
      SumZero(s, n, f);
    }
  }

  // ----- the class -----

  /** The positions before `p` hold the entries of the product. */
  ghost predicate FilledTo<T>(s: Semiring<T>, n: nat, a: seq<T>, b: seq<T>, c: seq<T>, p: nat) {
    |c| == n * n && p <= |c| && forall e :: 0 <= e < p ==> n > 0 && c[e] == Cell(s, n, a, b, e / n, e % n)
  }

  lemma FillNext<T>(s: Semiring<T>, n: nat, a: seq<T>, b: seq<T>, c: seq<T>, i: nat, j: nat, v: T)
    requires i < n && j < n && FilledTo(s, n, a, b, c, i * n + j) && v == Cell(s, n, a, b, i, j)
    ensures i * n + j < |c| && FilledTo(s, n, a, b, c[i * n + j := v], i * n + (j + 1))
  {
    hide Cell;
    IndexBound(n, i, j);
    DivMod(n, i, j);
  }

  lemma FilledAll<T>(s: Semiring<T>, n: nat, a: seq<T>, b: seq<T>, c: seq<T>)
    requires FilledTo(s, n, a, b, c, n * n)
    ensures IsProduct(s, n, a, b, c)
  {
    hide Cell;
    forall i: nat, j: nat | i < n && j < n ensures Get(s, n, c, i, j) == Cell(s, n, a, b, i, j) {
      IndexBound(n, i, j);
      DivMod(n, i, j);
    }
  }

  lemma GetAt<T>(s: Semiring<T>, n: nat, a: seq<T>, i: nat, j: nat)
    requires |a| == n * n && i < n && j < n
    ensures i * n + j < |a| && Get(s, n, a, i, j) == a[i * n + j]
  {
    IndexBound(n, i, j);
  }

  class Matrix<!T(!new)> {
    const semiring: Semiring<T>
    const degree: nat
    const vector: array<T>

    ghost predicate Valid()
      reads this, vector
    {
      vector.Length == degree * degree
    }

    constructor (semiring: Semiring<T>, degree: nat, entries: seq<T>)
      requires |entries| == degree * degree
      ensures Valid() && this.semiring == semiring && this.degree == degree && vector[..] == entries && fresh(vector)
    {
      this.semiring, this.degree := semiring, degree;
      vector := new T[|entries|](i requires 0 <= i < |entries| => entries[i]);
    }

    /** `identity` (lines 1073-1081). */
    method Identity() returns (e: seq<T>)
      requires Valid()
      ensures IsIdentity(semiring, degree, e)
    {
      var n := degree;
      e := seq(vector.Length, _ => semiring.zero);
      var it, d := 0, 0;
      while it < |e|
        invariant it == d * (n + 1) && |e| == n * n
        invariant forall p :: 0 <= p < |e| ==> e[p] == if p % (n + 1) == 0 && p < it then semiring.one else semiring.zero
        decreases |e| - it
      {
        DivMod(n + 1, d, 0);
        e := e[it := semiring.one];
        it, d := it + (n + 1), d + 1;
        forall p | 0 <= p < |e| ensures e[p] == if p % (n + 1) == 0 && p < it then semiring.one else semiring.zero {
          if p % (n + 1) == 0 && p < it {
            NoneBetween(n + 1, d - 1, p);
          }
        }
      }
      DiagonalAll(semiring, n, e);
    }

    /** Lines 1121-1125: one entry. */
    method Entry(x: Matrix<T>, y: Matrix<T>, i: nat, j: nat) returns (v: T)
      requires x.Valid() && y.Valid() && x.degree == y.degree == degree && i < degree && j < degree
      ensures v == Cell(semiring, degree, x.vector[..], y.vector[..], i, j)
    {
      hide *;
      var n := degree;
      ghost var a, b := x.vector[..], y.vector[..];
      x.Sizes();
      y.Sizes();
      v := semiring.zero;
      var k := 0;
      CellStart(semiring, n, a, b, i, j);
      while k < n
        invariant k <= n && v == Sum(semiring, k, Terms(semiring, n, a, b, i, j))
      {
        GetAt(semiring, n, a, i, k);
        GetAt(semiring, n, b, k, j);
        CellNext(semiring, n, a, b, i, j, k);
        v := semiring.plus(v, semiring.prod(x.vector[i * n + k], y.vector[k * n + j]));
        k := k + 1;
      }
      CellEnd(semiring, n, a, b, i, j);
    }

    /** `redefine` (lines 1105-1131): this becomes the product of `x` and `y`. */
    method Redefine(x: Matrix<T>, y: Matrix<T>)
      requires Valid() && x.Valid() && y.Valid() && x.degree == y.degree == degree && vector != x.vector && vector != y.vector
      modifies vector
      ensures IsProduct(semiring, degree, x.vector[..], y.vector[..], vector[..])
    {
      hide *;
      var n := degree;
      ghost var a, b := x.vector[..], y.vector[..];
      Sizes();
      x.Sizes();
      y.Sizes();
      FilledNone(semiring, n, a, b, vector[..]);
      var i := 0;
      while i < n
        invariant i <= n && x.vector[..] == a && y.vector[..] == b && FilledTo(semiring, n, a, b, vector[..], i * n)
      {
        var j := 0;
        while j < n
          invariant j <= n && x.vector[..] == a && y.vector[..] == b && FilledTo(semiring, n, a, b, vector[..], i * n + j)
        {
          var v := Entry(x, y, i, j);
          FillNext(semiring, n, a, b, vector[..], i, j, v);
          vector[i * n + j] := v;
          j := j + 1;
        }
        RowEnd(i, n);
        i := i + 1;
      }
      FilledAll(semiring, n, a, b, vector[..]);
    }

    lemma Sizes()
      requires Valid()
      ensures vector.Length == degree * degree
    {
    }
  }

  lemma RowEnd(i: nat, n: nat)
    ensures i * n + n == (i + 1) * n
  {
  }

  lemma FilledNone<T>(s: Semiring<T>, n: nat, a: seq<T>, b: seq<T>, c: seq<T>)
    requires |c| == n * n
    ensures FilledTo(s, n, a, b, c, 0 * n)
  {
  }

  lemma CellStart<T>(s: Semiring<T>, n: nat, a: seq<T>, b: seq<T>, i: nat, j: nat)
    ensures Sum(s, 0, Terms(s, n, a, b, i, j)) == s.zero
  {
  }

  lemma CellNext<T>(s: Semiring<T>, n: nat, a: seq<T>, b: seq<T>, i: nat, j: nat, k: nat)
    ensures Sum(s, k + 1, Terms(s, n, a, b, i, j)) == s.plus(Sum(s, k, Terms(s, n, a, b, i, j)), s.prod(Get(s, n, a, i, k), Get(s, n, b, k, j)))
  {
  }

  lemma CellEnd<T>(s: Semiring<T>, n: nat, a: seq<T>, b: seq<T>, i: nat, j: nat)
    ensures Cell(s, n, a, b, i, j) == Sum(s, n, Terms(s, n, a, b, i, j))
  {
  }

  /** Multiples of `m` up to the next one. */
  lemma NoneBetween(m: nat, d: nat, p: nat)
    requires m > 0 && p % m == 0 && p < d * m + m
    ensures p <= d * m
  {
    var q := p / m;
    assert p == m * q;
    if q > d {
      Widen(d + 1, q, m);
    }
  }

  /** The positions divisible by `n + 1` are the diagonal. */
  lemma Diagonal(n: nat, i: nat, j: nat)
    requires i < n && j < n
    ensures (i * n + j) % (n + 1) == 0 <==> i == j
  {
    var m := n + 1;
    if i <= j {
      assert i * n + j == i * m + (j - i);
      DivMod(m, i, j - i);
    } else {
      assert i * n + j == (i - 1) * m + (m + j - i);
      DivMod(m, i - 1, m + j - i);
    }
  }

  lemma DiagonalAll<T>(s: Semiring<T>, n: nat, e: seq<T>)
    requires |e| == n * n && forall p :: 0 <= p < |e| ==> e[p] == if p % (n + 1) == 0 then s.one else s.zero
    ensures IsIdentity(s, n, e)
  {
    forall i: nat, j: nat | i < n && j < n ensures Get(s, n, e, i, j) == if i == j then s.one else s.zero {
      GetAt(s, n, e, i, j);
      Diagonal(n, i, j);
    }
  }
}
