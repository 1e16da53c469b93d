/**
 * Max-plus matrices up to a scalar: the class `ProjectiveMaxPlusMatrix`.
 * Lines cited here are those of src/elements.h.
 */
module ProjectiveMatrices {
  import opened Semirings
  import opened Matrices

  // ----- scalar multiples -----

  function Shift(c: int, x: Extended): Extended {
    ExtSum(Finite(c), x)
  }

  function Shifted(c: int, a: seq<Extended>): seq<Extended> {
    seq(|a|, i requires 0 <= i < |a| => Shift(c, a[i]))
  }

  /** The matrices differ by a scalar multiple. */
  ghost predicate Proportional(a: seq<Extended>, b: seq<Extended>) {
    exists c :: b == Shifted(c, a)
  }

  /** The greatest entry. */
  function Norm(a: seq<Extended>): Extended {
    if a == [] then Infinite else ExtMax(Norm(a[..|a| - 1]), a[|a| - 1])
  }

  /** The greatest finite entry becomes 0. */
  function NormalForm(a: seq<Extended>): seq<Extended> {
    if Norm(a).Infinite? then a else Shifted(-Norm(a).value, a)
  }

  lemma {:induction false} NormShifted(c: int, a: seq<Extended>)
    ensures Norm(Shifted(c, a)) == Shift(c, Norm(a))
  {
    if a != [] {
      assert Shifted(c, a)[..|a| - 1] == Shifted(c, a[..|a| - 1]);
      NormShifted(c, a[..|a| - 1]);
    }
  }

  lemma ShiftedTwice(c: int, d: int, a: seq<Extended>)
    ensures Shifted(c, Shifted(d, a)) == Shifted(c + d, a) && Shifted(0, a) == a
  {
  }

  /** The norm is the greatest entry. */
  lemma {:induction false} NormGreatest(a: seq<Extended>)
    requires Norm(a).Finite?
    ensures (exists i :: 0 <= i < |a| && a[i] == Norm(a)) && forall i :: 0 <= i < |a| && a[i].Finite? ==> a[i].value <= Norm(a).value
  {
    var rest, last := a[..|a| - 1], |a| - 1;
    if Norm(rest).Finite? {
      NormGreatest(rest);
      var i :| 0 <= i < |rest| && rest[i] == Norm(rest);
      assert a[i] == rest[i];
    } else {
      AllInfinite(rest);
    }
    assert a[last] == Norm(a) || (Norm(rest).Finite? && Norm(a) == Norm(rest));
    forall i | 0 <= i < |a| && a[i].Finite? ensures a[i].value <= Norm(a).value {
      if i < last {
        assert rest[i] == a[i];
      }
    }
  }

  /** No entry of a normal form is above 0, and if there is a number among the entries one of them is 0; infinite entries stay. */
  lemma NormalFormGreatest(a: seq<Extended>)
    ensures |NormalForm(a)| == |a| && forall i :: 0 <= i < |a| ==> (NormalForm(a)[i].Finite? <==> a[i].Finite?)
    ensures forall i :: 0 <= i < |a| && a[i].Finite? ==> NormalForm(a)[i].value <= 0
    ensures (exists i :: 0 <= i < |a| && a[i].Finite?) <==> Finite(0) in NormalForm(a)
  {
    if Norm(a).Finite? {
      NormGreatest(a);
      var i :| 0 <= i < |a| && a[i] == Norm(a);
      hide Norm;
      assert NormalForm(a)[i] == Finite(0);
    } else {
      AllInfinite(a);
    }
  }

  lemma {:induction false} AllInfinite(a: seq<Extended>)
    requires Norm(a).Infinite?
    ensures forall i :: 0 <= i < |a| ==> a[i].Infinite?
  {
    if a != [] {
      AllInfinite(a[..|a| - 1]);
    }
  }

  lemma InfiniteShifted(c: int, a: seq<Extended>)
    requires Norm(a).Infinite?
    ensures Shifted(c, a) == a
  {
    AllInfinite(a);
  }

  /** A matrix and its multiples have the same normal form. */
  lemma NormalFormShifted(c: int, a: seq<Extended>)
    ensures NormalForm(Shifted(c, a)) == NormalForm(a)
  {
    NormShifted(c, a);
    if Norm(a).Infinite? {
      InfiniteShifted(c, a);
    } else {
      ShiftedTwice(-Norm(Shifted(c, a)).value, c, a);
    }
  }

  /** The normal form is itself a multiple. */
  lemma NormalFormIs(a: seq<Extended>) returns (c: int)
    ensures NormalForm(a) == Shifted(c, a)
  {
    if Norm(a).Infinite? {
      c := 0;
      ShiftedTwice(0, 0, a);
    } else {
      c := -Norm(a).value;
    }
  }

  /** Equal normal forms mean exactly: equal up to a scalar. */
  lemma NormalFormExact(a: seq<Extended>, b: seq<Extended>)
    ensures NormalForm(a) == NormalForm(b) <==> Proportional(a, b)
  {
    if NormalForm(a) == NormalForm(b) {
      var c := NormalFormIs(a);
      var d := NormalFormIs(b);
      ShiftedTwice(-d, d, b);
      ShiftedTwice(-d, c, a);
      assert b == Shifted(-d + c, a);
    }
    if c :| b == Shifted(c, a) {
      NormalFormShifted(c, a);
    }
  }

  // ----- products -----

  lemma GetShifted(n: nat, c: int, a: seq<Extended>, i: nat, j: nat)
    ensures Get(MaxPlus(), n, Shifted(c, a), i, j) == Shift(c, Get(MaxPlus(), n, a, i, j))
  {
  }

  lemma CellShifted(n: nat, c: int, a: seq<Extended>, d: int, b: seq<Extended>, i: nat, j: nat)
    ensures Cell(MaxPlus(), n, Shifted(c, a), Shifted(d, b), i, j) == Shift(c + d, Cell(MaxPlus(), n, a, b, i, j))
  {
    var s := MaxPlus();
    var f := Terms(s, n, a, b, i, j);
    var g := Terms(s, n, Shifted(c, a), Shifted(d, b), i, j);
    MaxPlusOk();
    TimesSum(s, n, f, Finite(c + d));
    forall k: nat | k < n ensures g(k) == ByTimes(s, Finite(c + d), f)(k) {
      GetShifted(n, c, a, i, k);
      GetShifted(n, d, b, k, j);
    }
    hide IsSemiring;
    SumEqual(s, n, g, ByTimes(s, Finite(c + d), f));
  }

  lemma ProductShifted(n: nat, c: int, a: seq<Extended>, d: int, b: seq<Extended>, z: seq<Extended>)
    requires IsProduct(MaxPlus(), n, a, b, z)
    ensures IsProduct(MaxPlus(), n, Shifted(c, a), Shifted(d, b), Shifted(c + d, z))
  {
    hide Cell, Get, Shift;
    forall i: nat, j: nat | i < n && j < n
      ensures Get(MaxPlus(), n, Shifted(c + d, z), i, j) == Cell(MaxPlus(), n, Shifted(c, a), Shifted(d, b), i, j) {
      GetShifted(n, c + d, z, i, j);
      CellShifted(n, c, a, d, b, i, j);
    }
  }

  lemma ProductUnique<T>(s: Semiring<T>, n: nat, a: seq<T>, b: seq<T>, c: seq<T>, d: seq<T>)
    requires IsProduct(s, n, a, b, c) && IsProduct(s, n, a, b, d)
    ensures c == d
  {
    hide Cell, Get;
    SameEntries(s, n, c, d);
  }

  /** The normal form commutes with multiplication. */
  lemma NormalFormProduct(n: nat, a: seq<Extended>, b: seq<Extended>, z: seq<Extended>, w: seq<Extended>)
    requires IsProduct(MaxPlus(), n, a, b, z) && IsProduct(MaxPlus(), n, NormalForm(a), NormalForm(b), w)
    ensures NormalForm(w) == NormalForm(z)
  {
    var c := NormalFormIs(a);
    var d := NormalFormIs(b);
    hide IsProduct, NormalForm;
    ProductShifted(n, c, a, d, b, z);
    ProductUnique(MaxPlus(), n, NormalForm(a), NormalForm(b), w, Shifted(c + d, z));
    NormalFormShifted(c + d, z);
  }

  /** So projective products are associative. */
  lemma ProjectiveAssociative(n: nat, a: seq<Extended>, b: seq<Extended>, c: seq<Extended>, ab: seq<Extended>, bc: seq<Extended>, left: seq<Extended>, right: seq<Extended>)
    requires |a| == |b| == |c| == n * n
    requires IsProduct(MaxPlus(), n, a, b, ab) && IsProduct(MaxPlus(), n, b, c, bc)
    requires IsProduct(MaxPlus(), n, NormalForm(ab), c, left) && IsProduct(MaxPlus(), n, a, NormalForm(bc), right)
    ensures NormalForm(left) == NormalForm(right)
  {
    var p := NormalFormIs(ab);
    var q := NormalFormIs(bc);
    ShiftedTwice(-p, p, ab);
    ShiftedTwice(-q, q, bc);
    ShiftedTwice(0, 0, c);
    ShiftedTwice(0, 0, a);
    MaxPlusOk();
    hide IsProduct, NormalForm, IsSemiring, Shifted;
    ProductShifted(n, -p, NormalForm(ab), 0, c, left);
    ProductShifted(n, 0, a, -q, NormalForm(bc), right);
    Associative(MaxPlus(), n, a, b, c, ab, bc, Shifted(-p + 0, left), Shifted(0 + -q, right));
    NormalFormShifted(-p + 0, left);
    NormalFormShifted(0 + -q, right);
  }

  // ----- the class -----

  class ProjectiveMaxPlusMatrix {
    const matrix: Matrix<Extended>

    ghost predicate Valid()
      reads this, matrix, matrix.vector
    {
      matrix.Valid() && matrix.semiring == MaxPlus() && matrix.degree > 0
    }

    /** A matrix is brought into normal form at once (lines 1185-1202). */
    constructor (degree: nat, entries: seq<Extended>)
      requires degree > 0 && |entries| == degree * degree
      ensures Valid() && matrix.degree == degree && matrix.vector[..] == NormalForm(entries) && fresh(matrix) && fresh(matrix.vector)
    {
      matrix := new Matrix(MaxPlus(), degree, entries);
      new;
      NormalSize(entries);
      Nonempty(degree);
      After();
    }

    /** `after` (lines 1210-1217). */
    method After()
      requires Valid()
      modifies matrix.vector
      ensures Valid() && matrix.vector[..] == NormalForm(old(matrix.vector[..]))
    {
      var v := matrix.vector;
      ghost var a := v[..];
      Nonempty(matrix.degree);
      var norm := MaxElement(v);
      var i := 0;
      while i < v.Length
        invariant i <= v.Length && norm == Norm(a)
        invariant forall p :: 0 <= p < v.Length ==> v[p] == if p < i && a[p].Finite? && norm.Finite? then Finite(a[p].value - norm.value) else a[p]
      {
        if v[i].Finite? {
          FiniteNorm(a, i);
          v[i] := Finite(v[i].value - norm.value);
        }
        i := i + 1;
      }
      assert v[..] == NormalForm(a) by { NormalEntries(a, v[..]); }
    }

    /** `redefine`: the normal form of the product. */
    method Redefine(x: ProjectiveMaxPlusMatrix, y: ProjectiveMaxPlusMatrix) returns (ghost product: seq<Extended>)
      requires Valid() && x.Valid() && y.Valid() && x.matrix.degree == y.matrix.degree == matrix.degree
      requires matrix.vector != x.matrix.vector && matrix.vector != y.matrix.vector
      modifies matrix.vector
      ensures IsProduct(MaxPlus(), matrix.degree, x.matrix.vector[..], y.matrix.vector[..], product)
      ensures Valid() && matrix.vector[..] == NormalForm(product)
    {
      matrix.Redefine(x.matrix, y.matrix);
      product := matrix.vector[..];
      After();
    }
  }

  lemma Nonempty(n: nat)
    requires n > 0
    ensures n * n > 0
  {
  }

  lemma NormalSize(a: seq<Extended>)
    ensures |NormalForm(a)| == |a|
  {
  }

  lemma {:induction false} FiniteNorm(a: seq<Extended>, i: nat)
    requires i < |a| && a[i].Finite?
    ensures Norm(a).Finite? && a[i].value <= Norm(a).value
  {
    if i < |a| - 1 {
      FiniteNorm(a[..|a| - 1], i);
    }
  }

  lemma NormalEntries(a: seq<Extended>, b: seq<Extended>)
    requires |b| == |a| && forall p :: 0 <= p < |a| ==> b[p] == if a[p].Finite? && Norm(a).Finite? then Finite(a[p].value - Norm(a).value) else a[p]
    ensures b == NormalForm(a)
  {
    hide Norm;
    if Norm(a).Finite? {
      forall p | 0 <= p < |a| ensures b[p] == Shift(-Norm(a).value, a[p]) {
      }
    }
  }

  /** `std::max_element`. */
  method MaxElement(v: array<Extended>) returns (norm: Extended)
    requires v.Length > 0
    ensures norm == Norm(v[..])
  {
    norm := v[0];
    var i := 1;
    assert v[..1] == [] + [v[0]];
    while i < v.Length
      invariant 1 <= i <= v.Length && norm == Norm(v[..i])
    {
      assert v[..i + 1][..i] == v[..i];
      norm := ExtMax(norm, v[i]);
      i := i + 1;
    }
    assert v[..] == v[..i];
  }
}
