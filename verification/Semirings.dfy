/**
 * The semirings over which matrices are defined: the classes derived from `Semiring`.
 * Lines cited here are those of src/semiring.h.
 */
module Semirings {

  /** The operations, and the elements for which the original asserts that they are called. */
  datatype Semiring<!T> = Semiring(one: T, zero: T, plus: (T, T) -> T, prod: (T, T) -> T, has: T -> bool)

  /** The laws for three elements. */
  ghost predicate Laws<T>(s: Semiring<T>, x: T, y: T, z: T) {
    && s.has(s.plus(x, y)) && s.has(s.prod(x, y))
    && s.plus(x, y) == s.plus(y, x) && s.plus(s.plus(x, y), z) == s.plus(x, s.plus(y, z))
    && s.plus(s.zero, x) == x == s.plus(x, s.zero)
    && s.prod(s.prod(x, y), z) == s.prod(x, s.prod(y, z)) && s.prod(s.one, x) == x == s.prod(x, s.one)
    && s.prod(x, s.plus(y, z)) == s.plus(s.prod(x, y), s.prod(x, z)) && s.prod(s.plus(x, y), z) == s.plus(s.prod(x, z), s.prod(y, z))
    && s.prod(s.zero, x) == s.zero == s.prod(x, s.zero)
  }

  ghost predicate IsSemiring<T(!new)>(s: Semiring<T>) {
    && s.has(s.zero) && s.has(s.one)
    && forall x, y, z {:trigger Laws(s, x, y, z)} :: s.has(x) && s.has(y) && s.has(z) ==> Laws(s, x, y, z)
  }

  lemma LawsAt<T(!new)>(s: Semiring<T>, x: T, y: T, z: T)
    requires IsSemiring(s) && s.has(x) && s.has(y) && s.has(z)
    ensures Laws(s, x, y, z)
  {
  }

  // ----- booleans and integers -----

  function Booleans(): Semiring<bool> {
    Semiring(true, false, (x, y) => x || y, (x, y) => x && y, _ => true)
  }

  function Integers(): Semiring<int> {
    Semiring(1, 0, (x, y) => x + y, (x, y) => x * y, _ => true)
  }

  /** The sum is true if a summand is, the product if both factors are. */
  ghost predicate Logical(s: Semiring<bool>, x: bool, y: bool) {
    (s.plus(x, y) <==> x || y) && (s.prod(x, y) <==> x && y)
  }

  /** The sum is as far from each summand as the other one is from 0, and the product is the sum of as many copies as the factor says. */
  ghost predicate Arithmetical(s: Semiring<int>, x: int, y: int) {
    s.plus(x, y) - x == y && s.prod(x, 0) == 0 && s.prod(x, y + 1) - s.prod(x, y) == x
  }

  lemma BooleansOk()
    ensures IsSemiring(Booleans()) && Booleans().one && !Booleans().zero
    ensures forall x, y :: Logical(Booleans(), x, y)
  {
    forall x, y, z ensures Laws(Booleans(), x, y, z) { BooleanLaws(x, y, z); }
    hide Laws;
  }

  lemma BooleanLaws(x: bool, y: bool, z: bool)
    ensures Laws(Booleans(), x, y, z)
  {
  }

  lemma IntegersOk()
    ensures IsSemiring(Integers()) && Integers().one == 1 && Integers().zero == 0
    ensures forall x, y :: Arithmetical(Integers(), x, y)
  {
    forall x, y, z ensures Laws(Integers(), x, y, z) { IntegerLaws(x, y, z); }
    forall x, y ensures Arithmetical(Integers(), x, y) { Product3(x, y, 1); }
    hide Laws;
  }

  lemma IntegerLaws(x: int, y: int, z: int)
    ensures Laws(Integers(), x, y, z)
  {
    Product3(x, y, z);
  }

  lemma Product3(x: int, y: int, z: int)
    ensures (x * y) * z == x * (y * z) && x * (y + z) == x * y + x * z && (x + y) * z == x * z + y * z
  {
  }

  // ----- max-plus and min-plus -----

  /** A number, or the infinity that is the zero of the semiring. */
  datatype Extended = Infinite | Finite(value: int)

  function Max(x: int, y: int): int {
    if x < y then y else x
  }

  function Min(x: int, y: int): int {
    if y < x then y else x
  }

  /** The greater one; here `Infinite` is minus infinity. */
  function ExtMax(x: Extended, y: Extended): Extended {
    if x.Infinite? then y else if y.Infinite? then x else Finite(Max(x.value, y.value))
  }

  /** The smaller one; here `Infinite` is infinity. */
  function ExtMin(x: Extended, y: Extended): Extended {
    if x.Infinite? then y else if y.Infinite? then x else Finite(Min(x.value, y.value))
  }

  function ExtSum(x: Extended, y: Extended): Extended {
    if x.Infinite? || y.Infinite? then Infinite else Finite(x.value + y.value)
  }

  function MaxPlus(): Semiring<Extended> {
    Semiring(Finite(0), Infinite, (x, y) => ExtMax(x, y), (x, y) => ExtSum(x, y), _ => true)
  }

  function MinPlus(): Semiring<Extended> {
    Semiring(Finite(0), Infinite, (x, y) => ExtMin(x, y), (x, y) => ExtSum(x, y), _ => true)
  }

  /** The sum is one of the summands, and none of them is above it; `Infinite` is below everything. */
  ghost predicate TakesGreater(s: Semiring<Extended>, x: Extended, y: Extended) {
    var m := s.plus(x, y);
    && (m == x || m == y)
    && (x.Finite? ==> m.Finite? && x.value <= m.value) && (y.Finite? ==> m.Finite? && y.value <= m.value)
  }

  /** The sum is one of the summands, and none of them is below it; `Infinite` is above everything. */
  ghost predicate TakesSmaller(s: Semiring<Extended>, x: Extended, y: Extended) {
    var m := s.plus(x, y);
    && (m == x || m == y)
    && (x.Finite? ==> m.Finite? && m.value <= x.value) && (y.Finite? ==> m.Finite? && m.value <= y.value)
  }

  /** Products of numbers are their sums, and products with the infinity are infinite. */
  ghost predicate Adds(s: Semiring<Extended>, x: Extended, y: Extended) {
    var m := s.prod(x, y);
    (m.Finite? <==> x.Finite? && y.Finite?) && (m.Finite? ==> m.value - x.value == y.value)
  }

  /** The same up to the threshold. */
  ghost predicate AddsUpTo(s: Semiring<Extended>, t: int, x: Extended, y: Extended) {
    var m := s.prod(x, y);
    && (m.Finite? <==> x.Finite? && y.Finite?)
    && (m.Finite? ==> m.value <= t && m.value - x.value <= y.value && (m.value == t || m.value - x.value == y.value))
  }

  lemma MaxPlusOk()
    ensures IsSemiring(MaxPlus()) && MaxPlus().one == Finite(0) && MaxPlus().zero == Infinite
    ensures forall x, y :: TakesGreater(MaxPlus(), x, y) && Adds(MaxPlus(), x, y)
  {
    forall x, y, z ensures Laws(MaxPlus(), x, y, z) { MaxPlusLaws(x, y, z); }
    hide Laws;
  }

  lemma MaxPlusLaws(x: Extended, y: Extended, z: Extended)
    ensures Laws(MaxPlus(), x, y, z)
  {
  }

  lemma MinPlusOk()
    ensures IsSemiring(MinPlus()) && MinPlus().one == Finite(0) && MinPlus().zero == Infinite
    ensures forall x, y :: TakesSmaller(MinPlus(), x, y) && Adds(MinPlus(), x, y)
  {
    forall x, y, z ensures Laws(MinPlus(), x, y, z) { MinPlusLaws(x, y, z); }
    hide Laws;
  }

  lemma MinPlusLaws(x: Extended, y: Extended, z: Extended)
    ensures Laws(MinPlus(), x, y, z)
  {
  }

  // ----- with a threshold -----

  function Cut(t: int, x: Extended): Extended {
    if x.Infinite? then Infinite else Finite(Min(x.value, t))
  }

  predicate UpTo(t: int, x: Extended) {
    x.Infinite? || 0 <= x.value <= t
  }

  function TropicalMaxPlus(t: int): Semiring<Extended> {
    Semiring(Finite(0), Infinite, (x, y) => ExtMax(x, y), (x, y) => Cut(t, ExtSum(x, y)), x => UpTo(t, x))
  }

  function TropicalMinPlus(t: int): Semiring<Extended> {
    Semiring(Finite(0), Infinite, (x, y) => ExtMin(x, y), (x, y) => Cut(t, ExtSum(x, y)), x => UpTo(t, x))
  }

  /** Cutting at the threshold commutes with the operations: the tropical semirings are images of the full ones. */
  lemma CutHomomorphism(t: int, x: Extended, y: Extended)
    requires t >= 0 && (x.Finite? ==> x.value >= 0) && (y.Finite? ==> y.value >= 0)
    ensures Cut(t, ExtSum(x, y)) == Cut(t, ExtSum(Cut(t, x), Cut(t, y)))
    ensures Cut(t, ExtMax(x, y)) == ExtMax(Cut(t, x), Cut(t, y)) && Cut(t, ExtMin(x, y)) == ExtMin(Cut(t, x), Cut(t, y))
    ensures UpTo(t, x) <==> Cut(t, x) == x
  {
  }

  lemma CutProducts(t: int, x: Extended, y: Extended, z: Extended)
    requires t >= 0 && UpTo(t, x) && UpTo(t, y) && UpTo(t, z)
    ensures Cut(t, ExtSum(Cut(t, ExtSum(x, y)), z)) == Cut(t, ExtSum(x, Cut(t, ExtSum(y, z))))
    ensures Cut(t, ExtSum(x, Finite(0))) == x == Cut(t, ExtSum(Finite(0), x)) && UpTo(t, Cut(t, ExtSum(x, y)))
    ensures Cut(t, ExtSum(x, Infinite)) == Infinite == Cut(t, ExtSum(Infinite, x))
    ensures ExtSum(x, z) == ExtSum(z, x) && ExtSum(y, z) == ExtSum(z, y)
  {
  }

  lemma CutMaxPlus(t: int, x: Extended, y: Extended, z: Extended)
    requires t >= 0 && UpTo(t, x) && UpTo(t, y) && UpTo(t, z)
    ensures Cut(t, ExtSum(x, ExtMax(y, z))) == ExtMax(Cut(t, ExtSum(x, y)), Cut(t, ExtSum(x, z)))
    ensures ExtSum(x, ExtMax(y, z)) == ExtSum(ExtMax(y, z), x) && UpTo(t, ExtMax(x, y))
  {
  }

  lemma CutMinPlus(t: int, x: Extended, y: Extended, z: Extended)
    requires t >= 0 && UpTo(t, x) && UpTo(t, y) && UpTo(t, z)
    ensures Cut(t, ExtSum(x, ExtMin(y, z))) == ExtMin(Cut(t, ExtSum(x, y)), Cut(t, ExtSum(x, z)))
    ensures ExtSum(x, ExtMin(y, z)) == ExtSum(ExtMin(y, z), x) && UpTo(t, ExtMin(x, y))
  {
  }

  lemma TropicalMaxPlusLaws(t: int, x: Extended, y: Extended, z: Extended)
    requires t >= 0 && UpTo(t, x) && UpTo(t, y) && UpTo(t, z)
    ensures Laws(TropicalMaxPlus(t), x, y, z)
  {
    hide Cut, ExtSum, ExtMax, UpTo;
    CutProducts(t, x, y, z);
    MaxPlusLaws(x, y, z);
    CutMaxPlus(t, x, y, z);
    CutMaxPlus(t, z, x, y);
  }

  /** The laws hold exactly for thresholds that are not negative. */
  lemma TropicalMaxPlusOk(t: int)
    ensures IsSemiring(TropicalMaxPlus(t)) <==> t >= 0
    ensures TropicalMaxPlus(t).one == Finite(0) && TropicalMaxPlus(t).zero == Infinite
    ensures forall x, y :: TakesGreater(TropicalMaxPlus(t), x, y) && AddsUpTo(TropicalMaxPlus(t), t, x, y)
    ensures forall x :: TropicalMaxPlus(t).has(x) <==> (x.Finite? ==> 0 <= x.value <= t)
  {
    var s := TropicalMaxPlus(t);
    assert s.has(s.one) <==> t >= 0;
    if t >= 0 {
      forall x, y, z | s.has(x) && s.has(y) && s.has(z) ensures Laws(s, x, y, z) { TropicalMaxPlusLaws(t, x, y, z); }
    }
    hide Laws;
  }

  lemma TropicalMinPlusLaws(t: int, x: Extended, y: Extended, z: Extended)
    requires t >= 0 && UpTo(t, x) && UpTo(t, y) && UpTo(t, z)
    ensures Laws(TropicalMinPlus(t), x, y, z)
  {
    hide Cut, ExtSum, ExtMin, UpTo;
    CutProducts(t, x, y, z);
    MinPlusLaws(x, y, z);
    CutMinPlus(t, x, y, z);
    CutMinPlus(t, z, x, y);
  }

  lemma TropicalMinPlusOk(t: int)
    ensures IsSemiring(TropicalMinPlus(t)) <==> t >= 0
    ensures TropicalMinPlus(t).one == Finite(0) && TropicalMinPlus(t).zero == Infinite
    ensures forall x, y :: TakesSmaller(TropicalMinPlus(t), x, y) && AddsUpTo(TropicalMinPlus(t), t, x, y)
    ensures forall x :: TropicalMinPlus(t).has(x) <==> (x.Finite? ==> 0 <= x.value <= t)
  {
    var s := TropicalMinPlus(t);
    assert s.has(s.one) <==> t >= 0;
    if t >= 0 {
      forall x, y, z | s.has(x) && s.has(y) && s.has(z) ensures Laws(s, x, y, z) { TropicalMinPlusLaws(t, x, y, z); }
    }
    hide Laws;
  }

  // ----- the naturals with threshold and period -----

  /** `thresholdperiod` (lines 374-380). */
  function ThresholdPeriod(t: nat, p: nat, x: nat): nat
    requires p > 0
  {
    if x > t then t + (x - t) % p else x
  }

  /** The numbers are identified: equal, or both from the threshold on and congruent. */
  ghost predicate Identified(t: nat, p: nat, x: nat, y: nat)
    requires p > 0
  {
    x == y || (x >= t && y >= t && (x - y) % p == 0)
  }

  lemma Multiple(d: int, p: nat) returns (q: int)
    requires p > 0 && d % p == 0
    ensures d == q * p
  {
    q := d / p;
    assert d == p * (d / p) + d % p;
  }

  lemma IsMultiple(q: int, p: nat)
    requires p > 0
    ensures (q * p) % p == 0
  {
    var d := q * p;
    assert d == p * (d / p) + d % p;
    assert p * (q - d / p) == p * q - p * (d / p);
    Between(q - d / p + 1, p, d % p, 0);
  }

  /** Remainders that differ by a multiple are equal. */
  lemma Between(q: int, p: nat, r: int, r': int)
    requires 0 <= r < p && 0 <= r' < p && p * (q - 1) == r - r'
    ensures q == 1 && r == r'
  {
    if q >= 2 {
      AtLeast(p, q - 1);
    } else if q <= 0 {
      AtLeast(p, 1 - q);
      Opposite(p, q - 1);
    }
  }

  lemma Opposite(p: int, k: int)
    ensures p * (-k) == -(p * k)
  {
  }

  lemma AtLeast(p: nat, k: int)
    requires k >= 1
    ensures p * k >= p
  {
  }

  lemma SameRemainder(a: int, b: int, p: nat)
    requires p > 0
    ensures a % p == b % p <==> (a - b) % p == 0
  {
    assert a == p * (a / p) + a % p && b == p * (b / p) + b % p;
    if a % p == b % p {
      assert a - b == (a / p - b / p) * p;
      IsMultiple(a / p - b / p, p);
    }
    if (a - b) % p == 0 {
      var q := Multiple(a - b, p);
      assert p * (q + b / p - a / p) == a % p - b % p;
      Between(q + b / p - a / p + 1, p, a % p, b % p);
    }
  }

  /** The value is in range, and identified with the argument. */
  lemma ThresholdPeriodOf(t: nat, p: nat, x: nat)
    requires p > 0
    ensures ThresholdPeriod(t, p, x) < t + p || (x == t == ThresholdPeriod(t, p, x) && p > 0)
    ensures ThresholdPeriod(t, p, x) <= t + p - 1
    ensures Identified(t, p, x, ThresholdPeriod(t, p, x))
    ensures x <= t + p - 1 ==> ThresholdPeriod(t, p, x) == x
  {
    if x > t {
      var r := (x - t) % p;
      assert x - t == p * ((x - t) / p) + r;
      assert x - (t + r) == ((x - t) / p) * p;
      IsMultiple((x - t) / p, p);
      if x <= t + p - 1 {
        Small(x - t, p);
      }
    }
  }

  lemma Small(d: nat, p: nat)
    requires d < p
    ensures d % p == d
  {
  }

  lemma IdentifiedSym(t: nat, p: nat, x: nat, y: nat)
    requires p > 0 && Identified(t, p, x, y)
    ensures Identified(t, p, y, x)
  {
    SameRemainder(x, y, p);
    SameRemainder(y, x, p);
  }

  lemma IdentifiedTrans(t: nat, p: nat, x: nat, y: nat, z: nat)
    requires p > 0 && Identified(t, p, x, y) && Identified(t, p, y, z)
    ensures Identified(t, p, x, z)
  {
    SameRemainder(x, y, p);
    SameRemainder(y, z, p);
    SameRemainder(x, z, p);
  }

  lemma IdentifiedSmall(t: nat, p: nat, x: nat, y: nat)
    requires p > 0 && Identified(t, p, x, y) && x <= t + p - 1 && y <= t + p - 1
    ensures x == y
  {
    if x != y {
      SameRemainder(x - t, y - t, p);
      Small(x - t, p);
      Small(y - t, p);
    }
  }

  /** `thresholdperiod` identifies exactly the identified numbers. */
  lemma ThresholdPeriodExact(t: nat, p: nat, x: nat, y: nat)
    requires p > 0
    ensures ThresholdPeriod(t, p, x) == ThresholdPeriod(t, p, y) <==> Identified(t, p, x, y)
  {
    var a, b := ThresholdPeriod(t, p, x), ThresholdPeriod(t, p, y);
    ThresholdPeriodOf(t, p, x);
    ThresholdPeriodOf(t, p, y);
    IdentifiedSym(t, p, x, a);
    IdentifiedSym(t, p, y, b);
    if Identified(t, p, x, y) {
      IdentifiedTrans(t, p, a, x, y);
      IdentifiedTrans(t, p, a, y, b);
      IdentifiedSmall(t, p, a, b);
    }
    if a == b {
      IdentifiedTrans(t, p, x, a, y);
    }
  }

  lemma IdentifiedSum(t: nat, p: nat, x: nat, y: nat, z: nat)
    requires p > 0 && Identified(t, p, x, y)
    ensures Identified(t, p, x + z, y + z)
  {
    assert (x + z) - (y + z) == x - y;
  }

  lemma IdentifiedProduct(t: nat, p: nat, x: nat, y: nat, z: nat)
    requires p > 0 && Identified(t, p, x, y)
    ensures Identified(t, p, x * z, y * z)
  {
    if x != y && z > 0 {
      AtLeast(x, z);
      AtLeast(y, z);
      var q := Multiple(x - y, p);
      assert x * z - y * z == (x - y) * z;
      assert (q * p) * z == (q * z) * p;
      IsMultiple(q * z, p);
    }
  }

  /** `thresholdperiod` is a homomorphism. */
  lemma ThresholdPeriodSum(t: nat, p: nat, x: nat, y: nat)
    requires p > 0
    ensures ThresholdPeriod(t, p, ThresholdPeriod(t, p, x) + ThresholdPeriod(t, p, y)) == ThresholdPeriod(t, p, x + y)
  {
    var a, b := ThresholdPeriod(t, p, x), ThresholdPeriod(t, p, y);
    ThresholdPeriodOf(t, p, x);
    ThresholdPeriodOf(t, p, y);
    IdentifiedSum(t, p, x, a, y);
    IdentifiedSum(t, p, y, b, a);
    assert a + y == y + a && a + b == b + a;
    IdentifiedTrans(t, p, x + y, a + y, a + b);
    ThresholdPeriodExact(t, p, x + y, a + b);
  }

  lemma ThresholdPeriodProduct(t: nat, p: nat, x: nat, y: nat)
    requires p > 0
    ensures ThresholdPeriod(t, p, ThresholdPeriod(t, p, x) * ThresholdPeriod(t, p, y)) == ThresholdPeriod(t, p, x * y)
  {
    var a, b := ThresholdPeriod(t, p, x), ThresholdPeriod(t, p, y);
    ThresholdPeriodOf(t, p, x);
    ThresholdPeriodOf(t, p, y);
    IdentifiedProduct(t, p, x, a, y);
    IdentifiedProduct(t, p, y, b, a);
    assert a * y == y * a && a * b == b * a;
    IdentifiedTrans(t, p, x * y, a * y, a * b);
    ThresholdPeriodExact(t, p, x * y, a * b);
  }

  function Natural(t: nat, p: nat): Semiring<nat>
    requires p > 0
  {
    Semiring(1, 0, (x: nat, y: nat) => ThresholdPeriod(t, p, x + y), (x: nat, y: nat) => ThresholdPeriod(t, p, x * y), (x: nat) => x <= t + p - 1)
  }

  lemma NaturalSums(t: nat, p: nat, x: nat, y: nat, z: nat)
    requires p > 0 && x <= t + p - 1 && y <= t + p - 1 && z <= t + p - 1
    ensures var s := Natural(t, p);
            s.has(s.plus(x, y)) && s.plus(x, y) == s.plus(y, x) && s.plus(s.plus(x, y), z) == s.plus(x, s.plus(y, z))
            && s.plus(0, x) == x == s.plus(x, 0)
  {
    hide ThresholdPeriod;
    ThresholdPeriodOf(t, p, x);
    ThresholdPeriodOf(t, p, z);
    ThresholdPeriodOf(t, p, x + y);
    ThresholdPeriodSum(t, p, x + y, z);
    ThresholdPeriodSum(t, p, x, y + z);
    assert (x + y) + z == x + (y + z);
  }

  lemma NonNegative(x: nat, y: nat)
    ensures x * y >= 0
  {
  }

  lemma NaturalProducts(t: nat, p: nat, x: nat, y: nat, z: nat)
    requires p > 0 && x <= t + p - 1 && y <= t + p - 1 && z <= t + p - 1
    ensures var s := Natural(t, p);
            s.has(s.prod(x, y)) && s.prod(s.prod(x, y), z) == s.prod(x, s.prod(y, z)) && s.prod(1, x) == x == s.prod(x, 1)
            && s.prod(0, x) == 0 == s.prod(x, 0)
  {
    hide ThresholdPeriod;
    NonNegative(x, y);
    NonNegative(y, z);
    NonNegative(ThresholdPeriod(t, p, x * y), z);
    NonNegative(x, ThresholdPeriod(t, p, y * z));
    NaturalTimes(t, p, x, y, z, x * y, y * z, ThresholdPeriod(t, p, x * y) * z, x * ThresholdPeriod(t, p, y * z));
    ThresholdPeriodOf(t, p, x);
    ThresholdPeriodOf(t, p, x * y);
    ThresholdPeriodOf(t, p, 0);
    assert 1 * x == x == x * 1 && 0 * x == 0 == x * 0;
  }

  lemma NaturalTimes(t: nat, p: nat, x: nat, y: nat, z: nat, xy: nat, yz: nat, left: nat, right: nat)
    requires p > 0 && x <= t + p - 1 && z <= t + p - 1 && xy == x * y && yz == y * z
    requires left == ThresholdPeriod(t, p, xy) * z && right == x * ThresholdPeriod(t, p, yz)
    ensures ThresholdPeriod(t, p, left) == ThresholdPeriod(t, p, right)
  {
    hide *;
    ThresholdPeriodOf(t, p, x);
    ThresholdPeriodOf(t, p, z);
    ThresholdPeriodProduct(t, p, xy, z);
    ThresholdPeriodProduct(t, p, x, yz);
    Product3(x, y, z);
  }

  lemma NaturalDistributes(t: nat, p: nat, x: nat, y: nat, z: nat)
    requires p > 0 && x <= t + p - 1 && y <= t + p - 1 && z <= t + p - 1
    ensures var s := Natural(t, p);
            s.prod(x, s.plus(y, z)) == s.plus(s.prod(x, y), s.prod(x, z)) && s.prod(s.plus(x, y), z) == s.plus(s.prod(x, z), s.prod(y, z))
  {
    hide ThresholdPeriod;
    NaturalLeft(t, p, x, y, z);
    NaturalLeft(t, p, z, x, y);
    assert z * x == x * z && z * y == y * z;
    var v := ThresholdPeriod(t, p, x + y);
    assert z * v == v * z;
  }

  lemma Distributes(x: int, y: int, z: int)
    ensures x * (y + z) == x * y + x * z
  {
  }

  lemma NaturalLeft(t: nat, p: nat, x: nat, y: nat, z: nat)
    requires p > 0 && x <= t + p - 1
    ensures ThresholdPeriod(t, p, x * ThresholdPeriod(t, p, y + z))
              == ThresholdPeriod(t, p, ThresholdPeriod(t, p, x * y) + ThresholdPeriod(t, p, x * z))
  {
    hide *;
    ThresholdPeriodOf(t, p, x);
    ThresholdPeriodProduct(t, p, x, y + z);
    ThresholdPeriodSum(t, p, x * y, x * z);
    Distributes(x, y, z);
  }

  /** Sums and products are numbers in range, identified with the sum and the product. */
  ghost predicate Reduces(t: nat, p: nat, x: nat, y: nat)
    requires p > 0
  {
    var s := Natural(t, p);
    && s.plus(x, y) < t + p && Identified(t, p, s.plus(x, y), x + y)
    && s.prod(x, y) < t + p && Identified(t, p, s.prod(x, y), x * y)
  }

  lemma NaturalReduces(t: nat, p: nat, x: nat, y: nat)
    requires p > 0
    ensures Reduces(t, p, x, y)
  {
    NonNegative(x, y);
    ThresholdPeriodOf(t, p, x + y);
    ThresholdPeriodOf(t, p, x * y);
    IdentifiedSym(t, p, x + y, ThresholdPeriod(t, p, x + y));
    IdentifiedSym(t, p, x * y, ThresholdPeriod(t, p, x * y));
    hide ThresholdPeriod, Identified;
  }

  /** All semiring laws hold exactly if there is room for the one. */
  lemma NaturalOk(t: nat, p: nat)
    requires p > 0
    ensures IsSemiring(Natural(t, p)) <==> t + p >= 2
    ensures Natural(t, p).one == 1 && Natural(t, p).zero == 0 && forall x: nat :: Natural(t, p).has(x) <==> x < t + p
    ensures forall x: nat, y: nat :: Reduces(t, p, x, y)
  {
    forall x: nat, y: nat ensures Reduces(t, p, x, y) { NaturalReduces(t, p, x, y); }
    hide Reduces;
    var s := Natural(t, p);
    assert s.has(s.one) <==> t + p >= 2;
    forall x, y, z | s.has(x) && s.has(y) && s.has(z) ensures Laws(s, x, y, z) {
      NaturalSums(t, p, x, y, z);
      NaturalProducts(t, p, x, y, z);
      NaturalDistributes(t, p, x, y, z);
    }
    hide Laws;
  }
}
