/**
 * When no pair is left to multiply, the pairs found generate the least congruence.
 * Lines cited here are those of src/cong/p.h.
 */
module PairClosure {
  import opened Finite
  import opened Derivations
  import opened Evaluation
  import opened UnionFind
  import opened PairOrbit

  ghost predicate OrbitOk<E>(u: set<E>, o: Orbit<E>) {
    PlacesOk(u, o) && PairsOk(o) && Generated(o)
  }

  /** `x` and `y` are in the same class; an element without index is alone. */
  ghost predicate Related<E>(o: Orbit<E>, x: E, y: E)
    requires Downward(o.table)
  {
    x == y || (x in o.places && y in o.places && o.places[x] < |o.table| && o.places[y] < |o.table| && SameClass(o.table, o.places[x], o.places[y]))
  }

  /** Equal labels are kept by multiplication with generators on the sides that `kind` asks for. */
  ghost predicate IsCongruence<E>(g: Generators<E>, kind: Kind, u: set<E>, r: E -> nat) {
    forall x, y, a :: x in u && y in u && 0 <= a < |g.gens| && r(x) == r(y) ==>
      (kind != RightSided ==> r(g.mul(g.gens[a], x)) == r(g.mul(g.gens[a], y))) &&
      (kind != LeftSided ==> r(g.mul(x, g.gens[a])) == r(g.mul(y, g.gens[a])))
  }

  ghost predicate Contains<E>(r: E -> nat, pairs: seq<(E, E)>) {
    forall j :: 0 <= j < |pairs| ==> r(pairs[j].0) == r(pairs[j].1)
  }

  ghost predicate Separates<E>(r: E -> nat, found: set<(E, E)>) {
    exists p :: p in found && r(p.0) != r(p.1)
  }

  /** Every congruence that contains the generating pairs contains the pairs found. */
  ghost predicate SoundPairs<E(!new)>(g: Generators<E>, kind: Kind, u: set<E>, start: seq<(E, E)>, found: set<(E, E)>) {
    forall r: E -> nat {:trigger IsCongruence(g, kind, u, r)} :: IsCongruence(g, kind, u, r) && Contains(r, start) ==> !Separates(r, found)
  }

  /** The products of a pair with the first `n` generators have been recorded. */
  ghost predicate Multiplied<E>(g: Generators<E>, kind: Kind, o: Orbit<E>, p: (E, E), n: nat) {
    forall a :: 0 <= a < n && a < |g.gens| ==>
      (kind != RightSided ==> Known(o, g.mul(g.gens[a], p.0), g.mul(g.gens[a], p.1))) &&
      (kind != LeftSided ==> Known(o, g.mul(p.0, g.gens[a]), g.mul(p.1, g.gens[a])))
  }

  /** Every pair found is waiting, or its products have been recorded. */
  ghost predicate Processed<E>(g: Generators<E>, kind: Kind, o: Orbit<E>) {
    forall p :: p in o.found ==> p in o.queue || Multiplied(g, kind, o, p, |g.gens|)
  }

  ghost predicate StartKnown<E>(o: Orbit<E>, start: seq<(E, E)>) {
    forall j :: 0 <= j < |start| ==> Known(o, start[j].0, start[j].1)
  }

  lemma KnownKept<E>(o: Orbit<E>, o': Orbit<E>, x: E, y: E)
    requires Extends(o, o') && Known(o, x, y)
    ensures Known(o', x, y)
  {
  }

  lemma MultipliedKept<E>(g: Generators<E>, kind: Kind, o: Orbit<E>, o': Orbit<E>, p: (E, E), n: nat)
    requires Extends(o, o') && Multiplied(g, kind, o, p, n)
    ensures Multiplied(g, kind, o', p, n)
  {
    hide Extends, Known;
    forall a | 0 <= a < n && a < |g.gens|
      ensures kind != RightSided ==> Known(o', g.mul(g.gens[a], p.0), g.mul(g.gens[a], p.1))
      ensures kind != LeftSided ==> Known(o', g.mul(p.0, g.gens[a]), g.mul(p.1, g.gens[a])) {
      if kind != RightSided { KnownKept(o, o', g.mul(g.gens[a], p.0), g.mul(g.gens[a], p.1)); }
      if kind != LeftSided { KnownKept(o, o', g.mul(p.0, g.gens[a]), g.mul(p.1, g.gens[a])); }
    }
  }

  lemma SoundPair<E(!new)>(g: Generators<E>, kind: Kind, u: set<E>, start: seq<(E, E)>, found: set<(E, E)>, found': set<(E, E)>, x: E, y: E)
    requires SoundPairs(g, kind, u, start, found) && found' <= found + {(x, y), (y, x)}
    requires forall r: E -> nat {:trigger IsCongruence(g, kind, u, r)} :: IsCongruence(g, kind, u, r) && Contains(r, start) ==> r(x) == r(y)
    ensures SoundPairs(g, kind, u, start, found')
  {
    forall r: E -> nat {:trigger IsCongruence(g, kind, u, r)} | IsCongruence(g, kind, u, r) && Contains(r, start) ensures !Separates(r, found') {
      if Separates(r, found') {
        SeparatesFewer(r, found, found', x, y);
      }
    }
  }

  lemma SeparatesFewer<E>(r: E -> nat, found: set<(E, E)>, found': set<(E, E)>, x: E, y: E)
    requires Separates(r, found') && found' <= found + {(x, y), (y, x)} && r(x) == r(y)
    ensures Separates(r, found)
  {
  }

  /** The product of a sound pair is sound. */
  lemma SoundProduct<E(!new)>(g: Generators<E>, kind: Kind, u: set<E>, start: seq<(E, E)>, found: set<(E, E)>, p: (E, E), a: nat)
    requires SoundPairs(g, kind, u, start, found) && p in found && p.0 in u && p.1 in u && a < |g.gens|
    ensures forall r: E -> nat {:trigger IsCongruence(g, kind, u, r)} :: IsCongruence(g, kind, u, r) && Contains(r, start) ==>
              (kind != RightSided ==> r(g.mul(g.gens[a], p.0)) == r(g.mul(g.gens[a], p.1))) &&
              (kind != LeftSided ==> r(g.mul(p.0, g.gens[a])) == r(g.mul(p.1, g.gens[a])))
  {
    hide Contains;
    forall r: E -> nat {:trigger IsCongruence(g, kind, u, r)} | IsCongruence(g, kind, u, r) && Contains(r, start)
      ensures kind != RightSided ==> r(g.mul(g.gens[a], p.0)) == r(g.mul(g.gens[a], p.1))
      ensures kind != LeftSided ==> r(g.mul(p.0, g.gens[a])) == r(g.mul(p.1, g.gens[a])) {
      assert !Separates(r, found);
      assert r(p.0) == r(p.1);
    }
  }

  /** What adding the products of one pair keeps. */
  ghost predicate Multiplying<E(!new)>(g: Generators<E>, kind: Kind, u: set<E>, start: seq<(E, E)>, o: Orbit<E>, o': Orbit<E>) {
    && OrbitOk(u, o') && Extends(o, o') && SoundPairs(g, kind, u, start, o'.found)
    && |o'.queue| - |o.queue| == |o'.found| - |o.found|
  }

  /** One product. */
  method AddProduct<E(==, !new)>(g: Generators<E>, kind: Kind, o: Orbit<E>, x: E, y: E, ghost u: set<E>, ghost start: seq<(E, E)>, ghost o0: Orbit<E>)
    returns (o': Orbit<E>)
    requires Multiplying(g, kind, u, start, o0, o) && x in u && y in u
    requires forall r: E -> nat {:trigger IsCongruence(g, kind, u, r)} :: IsCongruence(g, kind, u, r) && Contains(r, start) ==> r(x) == r(y)
    ensures Multiplying(g, kind, u, start, o0, o') && Extends(o, o') && Known(o', x, y)
  {
    hide PlacesOk, PairsOk, Generated, SoundPairs, Extends, Known, IsCongruence, Contains;
    o' := AddPair(o, x, y, u);
    SoundPair(g, kind, u, start, o.found, o'.found, x, y);
    ExtendsTrans(o0, o, o');
  }

  lemma PairIn<E>(u: set<E>, o: Orbit<E>, p: (E, E))
    requires PlacesOk(u, o) && PairsOk(o) && p in o.found
    ensures p.0 in u && p.1 in u
  {
    assert Normalized(o, p);
    assert o.elements[o.places[p.0]] == p.0 && o.elements[o.places[p.1]] == p.1;
  }

  lemma MultipliedMore<E>(g: Generators<E>, kind: Kind, o: Orbit<E>, p: (E, E), n: nat)
    requires Multiplied(g, kind, o, p, n) && n < |g.gens|
    requires kind != RightSided ==> Known(o, g.mul(g.gens[n], p.0), g.mul(g.gens[n], p.1))
    requires kind != LeftSided ==> Known(o, g.mul(p.0, g.gens[n]), g.mul(p.1, g.gens[n]))
    ensures Multiplied(g, kind, o, p, n + 1)
  {
    hide Known;
  }

  /** Lines 171-183: multiply a pair by all generators. */
  method AddMultiples<E(==, !new)>(g: Generators<E>, kind: Kind, o: Orbit<E>, p: (E, E), ghost u: set<E>, ghost start: seq<(E, E)>) returns (o': Orbit<E>)
    requires InSemigroup(g, u) && Multiplying(g, kind, u, start, o, o) && p in o.found
    ensures Multiplying(g, kind, u, start, o, o') && Multiplied(g, kind, o', p, |g.gens|)
  {
    hide *;
    o' := o;
    PairSound(g, kind, u, start, o, p);
    MultipliedNone(g, kind, o, p);
    var i := 0;
    while i < |g.gens|
      invariant i <= |g.gens| && Multiplying(g, kind, u, start, o, o') && Multiplied(g, kind, o', p, i)
    {
      var x := g.gens[i];
      SoundProduct(g, kind, u, start, o.found, p, i);
      ProductsIn(g, u, p, i);
      ghost var o1 := o';
      if kind == LeftSided || kind == TwoSided {
        o' := AddProduct(g, kind, o', g.mul(x, p.0), g.mul(x, p.1), u, start, o);
        MultipliedKept(g, kind, o1, o', p, i);
      }
      ghost var o2 := o';
      if kind == RightSided || kind == TwoSided {
        o' := AddProduct(g, kind, o', g.mul(p.0, x), g.mul(p.1, x), u, start, o);
        MultipliedKept(g, kind, o2, o', p, i);
        if kind == TwoSided { KnownKept(o2, o', g.mul(x, p.0), g.mul(x, p.1)); }
      }
      MultipliedMore(g, kind, o', p, i);
      i := i + 1;
    }
  }

  lemma PairSound<E(!new)>(g: Generators<E>, kind: Kind, u: set<E>, start: seq<(E, E)>, o: Orbit<E>, p: (E, E))
    requires Multiplying(g, kind, u, start, o, o) && p in o.found
    ensures p.0 in u && p.1 in u && SoundPairs(g, kind, u, start, o.found)
  {
    hide SoundPairs, Generated;
    PairIn(u, o, p);
  }

  lemma MultipliedNone<E>(g: Generators<E>, kind: Kind, o: Orbit<E>, p: (E, E))
    ensures Multiplied(g, kind, o, p, 0)
  {
  }

  lemma ProductsIn<E>(g: Generators<E>, u: set<E>, p: (E, E), a: nat)
    requires InSemigroup(g, u) && p.0 in u && p.1 in u && a < |g.gens|
    ensures g.mul(g.gens[a], p.0) in u && g.mul(g.gens[a], p.1) in u && g.mul(p.0, g.gens[a]) in u && g.mul(p.1, g.gens[a]) in u
  {
  }

  // ----- the queue -----

  /** What holds between two pairs. */
  ghost predicate Searching<E(!new)>(g: Generators<E>, kind: Kind, u: set<E>, start: seq<(E, E)>, o: Orbit<E>) {
    && InSemigroup(g, u) && OrbitOk(u, o) && SoundPairs(g, kind, u, start, o.found)
    && Processed(g, kind, o) && StartKnown(o, start)
  }

  ghost function AllPairs<E>(u: set<E>): set<(E, E)> {
    set x, y | x in u && y in u :: (x, y)
  }

  lemma FoundBound<E>(u: set<E>, o: Orbit<E>)
    requires PlacesOk(u, o) && PairsOk(o)
    ensures |o.found| <= |AllPairs(u)|
  {
    forall p | p in o.found ensures p in AllPairs(u) { PairIn(u, o, p); }
    SubsetSize(o.found, AllPairs(u));
  }

  /** One turn of the loop (lines 163-183). */
  method Turn<E(==, !new)>(g: Generators<E>, kind: Kind, o: Orbit<E>, ghost u: set<E>, ghost start: seq<(E, E)>) returns (o': Orbit<E>)
    requires Searching(g, kind, u, start, o) && o.queue != []
    ensures Searching(g, kind, u, start, o')
    ensures |o'.queue| - |o.queue| + 1 == |o'.found| - |o.found| && (o.table != [] ==> o'.table != [])
  {
    hide *;
    var current := o.queue[0];
    var popped := o.(queue := o.queue[1..]);
    TurnStart(g, kind, u, start, o);
    o' := AddMultiples(g, kind, popped, current, u, start);
    TurnEnd(g, kind, u, start, o, o');
  }

  lemma TurnStart<E(!new)>(g: Generators<E>, kind: Kind, u: set<E>, start: seq<(E, E)>, o: Orbit<E>)
    requires Searching(g, kind, u, start, o) && o.queue != []
    ensures var popped := o.(queue := o.queue[1..]);
            InSemigroup(g, u) && Multiplying(g, kind, u, start, popped, popped) && o.queue[0] in popped.found
  {
    var popped := o.(queue := o.queue[1..]);
    hide SoundPairs, InSemigroup, Processed;
    assert Generated(popped) by {
      hide PlacesOk, PairsOk;
      forall lab: seq<nat> {:trigger Respects(lab, popped.table)} | |lab| == |popped.elements| ensures Respects(lab, popped.table) <==> Agrees(lab, popped) {
        assert Agrees(lab, popped) <==> Agrees(lab, o);
      }
    }
    ExtendsRefl(popped);
  }

  lemma TurnEnd<E(!new)>(g: Generators<E>, kind: Kind, u: set<E>, start: seq<(E, E)>, o: Orbit<E>, o': Orbit<E>)
    requires Searching(g, kind, u, start, o) && o.queue != []
    requires var popped := o.(queue := o.queue[1..]); Multiplying(g, kind, u, start, popped, o') && Multiplied(g, kind, o', o.queue[0], |g.gens|)
    ensures Searching(g, kind, u, start, o')
    ensures |o'.queue| - |o.queue| + 1 == |o'.found| - |o.found| && (o.table != [] ==> o'.table != [])
  {
    var popped := o.(queue := o.queue[1..]);
    assert Extends(popped, o');
    StillThere(u, o, o');
    forall p | p in o'.found ensures p in o'.queue || Multiplied(g, kind, o', p, |g.gens|) {
      TurnProcessed(g, kind, o, o', p);
    }
    forall j | 0 <= j < |start| ensures Known(o', start[j].0, start[j].1) {
      assert Known(o, start[j].0, start[j].1);
      KnownKept(popped, o', start[j].0, start[j].1);
    }
    hide InSemigroup, OrbitOk, SoundPairs, Extends, Known, Multiplied;
  }

  lemma StillThere<E>(u: set<E>, o: Orbit<E>, o': Orbit<E>)
    requires PlacesOk(u, o) && PlacesOk(u, o') && o.queue != [] && Extends(o.(queue := o.queue[1..]), o')
    ensures o.table != [] ==> o'.table != []
  {
    if o.table != [] {
      assert o.elements[0] in o.places;
      assert o.elements[0] in o'.places;
    }
  }

  lemma TurnProcessed<E>(g: Generators<E>, kind: Kind, o: Orbit<E>, o': Orbit<E>, p: (E, E))
    requires o.queue != [] && Processed(g, kind, o) && Extends(o.(queue := o.queue[1..]), o') && Multiplied(g, kind, o', o.queue[0], |g.gens|)
    requires p in o'.found
    ensures p in o'.queue || Multiplied(g, kind, o', p, |g.gens|)
  {
    var popped := o.(queue := o.queue[1..]);
    if p in o.found {
      if p in o.queue {
        var j :| 0 <= j < |o.queue| && o.queue[j] == p;
        if j > 0 {
          assert popped.queue[j - 1] == p && o'.queue[..|popped.queue|][j - 1] == p;
          assert o'.queue[j - 1] == p;
        }
      } else {
        assert Multiplied(g, kind, popped, p, |g.gens|);
        MultipliedKept(g, kind, popped, o', p, |g.gens|);
      }
    } else {
      var j :| 0 <= j < |o'.queue[|popped.queue|..]| && o'.queue[|popped.queue|..][j] == p;
      assert o'.queue[|popped.queue| + j] == p;
    }
  }

  // ----- the least congruence -----

  /** A code that is the same exactly for related elements: the root, or a number of its own. */
  ghost function Code<E>(o: Orbit<E>, all: seq<E>, x: E): nat
    requires Downward(o.table)
  {
    if x in o.places && o.places[x] < |o.table| then Root(o.table, o.places[x]) else |o.table| + IndexIn(all, x)
  }

  ghost function IndexIn<E>(all: seq<E>, x: E): (i: nat)
    ensures x in all ==> i < |all| && all[i] == x
  {
    if all == [] then 0 else if all[|all| - 1] == x then |all| - 1 else IndexIn(all[..|all| - 1], x)
  }

  lemma CodeRelated<E>(u: set<E>, o: Orbit<E>, all: seq<E>, x: E, y: E)
    requires PlacesOk(u, o) && x in all && y in all
    ensures Code(o, all, x) == Code(o, all, y) <==> Related(o, x, y)
  {
  }

  lemma {:induction false} Listed<E>(u: set<E>) returns (all: seq<E>)
    ensures forall x :: x in u <==> x in all
    decreases |u|
  {
    if u == {} {
      all := [];
    } else {
      var x :| x in u;
      all := Listed(u - {x});
      all := all + [x];
    }
  }

  /** Pairs that have been found are related. */
  lemma KnownRelated<E>(u: set<E>, o: Orbit<E>, x: E, y: E)
    requires OrbitOk(u, o) && Known(o, x, y)
    ensures Related(o, x, y)
  {
    if x != y {
      RootsRespect(o.table);
      assert Agrees(Roots(o.table), o);
      var p := if (x, y) in o.found then (x, y) else (y, x);
      assert Normalized(o, p);
    }
  }

  /** The tag of every indexed element. */
  ghost function Labels<E>(o: Orbit<E>, tag: E -> nat): seq<nat> {
    seq(|o.elements|, i requires 0 <= i < |o.elements| => tag(o.elements[i]))
  }

  /** If a labelling agrees on the pairs found it agrees on related elements. */
  lemma AgreeRelated<E>(u: set<E>, o: Orbit<E>, tag: E -> nat, x: E, y: E)
    requires OrbitOk(u, o) && Related(o, x, y)
    requires forall p :: p in o.found ==> tag(p.0) == tag(p.1)
    ensures tag(x) == tag(y)
  {
    if x != y {
      var lab := Labels(o, tag);
      AgreeLabels(u, o, tag);
      assert Respects(lab, o.table) <==> Agrees(lab, o);
      hide Generated, Agrees;
      RespectsRoot(lab, o.table, o.places[x]);
      RespectsRoot(lab, o.table, o.places[y]);
    }
  }

  lemma AgreeLabels<E>(u: set<E>, o: Orbit<E>, tag: E -> nat)
    requires PlacesOk(u, o) && PairsOk(o) && forall p :: p in o.found ==> tag(p.0) == tag(p.1)
    ensures Agrees(Labels(o, tag), o)
  {
    forall p | p in o.found && p.0 in o.places && p.1 in o.places
      ensures o.places[p.0] < |o.elements| && o.places[p.1] < |o.elements| && Labels(o, tag)[o.places[p.0]] == Labels(o, tag)[o.places[p.1]] {
      assert o.elements[o.places[p.0]] == p.0 && o.elements[o.places[p.1]] == p.1;
    }
  }

  /** The relation found is contained in every congruence that contains the generating pairs. */
  lemma RelatedLeast<E(!new)>(g: Generators<E>, kind: Kind, u: set<E>, start: seq<(E, E)>, o: Orbit<E>, r: E -> nat, x: E, y: E)
    requires Searching(g, kind, u, start, o) && IsCongruence(g, kind, u, r) && Contains(r, start) && Related(o, x, y)
    ensures r(x) == r(y)
  {
    assert !Separates(r, o.found);
    hide SoundPairs, IsCongruence, Contains, Processed, InSemigroup;
    AgreeRelated(u, o, r, x, y);
  }

  /** Once no pair is waiting it contains the generating pairs and is closed under multiplication, on the sides asked for. */
  lemma RelatedCongruence<E(!new)>(g: Generators<E>, kind: Kind, u: set<E>, start: seq<(E, E)>, o: Orbit<E>, x: E, y: E, a: nat)
    requires Searching(g, kind, u, start, o) && o.queue == [] && x in u && y in u && Related(o, x, y) && a < |g.gens|
    ensures kind != RightSided ==> Related(o, g.mul(g.gens[a], x), g.mul(g.gens[a], y))
    ensures kind != LeftSided ==> Related(o, g.mul(x, g.gens[a]), g.mul(y, g.gens[a]))
  {
    var all := Listed(u);
    ProductsIn(g, u, (x, y), a);
    hide SoundPairs, StartKnown, Generated, PlacesOk, PairsOk;
    if kind != RightSided {
      ClosedUnder(g, kind, u, o, all, z => g.mul(g.gens[a], z), x, y) by {
        forall p | p in o.found ensures p.0 in u && p.1 in u && Known(o, g.mul(g.gens[a], p.0), g.mul(g.gens[a], p.1)) {
          PairIn(u, o, p);
          assert Multiplied(g, kind, o, p, |g.gens|);
        }
      }
    }
    if kind != LeftSided {
      ClosedUnder(g, kind, u, o, all, z => g.mul(z, g.gens[a]), x, y) by {
        forall p | p in o.found ensures p.0 in u && p.1 in u && Known(o, g.mul(p.0, g.gens[a]), g.mul(p.1, g.gens[a])) {
          PairIn(u, o, p);
          assert Multiplied(g, kind, o, p, |g.gens|);
        }
      }
    }
  }

  /** Closure under one map, if it takes found pairs to known pairs. */
  lemma ClosedUnder<E>(g: Generators<E>, kind: Kind, u: set<E>, o: Orbit<E>, all: seq<E>, f: E -> E, x: E, y: E)
    requires OrbitOk(u, o) && x in u && y in u && Related(o, x, y) && (forall z :: z in u ==> f(z) in u) && (forall z :: z in u ==> z in all)
    requires forall p :: p in o.found ==> p.0 in u && p.1 in u && Known(o, f(p.0), f(p.1))
    ensures Related(o, f(x), f(y))
  {
    forall p | p in o.found ensures Code(o, all, f(p.0)) == Code(o, all, f(p.1)) {
      KnownRelated(u, o, f(p.0), f(p.1));
      CodeRelated(u, o, all, f(p.0), f(p.1));
    }
    hide Code, Generated;
    var tag := (z: E) => Code(o, all, f(z));
    AgreeRelated(u, o, tag, x, y);
    CodeRelated(u, o, all, f(x), f(y));
  }

  lemma StartRelated<E(!new)>(g: Generators<E>, kind: Kind, u: set<E>, start: seq<(E, E)>, o: Orbit<E>, j: nat)
    requires Searching(g, kind, u, start, o) && j < |start|
    ensures Related(o, start[j].0, start[j].1)
  {
    assert Known(o, start[j].0, start[j].1);
    hide SoundPairs, Processed, Generated;
    KnownRelated(u, o, start[j].0, start[j].1);
  }
}
