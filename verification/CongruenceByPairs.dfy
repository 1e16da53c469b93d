/**
 * A congruence on a finite semigroup, found by multiplying pairs: the class `Congruence::P`.
 * Lines cited here are those of src/cong/p.h.
 */
module CongruenceByPairs {
  import opened Finite
  import opened Derivations
  import opened Evaluation
  import opened UnionFind
  import opened PairOrbit
  import opened PairClosure
  import opened KillFlag

  // ----- numbering the classes -----

  /** The number of a class: how many roots come before its root. */
  ghost function ClassNumber(t: seq<nat>, i: nat): nat
    requires Downward(t) && i < |t|
  {
    RootCount(t, Root(t, i))
  }

  lemma {:induction false} RootCountLess(t: seq<nat>, m: nat, n: nat)
    requires m < n <= |t| && t[m] == m
    ensures RootCount(t, m) < RootCount(t, n)
    decreases n
  {
    if m < n - 1 {
      RootCountLess(t, m, n - 1);
    }
  }

  /** Numbers are equal exactly within classes, and smaller than the number of classes. */
  lemma ClassNumberSame(t: seq<nat>, i: nat, j: nat)
    requires Downward(t) && i < |t| && j < |t|
    ensures ClassNumber(t, i) == ClassNumber(t, j) <==> SameClass(t, i, j)
    ensures ClassNumber(t, i) < RootCount(t, |t|)
  {
    var ri, rj := Root(t, i), Root(t, j);
    RootCountLess(t, ri, |t|);
    if ri < rj {
      RootCountLess(t, ri, rj);
    } else if rj < ri {
      RootCountLess(t, rj, ri);
    }
  }

  /** Classes are numbered in the order in which their first members appear. */
  lemma FirstSeen(t: seq<nat>, i: nat, j: nat)
    requires Downward(t) && i < |t| && j < |t| && Root(t, i) < Root(t, j)
    ensures ClassNumber(t, i) < ClassNumber(t, j)
  {
    RootCountLess(t, Root(t, i), Root(t, j));
  }

  lemma {:induction false} RootWithCount(t: seq<nat>, n: nat, c: nat) returns (r: nat)
    requires n <= |t| && c < RootCount(t, n)
    ensures r < n && t[r] == r && RootCount(t, r) == c
  {
    if t[n - 1] == n - 1 && RootCount(t, n - 1) == c {
      r := n - 1;
    } else {
      r := RootWithCount(t, n - 1, c);
    }
  }

  // ----- what is in `_class_lookup` -----

  /** The numbers of the classes of the first `n` indices. */
  ghost function Numbers(t: seq<nat>, n: nat): (s: seq<nat>)
    requires Downward(t) && n <= |t|
    ensures |s| == n
  {
    seq(n, i requires 0 <= i < n => ClassNumber(t, i))
  }

  ghost function Total(sizes: seq<nat>): nat {
    if sizes == [] then 0 else Total(sizes[..|sizes| - 1]) + sizes[|sizes| - 1]
  }

  ghost predicate Fit(t: seq<nat>, sizes: seq<nat>) {
    forall j :: 0 <= j < |sizes| ==> 0 < sizes[j] <= |t|
  }

  /** Numberings one after the other, of so many indices each. */
  ghost function Chunks(t: seq<nat>, sizes: seq<nat>): (s: seq<nat>)
    requires Downward(t) && Fit(t, sizes)
    ensures |s| == Total(sizes)
  {
    if sizes == [] then [] else Chunks(t, sizes[..|sizes| - 1]) + Numbers(t, sizes[|sizes| - 1])
  }

  /** The index whose class number is the entry `i`. */
  ghost function Position(sizes: seq<nat>, i: nat): (p: nat)
    requires i < Total(sizes)
    ensures p <= i
  {
    var before := sizes[..|sizes| - 1];
    if i < Total(before) then Position(before, i) else i - Total(before)
  }

  lemma {:induction false} ChunkAt(t: seq<nat>, sizes: seq<nat>, i: nat)
    requires Downward(t) && Fit(t, sizes) && i < Total(sizes)
    ensures Position(sizes, i) < |t| && Chunks(t, sizes)[i] == ClassNumber(t, Position(sizes, i))
  {
    var before := sizes[..|sizes| - 1];
    assert Fit(t, before);
    if i < Total(before) {
      ChunkAt(t, before, i);
    }
  }

  /** The first numbering is read at its own indices, and the entry after it belongs to index 0 again. */
  lemma {:induction false} FirstChunk(sizes: seq<nat>, i: nat)
    requires sizes != [] && (forall j :: 0 <= j < |sizes| ==> sizes[j] > 0) && i <= sizes[0] && i < Total(sizes)
    ensures Position(sizes, i) == if i < sizes[0] then i else 0
  {
    var before := sizes[..|sizes| - 1];
    if before != [] {
      FirstTotal(before);
      if i < Total(before) {
        FirstChunk(before, i);
      }
    } else {
      assert Total(before) == 0 && Total(sizes) == sizes[0];
    }
  }

  lemma {:induction false} FirstTotal(sizes: seq<nat>)
    requires sizes != []
    ensures Total(sizes) >= sizes[0]
  {
    if |sizes| > 1 {
      FirstTotal(sizes[..|sizes| - 1]);
    }
  }

  /** Earlier numberings were of the classes there still are: every index after the first numbering is alone in its class. */
  ghost predicate Settled(t: seq<nat>, sizes: seq<nat>) {
    Fit(t, sizes) && (sizes != [] ==> forall i :: sizes[0] <= i < |t| ==> t[i] == i)
  }

  lemma Appended(t: seq<nat>, sizes: seq<nat>, n: nat)
    requires Downward(t) && Fit(t, sizes) && 0 < n <= |t|
    ensures Fit(t, sizes + [n]) && Chunks(t, sizes + [n]) == Chunks(t, sizes) + Numbers(t, n) && Total(sizes + [n]) == Total(sizes) + n
  {
    assert (sizes + [n])[..|sizes|] == sizes;
  }

  lemma EarlierNumber(t: seq<nat>, sizes: seq<nat>, i: nat)
    requires Downward(t) && Settled(t, sizes) && sizes != [] && i < |t| && t[i] != i
    ensures Root(t, i) < sizes[0] <= Total(sizes) && Chunks(t, sizes)[Root(t, i)] == ClassNumber(t, i)
  {
    var r := Root(t, i);
    FirstTotal(sizes);
    FirstChunk(sizes, r);
    ChunkAt(t, sizes, r);
    RootIs(t, r);
  }

  /** The numbering at the end of a run (lines 212-228); it is appended to what is there. */
  method Renumber(t: seq<nat>, classes: seq<nat>, next: nat, ghost sizes: seq<nat>) returns (classes': seq<nat>, next': nat)
    requires Downward(t) && Settled(t, sizes) && classes == Chunks(t, sizes)
    ensures classes' == classes + Numbers(t, |t|)
    ensures next' == if |t| > 0 then RootCount(t, |t|) else next
  {
    classes', next' := classes, next;
    if |t| > 0 {
      var max: nat := 0;
      classes', next' := classes' + [0], 1;
      var i := 1;
      FirstNumber(t);
      hide *;
      while i < |t|
        invariant 1 <= i <= |t| && max < i && t[max] == max && next' == RootCount(t, i)
        invariant forall j :: max < j < i ==> t[j] != j
        invariant classes' == classes + Numbers(t, i)
      {
        var nr := FindRoot(t, i);
        NextNumber(t, i, max);
        if nr > max {
          classes', next', max := classes' + [next'], next' + 1, nr;
        } else {
          KnownNumber(t, classes, sizes, i);
          classes' := classes' + [classes'[nr]];
        }
        i := i + 1;
      }
    }
  }

  lemma FirstNumber(t: seq<nat>)
    requires Downward(t) && |t| > 0
    ensures t[0] == 0 && RootCount(t, 1) == 1 && Numbers(t, 1) == [0]
  {
    assert RootCount(t, 0) == 0 && Root(t, 0) == 0;
  }

  /** A root beyond the last one found so far has a new number; the others have the number of their root. */
  lemma NextNumber(t: seq<nat>, i: nat, max: nat)
    requires Downward(t) && max < i < |t| && t[max] == max && forall j :: max < j < i ==> t[j] != j
    ensures Root(t, i) > max <==> t[i] == i
    ensures t[i] == i ==> Root(t, i) == i
    ensures Numbers(t, i + 1) == Numbers(t, i) + [ClassNumber(t, i)]
    ensures RootCount(t, i + 1) == RootCount(t, i) + if t[i] == i then 1 else 0
    ensures t[i] == i ==> ClassNumber(t, i) == RootCount(t, i)
  {
  }

  /** The number of an earlier root is found where it is looked up. */
  lemma KnownNumber(t: seq<nat>, classes: seq<nat>, sizes: seq<nat>, i: nat)
    requires Downward(t) && Settled(t, sizes) && classes == Chunks(t, sizes) && i < |t| && t[i] != i
    ensures Root(t, i) < i && (classes + Numbers(t, i))[Root(t, i)] == ClassNumber(t, i)
  {
    hide *;
    RootBelow(t, i);
    if sizes != [] {
      EarlierNumber(t, sizes, i);
      ChunksSize(t, sizes);
    } else {
      NoChunks(t);
      OwnNumber(t, i);
      assert [] + Numbers(t, i) == Numbers(t, i);
    }
  }

  lemma ChunksSize(t: seq<nat>, sizes: seq<nat>)
    requires Downward(t) && Settled(t, sizes)
    ensures Fit(t, sizes) && |Chunks(t, sizes)| == Total(sizes)
  {
  }

  lemma OwnNumber(t: seq<nat>, i: nat)
    requires Downward(t) && i < |t| && Root(t, i) < i
    ensures Numbers(t, i)[Root(t, i)] == ClassNumber(t, i)
  {
    RootIs(t, Root(t, i));
  }

  lemma RootBelow(t: seq<nat>, i: nat)
    requires Downward(t) && i < |t| && t[i] != i
    ensures Root(t, i) < i
  {
  }

  lemma NoChunks(t: seq<nat>)
    requires Downward(t)
    ensures Chunks(t, []) == []
  {
  }

  // ----- counting the classes -----

  /** Pairwise unrelated members of `u` to one of which every member is related. */
  ghost predicate Representatives<E>(u: set<E>, o: Orbit<E>, reps: seq<E>)
    requires Downward(o.table)
  {
    && (forall i :: 0 <= i < |reps| ==> reps[i] in u)
    && (forall i, j :: 0 <= i < j < |reps| ==> !Related(o, reps[i], reps[j]))
    && (forall x :: x in u ==> RelatedToSome(o, x, reps))
  }

  ghost predicate RelatedToSome<E>(o: Orbit<E>, x: E, ys: seq<E>)
    requires Downward(o.table)
  {
    exists i :: 0 <= i < |ys| && Related(o, x, ys[i])
  }

  /** The roots below `n`, in order. */
  ghost function RootList(t: seq<nat>, n: nat): (s: seq<nat>)
    requires n <= |t|
    ensures |s| == RootCount(t, n)
    ensures forall i :: 0 <= i < |s| ==> s[i] < n && t[s[i]] == s[i]
    ensures forall i, j :: 0 <= i < j < |s| ==> s[i] < s[j]
  {
    if n == 0 then [] else RootList(t, n - 1) + (if t[n - 1] == n - 1 then [n - 1] else [])
  }

  lemma {:induction false} RootListed(t: seq<nat>, n: nat, r: nat)
    requires r < n <= |t| && t[r] == r
    ensures r in RootList(t, n)
  {
    if r < n - 1 {
      RootListed(t, n - 1, r);
    }
  }

  lemma {:induction false} Distinctly<E>(u: set<E>) returns (all: seq<E>)
    ensures |all| == |u| && (forall x :: x in u <==> x in all) && forall i, j :: 0 <= i < j < |all| ==> all[i] != all[j]
    decreases |u|
  {
    if u == {} {
      all := [];
    } else {
      var x :| x in u;
      all := Distinctly(u - {x});
      all := all + [x];
    }
  }

  ghost function AtRoots<E>(o: Orbit<E>, roots: seq<nat>): seq<E>
    requires forall i :: 0 <= i < |roots| ==> roots[i] < |o.elements|
  {
    seq(|roots|, i requires 0 <= i < |roots| => o.elements[roots[i]])
  }

  lemma IndexedSize<E>(u: set<E>, o: Orbit<E>)
    requires PlacesOk(u, o)
    ensures |Elements(o.elements)| == |o.elements| && Elements(o.elements) <= u
  {
    forall i, j | 0 <= i < j < |o.elements| ensures o.elements[i] != o.elements[j] {
      assert o.places[o.elements[i]] == i && o.places[o.elements[j]] == j;
    }
    ElementsSize(o.elements);
  }

  /** There are as many classes as roots, and one more for every element without an index. */
  lemma ClassesCounted<E>(u: set<E>, o: Orbit<E>) returns (reps: seq<E>)
    requires PlacesOk(u, o)
    ensures |reps| == |u| - |o.elements| + RootCount(o.table, |o.table|) && Representatives(u, o, reps)
  {
    IndexedSize(u, o);
    var rest := Distinctly(u - Elements(o.elements));
    var roots := RootList(o.table, |o.table|);
    reps := AtRoots(o, roots) + rest;
    RestOk(u, o, rest);
    hide PlacesOk, Related;
    forall i, j | 0 <= i < j < |reps| ensures !Related(o, reps[i], reps[j]) {
      RepsDiffer(u, o, roots, rest, i, j);
    }
    forall x | x in u ensures RelatedToSome(o, x, reps) {
      var i := RepOf(u, o, roots, rest, x);
    }
    forall i | 0 <= i < |reps| ensures reps[i] in u {
      if i < |roots| { RootIn(u, o, roots, i); } else { assert reps[i] in rest; }
    }
  }

  lemma RestOk<E>(u: set<E>, o: Orbit<E>, rest: seq<E>)
    requires forall x :: x in u - Elements(o.elements) <==> x in rest
    ensures (forall x :: x in rest ==> x !in o.elements && x in u) && (forall x :: x in u && x !in o.elements ==> x in rest)
  {
  }

  lemma RootIn<E>(u: set<E>, o: Orbit<E>, roots: seq<nat>, i: nat)
    requires PlacesOk(u, o) && i < |roots| && forall j :: 0 <= j < |roots| ==> roots[j] < |o.elements|
    ensures AtRoots(o, roots)[i] in u
  {
  }

  lemma InElements<E>(u: set<E>, o: Orbit<E>, x: E)
    requires PlacesOk(u, o) && x in o.places
    ensures x in o.elements
  {
    assert o.elements[o.places[x]] == x;
  }

  lemma RepsDiffer<E>(u: set<E>, o: Orbit<E>, roots: seq<nat>, rest: seq<E>, i: nat, j: nat)
    requires PlacesOk(u, o) && roots == RootList(o.table, |o.table|)
    requires (forall x :: x in rest ==> x !in o.elements) && (forall a, b :: 0 <= a < b < |rest| ==> rest[a] != rest[b])
    requires i < j < |roots| + |rest|
    ensures var reps := AtRoots(o, roots) + rest; !Related(o, reps[i], reps[j])
  {
    var reps := AtRoots(o, roots) + rest;
    if j < |roots| {
      assert roots[i] < roots[j];
      RootIs(o.table, roots[i]);
      RootIs(o.table, roots[j]);
    } else {
      assert reps[j] == rest[j - |roots|] && reps[j] in rest && reps[j] !in o.elements;
      if reps[j] in o.places {
        InElements(u, o, reps[j]);
      }
      if i < |roots| {
        assert reps[i] == o.elements[roots[i]] && reps[i] in o.elements;
      }
    }
  }

  lemma RepOf<E>(u: set<E>, o: Orbit<E>, roots: seq<nat>, rest: seq<E>, x: E) returns (i: nat)
    requires PlacesOk(u, o) && roots == RootList(o.table, |o.table|) && x in u
    requires x !in o.elements ==> x in rest
    ensures i < |roots| + |rest| && Related(o, x, (AtRoots(o, roots) + rest)[i])
  {
    if x in o.elements {
      var p :| 0 <= p < |o.elements| && o.elements[p] == x;
      assert o.places[o.elements[p]] == p;
      var r := Root(o.table, p);
      RootListed(o.table, |o.table|, r);
      i :| 0 <= i < |roots| && roots[i] == r;
      assert o.places[o.elements[r]] == r;
      RootIs(o.table, r);
    } else {
      var j :| 0 <= j < |rest| && rest[j] == x;
      i := |roots| + j;
    }
  }

  lemma RelatedEquivalence<E>(o: Orbit<E>, x: E, y: E, z: E)
    requires Downward(o.table)
    ensures Related(o, x, x) && (Related(o, x, y) ==> Related(o, y, x)) && (Related(o, x, y) && Related(o, y, z) ==> Related(o, x, z))
  {
  }

  /** Unrelated elements are related to different ones of the others, so there are no more of them. */
  lemma {:induction false} NoMore<E>(o: Orbit<E>, xs: seq<E>, ys: seq<E>)
    requires Downward(o.table) && (forall i, j :: 0 <= i < j < |xs| ==> !Related(o, xs[i], xs[j]))
    requires forall i :: 0 <= i < |xs| ==> RelatedToSome(o, xs[i], ys)
    ensures |xs| <= |ys|
    decreases |ys|
  {
    if xs != [] {
      var last := xs[|xs| - 1];
      assert RelatedToSome(o, last, ys);
      var j :| 0 <= j < |ys| && Related(o, last, ys[j]);
      var xs', ys' := xs[..|xs| - 1], ys[..j] + ys[j + 1..];
      hide Related;
      forall i | 0 <= i < |xs'| ensures RelatedToSome(o, xs'[i], ys') {
        assert xs'[i] == xs[i] && RelatedToSome(o, xs[i], ys);
        var h :| 0 <= h < |ys| && Related(o, xs[i], ys[h]);
        if h == j {
          RelatedEquivalence(o, last, ys[j], last);
          RelatedEquivalence(o, xs[i], ys[j], last);
        }
        assert ys'[if h < j then h else h - 1] == ys[h];
      }
      NoMore(o, xs', ys');
    }
  }

  /** The number of classes. */
  ghost predicate ClassCountIs<E(!new)>(u: set<E>, o: Orbit<E>, n: int)
    requires Downward(o.table)
  {
    exists reps :: |reps| == n && Representatives(u, o, reps)
  }

  lemma CountIs<E(!new)>(u: set<E>, o: Orbit<E>, n: int)
    requires PlacesOk(u, o)
    ensures ClassCountIs(u, o, n) <==> n == |u| - |o.elements| + RootCount(o.table, |o.table|)
  {
    var reps := ClassesCounted(u, o);
    hide Related, RelatedToSome;
    if ClassCountIs(u, o, n) {
      var others: seq<E> :| |others| == n && Representatives(u, o, others);
      NoMore(o, reps, others);
      NoMore(o, others, reps);
    }
  }

  // ----- the least congruence -----

  /** Every congruence that contains the generating pairs relates `x` and `y`. */
  ghost predicate Congruent<E(!new)>(g: Generators<E>, kind: Kind, u: set<E>, start: seq<(E, E)>, x: E, y: E) {
    forall r: E -> nat {:trigger IsCongruence(g, kind, u, r)} :: IsCongruence(g, kind, u, r) && Contains(r, start) ==> r(x) == r(y)
  }

  lemma RelatedSound<E(!new)>(g: Generators<E>, kind: Kind, u: set<E>, start: seq<(E, E)>, o: Orbit<E>, x: E, y: E)
    requires Searching(g, kind, u, start, o) && Related(o, x, y)
    ensures Congruent(g, kind, u, start, x, y)
  {
    hide Searching, Related, IsCongruence, Contains;
    forall r: E -> nat {:trigger IsCongruence(g, kind, u, r)} | IsCongruence(g, kind, u, r) && Contains(r, start) ensures r(x) == r(y) {
      RelatedLeast(g, kind, u, start, o, r, x, y);
    }
  }

  /** Once no pair is waiting, the classes found are those of the least congruence. */
  lemma RelatedExact<E(!new)>(g: Generators<E>, kind: Kind, u: set<E>, start: seq<(E, E)>, o: Orbit<E>, x: E, y: E)
    requires Searching(g, kind, u, start, o) && o.queue == [] && x in u && y in u
    requires forall j :: 0 <= j < |start| ==> start[j].0 in u && start[j].1 in u
    ensures Downward(o.table) && (Related(o, x, y) <==> Congruent(g, kind, u, start, x, y))
  {
    SearchBound(g, kind, u, start, o);
    var all := Listed(u);
    var r := (z: E) => Code(o, all, z);
    hide *;
    CodeCongruence(g, kind, u, start, o, all);
    if Related(o, x, y) {
      RelatedSound(g, kind, u, start, o, x, y);
    }
    if Congruent(g, kind, u, start, x, y) {
      CongruentAt(g, kind, u, start, r, x, y);
      CodeRelated(u, o, all, x, y);
    }
  }

  lemma CongruentAt<E(!new)>(g: Generators<E>, kind: Kind, u: set<E>, start: seq<(E, E)>, r: E -> nat, x: E, y: E)
    requires Congruent(g, kind, u, start, x, y) && IsCongruence(g, kind, u, r) && Contains(r, start)
    ensures r(x) == r(y)
  {
  }

  lemma CodeCongruence<E(!new)>(g: Generators<E>, kind: Kind, u: set<E>, start: seq<(E, E)>, o: Orbit<E>, all: seq<E>)
    requires Searching(g, kind, u, start, o) && o.queue == [] && PlacesOk(u, o) && Downward(o.table) && forall z :: z in u <==> z in all
    requires forall j :: 0 <= j < |start| ==> start[j].0 in u && start[j].1 in u
    ensures IsCongruence(g, kind, u, z => Code(o, all, z)) && Contains(z => Code(o, all, z), start)
  {
    hide *;
    var r := (z: E) => Code(o, all, z);
    forall x, y, a | x in u && y in u && 0 <= a < |g.gens| && r(x) == r(y)
      ensures kind != RightSided ==> r(g.mul(g.gens[a], x)) == r(g.mul(g.gens[a], y))
      ensures kind != LeftSided ==> r(g.mul(x, g.gens[a])) == r(g.mul(y, g.gens[a])) {
      CodeRelated(u, o, all, x, y);
      RelatedCongruence(g, kind, u, start, o, x, y, a);
      SearchUniverse(g, kind, u, start, o);
      ProductsIn(g, u, (x, y), a);
      CodeRelated(u, o, all, g.mul(g.gens[a], x), g.mul(g.gens[a], y));
      CodeRelated(u, o, all, g.mul(x, g.gens[a]), g.mul(y, g.gens[a]));
    }
    forall j | 0 <= j < |start| ensures r(start[j].0) == r(start[j].1) {
      StartRelated(g, kind, u, start, o, j);
      CodeRelated(u, o, all, start[j].0, start[j].1);
    }
    IsCongruenceNow(g, kind, u, start, r);
  }

  lemma IsCongruenceNow<E(!new)>(g: Generators<E>, kind: Kind, u: set<E>, start: seq<(E, E)>, r: E -> nat)
    requires forall x, y, a :: x in u && y in u && 0 <= a < |g.gens| && r(x) == r(y) ==>
      (kind != RightSided ==> r(g.mul(g.gens[a], x)) == r(g.mul(g.gens[a], y))) &&
      (kind != LeftSided ==> r(g.mul(x, g.gens[a])) == r(g.mul(y, g.gens[a])))
    requires forall j :: 0 <= j < |start| ==> r(start[j].0) == r(start[j].1)
    ensures IsCongruence(g, kind, u, r) && Contains(r, start)
  {
  }

  lemma SearchUniverse<E(!new)>(g: Generators<E>, kind: Kind, u: set<E>, start: seq<(E, E)>, o: Orbit<E>)
    requires Searching(g, kind, u, start, o)
    ensures InSemigroup(g, u)
  {
  }

  /** The least congruence has `n` classes on `u`. */
  ghost predicate CongruenceClasses<E(!new)>(g: Generators<E>, kind: Kind, u: set<E>, start: seq<(E, E)>, n: int) {
    exists reps :: |reps| == n && Transversal(g, kind, u, start, reps)
  }

  ghost predicate Transversal<E(!new)>(g: Generators<E>, kind: Kind, u: set<E>, start: seq<(E, E)>, reps: seq<E>) {
    && (forall i :: 0 <= i < |reps| ==> reps[i] in u)
    && (forall i, j :: 0 <= i < j < |reps| ==> !Congruent(g, kind, u, start, reps[i], reps[j]))
    && (forall x :: x in u ==> CongruentToSome(g, kind, u, start, x, reps))
  }

  ghost predicate CongruentToSome<E(!new)>(g: Generators<E>, kind: Kind, u: set<E>, start: seq<(E, E)>, x: E, ys: seq<E>) {
    exists i :: 0 <= i < |ys| && Congruent(g, kind, u, start, x, ys[i])
  }

  lemma SomeSame<E(!new)>(g: Generators<E>, kind: Kind, u: set<E>, start: seq<(E, E)>, o: Orbit<E>, x: E, ys: seq<E>)
    requires Downward(o.table) && forall i :: 0 <= i < |ys| ==> (Related(o, x, ys[i]) <==> Congruent(g, kind, u, start, x, ys[i]))
    ensures RelatedToSome(o, x, ys) <==> CongruentToSome(g, kind, u, start, x, ys)
  {
    hide Related, Congruent;
  }

  lemma TransversalSame<E(!new)>(g: Generators<E>, kind: Kind, u: set<E>, start: seq<(E, E)>, o: Orbit<E>, reps: seq<E>)
    requires Downward(o.table) && forall x, y :: x in u && y in u ==> (Related(o, x, y) <==> Congruent(g, kind, u, start, x, y))
    ensures Representatives(u, o, reps) <==> Transversal(g, kind, u, start, reps)
  {
    hide Related, Congruent, RelatedToSome, CongruentToSome;
    if forall i :: 0 <= i < |reps| ==> reps[i] in u {
      forall x | x in u ensures RelatedToSome(o, x, reps) <==> CongruentToSome(g, kind, u, start, x, reps) {
        SomeSame(g, kind, u, start, o, x, reps);
      }
    }
  }

  lemma CountExact<E(!new)>(g: Generators<E>, kind: Kind, u: set<E>, start: seq<(E, E)>, o: Orbit<E>, n: int)
    requires Searching(g, kind, u, start, o) && o.queue == [] && PlacesOk(u, o)
    requires forall j :: 0 <= j < |start| ==> start[j].0 in u && start[j].1 in u
    ensures CongruenceClasses(g, kind, u, start, n) <==> n == |u| - |o.elements| + RootCount(o.table, |o.table|)
  {
    CountIs(u, o, n);
    hide *;
    forall x, y | x in u && y in u ensures Related(o, x, y) <==> Congruent(g, kind, u, start, x, y) {
      RelatedExact(g, kind, u, start, o, x, y);
    }
    TableOk(u, o);
    forall reps ensures Representatives(u, o, reps) <==> Transversal(g, kind, u, start, reps) {
      TransversalSame(g, kind, u, start, o, reps);
    }
    SameCount(g, kind, u, start, o, n);
  }

  lemma TableOk<E>(u: set<E>, o: Orbit<E>)
    requires PlacesOk(u, o)
    ensures Downward(o.table)
  {
  }

  lemma SameCount<E(!new)>(g: Generators<E>, kind: Kind, u: set<E>, start: seq<(E, E)>, o: Orbit<E>, n: int)
    requires Downward(o.table) && forall reps :: Representatives(u, o, reps) <==> Transversal(g, kind, u, start, reps)
    ensures ClassCountIs(u, o, n) <==> CongruenceClasses(g, kind, u, start, n)
  {
    hide Representatives, Transversal;
    if ClassCountIs(u, o, n) {
      var reps: seq<E> :| |reps| == n && Representatives(u, o, reps);
      assert Transversal(g, kind, u, start, reps);
    }
    if CongruenceClasses(g, kind, u, start, n) {
      var reps: seq<E> :| |reps| == n && Transversal(g, kind, u, start, reps);
      assert Representatives(u, o, reps);
    }
  }

  // ----- the run -----

  const SIZE_MAX: nat := 0xFFFF_FFFF_FFFF_FFFF

  /** `Congruence::LIMIT_MAX`. */
  const LIMIT_MAX: nat := SIZE_MAX

  /** The number of turns that `--steps == 0` allows, which for 0 is the wrap-around value. */
  function Turns(steps: nat): nat {
    if steps == 0 then SIZE_MAX + 1 else steps
  }

  /** More turns than this are never needed: every pair is multiplied once. */
  ghost function WorkLeft<E>(u: set<E>, o: Orbit<E>): int {
    |AllPairs(u)| - |o.found| + |o.queue|
  }

  lemma SearchBound<E(!new)>(g: Generators<E>, kind: Kind, u: set<E>, start: seq<(E, E)>, o: Orbit<E>)
    requires Searching(g, kind, u, start, o)
    ensures |o.found| <= |AllPairs(u)| && PlacesOk(u, o) && PairsOk(o) && Generated(o) && Downward(o.table) && WorkLeft(u, o) >= 0
  {
    hide Generated, SoundPairs, Processed, StartKnown;
    FoundBound(u, o);
  }

  datatype Ending = Emptied | OutOfSteps | Stopped

  /** The main loop of `run` (lines 161-210), which is also stopped when too many pairs have been found. */
  method Search<E(==, !new)>(g: Generators<E>, kind: Kind, o: Orbit<E>, steps: nat, canKill: bool, ghost u: set<E>, ghost start: seq<(E, E)>)
    returns (o': Orbit<E>, ending: Ending)
    requires Searching(g, kind, u, start, o)
    ensures Searching(g, kind, u, start, o') && (ending == Emptied ==> o'.queue == []) && (ending == Stopped ==> canKill)
    ensures ending == OutOfSteps ==> WorkLeft(u, o') == WorkLeft(u, o) - Turns(steps)
    ensures (o.table != [] ==> o'.table != []) && (o.queue == [] ==> o' == o && ending == Emptied)
  {
    hide *;
    o', ending := o, Emptied;
    var left := Turns(steps);
    TurnsMany(steps);
    SearchBound(g, kind, u, start, o);
    while o'.queue != []
      invariant Searching(g, kind, u, start, o') && ending == Emptied && left > 0 && (o.table != [] ==> o'.table != []) && (o.queue == [] ==> o' == o)
      invariant WorkLeft(u, o') == WorkLeft(u, o) - (Turns(steps) - left) && WorkLeft(u, o') >= 0
      decreases WorkLeft(u, o')
    {
      ghost var before := o';
      o' := Turn(g, kind, o', u, start);
      TurnWork(u, before, o');
      SearchBound(g, kind, u, start, o');
      var killed := Killed(canKill);
      if killed {
        return o', Stopped;
      }
      left := left - 1;
      if left == 0 {
        return o', OutOfSteps;
      }
    }
  }

  lemma TurnsMany(steps: nat)
    ensures Turns(steps) > 0
  {
  }

  lemma TurnWork<E>(u: set<E>, o: Orbit<E>, o': Orbit<E>)
    requires |o'.queue| - |o.queue| + 1 == |o'.found| - |o.found|
    ensures WorkLeft(u, o') == WorkLeft(u, o) - 1
  {
  }

  // ----- the class -----

  datatype Answer = True | False | Unknown

  /** The class numbers, after what earlier stopped runs have left behind. */
  ghost predicate NumbersOk(t: seq<nat>, classes: seq<nat>, next: nat, sizes: seq<nat>)
    requires Downward(t)
  {
    Settled(t, sizes) && classes == Chunks(t, sizes) + Numbers(t, |t|) && next == RootCount(t, |t|)
  }

  /** Before the end: what stopped runs have left behind. */
  ghost predicate LeftBehind<E>(o: Orbit<E>, classes: seq<nat>, next: nat, sizes: seq<nat>)
    requires Downward(o.table)
  {
    Settled(o.table, sizes) && classes == Chunks(o.table, sizes) && (sizes != [] ==> o.queue == []) && (o.table == [] ==> next == 0)
  }

  /** What holds between calls; `o` includes the pairs that were thrown away at the end. */
  ghost predicate Stored<E(!new)>(g: Generators<E>, kind: Kind, u: set<E>, start: seq<(E, E)>, o: Orbit<E>, classes: seq<nat>, next: nat, sizes: seq<nat>, done: bool) {
    && Searching(g, kind, u, start, o) && (forall j :: 0 <= j < |start| ==> start[j].0 in u && start[j].1 in u) && Downward(o.table)
    && (if done then o.queue == [] && NumbersOk(o.table, classes, next, sizes) else LeftBehind(o, classes, next, sizes))
  }

  lemma {:induction false} RootCountGrow(t: seq<nat>, n: nat)
    requires n <= |t|
    ensures RootCount(t + [|t|], n) == RootCount(t, n)
  {
    if n > 0 {
      RootCountGrow(t, n - 1);
    }
  }

  lemma NumberGrow(t: seq<nat>, i: nat)
    requires Downward(t) && i < |t|
    ensures Downward(t + [|t|]) && ClassNumber(t + [|t|], i) == ClassNumber(t, i)
  {
    RootGrow(t, |t|, i);
    RootCountGrow(t, Root(t, i));
  }

  lemma NewNumber(t: seq<nat>)
    requires Downward(t)
    ensures Downward(t + [|t|]) && Numbers(t + [|t|], |t| + 1) == Numbers(t, |t|) + [RootCount(t, |t|)]
    ensures RootCount(t + [|t|], |t| + 1) == RootCount(t, |t|) + 1
  {
    hide *;
    var t' := t + [|t|];
    DownGrow(t);
    NewClass(t);
    var ns := Numbers(t', |t| + 1);
    NumberAt(t', |t| + 1, |t|);
    forall i | 0 <= i < |t| ensures ns[i] == Numbers(t, |t|)[i] {
      NumberGrow(t, i);
      NumberAt(t', |t| + 1, i);
      NumberAt(t, |t|, i);
    }
  }

  lemma NumberAt(t: seq<nat>, n: nat, i: nat)
    requires Downward(t) && i < n <= |t|
    ensures Numbers(t, n)[i] == ClassNumber(t, i)
  {
  }

  lemma NewClass(t: seq<nat>)
    requires Downward(t) && Downward(t + [|t|])
    ensures ClassNumber(t + [|t|], |t|) == RootCount(t, |t|) && RootCount(t + [|t|], |t| + 1) == RootCount(t, |t|) + 1
  {
    RootIs(t + [|t|], |t|);
    RootCountGrow(t, |t|);
  }

  lemma {:induction false} ChunksGrow(t: seq<nat>, sizes: seq<nat>)
    requires Downward(t) && Fit(t, sizes)
    ensures Downward(t + [|t|]) && Fit(t + [|t|], sizes) && Chunks(t + [|t|], sizes) == Chunks(t, sizes)
  {
    DownGrow(t);
    if sizes != [] {
      var n := sizes[|sizes| - 1];
      ChunksGrow(t, sizes[..|sizes| - 1]);
      forall i | 0 <= i < n ensures ClassNumber(t + [|t|], i) == ClassNumber(t, i) { NumberGrow(t, i); }
      assert Numbers(t + [|t|], n) == Numbers(t, n);
    }
  }

  lemma NumbersGrow(t: seq<nat>, classes: seq<nat>, next: nat, sizes: seq<nat>)
    requires Downward(t) && NumbersOk(t, classes, next, sizes)
    ensures Downward(t + [|t|]) && NumbersOk(t + [|t|], classes + [next], next + 1, sizes)
  {
    ChunksGrow(t, sizes);
    NewNumber(t);
    hide Chunks, Numbers;
  }

  lemma LeftBehindGrow<E>(o: Orbit<E>, classes: seq<nat>, next: nat, sizes: seq<nat>, x: E)
    requires Downward(o.table) && LeftBehind(o, classes, next, sizes)
    ensures Downward(AddIndex(o, x).table) && LeftBehind(AddIndex(o, x), classes, next, sizes)
  {
    ChunksGrow(o.table, sizes);
    hide Chunks;
  }

  /** An element gets an index in the middle of everything: nothing becomes related. */
  lemma SearchingGrow<E(!new)>(g: Generators<E>, kind: Kind, u: set<E>, start: seq<(E, E)>, o: Orbit<E>, x: E)
    requires Searching(g, kind, u, start, o) && x in u && x !in o.places
    ensures Searching(g, kind, u, start, AddIndex(o, x))
  {
    AddIndexOk(u, o, x);
    hide PlacesOk, PairsOk, Generated, SoundPairs, InSemigroup;
    var o' := AddIndex(o, x);
    forall p | p in o'.found ensures p in o'.queue || Multiplied(g, kind, o', p, |g.gens|) {
      if p !in o.queue {
        assert Multiplied(g, kind, o, p, |g.gens|);
        MultipliedSame(g, kind, o, o', p, |g.gens|);
      }
    }
    forall j | 0 <= j < |start| ensures Known(o', start[j].0, start[j].1) {
      assert Known(o, start[j].0, start[j].1);
    }
  }

  lemma MultipliedSame<E>(g: Generators<E>, kind: Kind, o: Orbit<E>, o': Orbit<E>, p: (E, E), n: nat)
    requires o'.found == o.found && Multiplied(g, kind, o, p, n)
    ensures Multiplied(g, kind, o', p, n)
  {
    assert forall x, y :: Known(o', x, y) <==> Known(o, x, y);
  }

  lemma RelatedGrow<E>(u: set<E>, o: Orbit<E>, z: E, x: E, y: E)
    requires PlacesOk(u, o) && z !in o.places
    ensures Downward(AddIndex(o, z).table) && (Related(AddIndex(o, z), x, y) <==> Related(o, x, y))
  {
    var o' := AddIndex(o, z);
    var n := |o.table|;
    DownGrow(o.table);
    RootIs(o'.table, n);
    if x in o.places { RootGrow(o.table, n, o.places[x]); }
    if y in o.places { RootGrow(o.table, n, o.places[y]); }
    assert o'.places[z] == n;
  }

  lemma StoredGrow<E(!new)>(g: Generators<E>, kind: Kind, u: set<E>, start: seq<(E, E)>, o: Orbit<E>, classes: seq<nat>, next: nat, sizes: seq<nat>, done: bool, x: E)
    requires Stored(g, kind, u, start, o, classes, next, sizes, done) && x in u && x !in o.places
    ensures var classes', next' := if done then classes + [next] else classes, if done then next + 1 else next;
            Stored(g, kind, u, start, AddIndex(o, x), classes', next', sizes, done)
  {
    SearchBound(g, kind, u, start, o);
    SearchingGrow(g, kind, u, start, o, x);
    if done {
      NumbersGrow(o.table, classes, next, sizes);
    } else {
      LeftBehindGrow(o, classes, next, sizes, x);
    }
    hide Searching, NumbersOk, LeftBehind;
  }

  // ----- a run stopped while numbering -----

  /**
   * One element, no generating pairs, one question before the first run, which is
   * stopped after the numbering, and a second run: there is one class, but
   * `nr_classes` says 1 - 2 + 1.
   */
  lemma StoppedWhileNumbering()
    ensures var g := Generators((x, y) => x && y, true, [true]);
            var o := Orbit(map[true := 0], [true], [0], {}, []);
            && Stored(g, TwoSided, {true}, [], o, [0], 1, [1], false) && Stored(g, TwoSided, {true}, [], o, [0, 0], 1, [1], true)
            && CongruenceClasses(g, TwoSided, {true}, [], 1) && !CongruenceClasses(g, TwoSided, {true}, [], |{true}| - |[0, 0]| + 1)
  {
    var g := Generators((x, y) => x && y, true, [true]);
    var o := Orbit(map[true := 0], [true], [0], {}, []);
    OneElement(g, o);
    OneNumber();
    OneStored(g, o);
    hide *;
    CountExact(g, TwoSided, {true}, [], o, 1);
    CountExact(g, TwoSided, {true}, [], o, 0);
  }

  lemma OneStored(g: Generators<bool>, o: Orbit<bool>)
    requires o == Orbit(map[true := 0], [true], [0], {}, []) && Searching(g, TwoSided, {true}, [], o)
    ensures Stored(g, TwoSided, {true}, [], o, [0], 1, [1], false) && Stored(g, TwoSided, {true}, [], o, [0, 0], 1, [1], true)
  {
    OneNumber();
    hide Searching, Chunks, Numbers, Settled;
  }

  lemma OneElement(g: Generators<bool>, o: Orbit<bool>)
    requires g == Generators((x, y) => x && y, true, [true]) && o == Orbit(map[true := 0], [true], [0], {}, [])
    ensures Searching(g, TwoSided, {true}, [], o) && PlacesOk({true}, o) && Downward(o.table)
  {
    forall lab: seq<nat> {:trigger Respects(lab, o.table)} | |lab| == |o.elements| ensures Respects(lab, o.table) <==> Agrees(lab, o) {
      assert Follows(lab, o.table, 0);
    }
    assert PlacesOk({true}, o) && PairsOk(o) && Generated(o);
    assert InSemigroup(g, {true});
    hide Generated, InSemigroup, PlacesOk;
  }

  lemma OneNumber()
    ensures Downward([0]) && Numbers([0], 1) == [0] && Settled([0], [1]) && Chunks([0], [1]) == [0] && Chunks([0], [1]) + Numbers([0], 1) == [0, 0]
    ensures RootCount([0], 1) == 1
  {
    var t := [0];
    assert Root(t, 0) == 0 && RootCount(t, 0) == 0;
    NoChunks(t);
    assert [1][..0] == [];
  }
}
