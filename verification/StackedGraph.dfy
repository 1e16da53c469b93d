/**
 * Two bipartitions of degree `n` stacked on top of each other.
 *
 * A bipartition is given by the block labels of its `2n` points, `n` at the top
 * and `n` at the bottom.  The stack has `3n` vertices; the bottom of `x` and the
 * top of `y` are the vertices from `n` to `2n`.
 */
module StackedGraph {

  ghost predicate Edge(n: nat, x: seq<nat>, y: seq<nat>, u: nat, v: nat)
    requires |x| == |y| == 2 * n
  {
    || (u < 2 * n && v < 2 * n && x[u] == x[v])
    || (n <= u < 3 * n && n <= v < 3 * n && y[u - n] == y[v - n])
  }

  ghost predicate Walk(n: nat, x: seq<nat>, y: seq<nat>, path: seq<nat>, u: nat, v: nat)
    requires |x| == |y| == 2 * n
  {
    && path != [] && path[0] == u && path[|path| - 1] == v
    && forall i :: 0 < i < |path| ==> Edge(n, x, y, path[i - 1], path[i])
  }

  ghost predicate Connected(n: nat, x: seq<nat>, y: seq<nat>, u: nat, v: nat)
    requires |x| == |y| == 2 * n
  {
    exists path :: Walk(n, x, y, path, u, v)
  }

  /** A labelling of the vertices that is constant on blocks. */
  ghost predicate Fits(n: nat, x: seq<nat>, y: seq<nat>, lab: seq<nat>)
    requires |x| == |y| == 2 * n
  {
    |lab| == 3 * n && forall u: nat, v: nat {:trigger Edge(n, x, y, u, v)} :: Edge(n, x, y, u, v) ==> lab[u] == lab[v]
  }

  lemma {:induction false} WalkFits(n: nat, x: seq<nat>, y: seq<nat>, path: seq<nat>, u: nat, v: nat, lab: seq<nat>)
    requires |x| == |y| == 2 * n && Walk(n, x, y, path, u, v) && Fits(n, x, y, lab) && u < 3 * n
    ensures v < 3 * n && lab[u] == lab[v]
    decreases |path|
  {
    if |path| > 1 {
      var w := path[|path| - 2];
      assert Edge(n, x, y, path[|path| - 2], path[|path| - 1]);
      WalkFits(n, x, y, path[..|path| - 1], u, w, lab);
    }
  }

  lemma WalkOn(n: nat, x: seq<nat>, y: seq<nat>, u: nat, v: nat, w: nat)
    requires |x| == |y| == 2 * n && Connected(n, x, y, u, v) && Edge(n, x, y, v, w)
    ensures Connected(n, x, y, u, w)
  {
    var path :| Walk(n, x, y, path, u, v);
    assert Walk(n, x, y, path + [w], u, w);
  }

  lemma Stay(n: nat, x: seq<nat>, y: seq<nat>, u: nat)
    requires |x| == |y| == 2 * n
    ensures Connected(n, x, y, u, u)
  {
    assert Walk(n, x, y, [u], u, u);
  }

  lemma EdgeBack(n: nat, x: seq<nat>, y: seq<nat>, u: nat, v: nat)
    requires |x| == |y| == 2 * n && Edge(n, x, y, u, v)
    ensures u < 3 * n && v < 3 * n && Edge(n, x, y, v, u)
  {
  }

  /** The labelling that marks what can be reached from `u`. */
  ghost function Reached(n: nat, x: seq<nat>, y: seq<nat>, u: nat): seq<nat>
    requires |x| == |y| == 2 * n
  {
    seq(3 * n, v requires 0 <= v < 3 * n => if Connected(n, x, y, u, v) then 1 else 0)
  }

  lemma ReachedFits(n: nat, x: seq<nat>, y: seq<nat>, u: nat)
    requires |x| == |y| == 2 * n
    ensures Fits(n, x, y, Reached(n, x, y, u))
  {
    hide Connected, Edge;
    forall v: nat, w: nat {:trigger Edge(n, x, y, v, w)} | Edge(n, x, y, v, w)
      ensures v < 3 * n && w < 3 * n && Reached(n, x, y, u)[v] == Reached(n, x, y, u)[w] {
      EdgeBack(n, x, y, v, w);
      if Connected(n, x, y, u, v) { WalkOn(n, x, y, u, v, w); }
      if Connected(n, x, y, u, w) { WalkOn(n, x, y, u, w, v); }
    }
  }

  /** Vertices are connected exactly when no labelling that is constant on blocks tells them apart. */
  lemma ConnectedIff(n: nat, x: seq<nat>, y: seq<nat>, u: nat, v: nat)
    requires |x| == |y| == 2 * n && u < 3 * n && v < 3 * n
    ensures Connected(n, x, y, u, v) <==> forall lab :: Fits(n, x, y, lab) ==> lab[u] == lab[v]
  {
    if Connected(n, x, y, u, v) {
      var path :| Walk(n, x, y, path, u, v);
      forall lab | Fits(n, x, y, lab) ensures lab[u] == lab[v] {
        WalkFits(n, x, y, path, u, v, lab);
      }
    }
    if forall lab :: Fits(n, x, y, lab) ==> lab[u] == lab[v] {
      ReachedFits(n, x, y, u);
      Stay(n, x, y, u);
      assert Reached(n, x, y, u)[u] == 1;
    }
  }

  // ----- products -----

  /** Where a point of the product is in the stack. */
  function Outer(n: nat, p: nat): nat {
    if p < n then p else p + n
  }

  /** Labels in the order of their first occurrence: every smaller label has occurred before. */
  ghost predicate RestrictedGrowth(z: seq<nat>) {
    forall i, c: nat :: 0 <= i < |z| && c < z[i] ==> c in z[..i]
  }

  ghost predicate SameBlocks(z: seq<nat>, w: seq<nat>) {
    |z| == |w| && forall p, q :: 0 <= p < |z| && 0 <= q < |z| ==> (z[p] == z[q] <==> w[p] == w[q])
  }

  lemma {:induction false} SamePrefix(z: seq<nat>, w: seq<nat>, k: nat)
    requires RestrictedGrowth(z) && RestrictedGrowth(w) && SameBlocks(z, w) && k <= |z|
    ensures z[..k] == w[..k]
  {
    if k > 0 {
      SamePrefix(z, w, k - 1);
      NotLess(z, w, k - 1);
      NotLess(w, z, k - 1);
      assert z[..k] == z[..k - 1] + [z[k - 1]] && w[..k] == w[..k - 1] + [w[k - 1]];
    }
  }

  lemma Elsewhere(w: seq<nat>, i: nat)
    requires i < |w|
    ensures w[i] in w[..i] ==> exists j :: 0 <= j < i && w[j] == w[i]
  {
  }

  lemma NotLess(z: seq<nat>, w: seq<nat>, i: nat)
    requires RestrictedGrowth(z) && SameBlocks(z, w) && i < |z| && z[..i] == w[..i]
    ensures w[i] >= z[i]
  {
    if w[i] < z[i] {
      Elsewhere(w, i);
    }
  }

  /** A labelling in first-occurrence order is determined by its blocks. */
  lemma SameBlocksEqual(z: seq<nat>, w: seq<nat>)
    requires RestrictedGrowth(z) && RestrictedGrowth(w) && SameBlocks(z, w)
    ensures z == w
  {
    SamePrefix(z, w, |z|);
    assert z[..|z|] == z && w[..|w|] == w;
  }

  /** Points are in the same block of `z` exactly when they are connected in the stack. */
  ghost predicate IsProduct(n: nat, x: seq<nat>, y: seq<nat>, z: seq<nat>)
    requires |x| == |y| == 2 * n
  {
    && |z| == 2 * n && RestrictedGrowth(z)
    && forall p, q :: 0 <= p < 2 * n && 0 <= q < 2 * n ==> (z[p] == z[q] <==> Connected(n, x, y, Outer(n, p), Outer(n, q)))
  }

  lemma ProductUnique(n: nat, x: seq<nat>, y: seq<nat>, z: seq<nat>, w: seq<nat>)
    requires |x| == |y| == 2 * n && IsProduct(n, x, y, z) && IsProduct(n, x, y, w)
    ensures z == w
  {
    hide Connected;
    SameBlocksEqual(z, w);
  }

  // ----- associativity -----

  /** A labelling of the outer points that is constant on the blocks of a product. */
  ghost predicate Constant(z: seq<nat>, m: seq<nat>) {
    |m| == |z| && forall p, q :: 0 <= p < |z| && 0 <= q < |z| && z[p] == z[q] ==> m[p] == m[q]
  }

  ghost predicate Restricts(n: nat, lab: seq<nat>, m: seq<nat>) {
    |lab| == 3 * n && |m| == 2 * n && forall p :: 0 <= p < 2 * n ==> m[p] == lab[Outer(n, p)]
  }

  /** A labelling of the stack is constant on the blocks of the product. */
  lemma Restrict(n: nat, x: seq<nat>, y: seq<nat>, z: seq<nat>, lab: seq<nat>, m: seq<nat>)
    requires |x| == |y| == 2 * n && IsProduct(n, x, y, z) && Fits(n, x, y, lab) && Restricts(n, lab, m)
    ensures Constant(z, m)
  {
    forall p, q | 0 <= p < |z| && 0 <= q < |z| && z[p] == z[q] ensures m[p] == m[q] {
      ConnectedIff(n, x, y, Outer(n, p), Outer(n, q));
      hide Connected, Fits;
    }
  }

  /** Some outer point is connected to the vertex. */
  ghost predicate Touches(n: nat, x: seq<nat>, y: seq<nat>, p: nat, v: nat)
    requires |x| == |y| == 2 * n
  {
    p < 2 * n && Connected(n, x, y, Outer(n, p), v)
  }

  ghost function Source(n: nat, x: seq<nat>, y: seq<nat>, v: nat): (p: nat)
    requires |x| == |y| == 2 * n && exists p: nat :: Touches(n, x, y, p, v)
    ensures Touches(n, x, y, p, v)
  {
    var p: nat :| Touches(n, x, y, p, v);
    p
  }

  /** The label that a vertex gets from an outer point connected to it. */
  ghost function FromOuter(n: nat, x: seq<nat>, y: seq<nat>, m: seq<nat>, v: nat): nat
    requires |x| == |y| == |m| == 2 * n
  {
    if exists p: nat :: Touches(n, x, y, p, v) then m[Source(n, x, y, v)] else 0
  }

  ghost function Extended(n: nat, x: seq<nat>, y: seq<nat>, m: seq<nat>): seq<nat>
    requires |x| == |y| == |m| == 2 * n
  {
    seq(3 * n, v requires 0 <= v < 3 * n => FromOuter(n, x, y, m, v))
  }

  lemma ConnectedTrans(n: nat, x: seq<nat>, y: seq<nat>, u: nat, v: nat, w: nat)
    requires |x| == |y| == 2 * n && u < 3 * n && v < 3 * n && w < 3 * n
    ensures Connected(n, x, y, u, v) ==> Connected(n, x, y, v, u)
    ensures Connected(n, x, y, u, v) && Connected(n, x, y, v, w) ==> Connected(n, x, y, u, w)
  {
    ConnectedIff(n, x, y, u, v);
    ConnectedIff(n, x, y, v, u);
    ConnectedIff(n, x, y, v, w);
    ConnectedIff(n, x, y, u, w);
    hide Connected, Fits;
  }

  lemma FromWhere(n: nat, x: seq<nat>, y: seq<nat>, m: seq<nat>, p: nat, v: nat) returns (q: nat)
    requires |x| == |y| == |m| == 2 * n && Touches(n, x, y, p, v)
    ensures q < 2 * n && Connected(n, x, y, Outer(n, q), v) && FromOuter(n, x, y, m, v) == m[q]
  {
    q := Source(n, x, y, v);
  }

  /** All outer points connected to a vertex carry the same label. */
  lemma FromOuterIs(n: nat, x: seq<nat>, y: seq<nat>, z: seq<nat>, m: seq<nat>, p: nat, v: nat)
    requires |x| == |y| == 2 * n && IsProduct(n, x, y, z) && Constant(z, m) && Touches(n, x, y, p, v) && v < 3 * n
    ensures FromOuter(n, x, y, m, v) == m[p]
  {
    ProductSize(n, x, y, z);
    var q := FromWhere(n, x, y, m, p, v);
    OuterBound(n, p);
    OuterBound(n, q);
    ConnectedTrans(n, x, y, Outer(n, q), v, Outer(n, p));
    ConnectedTrans(n, x, y, Outer(n, p), v, v);
    ConnectedTrans(n, x, y, v, Outer(n, p), v);
    hide Connected;
    assert Connected(n, x, y, Outer(n, q), Outer(n, p));
  }

  lemma FromOuterAlong(n: nat, x: seq<nat>, y: seq<nat>, z: seq<nat>, m: seq<nat>, v: nat, w: nat)
    requires |x| == |y| == 2 * n && IsProduct(n, x, y, z) && Constant(z, m) && Edge(n, x, y, v, w)
    ensures FromOuter(n, x, y, m, v) == FromOuter(n, x, y, m, w)
  {
    EdgeBack(n, x, y, v, w);
    hide Edge, IsProduct, Constant, Connected;
    forall p: nat ensures Touches(n, x, y, p, v) <==> Touches(n, x, y, p, w) {
      if Touches(n, x, y, p, v) { WalkOn(n, x, y, Outer(n, p), v, w); }
      if Touches(n, x, y, p, w) { WalkOn(n, x, y, Outer(n, p), w, v); }
    }
    if p: nat :| Touches(n, x, y, p, v) {
      FromOuterIs(n, x, y, z, m, p, v);
      FromOuterIs(n, x, y, z, m, p, w);
    }
  }

  /** A labelling constant on the blocks of the product comes from one of the stack. */
  lemma Extend(n: nat, x: seq<nat>, y: seq<nat>, z: seq<nat>, m: seq<nat>)
    requires |x| == |y| == 2 * n && IsProduct(n, x, y, z) && Constant(z, m)
    ensures |m| == 2 * n && Fits(n, x, y, Extended(n, x, y, m)) && Restricts(n, Extended(n, x, y, m), m)
  {
    ProductSize(n, x, y, z);
    ConstantSize(z, m);
    hide *;
    var lab := Extended(n, x, y, m);
    ExtendedAt(n, x, y, m);
    forall v: nat, w: nat {:trigger Edge(n, x, y, v, w)} | Edge(n, x, y, v, w) ensures v < 3 * n && w < 3 * n && lab[v] == lab[w] {
      EdgeBack(n, x, y, v, w);
      FromOuterAlong(n, x, y, z, m, v, w);
    }
    FitsNow(n, x, y, lab);
    forall p | 0 <= p < 2 * n ensures Outer(n, p) < 3 * n && m[p] == lab[Outer(n, p)] {
      OuterTouches(n, x, y, p);
      FromOuterIs(n, x, y, z, m, p, Outer(n, p));
    }
    RestrictsNow(n, lab, m);
  }

  lemma ProductSize(n: nat, x: seq<nat>, y: seq<nat>, z: seq<nat>)
    requires |x| == |y| == 2 * n && IsProduct(n, x, y, z)
    ensures |z| == 2 * n
  {
  }

  lemma ConstantSize(z: seq<nat>, m: seq<nat>)
    requires Constant(z, m)
    ensures |m| == |z|
  {
  }

  lemma ExtendedAt(n: nat, x: seq<nat>, y: seq<nat>, m: seq<nat>)
    requires |x| == |y| == |m| == 2 * n
    ensures |Extended(n, x, y, m)| == 3 * n && forall v :: 0 <= v < 3 * n ==> Extended(n, x, y, m)[v] == FromOuter(n, x, y, m, v)
  {
  }

  lemma FitsNow(n: nat, x: seq<nat>, y: seq<nat>, lab: seq<nat>)
    requires |x| == |y| == 2 * n && |lab| == 3 * n
    requires forall v: nat, w: nat {:trigger Edge(n, x, y, v, w)} :: Edge(n, x, y, v, w) ==> v < 3 * n && w < 3 * n && lab[v] == lab[w]
    ensures Fits(n, x, y, lab)
  {
  }

  lemma OuterBound(n: nat, p: nat)
    requires p < 2 * n
    ensures Outer(n, p) < 3 * n
  {
  }

  lemma OuterTouches(n: nat, x: seq<nat>, y: seq<nat>, p: nat)
    requires |x| == |y| == 2 * n && p < 2 * n
    ensures Outer(n, p) < 3 * n && Touches(n, x, y, p, Outer(n, p))
  {
    Stay(n, x, y, Outer(n, p));
  }

  lemma RestrictsNow(n: nat, lab: seq<nat>, m: seq<nat>)
    requires |lab| == 3 * n && |m| == 2 * n && forall p :: 0 <= p < 2 * n ==> Outer(n, p) < 3 * n && m[p] == lab[Outer(n, p)]
    ensures Restricts(n, lab, m)
  {
  }

  /** A labelling of four layers that is constant on the blocks of all three bipartitions. */
  ghost predicate Fits4(n: nat, x: seq<nat>, y: seq<nat>, z: seq<nat>, lab: seq<nat>) {
    |lab| == 4 * n && Constant(x, lab[..2 * n]) && Constant(y, lab[n..3 * n]) && Constant(z, lab[2 * n..])
  }

  function Outer4(n: nat, p: nat): nat {
    if p < n then p else p + 2 * n
  }

  /** Fitting the stack means being constant on both layers. */
  lemma FitsConstant(n: nat, x: seq<nat>, y: seq<nat>, lab: seq<nat>)
    requires |x| == |y| == 2 * n && |lab| == 3 * n
    ensures Fits(n, x, y, lab) <==> Constant(x, lab[..2 * n]) && Constant(y, lab[n..])
  {
    var top, bottom := lab[..2 * n], lab[n..];
    if Fits(n, x, y, lab) {
      forall p, q | 0 <= p < 2 * n && 0 <= q < 2 * n && x[p] == x[q] ensures top[p] == top[q] {
        assert Edge(n, x, y, p, q);
      }
      forall p, q | 0 <= p < 2 * n && 0 <= q < 2 * n && y[p] == y[q] ensures bottom[p] == bottom[q] {
        assert Edge(n, x, y, p + n, q + n);
      }
    }
    if Constant(x, top) && Constant(y, bottom) {
      forall u: nat, v: nat {:trigger Edge(n, x, y, u, v)} | Edge(n, x, y, u, v) ensures lab[u] == lab[v] {
        if u < 2 * n && v < 2 * n && x[u] == x[v] {
          assert top[u] == top[v];
        } else {
          assert bottom[u - n] == bottom[v - n];
        }
      }
    }
  }

  ghost predicate Agree4(n: nat, x: seq<nat>, y: seq<nat>, z: seq<nat>, p: nat, q: nat)
    requires p < 2 * n && q < 2 * n
  {
    forall lab :: Fits4(n, x, y, z, lab) ==> lab[Outer4(n, p)] == lab[Outer4(n, q)]
  }

  /** The layers of a labelling of three layers, the middle one taken out. */
  lemma OuterParts(n: nat, lab: seq<nat>, m: seq<nat>)
    requires |lab| == 3 * n && m == lab[..n] + lab[2 * n..]
    ensures Restricts(n, lab, m)
  {
  }

  lemma RestrictsParts(n: nat, lab: seq<nat>, m: seq<nat>)
    requires Restricts(n, lab, m)
    ensures m == lab[..n] + lab[2 * n..]
  {
  }

  /** Taking out the second of four layers. */
  lemma FromLeft(n: nat, x: seq<nat>, y: seq<nat>, z: seq<nat>, xy: seq<nat>, lab: seq<nat>)
    requires |x| == |y| == |z| == 2 * n && IsProduct(n, x, y, xy) && Fits4(n, x, y, z, lab)
    ensures |xy| == 2 * n && Fits(n, xy, z, lab[..n] + lab[2 * n..])
  {
    var upper, inner := lab[..3 * n], lab[..n] + lab[2 * n..];
    assert upper[..2 * n] == lab[..2 * n] && upper[n..] == lab[n..3 * n];
    FitsConstant(n, x, y, upper);
    assert inner[..2 * n] == upper[..n] + upper[2 * n..] && inner[n..] == lab[2 * n..];
    hide Fits, Constant;
    OuterParts(n, upper, inner[..2 * n]);
    Restrict(n, x, y, xy, upper, inner[..2 * n]);
    ProductSize(n, x, y, xy);
    FitsConstant(n, xy, z, inner);
  }

  /** Putting it back. */
  lemma ToLeft(n: nat, x: seq<nat>, y: seq<nat>, z: seq<nat>, xy: seq<nat>, m: seq<nat>) returns (lab: seq<nat>)
    requires |x| == |y| == |z| == |xy| == 2 * n && IsProduct(n, x, y, xy) && Fits(n, xy, z, m)
    ensures Fits4(n, x, y, z, lab) && m == lab[..n] + lab[2 * n..]
  {
    assert |m| == 3 * n;
    FitsConstant(n, xy, z, m);
    hide Fits, Constant, IsProduct;
    Extend(n, x, y, xy, m[..2 * n]);
    var upper := Extended(n, x, y, m[..2 * n]);
    ExtendedAt(n, x, y, m[..2 * n]);
    hide Extended;
    FitsConstant(n, x, y, upper);
    RestrictsParts(n, upper, m[..2 * n]);
    hide Restricts;
    lab := upper + m[2 * n..];
    assert lab[..2 * n] == upper[..2 * n] && lab[n..3 * n] == upper[n..];
    assert m[..2 * n][n..] == upper[2 * n..];
    assert lab[2 * n..] == upper[2 * n..] + m[2 * n..] == m[n..];
    assert lab[..n] + lab[2 * n..] == m;
  }

  /** Taking out the third of four layers. */
  lemma FromRight(n: nat, x: seq<nat>, y: seq<nat>, z: seq<nat>, yz: seq<nat>, lab: seq<nat>)
    requires |x| == |y| == |z| == 2 * n && IsProduct(n, y, z, yz) && Fits4(n, x, y, z, lab)
    ensures |yz| == 2 * n && Fits(n, x, yz, lab[..2 * n] + lab[3 * n..])
  {
    var lower, inner := lab[n..], lab[..2 * n] + lab[3 * n..];
    assert lower[..2 * n] == lab[n..3 * n] && lower[n..] == lab[2 * n..];
    FitsConstant(n, y, z, lower);
    assert inner[n..] == lower[..n] + lower[2 * n..] && inner[..2 * n] == lab[..2 * n];
    hide Fits, Constant;
    OuterParts(n, lower, inner[n..]);
    Restrict(n, y, z, yz, lower, inner[n..]);
    ProductSize(n, y, z, yz);
    FitsConstant(n, x, yz, inner);
  }

  lemma ToRight(n: nat, x: seq<nat>, y: seq<nat>, z: seq<nat>, yz: seq<nat>, m: seq<nat>) returns (lab: seq<nat>)
    requires |x| == |y| == |z| == |yz| == 2 * n && IsProduct(n, y, z, yz) && Fits(n, x, yz, m)
    ensures Fits4(n, x, y, z, lab) && m == lab[..2 * n] + lab[3 * n..]
  {
    assert |m| == 3 * n;
    FitsConstant(n, x, yz, m);
    hide Fits, Constant, IsProduct;
    Extend(n, y, z, yz, m[n..]);
    var lower := Extended(n, y, z, m[n..]);
    ExtendedAt(n, y, z, m[n..]);
    hide Extended;
    FitsConstant(n, y, z, lower);
    RestrictsParts(n, lower, m[n..]);
    hide Restricts;
    lab := m[..n] + lower;
    assert lab[n..] == lower && lab[n..3 * n] == lower[..2 * n] && lab[2 * n..] == lower[n..];
    assert m[n..][..n] == lower[..n];
    assert lab[..2 * n] == m[..n] + lower[..n] == m[..2 * n];
    assert lab[3 * n..] == lower[2 * n..] == m[2 * n..];
  }

  lemma LeftIndex(n: nat, lab: seq<nat>, p: nat)
    requires |lab| == 4 * n && p < 2 * n
    ensures Outer(n, p) < 3 * n && Outer4(n, p) < 4 * n && (lab[..n] + lab[2 * n..])[Outer(n, p)] == lab[Outer4(n, p)]
  {
  }

  lemma RightIndex(n: nat, lab: seq<nat>, p: nat)
    requires |lab| == 4 * n && p < 2 * n
    ensures Outer(n, p) < 3 * n && Outer4(n, p) < 4 * n && (lab[..2 * n] + lab[3 * n..])[Outer(n, p)] == lab[Outer4(n, p)]
  {
  }

  lemma LeftBlocks(n: nat, x: seq<nat>, y: seq<nat>, z: seq<nat>, xy: seq<nat>, w: seq<nat>, p: nat, q: nat)
    requires |x| == |y| == |z| == |xy| == 2 * n && IsProduct(n, x, y, xy) && IsProduct(n, xy, z, w) && p < 2 * n && q < 2 * n
    ensures |w| == 2 * n && (w[p] == w[q] <==> Agree4(n, x, y, z, p, q))
  {
    OuterBound(n, p);
    OuterBound(n, q);
    ConnectedIff(n, xy, z, Outer(n, p), Outer(n, q));
    ProductSize(n, xy, z, w);
    hide Fits, Fits4, Outer, Outer4;
    if w[p] == w[q] {
      forall lab | Fits4(n, x, y, z, lab) ensures |lab| == 4 * n && lab[Outer4(n, p)] == lab[Outer4(n, q)] {
        Fits4Size(n, x, y, z, lab);
        FromLeft(n, x, y, z, xy, lab);
        LeftIndex(n, lab, p);
        LeftIndex(n, lab, q);
      }
    }
    if Agree4(n, x, y, z, p, q) {
      forall m | Fits(n, xy, z, m) ensures |m| == 3 * n && m[Outer(n, p)] == m[Outer(n, q)] {
        var lab := ToLeft(n, x, y, z, xy, m);
        Fits4Size(n, x, y, z, lab);
        LeftIndex(n, lab, p);
        LeftIndex(n, lab, q);
      }
    }
  }

  lemma Fits4Size(n: nat, x: seq<nat>, y: seq<nat>, z: seq<nat>, lab: seq<nat>)
    requires Fits4(n, x, y, z, lab)
    ensures |lab| == 4 * n
  {
  }

  lemma RightBlocks(n: nat, x: seq<nat>, y: seq<nat>, z: seq<nat>, yz: seq<nat>, w: seq<nat>, p: nat, q: nat)
    requires |x| == |y| == |z| == |yz| == 2 * n && IsProduct(n, y, z, yz) && IsProduct(n, x, yz, w) && p < 2 * n && q < 2 * n
    ensures |w| == 2 * n && (w[p] == w[q] <==> Agree4(n, x, y, z, p, q))
  {
    OuterBound(n, p);
    OuterBound(n, q);
    ConnectedIff(n, x, yz, Outer(n, p), Outer(n, q));
    ProductSize(n, x, yz, w);
    hide Fits, Fits4, Outer, Outer4;
    if w[p] == w[q] {
      forall lab | Fits4(n, x, y, z, lab) ensures |lab| == 4 * n && lab[Outer4(n, p)] == lab[Outer4(n, q)] {
        Fits4Size(n, x, y, z, lab);
        FromRight(n, x, y, z, yz, lab);
        RightIndex(n, lab, p);
        RightIndex(n, lab, q);
      }
    }
    if Agree4(n, x, y, z, p, q) {
      forall m | Fits(n, x, yz, m) ensures |m| == 3 * n && m[Outer(n, p)] == m[Outer(n, q)] {
        var lab := ToRight(n, x, y, z, yz, m);
        Fits4Size(n, x, y, z, lab);
        RightIndex(n, lab, p);
        RightIndex(n, lab, q);
      }
    }
  }

  /** The product of bipartitions is associative. */
  lemma Associative(n: nat, x: seq<nat>, y: seq<nat>, z: seq<nat>, xy: seq<nat>, yz: seq<nat>, left: seq<nat>, right: seq<nat>)
    requires |x| == |y| == |z| == |xy| == |yz| == 2 * n
    requires IsProduct(n, x, y, xy) && IsProduct(n, y, z, yz) && IsProduct(n, xy, z, left) && IsProduct(n, x, yz, right)
    ensures left == right
  {
    hide Connected, Agree4;
    forall p, q | 0 <= p < 2 * n && 0 <= q < 2 * n ensures left[p] == left[q] <==> right[p] == right[q] {
      LeftBlocks(n, x, y, z, xy, left, p, q);
      RightBlocks(n, x, y, z, yz, right, p, q);
    }
    SameBlocksEqual(left, right);
  }

  // ----- the identity -----

  function Identity(n: nat): seq<nat> {
    seq(2 * n, i requires 0 <= i < 2 * n => if i < n then i else i - n)
  }

  lemma IdentityGrowth(n: nat)
    ensures RestrictedGrowth(Identity(n))
  {
    var z := Identity(n);
    forall i, c: nat | 0 <= i < |z| && c < z[i] ensures c in z[..i] {
      assert z[..i][c] == c;
    }
  }

  /** The labels of `x` on the stack of `x` and the identity. */
  function Below(n: nat, x: seq<nat>): seq<nat>
    requires |x| == 2 * n
  {
    x + x[n..]
  }

  lemma RightWalk(n: nat, x: seq<nat>, p: nat, q: nat)
    requires |x| == 2 * n && p < 2 * n && q < 2 * n && x[p] == x[q]
    ensures Connected(n, x, Identity(n), Outer(n, p), Outer(n, q))
  {
    var e := Identity(n);
    hide Connected;
    Stay(n, x, e, Outer(n, p));
    if p >= n { WalkOn(n, x, e, Outer(n, p), Outer(n, p), p); }
    WalkOn(n, x, e, Outer(n, p), p, q);
    if q >= n { WalkOn(n, x, e, Outer(n, p), q, Outer(n, q)); }
  }

  lemma LeftWalk(n: nat, x: seq<nat>, p: nat, q: nat)
    requires |x| == 2 * n && p < 2 * n && q < 2 * n && x[p] == x[q]
    ensures Connected(n, Identity(n), x, Outer(n, p), Outer(n, q))
  {
    var e := Identity(n);
    hide Connected;
    Stay(n, e, x, Outer(n, p));
    if p < n { WalkOn(n, e, x, Outer(n, p), Outer(n, p), p + n); }
    WalkOn(n, e, x, Outer(n, p), p + n, q + n);
    if q < n { WalkOn(n, e, x, Outer(n, p), q + n, q); }
  }

  lemma BelowFits(n: nat, x: seq<nat>)
    requires |x| == 2 * n
    ensures Fits(n, x, Identity(n), Below(n, x)) && |Below(n, x)| == 3 * n
    ensures forall p :: 0 <= p < 2 * n ==> Outer(n, p) < 3 * n && Below(n, x)[Outer(n, p)] == x[p]
  {
    var e, lab := Identity(n), Below(n, x);
    assert lab[..2 * n] == x && lab[n..] == x[n..] + x[n..];
    assert Constant(e, lab[n..]) && Constant(x, x);
    FitsConstant(n, x, e, lab);
    hide Fits, Constant, Identity;
  }

  lemma RightIdentity(n: nat, x: seq<nat>)
    requires |x| == 2 * n && RestrictedGrowth(x)
    ensures RestrictedGrowth(Identity(n)) && IsProduct(n, x, Identity(n), x)
  {
    IdentityGrowth(n);
    var e := Identity(n);
    var lab := Below(n, x);
    BelowFits(n, x);
    hide Fits, Constant, RestrictedGrowth, Connected, Identity, Below;
    forall p, q | 0 <= p < 2 * n && 0 <= q < 2 * n ensures Outer(n, p) < 3 * n && Outer(n, q) < 3 * n && (x[p] == x[q] <==> Connected(n, x, e, Outer(n, p), Outer(n, q))) {
      ConnectedIff(n, x, e, Outer(n, p), Outer(n, q));
      if x[p] == x[q] {
        RightWalk(n, x, p, q);
      }
    }
  }

  lemma LeftIdentity(n: nat, x: seq<nat>)
    requires |x| == 2 * n && RestrictedGrowth(x)
    ensures IsProduct(n, Identity(n), x, x)
  {
    var e := Identity(n);
    var lab := x[..n] + x;
    assert lab[..2 * n] == x[..n] + x[..n] && lab[n..] == x;
    assert Constant(e, lab[..2 * n]) && Constant(x, x);
    FitsConstant(n, e, x, lab);
    hide Fits, Constant, RestrictedGrowth, Connected, Identity;
    forall p, q | 0 <= p < 2 * n && 0 <= q < 2 * n ensures Outer(n, p) < 3 * n && Outer(n, q) < 3 * n && (x[p] == x[q] <==> Connected(n, e, x, Outer(n, p), Outer(n, q))) {
      ConnectedIff(n, e, x, Outer(n, p), Outer(n, q));
      assert lab[Outer(n, p)] == x[p] && lab[Outer(n, q)] == x[q];
      if x[p] == x[q] {
        LeftWalk(n, x, p, q);
      }
    }
  }
}
