/**
 * Bipartitions and their product: the class `Bipartition`.
 * Lines cited here are those of src/elements.cc.
 */
module Bipartitions {
  import opened UnionFind
  import opened StackedGraph

  const UNDEFINED: int := -1

  /** All labels are smaller than `k`. */
  ghost predicate LabelsBelow(x: seq<nat>, k: nat) {
    forall p :: 0 <= p < |x| ==> x[p] < k
  }

  // ----- blocks glued together -----

  /** A labelling of the blocks of `x` and then those of `y` that agrees where the first `t` points of the middle layer meet. */
  ghost predicate Glued(n: nat, x: seq<nat>, y: seq<nat>, nrx: nat, lab: seq<nat>, t: nat) {
    && |x| == |y| == 2 * n && t <= n && nrx <= |lab| && LabelsBelow(x, nrx) && LabelsBelow(y, |lab| - nrx)
    && forall i :: 0 <= i < t ==> lab[x[i + n]] == lab[y[i] + nrx]
  }

  /** The block of a vertex of the stack. */
  function BlockAt(n: nat, x: seq<nat>, y: seq<nat>, nrx: nat, v: nat): nat
    requires |x| == |y| == 2 * n && v < 3 * n
  {
    if v < 2 * n then x[v] else y[v - n] + nrx
  }

  /** The labels that the vertices get from their blocks. */
  function Spread(n: nat, x: seq<nat>, y: seq<nat>, nrx: nat, lab: seq<nat>): seq<nat>
    requires |x| == |y| == 2 * n && nrx <= |lab| && LabelsBelow(x, nrx) && LabelsBelow(y, |lab| - nrx)
  {
    seq(3 * n, v requires 0 <= v < 3 * n => lab[BlockAt(n, x, y, nrx, v)])
  }

  lemma SpreadFits(n: nat, x: seq<nat>, y: seq<nat>, nrx: nat, lab: seq<nat>)
    requires Glued(n, x, y, nrx, lab, n)
    ensures Fits(n, x, y, Spread(n, x, y, nrx, lab))
  {
    var l := Spread(n, x, y, nrx, lab);
    forall p, q | 0 <= p < 2 * n && 0 <= q < 2 * n && y[p] == y[q] ensures l[n..][p] == l[n..][q] {
      assert p < n ==> lab[x[p + n]] == lab[y[p] + nrx];
      assert q < n ==> lab[x[q + n]] == lab[y[q] + nrx];
    }
    assert Constant(x, l[..2 * n]);
    FitsConstant(n, x, y, l);
  }

  /** The label of a block: that of some vertex in it. */
  ghost function LabelOf(n: nat, x: seq<nat>, lab: seq<nat>, b: nat): nat
    requires |x| == |lab|
  {
    if exists v :: 0 <= v < |x| && x[v] == b then var v :| 0 <= v < |x| && x[v] == b; lab[v] else 0
  }

  lemma LabelOfIs(n: nat, x: seq<nat>, lab: seq<nat>, v: nat)
    requires Constant(x, lab) && v < |x|
    ensures LabelOf(n, x, lab, x[v]) == lab[v]
  {
  }

  ghost function Collect(n: nat, x: seq<nat>, y: seq<nat>, nrx: nat, nry: nat, lab: seq<nat>): seq<nat>
    requires |x| == |y| == 2 * n && |lab| == 3 * n
  {
    seq(nrx + nry, (b: nat) requires b < nrx + nry => if b < nrx then LabelOf(n, x, lab[..2 * n], b) else LabelOf(n, y, lab[n..], b - nrx))
  }

  lemma CollectGlued(n: nat, x: seq<nat>, y: seq<nat>, nrx: nat, nry: nat, lab: seq<nat>)
    requires |x| == |y| == 2 * n && LabelsBelow(x, nrx) && LabelsBelow(y, nry) && Fits(n, x, y, lab)
    ensures |lab| == 3 * n && Glued(n, x, y, nrx, Collect(n, x, y, nrx, nry, lab), n)
    ensures Spread(n, x, y, nrx, Collect(n, x, y, nrx, nry, lab)) == lab
  {
    FitsConstant(n, x, y, lab);
    hide Fits;
    var c := Collect(n, x, y, nrx, nry, lab);
    forall v | 0 <= v < 2 * n ensures c[x[v]] == lab[v] { LabelOfIs(n, x, lab[..2 * n], v); }
    forall v | 0 <= v < 2 * n ensures c[y[v] + nrx] == lab[v + n] { LabelOfIs(n, y, lab[n..], v); }
  }

  /** The table describes the blocks glued along the whole middle layer. */
  ghost predicate GluedTable(n: nat, x: seq<nat>, y: seq<nat>, nrx: nat, nry: nat, f: seq<nat>, t: nat) {
    && Downward(f) && |f| == nrx + nry
    && forall lab: seq<nat> {:trigger Respects(lab, f)} :: |lab| == nrx + nry ==> (Respects(lab, f) <==> Glued(n, x, y, nrx, lab, t))
  }

  /** Blocks have been united exactly when their vertices are connected. */
  lemma ClassesConnected(n: nat, x: seq<nat>, y: seq<nat>, nrx: nat, nry: nat, f: seq<nat>, u: nat, v: nat)
    requires |x| == |y| == 2 * n && LabelsBelow(x, nrx) && LabelsBelow(y, nry) && GluedTable(n, x, y, nrx, nry, f, n) && u < 3 * n && v < 3 * n
    ensures BlockAt(n, x, y, nrx, u) < |f| && BlockAt(n, x, y, nrx, v) < |f|
    ensures SameClass(f, BlockAt(n, x, y, nrx, u), BlockAt(n, x, y, nrx, v)) <==> Connected(n, x, y, u, v)
  {
    var a, b := BlockAt(n, x, y, nrx, u), BlockAt(n, x, y, nrx, v);
    ClassesByLabels(f, a, b);
    ConnectedIff(n, x, y, u, v);
    hide SameClass, Connected, Fits, Glued, BlockAt;
    if Connected(n, x, y, u, v) {
      forall lab: seq<nat> | Respects(lab, f) ensures lab[a] == lab[b] {
        RespectsSize(lab, f);
        GluedLabel(n, x, y, nrx, lab, u, v);
      }
    }
    if SameClass(f, a, b) {
      forall lab | Fits(n, x, y, lab) ensures |lab| == 3 * n && lab[u] == lab[v] {
        CollectGlued(n, x, y, nrx, nry, lab);
        var c := Collect(n, x, y, nrx, nry, lab);
        assert |c| == nrx + nry && Respects(c, f);
        SpreadAt(n, x, y, nrx, c, lab, u);
        SpreadAt(n, x, y, nrx, c, lab, v);
      }
    }
  }

  lemma GluedLabel(n: nat, x: seq<nat>, y: seq<nat>, nrx: nat, lab: seq<nat>, u: nat, v: nat)
    requires Glued(n, x, y, nrx, lab, n) && u < 3 * n && v < 3 * n
    requires forall l :: Fits(n, x, y, l) ==> l[u] == l[v]
    ensures var a, b := BlockAt(n, x, y, nrx, u), BlockAt(n, x, y, nrx, v); a < |lab| && b < |lab| && lab[a] == lab[b]
  {
    SpreadFits(n, x, y, nrx, lab);
    var l := Spread(n, x, y, nrx, lab);
    hide Fits;
    assert l[u] == l[v];
  }

  lemma SpreadAt(n: nat, x: seq<nat>, y: seq<nat>, nrx: nat, c: seq<nat>, lab: seq<nat>, v: nat)
    requires Glued(n, x, y, nrx, c, n) && Spread(n, x, y, nrx, c) == lab && v < 3 * n
    ensures |lab| == 3 * n && BlockAt(n, x, y, nrx, v) < |c| && lab[v] == c[BlockAt(n, x, y, nrx, v)]
  {
  }

  // ----- the loops -----

  /** `fuseit` (lines 152-158). */
  method FuseIt(fuse: array<nat>, start: nat) returns (pos: nat)
    requires Downward(fuse[..]) && start < fuse.Length
    ensures pos == Root(fuse[..], start)
  {
    pos := start;
    while fuse[pos] < pos
      decreases pos
      invariant pos < fuse.Length && Root(fuse[..], pos) == Root(fuse[..], start)
    {
      assert fuse[..][pos] == fuse[pos];
      pos := fuse[pos];
    }
    assert fuse[..][pos] == fuse[pos];
  }

  function Range(k: nat): seq<nat> {
    seq(k, i => i)
  }

  lemma NothingGlued(n: nat, x: seq<nat>, y: seq<nat>, nrx: nat, nry: nat)
    requires |x| == |y| == 2 * n && LabelsBelow(x, nrx) && LabelsBelow(y, nry)
    ensures GluedTable(n, x, y, nrx, nry, Range(nrx + nry), 0)
  {
  }

  lemma GlueOne(n: nat, x: seq<nat>, y: seq<nat>, nrx: nat, nry: nat, f: seq<nat>, t: nat)
    requires |x| == |y| == 2 * n && LabelsBelow(x, nrx) && LabelsBelow(y, nry) && GluedTable(n, x, y, nrx, nry, f, t) && t < n
    ensures x[t + n] < |f| && y[t] + nrx < |f|
    ensures var j, k := Root(f, x[t + n]), Root(f, y[t] + nrx);
            GluedTable(n, x, y, nrx, nry, Linked(f, j, k), t + 1) && (j == k ==> Linked(f, j, k) == f)
  {
    var a, b := x[t + n], y[t] + nrx;
    var j, k := Root(f, a), Root(f, b);
    LinkedDown(f, j, k);
    forall lab: seq<nat> {:trigger Respects(lab, Linked(f, j, k))} | |lab| == nrx + nry
      ensures Respects(lab, Linked(f, j, k)) <==> Glued(n, x, y, nrx, lab, t + 1) {
      LinkedRespects(lab, f, a, b);
      GluedMore(n, x, y, nrx, lab, t);
      hide Respects, Glued;
      assert Respects(lab, f) <==> Glued(n, x, y, nrx, lab, t);
    }
  }

  lemma GluedMore(n: nat, x: seq<nat>, y: seq<nat>, nrx: nat, lab: seq<nat>, t: nat)
    requires |x| == |y| == 2 * n && t < n && x[t + n] < |lab| && y[t] + nrx < |lab|
    ensures Glued(n, x, y, nrx, lab, t + 1) <==> Glued(n, x, y, nrx, lab, t) && lab[x[t + n]] == lab[y[t] + nrx]
  {
  }

  lemma GluedParts(n: nat, x: seq<nat>, y: seq<nat>, nrx: nat, nry: nat, f: seq<nat>, t: nat)
    requires GluedTable(n, x, y, nrx, nry, f, t)
    ensures Downward(f) && |f| == nrx + nry
  {
  }

  /** Lines 113-128: the blocks that meet in the middle layer are united. */
  method Glue(n: nat, x: seq<nat>, y: seq<nat>, nrx: nat, nry: nat) returns (fuse: array<nat>)
    requires |x| == |y| == 2 * n && LabelsBelow(x, nrx) && LabelsBelow(y, nry)
    ensures fresh(fuse) && GluedTable(n, x, y, nrx, nry, fuse[..], n)
  {
    hide *;
    fuse := new nat[nrx + nry](i => i);
    FilledRange(fuse[..]);
    NothingGlued(n, x, y, nrx, nry);
    var t := 0;
    while t < n
      invariant t <= n && GluedTable(n, x, y, nrx, nry, fuse[..], t) && fuse.Length == nrx + nry
    {
      ghost var f := fuse[..];
      GluedParts(n, x, y, nrx, nry, f, t);
      GlueOne(n, x, y, nrx, nry, f, t);
      var j := FuseIt(fuse, x[t + n]);
      var k := FuseIt(fuse, y[t] + nrx);
      if j != k {
        LinkedIs(f, j, k);
        if j < k {
          fuse[k] := j;
        } else {
          fuse[j] := k;
        }
      }
      assert fuse[..] == Linked(f, j, k);
      t := t + 1;
    }
  }

  lemma FilledRange(f: seq<nat>)
    requires forall i :: 0 <= i < |f| ==> f[i] == i
    ensures f == Range(|f|)
  {
  }

  lemma LinkedIs(f: seq<nat>, j: nat, k: nat)
    requires j < |f| && k < |f|
    ensures Linked(f, j, k) == if j < k then f[k := j] else f[j := k]
  {
  }

  /** The first `i` entries of `out` number the classes `r[0]`, `r[1]`, ... in order of first occurrence, and `lookup` remembers the numbers. */
  ghost predicate Numbering(r: seq<nat>, lookup: seq<int>, out: seq<nat>, next: nat, i: nat) {
    && i <= |r| && |out| == |r|
    && (forall p :: 0 <= p < |r| ==> r[p] < |lookup|)
    && RestrictedGrowth(out[..i])
    && (forall p :: 0 <= p < i ==> out[p] < next && lookup[r[p]] == out[p])
    && (forall c :: 0 <= c < next ==> c in out[..i])
    && (forall b :: 0 <= b < |lookup| && lookup[b] != UNDEFINED ==> 0 <= lookup[b] < next)
    && (forall b, c :: 0 <= b < |lookup| && 0 <= c < |lookup| && lookup[b] == lookup[c] != UNDEFINED ==> b == c)
  }

  lemma NumberingStart(r: seq<nat>, lookup: seq<int>, out: seq<nat>)
    requires |out| == |r| && (forall p :: 0 <= p < |r| ==> r[p] < |lookup|) && forall b :: 0 <= b < |lookup| ==> lookup[b] == UNDEFINED
    ensures Numbering(r, lookup, out, 0, 0)
  {
  }

  lemma NumberingStep(r: seq<nat>, lookup: seq<int>, out: seq<nat>, next: nat, i: nat)
    requires Numbering(r, lookup, out, next, i) && i < |r|
    ensures r[i] < |lookup| && i < |out|
    ensures var lookup', next' := if lookup[r[i]] == UNDEFINED then lookup[r[i] := next] else lookup, if lookup[r[i]] == UNDEFINED then next + 1 else next;
            lookup'[r[i]] >= 0 && Numbering(r, lookup', out[i := lookup'[r[i]]], next', i + 1)
  {
    var lookup', next' := if lookup[r[i]] == UNDEFINED then lookup[r[i] := next] else lookup, if lookup[r[i]] == UNDEFINED then next + 1 else next;
    var out' := out[i := lookup'[r[i]]];
    assert out'[..i + 1] == out[..i] + [lookup'[r[i]]];
    hide RestrictedGrowth;
    GrowthMore(out[..i], next, lookup'[r[i]]);
  }

  lemma GrowthMore(z: seq<nat>, next: nat, c: nat)
    requires RestrictedGrowth(z) && (forall d :: 0 <= d < next ==> d in z) && c <= next
    ensures RestrictedGrowth(z + [c])
  {
    var w := z + [c];
    forall i, d: nat | 0 <= i < |w| && d < w[i] ensures d in w[..i] {
      if i < |z| {
        assert w[..i] == z[..i];
      } else {
        assert w[..i] == z;
      }
    }
  }

  lemma NumberingEnd(r: seq<nat>, lookup: seq<int>, out: seq<nat>, next: nat)
    requires Numbering(r, lookup, out, next, |r|)
    ensures RestrictedGrowth(out) && SameBlocks(out, r)
  {
    assert out[..|r|] == out;
    hide RestrictedGrowth;
  }

  /** The classes of the outer points. */
  ghost function Classes(n: nat, x: seq<nat>, y: seq<nat>, nrx: nat, f: seq<nat>): seq<nat>
    requires |x| == |y| == 2 * n && Downward(f) && LabelsBelow(x, nrx) && nrx <= |f| && LabelsBelow(y, |f| - nrx)
  {
    seq(2 * n, p requires 0 <= p < 2 * n => Root(f, if p < n then x[p] else y[p] + nrx))
  }

  lemma ClassesProduct(n: nat, x: seq<nat>, y: seq<nat>, nrx: nat, nry: nat, f: seq<nat>, z: seq<nat>)
    requires |x| == |y| == 2 * n && LabelsBelow(x, nrx) && LabelsBelow(y, nry) && GluedTable(n, x, y, nrx, nry, f, n)
    requires RestrictedGrowth(z) && SameBlocks(z, Classes(n, x, y, nrx, f))
    ensures IsProduct(n, x, y, z)
  {
    var r := Classes(n, x, y, nrx, f);
    hide GluedTable, Connected, RestrictedGrowth, LabelsBelow;
    forall p, q | 0 <= p < 2 * n && 0 <= q < 2 * n
      ensures z[p] == z[q] <==> Connected(n, x, y, Outer(n, p), Outer(n, q)) {
      OuterBound(n, p);
      OuterBound(n, q);
      ClassesConnected(n, x, y, nrx, nry, f, Outer(n, p), Outer(n, q));
      assert BlockAt(n, x, y, nrx, Outer(n, p)) == if p < n then x[p] else y[p] + nrx;
      assert BlockAt(n, x, y, nrx, Outer(n, q)) == if q < n then x[q] else y[q] + nrx;
    }
  }

  lemma ClassesAt(n: nat, x: seq<nat>, y: seq<nat>, nrx: nat, f: seq<nat>)
    requires |x| == |y| == 2 * n && Downward(f) && LabelsBelow(x, nrx) && nrx <= |f| && LabelsBelow(y, |f| - nrx)
    ensures |Classes(n, x, y, nrx, f)| == 2 * n
    ensures forall p :: 0 <= p < n ==> x[p] < |f| && Classes(n, x, y, nrx, f)[p] == Root(f, x[p])
    ensures forall p :: n <= p < 2 * n ==> y[p] + nrx < |f| && Classes(n, x, y, nrx, f)[p] == Root(f, y[p] + nrx)
    ensures forall p :: 0 <= p < 2 * n ==> Classes(n, x, y, nrx, f)[p] < |f|
  {
  }

  /** One number is written (lines 134-138 and 143-147). */
  method Number(out: array<nat>, lookup: array<int>, i: nat, j: nat, next: nat, ghost r: seq<nat>) returns (next': nat)
    requires Numbering(r, lookup[..], out[..], next, i) && i < |r| && j == r[i]
    modifies out, lookup
    ensures Numbering(r, lookup[..], out[..], next', i + 1)
  {
    hide *;
    ghost var was, wrote := lookup[..], out[..];
    NumberingStep(r, lookup[..], out[..], next, i);
    next' := next;
    UndefinedIs();
    if lookup[j] == UNDEFINED {
      lookup[j] := next;
      next' := next + 1;
      assert lookup[..] == was[j := next];
    }
    out[i] := lookup[j];
    assert out[..] == wrote[i := out[i]];
  }

  lemma UndefinedIs()
    ensures UNDEFINED == -1
  {
  }

  // ----- the class -----

  /** One more than the greatest label. */
  ghost predicate IsCount(x: seq<nat>, k: nat) {
    LabelsBelow(x, k) && (k == 0 <==> x == []) && (k > 0 ==> k - 1 in x)
  }

  /** A remembered count, if there is one, fits the labels. */
  ghost predicate Remembered(z: seq<nat>, count: int) {
    count == UNDEFINED || (count >= 0 && IsCount(z, count))
  }

  /** The count fits every product of degree `n`. */
  ghost predicate FitsAlways(n: nat, count: int) {
    forall x, y, z {:trigger IsProduct(n, x, y, z)} :: |x| == |y| == 2 * n && IsProduct(n, x, y, z) ==> Remembered(z, count)
  }

  /** Every point alone. */
  function Discrete(n: nat): seq<nat> {
    seq(2 * n, i requires 0 <= i < 2 * n => i)
  }

  /** All points in one block. */
  function Together(n: nat): seq<nat> {
    seq(2 * n, i requires 0 <= i < 2 * n => 0)
  }

  /** Both are products, with `2n` and 1 blocks. */
  lemma TwoCounts(n: nat)
    requires n > 0
    ensures IsProduct(n, Discrete(n), StackedGraph.Identity(n), Discrete(n)) && IsProduct(n, Together(n), StackedGraph.Identity(n), Together(n))
    ensures forall k: nat :: IsCount(Discrete(n), k) && IsCount(Together(n), k) ==> false
  {
    var d, t := Discrete(n), Together(n);
    assert RestrictedGrowth(d) by {
      forall i, c: nat | 0 <= i < |d| && c < d[i] ensures c in d[..i] {
        assert d[..i][c] == c;
      }
    }
    RightIdentity(n, d);
    RightIdentity(n, t);
    assert d[2 * n - 1] == 2 * n - 1;
  }

  /** No remembered count fits all products, unless there are no points. */
  lemma FitsIff(n: nat, count: int)
    requires n == 0 ==> Remembered([], count)
    ensures FitsAlways(n, count) <==> count == UNDEFINED || n == 0
  {
    if n > 0 && count != UNDEFINED {
      TwoCounts(n);
      hide IsCount, IsProduct;
      var z := if Remembered(Discrete(n), count) then Together(n) else Discrete(n);
      assert !Remembered(z, count) && IsProduct(n, z, StackedGraph.Identity(n), z);
    }
    if n == 0 {
      forall x, y, z: seq<nat> {:trigger IsProduct(n, x, y, z)} | |x| == |y| == 2 * n && IsProduct(n, x, y, z) ensures Remembered(z, count) {
        assert z == [];
      }
    }
  }

  /** Degree 1, labels 0 and 1 with a remembered count of 2, redefined as the product of two bipartitions with one block. */
  lemma StaleCount()
    ensures Remembered([0, 1], 2) && IsProduct(1, [0, 0], [0, 0], [0, 0]) && !Remembered([0, 0], 2)
  {
    assert 1 in [0, 1];
    assert StackedGraph.Identity(1) == [0, 0] && RestrictedGrowth([0, 0]);
    RightIdentity(1, [0, 0]);
  }

  class Bipartition {
    /** The labels of the points. */
    const vector: array<nat>
    /** The number of blocks, once it has been asked for. */
    var nrBlocks: int

    ghost predicate Valid()
      reads this, vector
    {
      vector.Length % 2 == 0 && Remembered(vector[..], nrBlocks)
    }

    function Degree(): nat
      reads this
    {
      vector.Length / 2
    }

    lemma Shape()
      ensures Valid() <==> vector.Length % 2 == 0 && Remembered(vector[..], nrBlocks)
      ensures vector.Length % 2 == 0 ==> vector.Length == 2 * Degree()
    {
      hide IsCount;
    }

    /**
     * `redefine` leaves this valid whatever is multiplied exactly when no count
     * has been remembered, or there are no points.
     */
    lemma RedefineIff()
      requires Valid()
      ensures FitsAlways(Degree(), nrBlocks) <==> nrBlocks == UNDEFINED || Degree() == 0
    {
      assert vector.Length == 0 ==> vector[..] == [];
      FitsIff(Degree(), nrBlocks);
    }

    lemma Kept()
      ensures nrBlocks == UNDEFINED ==> Remembered(vector[..], nrBlocks)
      ensures vector.Length == 0 ==> vector[..] == []
      ensures vector.Length % 2 == 0 && Degree() == 0 ==> vector.Length == 0
    {
    }

    constructor (blocks: seq<nat>)
      requires |blocks| % 2 == 0
      ensures Valid() && vector[..] == blocks && fresh(vector) && nrBlocks == UNDEFINED
    {
      vector := new nat[|blocks|](i requires 0 <= i < |blocks| => blocks[i]);
      nrBlocks := UNDEFINED;
    }

    /** `identity` (lines 76-85). */
    constructor Identity(degree: nat)
      ensures Valid() && vector[..] == StackedGraph.Identity(degree) && fresh(vector) && nrBlocks == UNDEFINED
    {
      vector := new nat[2 * degree](i requires 0 <= i < 2 * degree => if i < degree then i else i - degree);
      nrBlocks := UNDEFINED;
    }

    /** `const_nr_blocks` (lines 162-170). */
    method ConstNrBlocks() returns (k: nat)
      requires Valid()
      ensures IsCount(vector[..], k)
    {
      if nrBlocks != UNDEFINED {
        return nrBlocks;
      }
      k := 0;
      var i := 0;
      while i < vector.Length
        invariant i <= vector.Length && IsCount(vector[..i], k)
      {
        if vector[i] + 1 > k {
          k := vector[i] + 1;
        }
        assert vector[..i + 1] == vector[..i] + [vector[i]];
        i := i + 1;
      }
      assert vector[..] == vector[..i];
    }

    /**
     * `redefine` (lines 88-150): this becomes the product of `x` and `y`.  A count
     * that has been remembered for this is kept, right or wrong; see `RedefineIff`.
     */
    method Redefine(x: Bipartition, y: Bipartition)
      requires x.Valid() && y.Valid() && x.vector.Length == y.vector.Length == vector.Length
      requires vector != x.vector && vector != y.vector
      modifies vector
      ensures IsProduct(Degree(), x.vector[..], y.vector[..], vector[..])
      ensures Valid() <==> Remembered(vector[..], nrBlocks)
      ensures old(Valid()) && (nrBlocks == UNDEFINED || Degree() == 0) ==> Valid()
    {
      hide *;
      Kept();
      Shape();
      x.Shape();
      var n := Degree();
      var nrx := x.ConstNrBlocks();
      var nry := y.ConstNrBlocks();
      ghost var xs, ys := x.vector[..], y.vector[..];
      CountBelow(xs, nrx);
      CountBelow(ys, nry);
      var fuse := Glue(n, x.vector[..], y.vector[..], nrx, nry);
      var lookup := new int[nrx + nry](_ => UNDEFINED);
      ghost var f := fuse[..];
      GluedParts(n, xs, ys, nrx, nry, f, n);
      ghost var r := Classes(n, xs, ys, nrx, f);
      ClassesAt(n, xs, ys, nrx, f);
      UndefinedIs();
      NumberingStart(r, lookup[..], vector[..]);
      var next := 0;
      var i := 0;
      while i < n
        invariant i <= n && x.vector[..] == xs && y.vector[..] == ys && fuse[..] == f && Numbering(r, lookup[..], vector[..], next, i)
      {
        var j := FuseIt(fuse, x.vector[i]);
        next := Number(vector, lookup, i, j, next, r);
        i := i + 1;
      }
      i := n;
      while i < 2 * n
        invariant n <= i <= 2 * n && x.vector[..] == xs && y.vector[..] == ys && fuse[..] == f && Numbering(r, lookup[..], vector[..], next, i)
      {
        var j := FuseIt(fuse, y.vector[i] + nrx);
        next := Number(vector, lookup, i, j, next, r);
        i := i + 1;
      }
      assert i == |r|;
      NumberingEnd(r, lookup[..], vector[..], next);
      Shape();
      Kept();
      x.Shape();
      ClassesProduct(n, xs, ys, nrx, nry, f, vector[..]);
    }
  }

  lemma CountBelow(x: seq<nat>, k: nat)
    requires IsCount(x, k)
    ensures LabelsBelow(x, k)
  {
  }
}
