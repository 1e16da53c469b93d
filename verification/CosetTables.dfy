/**
 * All columns together: the three coset tables and the loops over the generators.
 * Lines cited here are those of src/cong/tc.cc.
 */
module CosetTables {
  import opened CosetTable
  import opened CosetColumn
  import opened CosetMerge

  /** `_table`, `_preim_init` and `_preim_next`, each stored generator by generator. */
  datatype Tables = Tables(image: seq<seq<int>>, init: seq<seq<int>>, next: seq<seq<int>>)

  ghost predicate Columns(t: Tables, k: nat) {
    |t.image| == |t.init| == |t.next| == k
  }

  function ColumnOf(t: Tables, a: nat): Column
    requires a < |t.image| && a < |t.init| && a < |t.next|
  {
    Column(t.image[a], t.init[a], t.next[a])
  }

  /** Every entry of every row, live or free, is a coset or undefined. */
  ghost predicate InRange(img: seq<int>, n: nat) {
    |img| == n && forall c :: 0 <= c < n ==> UNDEFINED <= img[c] < n
  }

  ghost predicate ColumnOk(t: Tables, k: nat, n: nat, live: set<nat>, chains: seq<seq<seq<nat>>>, a: nat)
    requires Columns(t, k) && |chains| == k && a < k
  {
    Ok(ColumnOf(t, a), n, live, live, chains[a]) && InRange(t.image[a], n)
  }

  ghost predicate TablesOk(t: Tables, k: nat, n: nat, live: set<nat>, chains: seq<seq<seq<nat>>>) {
    && Columns(t, k) && |chains| == k
    && (forall c :: c in live ==> c < n)
    && forall a :: 0 <= a < k ==> ColumnOk(t, k, n, live, chains, a)
  }

  lemma TablesClosed(t: Tables, k: nat, n: nat, live: set<nat>, chains: seq<seq<seq<nat>>>)
    requires TablesOk(t, k, n, live, chains)
    ensures Closed(t.image, k, n, live)
  {
    hide Chained;
    forall a | 0 <= a < k ensures |t.image[a]| == n && Images(t.image[a], n, live, live) {
      assert ColumnOk(t, k, n, live, chains, a);
    }
    forall a, c | 0 <= a < k && c in live && t.image[a][c] != UNDEFINED ensures t.image[a][c] > 0 && t.image[a][c] in live {
      assert Images(t.image[a], n, live, live);
    }
  }

  function SetColumn(t: Tables, a: nat, col: Column): Tables
    requires a < |t.image| && a < |t.init| && a < |t.next|
  {
    Tables(t.image[a := col.img], t.init[a := col.init], t.next[a := col.next])
  }

  // ----- killing `rhs` in all columns -----

  /** The pair `(x, y)` is the coincidence found in one column. */
  ghost predicate FoundIn(img: seq<int>, img': seq<int>, lhs: nat, rhs: nat, x: int, y: int)
    requires lhs < |img| && rhs < |img| && |img'| == |img|
  {
    && img[lhs] != UNDEFINED && img[rhs] != UNDEFINED
    && x == Min(img'[lhs], img'[rhs]) && y == Max(img'[lhs], img'[rhs])
  }

  lemma OnStackGrows(x: int, y: int, ls: seq<nat>, rs: seq<nat>, l: nat, r: nat)
    requires |ls| == |rs| && OnStack(x, y, ls, rs)
    ensures OnStack(x, y, ls + [l], rs + [r])
  {
    var j :| 0 <= j < |ls| && ls[j] == x && rs[j] == y;
    assert (ls + [l])[j] == x && (rs + [r])[j] == y;
  }

  lemma MergedInRange(img: seq<int>, img': seq<int>, n: nat, live: set<nat>, lhs: nat, rhs: nat)
    requires lhs < n && rhs < n && InRange(img, n) && |img'| == n && Merged(img, img', live, lhs, rhs)
    ensures InRange(img', n)
  {
  }

  /** The part of the work done after the first `i` generators. */
  ghost predicate Merging(t: Tables, t': Tables, k: nat, n: nat, live: set<nat>, lhs: nat, rhs: nat, chains': seq<seq<seq<nat>>>,
                          ls: seq<nat>, rs: seq<nat>, ls': seq<nat>, rs': seq<nat>, i: nat)
    requires Shape(t.image, k, n) && lhs < n && rhs < n && |ls| == |rs|
  {
    && Columns(t', k) && |chains'| == k && Shape(t'.image, k, n)
    && |ls| <= |ls'| == |rs'| && ls'[..|ls|] == ls && rs'[..|rs|] == rs
    && (forall a {:trigger ColumnOk(t', k, n, live - {rhs}, chains', a)} :: 0 <= a < k && a < i ==>
          ColumnOk(t', k, n, live - {rhs}, chains', a))
    && (forall a {:trigger ColumnOk(t', k, n, live, chains', a)} :: i <= a < k ==> ColumnOk(t', k, n, live, chains', a))
    && (forall a {:trigger t'.image[a]} :: i <= a < k ==> t'.image[a] == t.image[a])
    && (forall a {:trigger t'.image[a]} :: 0 <= a < k && a < i ==> ColumnStep(t.image[a], t'.image[a], live, lhs, rhs, ls', rs'))
    && (forall j {:trigger ls'[j]} {:trigger rs'[j]} :: |ls| <= j < |ls'| ==>
          exists a :: 0 <= a < k && a < i && FoundIn(t.image[a], t'.image[a], lhs, rhs, ls'[j], rs'[j]))
    && (forall j :: |ls| <= j < |ls'| ==> 0 < ls'[j] < n && 0 < rs'[j] < n && ls'[j] in live && rs'[j] in live)
  }

  lemma ColumnStepGrows(img: seq<int>, img': seq<int>, live: set<nat>, lhs: nat, rhs: nat, ls: seq<nat>, rs: seq<nat>, l: nat, r: nat)
    requires lhs < |img| && rhs < |img| && |img'| == |img| && |ls| == |rs|
    requires ColumnStep(img, img', live, lhs, rhs, ls, rs)
    ensures ColumnStep(img, img', live, lhs, rhs, ls + [l], rs + [r])
  {
    if img[lhs] != UNDEFINED && img[rhs] != UNDEFINED {
      OnStackGrows(Min(img'[lhs], img'[rhs]), Max(img'[lhs], img'[rhs]), ls, rs, l, r);
    }
  }

  /** Replacing column `i` by the merged one, and pushing what it found, advances the loop by one. */
  lemma MergingStep(t: Tables, t': Tables, k: nat, n: nat, live: set<nat>, lhs: nat, rhs: nat, chains': seq<seq<seq<nat>>>,
                    ls: seq<nat>, rs: seq<nat>, ls': seq<nat>, rs': seq<nat>, i: nat,
                    col: Column, chain: seq<seq<nat>>, x: seq<nat>, y: seq<nat>)
    requires Shape(t.image, k, n) && lhs < n && rhs < n && |ls| == |rs| && i < k
    requires Merging(t, t', k, n, live, lhs, rhs, chains', ls, rs, ls', rs', i)
    requires Ok(col, n, live - {rhs}, live - {rhs}, chain) && InRange(col.img, n)
    requires Merged(t.image[i], col.img, live, lhs, rhs)
    requires |x| == |y| <= 1
    requires x == [] ==> t.image[i][lhs] == UNDEFINED || t.image[i][rhs] == UNDEFINED
    requires x != [] ==> FoundIn(t.image[i], col.img, lhs, rhs, x[0], y[0])
    requires x != [] ==> 0 < x[0] < n && 0 < y[0] < n && x[0] in live && y[0] in live
    ensures Merging(t, SetColumn(t', i, col), k, n, live, lhs, rhs, chains'[i := chain], ls, rs, ls' + x, rs' + y, i + 1)
  {
    hide Ok, Merged;
    var u, ch := SetColumn(t', i, col), chains'[i := chain];
    var l, r := ls' + x, rs' + y;
    forall a | 0 <= a < k && a < i + 1 ensures ColumnOk(u, k, n, live - {rhs}, ch, a) {
      if a == i { assert ColumnOf(u, a) == col; } else { assert ColumnOk(t', k, n, live - {rhs}, chains', a); }
    }
    forall a | i + 1 <= a < k ensures ColumnOk(u, k, n, live, ch, a) {
      assert ColumnOk(t', k, n, live, chains', a);
    }
    hide FoundIn, ColumnOk;
    forall a | 0 <= a < k && a < i + 1 ensures ColumnStep(t.image[a], u.image[a], live, lhs, rhs, l, r) {
      StackAfterStep(t, t', k, n, live, lhs, rhs, chains', ls, rs, ls', rs', i, col, x, y, a);
    }
    forall j | |ls| <= j < |l|
      ensures exists a :: 0 <= a < k && a < i + 1 && FoundIn(t.image[a], u.image[a], lhs, rhs, l[j], r[j]) {
      if j < |ls'| {
        var x, y := ls'[j], rs'[j];
        var a :| 0 <= a < k && a < i && FoundIn(t.image[a], t'.image[a], lhs, rhs, x, y);
        assert u.image[a] == t'.image[a];
      } else {
        assert FoundIn(t.image[i], u.image[i], lhs, rhs, l[j], r[j]);
      }
    }
  }

  lemma StackAfterStep(t: Tables, t': Tables, k: nat, n: nat, live: set<nat>, lhs: nat, rhs: nat, chains': seq<seq<seq<nat>>>,
                       ls: seq<nat>, rs: seq<nat>, ls': seq<nat>, rs': seq<nat>, i: nat, col: Column, x: seq<nat>, y: seq<nat>, a: nat)
    requires Shape(t.image, k, n) && lhs < n && rhs < n && |ls| == |rs| && i < k && a <= i
    requires Merging(t, t', k, n, live, lhs, rhs, chains', ls, rs, ls', rs', i)
    requires |col.img| == n && Merged(t.image[i], col.img, live, lhs, rhs)
    requires |x| == |y| <= 1
    requires x == [] ==> t.image[i][lhs] == UNDEFINED || t.image[i][rhs] == UNDEFINED
    requires x != [] ==> FoundIn(t.image[i], col.img, lhs, rhs, x[0], y[0])
    ensures ColumnStep(t.image[a], if a == i then col.img else t'.image[a], live, lhs, rhs, ls' + x, rs' + y)
  {
    hide Merged, ColumnOk;
    if a == i {
      if x != [] {
        assert (ls' + x)[|ls'|] == x[0] && (rs' + y)[|ls'|] == y[0];
      }
    } else if x == [] {
      assert ls' + x == ls' && rs' + y == rs';
    } else {
      assert ColumnStep(t.image[a], t'.image[a], live, lhs, rhs, ls', rs');
      ColumnStepGrows(t.image[a], t'.image[a], live, lhs, rhs, ls', rs', x[0], y[0]);
      assert x == [x[0]] && y == [y[0]];
    }
  }

  /** Lines 413-455: the loop over the generators. */
  method MergeTables(t: Tables, k: nat, lhs: nat, rhs: nat, ls: seq<nat>, rs: seq<nat>,
                     ghost n: nat, ghost live: set<nat>, ghost chains: seq<seq<seq<nat>>>)
    returns (t': Tables, ls': seq<nat>, rs': seq<nat>, ghost chains': seq<seq<seq<nat>>>)
    requires TablesOk(t, k, n, live, chains) && |ls| == |rs|
    requires lhs in live && rhs in live && lhs != rhs && lhs > 0
    ensures Shape(t.image, k, n) && TablesOk(t', k, n, live - {rhs}, chains')
    ensures Merging(t, t', k, n, live, lhs, rhs, chains', ls, rs, ls', rs', k)
  {
    hide Ok, Merged, InRange;
    TablesClosed(t, k, n, live, chains);
    t', ls', rs', chains' := t, ls, rs, chains;
    var i := 0;
    while i < k
      invariant 0 <= i <= k
      invariant Merging(t, t', k, n, live, lhs, rhs, chains', ls, rs, ls', rs', i)
    {
      assert ColumnOk(t', k, n, live, chains', i);
      ColumnLive(t', k, n, live, chains', i, rhs);
      var col, pending, chain := MergeColumn(ColumnOf(t', i), lhs, rhs, n, live, chains'[i]);
      ColumnSize(col, n, live - {rhs}, live - {rhs}, chain);
      MergedInRange(t.image[i], col.img, n, live, lhs, rhs);
      PendingLive(t.image[i], col.img, n, live, lhs, rhs);
      var x: seq<nat>, y: seq<nat> := [], [];
      if pending != [] {
        x, y := [pending[0].0], [pending[0].1];
      }
      MergingStep(t, t', k, n, live, lhs, rhs, chains', ls, rs, ls', rs', i, col, chain, x, y);
      t', ls', rs', chains' := SetColumn(t', i, col), ls' + x, rs' + y, chains'[i := chain];
      i := i + 1;
    }
  }

  lemma ColumnLive(t: Tables, k: nat, n: nat, live: set<nat>, chains: seq<seq<seq<nat>>>, a: nat, rhs: nat)
    requires Columns(t, k) && |chains| == k && a < k && ColumnOk(t, k, n, live, chains, a)
    ensures |t.image[a]| == n && forall c :: c in live ==> c < n
  {
  }

  lemma ColumnSize(col: Column, n: nat, src: set<nat>, tgt: set<nat>, chain: seq<seq<nat>>)
    requires Ok(col, n, src, tgt, chain)
    ensures |col.img| == n
  {
  }

  lemma PendingLive(img: seq<int>, img': seq<int>, n: nat, live: set<nat>, lhs: nat, rhs: nat)
    requires |img| == n == |img'| && (forall c :: c in live ==> c < n) && lhs in live && rhs in live
    requires Merged(img, img', live, lhs, rhs) && lhs != rhs && lhs > 0
    requires forall c :: c in live && img[c] != UNDEFINED ==> img[c] > 0 && img[c] in live
    ensures forall p :: p in Coincidence(img, img', lhs, rhs) ==> 0 < p.0 < n && 0 < p.1 < n && p.0 in live && p.1 in live
  {
  }

  lemma TablesInRange(t: Tables, k: nat, n: nat, live: set<nat>, chains: seq<seq<seq<nat>>>)
    requires TablesOk(t, k, n, live, chains)
    ensures Closed(t.image, k, n, live)
    ensures forall a :: 0 <= a < k ==> InRange(t.image[a], n)
  {
    TablesClosed(t, k, n, live, chains);
    hide Ok;
    forall a | 0 <= a < k ensures InRange(t.image[a], n) {
      assert ColumnOk(t, k, n, live, chains, a);
    }
  }
}
