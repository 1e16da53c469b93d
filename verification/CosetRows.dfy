/**
 * Whole-row operations on the coset tables: new rows, and new edges.
 * Lines cited here are those of src/cong/tc.cc.
 */
module CosetRows {
  import opened CosetTable
  import opened CosetColumn
  import opened CosetTables

  /** `add_rows(1)` on all three tables. */
  function AddRow(t: Tables, k: nat): Tables
    requires |t.image| == |t.init| == |t.next| == k
  {
    Tables(seq(k, i requires 0 <= i < k => t.image[i] + [UNDEFINED]),
           seq(k, i requires 0 <= i < k => t.init[i] + [UNDEFINED]),
           seq(k, i requires 0 <= i < k => t.next[i] + [UNDEFINED]))
  }

  lemma AddRowOk(t: Tables, k: nat, n: nat, live: set<nat>, chains: seq<seq<seq<nat>>>)
    requires TablesOk(t, k, n, live, chains)
    ensures TablesOk(AddRow(t, k), k, n + 1, live, seq(k, i requires 0 <= i < k => chains[i] + [[]]))
    ensures forall a, c :: 0 <= a < k && c in live ==> c < n && |t.image[a]| == n && AddRow(t, k).image[a][c] == t.image[a][c]
  {
    hide Ok;
    var t', ch := AddRow(t, k), seq(k, i requires 0 <= i < k => chains[i] + [[]]);
    forall a | 0 <= a < k ensures |t.image[a]| == n && ColumnOk(t', k, n + 1, live, ch, a) {
      assert ColumnOk(t, k, n, live, chains, a);
      ExtendOk(ColumnOf(t, a), n, live, chains[a]);
      assert ColumnOf(t', a) == Extend(ColumnOf(t, a));
    }
  }

  /** Row `d` cleared for the generators below `i`. */
  ghost predicate Cleared(t: Tables, t': Tables, k: nat, n: nat, d: nat, i: nat) {
    && |t.image| == |t.init| == |t.next| == k && Columns(t', k) && t'.next == t.next && d < n
    && (forall a :: 0 <= a < k ==> |t.image[a]| == n && |t.init[a]| >= n)
    && (forall a :: 0 <= a < i && a < k ==> t'.image[a] == t.image[a][d := UNDEFINED] && t'.init[a] == t.init[a][d := UNDEFINED])
    && (forall a :: i <= a < k ==> t'.image[a] == t.image[a] && t'.init[a] == t.init[a])
  }

  /** Clear the row of a coset about to be used (lines 344-348). */
  method ClearRow(t: Tables, k: nat, d: nat, ghost n: nat) returns (t': Tables)
    requires Columns(t, k) && d < n
    requires forall a :: 0 <= a < k ==> |t.image[a]| == n && |t.init[a]| >= n
    ensures Cleared(t, t', k, n, d, k)
  {
    t' := t;
    var i := 0;
    while i < k
      invariant 0 <= i <= k && Cleared(t, t', k, n, d, i)
    {
      t' := Tables(t'.image[i := t'.image[i][d := UNDEFINED]], t'.init[i := t'.init[i][d := UNDEFINED]], t'.next);
      i := i + 1;
    }
  }

  lemma ClearRowOk(t: Tables, t': Tables, k: nat, n: nat, live: set<nat>, chains: seq<seq<seq<nat>>>, d: nat)
    requires TablesOk(t, k, n, live, chains) && d < n && d !in live && Cleared(t, t', k, n, d, k)
    requires forall a :: 0 <= a < k ==> |chains[a]| == n
    ensures TablesOk(t', k, n, live + {d}, seq(k, i requires 0 <= i < k => chains[i][d := []]))
    ensures forall a, c :: 0 <= a < k && c in live ==> c < n && t'.image[a][c] == t.image[a][c]
  {
    hide Ok;
    var ch := seq(k, i requires 0 <= i < k => chains[i][d := []]);
    forall a | 0 <= a < k ensures ColumnOk(t', k, n, live + {d}, ch, a) {
      assert ColumnOk(t, k, n, live, chains, a);
      ClearOk(ColumnOf(t, a), n, live, chains[a], d);
      assert ColumnOf(t', a) == Clear(ColumnOf(t, a), d);
    }
  }

  lemma TablesSizes(t: Tables, k: nat, n: nat, live: set<nat>, chains: seq<seq<seq<nat>>>)
    requires TablesOk(t, k, n, live, chains)
    ensures forall a :: 0 <= a < k ==> |t.image[a]| == n && |t.init[a]| >= n && |t.next[a]| >= n && |chains[a]| == n
  {
    hide Chained;
    forall a | 0 <= a < k ensures |t.image[a]| == n && |t.init[a]| >= n && |t.next[a]| >= n && |chains[a]| == n {
      assert ColumnOk(t, k, n, live, chains, a);
    }
  }

  /** Give `c` the image `d` under `a`; the new preimage goes to the front of the chain of `d`. */
  function Link(t: Tables, a: nat, c: nat, d: nat): Tables
    requires a < |t.image| && a < |t.init| && a < |t.next|
    requires c < |t.image[a]| && c < |t.next[a]| && d < |t.init[a]|
  {
    Tables(t.image[a := t.image[a][c := d]], t.init[a := t.init[a][d := c]], t.next[a := t.next[a][c := t.init[a][d]]])
  }

  lemma ReplaceColumn(t: Tables, k: nat, n: nat, live: set<nat>, chains: seq<seq<seq<nat>>>, a: nat, col: Column, chain: seq<seq<nat>>)
    requires TablesOk(t, k, n, live, chains) && a < k
    requires Ok(col, n, live, live, chain) && InRange(col.img, n)
    ensures TablesOk(SetColumn(t, a, col), k, n, live, chains[a := chain])
  {
    hide Ok, InRange;
    var t', ch := SetColumn(t, a, col), chains[a := chain];
    forall b | 0 <= b < k ensures ColumnOk(t', k, n, live, ch, b) {
      assert ColumnOk(t, k, n, live, chains, b);
      assert ColumnOf(t', b) == if b == a then col else ColumnOf(t, b);
    }
  }

  lemma LinkOk(t: Tables, k: nat, n: nat, live: set<nat>, chains: seq<seq<seq<nat>>>, a: nat, c: nat, d: nat)
    requires TablesOk(t, k, n, live, chains) && a < k && c in live && d in live && d > 0
    requires |t.image[a]| == n && |t.init[a]| >= n && |t.next[a]| >= n && |chains[a]| == n && t.image[a][c] == UNDEFINED
    ensures TablesOk(Link(t, a, c, d), k, n, live, chains[a := chains[a][d := [c] + chains[a][d]]])
  {
    assert ColumnOk(t, k, n, live, chains, a);
    hide Ok;
    var col := LinkFront(ColumnOf(t, a), c, d);
    LinkFrontOk(ColumnOf(t, a), n, live, chains[a], c, d);
    ReplaceColumn(t, k, n, live, chains, a, col, chains[a][d := [c] + chains[a][d]]);
    assert Link(t, a, c, d) == SetColumn(t, a, col);
  }

  /** Give `c` the image `d` under `a`, right behind the only preimage `b` of `d`. */
  function LinkBehind(t: Tables, a: nat, b: nat, c: nat, d: nat): Tables
    requires a < |t.image| && a < |t.next| && c < |t.image[a]| && c < |t.next[a]| && b < |t.next[a]|
  {
    Tables(t.image[a := t.image[a][c := d]], t.init, t.next[a := t.next[a][b := c][c := UNDEFINED]])
  }

  lemma LinkBehindOk(t: Tables, k: nat, n: nat, live: set<nat>, chains: seq<seq<seq<nat>>>, a: nat, b: nat, c: nat, d: nat)
    requires TablesOk(t, k, n, live, chains) && a < k && b in live && c in live && d in live && d > 0
    requires |t.image[a]| == n && |t.init[a]| >= n && |t.next[a]| >= n && |chains[a]| == n
    requires t.image[a][c] == UNDEFINED && t.image[a][b] == d && chains[a][d] == [b]
    ensures TablesOk(LinkBehind(t, a, b, c, d), k, n, live, chains[a := chains[a][d := [b, c]]])
  {
    assert ColumnOk(t, k, n, live, chains, a);
    hide Ok;
    var col := LinkSecond(ColumnOf(t, a), b, c, d);
    LinkSecondOk(ColumnOf(t, a), n, live, chains[a], b, c, d);
    ReplaceColumn(t, k, n, live, chains, a, col, chains[a][d := [b, c]]);
    assert LinkBehind(t, a, b, c, d) == SetColumn(t, a, col);
  }
}
