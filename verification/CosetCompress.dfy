/**
 * Renumbering the live cosets when the procedure has finished.
 * Lines cited here are those of src/cong/tc.cc.
 */
module CosetCompress {
  import opened Finite
  import opened CosetTable
  import opened CosetColumn
  import opened CosetList
  import opened CosetTables
  import opened CosetState

  type Lookup = map<int, int>

  /** `lookup` numbers the members of `names` in order. */
  ghost predicate Numbering(lookup: Lookup, names: seq<int>) {
    && (forall i :: 0 <= i < |names| ==> names[i] in lookup && lookup[names[i]] == i)
    && (forall x :: x in lookup ==> 0 <= lookup[x] < |names| && names[lookup[x]] == x)
  }

  /** The live cosets, and `UNDEFINED` with them if `more`. */
  ghost function Keys(list: seq<nat>, m: nat, more: bool): (keys: set<int>)
    requires m <= |list|
  {
    Elements(list[..m]) + (if more then {UNDEFINED} else {})
  }

  lemma KeysSize(list: seq<nat>, pos: seq<nat>, m: nat, more: bool)
    requires Arranged(list, pos) && m <= |list|
    ensures |Keys(list, m, more)| == if more then m + 1 else m
  {
    var s: seq<int> := list[..m];
    assert Distinct(s) by {
      forall i, j | 0 <= i < j < |s| ensures s[i] != s[j] { assert pos[list[i]] == i && pos[list[j]] == j; }
    }
    ElementsSize(s);
    assert UNDEFINED !in Elements(s);
  }

  /** There are `m` live cosets. */
  lemma LiveCount(list: seq<nat>, pos: seq<nat>, m: nat)
    requires Arranged(list, pos) && m <= |list|
    ensures |Live(pos, m)| == m
  {
    var s := list[..m];
    assert Distinct(s) by {
      forall i, j | 0 <= i < j < |s| ensures s[i] != s[j] { assert pos[list[i]] == i && pos[list[j]] == j; }
    }
    ElementsSize(s);
    forall c | c in Live(pos, m) ensures c in Elements(s) { assert s[pos[c]] == c; }
    forall c | c in Elements(s) ensures c in Live(pos, m) {
      var i :| 0 <= i < |s| && s[i] == c;
      assert pos[list[i]] == i;
    }
    assert Live(pos, m) == Elements(s);
  }

  /** What has been numbered is live, or `UNDEFINED`; so there are not too many names. */
  lemma NamesBound(lookup: Lookup, names: seq<int>, list: seq<nat>, pos: seq<nat>, m: nat, more: bool)
    requires Arranged(list, pos) && m <= |list| && Numbering(lookup, names)
    requires forall x :: x in lookup ==> x in Keys(list, m, more)
    ensures |names| <= if more then m + 1 else m
  {
    assert Distinct(names) by {
      forall i, j | 0 <= i < j < |names| ensures names[i] != names[j] { assert lookup[names[i]] == i && lookup[names[j]] == j; }
    }
    ElementsSize(names);
    KeysSize(list, pos, m, more);
    forall x | x in Elements(names) ensures x in Keys(list, m, more) {
      var i :| 0 <= i < |names| && names[i] == x;
      assert names[i] in lookup;
    }
    SubsetSize(Elements(names), Keys(list, m, more));
  }

  /** If all live cosets, and `UNDEFINED`, have been numbered there are at least that many names. */
  lemma NamesEnough(lookup: Lookup, names: seq<int>, list: seq<nat>, pos: seq<nat>, m: nat, more: bool)
    requires Arranged(list, pos) && m <= |list| && Numbering(lookup, names)
    requires forall x :: x in Keys(list, m, more) ==> x in lookup
    ensures |names| >= if more then m + 1 else m
  {
    assert Distinct(names) by {
      forall i, j | 0 <= i < j < |names| ensures names[i] != names[j] { assert lookup[names[i]] == i && lookup[names[j]] == j; }
    }
    ElementsSize(names);
    KeysSize(list, pos, m, more);
    forall x | x in Keys(list, m, more) ensures x in Elements(names) { assert names[lookup[x]] == x; }
    SubsetSize(Keys(list, m, more), Elements(names));
  }

  // ----- the order in which things are met -----

  /** `names`, and what is new in `xs` behind them. */
  ghost function Noted(names: seq<int>, xs: seq<int>): (r: seq<int>)
    ensures names <= r
  {
    if xs == [] then names else
      var r, x := Noted(names, xs[..|xs| - 1]), xs[|xs| - 1];
      if x in r then r else r + [x]
  }

  ghost function RowEntries(t: Table, x: nat, i: nat): seq<int>
    requires i <= |t| && forall a :: 0 <= a < i ==> x < |t[a]|
  {
    seq(i, a requires 0 <= a < i => t[a][x])
  }

  ghost predicate RowsIn(list: seq<nat>, n: nat) {
    forall i :: 0 <= i < |list| ==> list[i] < n
  }

  /** The first `p` cosets of the list and their entries, in the order in which they are met first. */
  ghost function Met(t: Table, k: nat, n: nat, list: seq<nat>, p: nat): seq<int>
    requires Shape(t, k, n) && p <= |list| && RowsIn(list, n)
  {
    if p == 0 then [] else Noted(Noted(Met(t, k, n, list, p - 1), [list[p - 1]]), RowEntries(t, list[p - 1], k))
  }

  /** `UNDEFINED` is met after all live cosets. */
  ghost predicate UndefinedLast(k: nat, c: Cosets, o: Order) {
    && Shape(c.tables.image, k, Size(o)) && c.active <= |o.list| && RowsIn(o.list, Size(o))
    && var met := Met(c.tables.image, k, Size(o), o.list, c.active);
       |met| == c.active + 1 && met[c.active] == UNDEFINED
  }

  lemma NotedOne(names: seq<int>, x: int)
    ensures Noted(names, [x]) == if x in names then names else names + [x]
  {
    assert [x][..0] == [];
    assert Noted(names, []) == names;
  }

  lemma NotedNone(names: seq<int>, t: Table, x: nat)
    ensures Noted(names, RowEntries(t, x, 0)) == names
  {
  }

  lemma NotedMore(names: seq<int>, t: Table, x: nat, i: nat)
    requires i < |t| && forall a :: 0 <= a < i + 1 ==> x < |t[a]|
    ensures var r := Noted(names, RowEntries(t, x, i)); Noted(names, RowEntries(t, x, i + 1)) == if t[i][x] in r then r else r + [t[i][x]]
  {
    assert RowEntries(t, x, i + 1)[..i] == RowEntries(t, x, i);
  }

  lemma {:induction false} NotedKeys(names: seq<int>, xs: seq<int>, keys: set<int>)
    requires Distinct(names) && Elements(names) <= keys && forall x :: x in xs ==> x in keys
    ensures Distinct(Noted(names, xs)) && Elements(Noted(names, xs)) <= keys
    decreases |xs|
  {
    if xs != [] {
      var ys, x := xs[..|xs| - 1], xs[|xs| - 1];
      NotedKeys(names, ys, keys);
      var r := Noted(names, ys);
      assert x in xs;
      if x !in r {
        assert forall y :: y in Elements(r + [x]) ==> y in Elements(r) || y == x;
      }
    }
  }

  lemma {:induction false} MetKeys(t: Table, k: nat, n: nat, list: seq<nat>, p: nat, keys: set<int>)
    requires Shape(t, k, n) && p <= |list| && RowsIn(list, n)
    requires forall i :: 0 <= i < p ==> (list[i] as int) in keys && forall a :: 0 <= a < k ==> t[a][list[i]] in keys
    ensures Distinct(Met(t, k, n, list, p)) && Elements(Met(t, k, n, list, p)) <= keys
  {
    if p > 0 {
      MetKeys(t, k, n, list, p - 1, keys);
      NotedKeys(Met(t, k, n, list, p - 1), [list[p - 1]], keys);
      NotedKeys(Noted(Met(t, k, n, list, p - 1), [list[p - 1]]), RowEntries(t, list[p - 1], k), keys);
    }
  }

  lemma {:induction false} MetGrows(t: Table, k: nat, n: nat, list: seq<nat>, p: nat, q: nat)
    requires Shape(t, k, n) && p <= q <= |list| && RowsIn(list, n)
    ensures Met(t, k, n, list, p) <= Met(t, k, n, list, q)
    decreases q - p
  {
    if p < q {
      hide *;
      MetNext(t, k, n, list, p);
      MetGrows(t, k, n, list, p + 1, q);
      PrefixTrans(Met(t, k, n, list, p), Met(t, k, n, list, p + 1), Met(t, k, n, list, q));
    }
  }

  lemma MetNext(t: Table, k: nat, n: nat, list: seq<nat>, p: nat)
    requires Shape(t, k, n) && p < |list| && RowsIn(list, n)
    ensures Met(t, k, n, list, p) <= Met(t, k, n, list, p + 1)
    ensures Noted(Met(t, k, n, list, p), [list[p]]) <= Met(t, k, n, list, p + 1)
  {
    hide Noted, RowEntries;
    var a, b, c := Met(t, k, n, list, p), Noted(Met(t, k, n, list, p), [list[p]]), Met(t, k, n, list, p + 1);
    PrefixTrans(a, b, c);
  }

  lemma PrefixTrans(a: seq<int>, b: seq<int>, c: seq<int>)
    requires a <= b <= c
    ensures a <= c
  {
  }

  /** Not more than the live cosets and `UNDEFINED` are met. */
  lemma MetBound(k: nat, c: Cosets, o: Order)
    requires Closed(c.tables.image, k, Size(o), Alive(c, o)) && Shape(c.tables.image, k, Size(o))
    requires Size(o) == |o.list| && Arranged(o.list, o.pos) && c.active <= |o.list|
    ensures RowsIn(o.list, Size(o)) && |Met(c.tables.image, k, Size(o), o.list, c.active)| <= c.active + 1
  {
    var t, keys := c.tables.image, Keys(o.list, c.active, true);
    forall i | 0 <= i < c.active ensures (o.list[i] as int) in keys && forall a :: 0 <= a < k ==> t[a][o.list[i]] in keys {
      EntryKeys(k, c, o, i);
    }
    hide Closed, Keys, Met;
    MetKeys(t, k, Size(o), o.list, c.active, keys);
    ElementsSize(Met(t, k, Size(o), o.list, c.active));
    KeysSize(o.list, o.pos, c.active, true);
    SubsetSize(Elements(Met(t, k, Size(o), o.list, c.active)), keys);
  }

  lemma EntryKeys(k: nat, c: Cosets, o: Order, i: nat)
    requires Closed(c.tables.image, k, Size(o), Alive(c, o)) && Shape(c.tables.image, k, Size(o))
    requires Size(o) == |o.list| && Arranged(o.list, o.pos) && i < c.active <= |o.list|
    ensures var keys := Keys(o.list, c.active, true); (o.list[i] as int) in keys && forall a :: 0 <= a < k ==> c.tables.image[a][o.list[i]] in keys
  {
    var t, live: seq<int> := c.tables.image, o.list[..c.active];
    assert live[i] in Elements(live);
    assert o.list[i] in Alive(c, o) by { assert o.pos[o.list[i]] == i; }
    forall a | 0 <= a < k && t[a][o.list[i]] != UNDEFINED ensures t[a][o.list[i]] in Elements(live) {
      var d: nat := t[a][o.list[i]];
      assert d in Alive(c, o) && live[o.pos[d]] == d;
    }
  }

  /** A live coset numbered past the others has been met after `UNDEFINED`. */
  lemma Overrun(k: nat, c: Cosets, o: Order, p: nat, names: seq<int>, lookup: Lookup)
    requires Closed(c.tables.image, k, Size(o), Alive(c, o)) && Shape(c.tables.image, k, Size(o))
    requires Size(o) == |o.list| && Arranged(o.list, o.pos) && p < c.active <= |o.list|
    requires RowsIn(o.list, Size(o))
    requires names == Noted(Met(c.tables.image, k, Size(o), o.list, p), [o.list[p]])
    requires Numbering(lookup, names) && (o.list[p] as int) in lookup && lookup[o.list[p]] >= c.active
    ensures !UndefinedLast(k, c, o)
  {
    hide *;
    NumberedAt(lookup, names, o.list[p]);
    MetBound(k, c, o);
    var before, after := Met(c.tables.image, k, Size(o), o.list, p + 1), Met(c.tables.image, k, Size(o), o.list, c.active);
    MetNext(c.tables.image, k, Size(o), o.list, p);
    MetGrows(c.tables.image, k, Size(o), o.list, p + 1, c.active);
    PrefixTrans(names, before, after);
    PrefixAt(names, after, lookup[o.list[p]]);
    NotLast(k, c, o, after);
  }

  lemma NotLast(k: nat, c: Cosets, o: Order, met: seq<int>)
    requires Shape(c.tables.image, k, Size(o)) && c.active <= |o.list| && RowsIn(o.list, Size(o))
    requires met == Met(c.tables.image, k, Size(o), o.list, c.active) && (|met| == c.active + 1 ==> met[c.active] >= 0)
    ensures !UndefinedLast(k, c, o)
  {
    hide Met;
  }

  lemma NumberedAt(lookup: Lookup, names: seq<int>, x: int)
    requires Numbering(lookup, names) && x in lookup
    ensures 0 <= lookup[x] < |names| && names[lookup[x]] == x
  {
  }

  lemma PrefixAt(a: seq<int>, b: seq<int>, i: nat)
    requires a <= b && i < |a|
    ensures i < |b| && b[i] == a[i]
  {
  }

  /** If all rows have been copied with an undefined entry about, `UNDEFINED` was met last. */
  lemma AllMet(k: nat, c: Cosets, o: Order, names: seq<int>, lookup: Lookup)
    requires Closed(c.tables.image, k, Size(o), Alive(c, o)) && Shape(c.tables.image, k, Size(o))
    requires Size(o) == |o.list| && Arranged(o.list, o.pos) && c.active <= |o.list|
    requires RowsIn(o.list, Size(o))
    requires names == Met(c.tables.image, k, Size(o), o.list, c.active)
    requires Numbering(lookup, names) && UNDEFINED in lookup && lookup[UNDEFINED] == c.active
    ensures UndefinedLast(k, c, o)
  {
    MetBound(k, c, o);
    hide Closed, Arranged, Noted, Met;
    assert names[c.active] == UNDEFINED;
  }

  /** Lines 240-247 and 252-259: the number of `x`, given one if it has none. */
  method Number(lookup: Lookup, x: int, next: nat, ghost names: seq<int>) returns (lookup': Lookup, index: int, next': nat, ghost names': seq<int>)
    requires Numbering(lookup, names) && next == |names|
    ensures Numbering(lookup', names') && next' == |names'| && x in lookup' && index == lookup'[x]
    ensures lookup'.Keys == lookup.Keys + {x} && forall y :: y in lookup ==> lookup'[y] == lookup[y]
    ensures names <= names' && names' == Noted(names, [x])
  {
    NotedOne(names, x);
    assert x in names <==> x in lookup;
    lookup', next', names' := lookup, next, names;
    if x !in lookup {
      lookup', index, next', names' := lookup[x := next], next, next + 1, names + [x];
    } else {
      index := lookup[x];
    }
  }

  /** The row of `pos` has been copied, renumbered, for the generators below `i`. */
  ghost predicate RowCopied(t: Table, t': Table, lookup: Lookup, k: nat, n: nat, n': nat, pos: nat, i: nat)
    requires Shape(t, k, n) && Shape(t', k, n') && pos < n
  {
    pos in lookup && 0 <= lookup[pos] < n' &&
    forall a :: 0 <= a < i && a < k ==> t[a][pos] in lookup && t'[a][lookup[pos]] == lookup[t[a][pos]]
  }

  /** Before the row of index `p` is copied: everything looked up so far, and the rows copied. */
  ghost predicate Copying(t: Table, t': Table, k: nat, n: nat, list: seq<nat>, pos: seq<nat>, m: nat,
                          lookup: Lookup, names: seq<int>, p: nat)
    requires Shape(t, k, n) && |list| == n && Arranged(list, pos) && p <= m <= n
  {
    && Shape(t', k, m) && Numbering(lookup, names)
    && (forall i :: 0 <= i < p ==> RowCopied(t, t', lookup, k, n, m, list[i], k))
    && (if p == 0 then names == [] else names != [] && names[0] == 0)
  }

  /** All keys so far are live cosets or entries of live rows. */
  ghost predicate KeysWithin(lookup: Lookup, t: Table, k: nat, n: nat, live: set<nat>)
    requires Closed(t, k, n, live)
  {
    forall x :: x in lookup ==> x == UNDEFINED || (x >= 0 && x in live)
  }

  lemma RowKept(t: Table, t': Table, t'': Table, lookup: Lookup, lookup': Lookup, k: nat, n: nat, n': nat, pos: nat, i: nat, row: int, a: nat)
    requires Shape(t, k, n) && Shape(t', k, n') && Shape(t'', k, n') && pos < n
    requires RowCopied(t, t', lookup, k, n, n', pos, i) && lookup.Keys <= lookup'.Keys && forall y :: y in lookup ==> lookup'[y] == lookup[y]
    requires forall b, r :: 0 <= b < k && 0 <= r < n' && !(b == a && r == row) ==> t''[b][r] == t'[b][r]
    requires lookup[pos] != row || a >= i
    ensures RowCopied(t, t'', lookup', k, n, n', pos, i)
  {
    forall b | 0 <= b < i && b < k ensures t[b][pos] in lookup' && t''[b][lookup'[pos]] == lookup'[t[b][pos]] {
      var r, x := lookup[pos], t[b][pos];
      assert x in lookup && lookup'[x] == lookup[x];
      assert lookup'[pos] == r && t''[b][r] == t'[b][r] && t'[b][r] == lookup[t[b][pos]];
    }
  }

  /** What is looked up has been looked up before, or is an entry of the row. */
  ghost predicate RowKeys(lookup0: Lookup, lookup: Lookup, t: Table, k: nat, pos: nat)
    requires k <= |t| && forall a :: 0 <= a < k ==> pos < |t[a]|
  {
    forall x :: x in lookup ==> x in lookup0 || exists a :: 0 <= a < k && t[a][pos] == x
  }

  lemma RowKeysStep(lookup0: Lookup, lookup: Lookup, lookup': Lookup, t: Table, k: nat, pos: nat, i: nat)
    requires k <= |t| && (forall a :: 0 <= a < k ==> pos < |t[a]|) && i < k
    requires RowKeys(lookup0, lookup, t, k, pos) && lookup'.Keys == lookup.Keys + {t[i][pos]}
    ensures RowKeys(lookup0, lookup', t, k, pos)
  {
  }

  /** The entries of the row for the generators below `i` have been copied from `t` into `t0`, which is now `t'`. */
  ghost predicate RowSoFar(t: Table, t0: Table, t': Table, k: nat, n: nat, m: nat, pos: nat,
                           lookup0: Lookup, lookup: Lookup, names0: seq<int>, names: seq<int>, i: nat)
    requires Shape(t, k, n) && Shape(t0, k, m) && pos < n && pos in lookup0 && i <= k
  {
    && Shape(t', k, m) && Numbering(lookup, names) && names0 <= names && names == Noted(names0, RowEntries(t, pos, i))
    && lookup0.Keys <= lookup.Keys && (forall y :: y in lookup0 ==> lookup[y] == lookup0[y])
    && RowKeys(lookup0, lookup, t, k, pos) && RowCopied(t, t', lookup, k, n, m, pos, i)
    && forall b, r :: 0 <= b < k && 0 <= r < m && r != lookup0[pos] ==> t'[b][r] == t0[b][r]
  }

  lemma RowNothing(t: Table, t0: Table, k: nat, n: nat, m: nat, pos: nat, lookup0: Lookup, names0: seq<int>)
    requires Shape(t, k, n) && Shape(t0, k, m) && pos < n && Numbering(lookup0, names0) && pos in lookup0 && lookup0[pos] < m
    ensures RowSoFar(t, t0, t0, k, n, m, pos, lookup0, lookup0, names0, names0, 0)
  {
    NotedNone(names0, t, pos);
    hide Noted, RowEntries;
  }

  lemma RowParts(t: Table, t0: Table, t': Table, k: nat, n: nat, m: nat, pos: nat,
                 lookup0: Lookup, lookup: Lookup, names0: seq<int>, names: seq<int>, i: nat)
    requires Shape(t, k, n) && Shape(t0, k, m) && pos < n && pos in lookup0 && i <= k
    requires RowSoFar(t, t0, t', k, n, m, pos, lookup0, lookup, names0, names, i)
    ensures Shape(t', k, m) && Numbering(lookup, names) && |t| == k && |t'| == k && (i < k ==> pos < |t[i]| && |t'[i]| == m)
    ensures pos in lookup && 0 <= lookup[pos] < m
  {
    hide Noted, RowEntries, RowKeys, Numbering;
  }

  lemma RowStep(t: Table, t0: Table, t': Table, k: nat, n: nat, m: nat, pos: nat,
                lookup0: Lookup, lookup: Lookup, lookup': Lookup, names0: seq<int>, names: seq<int>, names': seq<int>, i: nat)
    requires Shape(t, k, n) && Shape(t0, k, m) && pos < n && pos in lookup0 && i < k
    requires RowSoFar(t, t0, t', k, n, m, pos, lookup0, lookup, names0, names, i)
    requires Numbering(lookup', names') && names' == Noted(names, [t[i][pos]]) && names <= names'
    requires lookup'.Keys == lookup.Keys + {t[i][pos]} && forall y :: y in lookup ==> lookup'[y] == lookup[y]
    ensures pos in lookup' && 0 <= lookup'[pos] < m && |t'| == k && |t'[i]| == m
    ensures RowSoFar(t, t0, t'[i := t'[i][lookup'[pos] := lookup'[t[i][pos]]]], k, n, m, pos, lookup0, lookup', names0, names', i + 1)
  {
    hide *;
    RowParts(t, t0, t', k, n, m, pos, lookup0, lookup, names0, names, i);
    RowDone(t, t0, t', k, n, m, pos, lookup0, lookup, names0, names, i);
    NotedMore(names0, t, pos, i);
    NotedOne(names, t[i][pos]);
    RowKeysStep(lookup0, lookup, lookup', t, k, pos, i);
    var row, v := lookup[pos], lookup'[t[i][pos]];
    EntrySet(t', k, m, i, row, v);
    var t'' := t'[i := t'[i][row := v]];
    RowKept(t, t', t'', lookup, lookup', k, n, m, pos, i, row, i);
    CopiedStep(t, t'', lookup', k, n, m, pos, i);
    RowNow(t, t0, t', t'', k, n, m, pos, lookup0, lookup', names0, names', i + 1, i, row);
  }

  lemma EntrySet(t: Table, k: nat, m: nat, i: nat, row: int, v: int)
    requires Shape(t, k, m) && i < k && 0 <= row < m
    ensures |t| == k && |t[i]| == m
    ensures var t' := t[i := t[i][row := v]];
            Shape(t', k, m) && t'[i][row] == v && forall b, q :: 0 <= b < k && 0 <= q < m && !(b == i && q == row) ==> t'[b][q] == t[b][q]
  {
  }

  lemma CopiedStep(t: Table, t': Table, lookup: Lookup, k: nat, n: nat, m: nat, pos: nat, i: nat)
    requires Shape(t, k, n) && Shape(t', k, m) && pos < n && i < k && RowCopied(t, t', lookup, k, n, m, pos, i)
    requires t[i][pos] in lookup && t'[i][lookup[pos]] == lookup[t[i][pos]]
    ensures RowCopied(t, t', lookup, k, n, m, pos, i + 1)
  {
  }

  lemma RowNow(t: Table, t0: Table, t': Table, t'': Table, k: nat, n: nat, m: nat, pos: nat,
               lookup0: Lookup, lookup: Lookup, names0: seq<int>, names: seq<int>, upTo: nat, i: nat, row: int)
    requires Shape(t, k, n) && Shape(t0, k, m) && Shape(t', k, m) && pos < n && pos in lookup0 && upTo <= k && row == lookup0[pos]
    requires Shape(t'', k, m) && Numbering(lookup, names) && names0 <= names && names == Noted(names0, RowEntries(t, pos, upTo))
    requires lookup0.Keys <= lookup.Keys && (forall y :: y in lookup0 ==> lookup[y] == lookup0[y])
    requires RowKeys(lookup0, lookup, t, k, pos) && RowCopied(t, t'', lookup, k, n, m, pos, upTo)
    requires forall b, r :: 0 <= b < k && 0 <= r < m && r != row ==> t'[b][r] == t0[b][r]
    requires forall b, r :: 0 <= b < k && 0 <= r < m && !(b == i && r == row) ==> t''[b][r] == t'[b][r]
    ensures RowSoFar(t, t0, t'', k, n, m, pos, lookup0, lookup, names0, names, upTo)
  {
    hide Noted, RowEntries, RowKeys, Numbering, RowCopied;
  }

  lemma RowDone(t: Table, t0: Table, t': Table, k: nat, n: nat, m: nat, pos: nat,
                lookup0: Lookup, lookup: Lookup, names0: seq<int>, names: seq<int>, i: nat)
    requires Shape(t, k, n) && Shape(t0, k, m) && pos < n && pos in lookup0 && i <= k
    requires RowSoFar(t, t0, t', k, n, m, pos, lookup0, lookup, names0, names, i)
    ensures Shape(t', k, m) && Numbering(lookup, names) && names0 <= names && |t| == k && (forall a :: 0 <= a < k ==> pos < |t[a]|)
    ensures names == Noted(names0, RowEntries(t, pos, i))
    ensures lookup0.Keys <= lookup.Keys && forall y :: y in lookup0 ==> lookup[y] == lookup0[y]
    ensures RowKeys(lookup0, lookup, t, k, pos) && RowCopied(t, t', lookup, k, n, m, pos, i)
    ensures forall b, r :: 0 <= b < k && 0 <= r < m && r != lookup0[pos] ==> t'[b][r] == t0[b][r]
  {
    hide Noted, RowEntries, RowKeys, Numbering, RowCopied;
  }

  /** Copy one row, renumbering its entries (lines 250-261). */
  method CopyRow(t: Table, t0: Table, k: nat, lookup0: Lookup, next0: nat, pos: nat, ghost n: nat, ghost m: nat, ghost names0: seq<int>)
    returns (t': Table, lookup: Lookup, next: nat, ghost names: seq<int>)
    requires Shape(t, k, n) && Shape(t0, k, m) && pos < n
    requires Numbering(lookup0, names0) && next0 == |names0| && pos in lookup0 && lookup0[pos] < m
    ensures Shape(t', k, m) && Numbering(lookup, names) && next == |names| && names0 <= names && names == Noted(names0, RowEntries(t, pos, k))
    ensures lookup0.Keys <= lookup.Keys && forall y :: y in lookup0 ==> lookup[y] == lookup0[y]
    ensures RowKeys(lookup0, lookup, t, k, pos)
    ensures RowCopied(t, t', lookup, k, n, m, pos, k)
    ensures forall b, r :: 0 <= b < k && 0 <= r < m && r != lookup0[pos] ==> t'[b][r] == t0[b][r]
  {
    hide *;
    t', lookup, next, names := t0, lookup0, next0, names0;
    RowNothing(t, t0, k, n, m, pos, lookup0, names0);
    var i := 0;
    while i < k
      invariant 0 <= i <= k && next == |names| && RowSoFar(t, t0, t', k, n, m, pos, lookup0, lookup, names0, names, i)
    {
      RowParts(t, t0, t', k, n, m, pos, lookup0, lookup, names0, names, i);
      ghost var lookup1, names1 := lookup, names;
      var index;
      lookup, index, next, names := Number(lookup, t[i][pos], next, names);
      RowStep(t, t0, t', k, n, m, pos, lookup0, lookup1, lookup, names0, names1, names, i);
      t' := t'[i := t'[i][lookup[pos] := index]];
      i := i + 1;
    }
    RowDone(t, t0, t', k, n, m, pos, lookup0, lookup, names0, names, k);
  }

  /**
   * Renumber the live cosets in the order in which they are met (lines
   * 225-266).  `ok` is false when a row past the end of the new table would be
   * written: exactly when an entry is undefined, and one is met before the last
   * live coset.
   */
  method Compress(k: nat, c: Cosets, ghost o: Order) returns (ok: bool, t': Table, ghost sigma: Lookup, ghost names: seq<int>)
    requires StructureOk(k, c, o) && o.cur == c.active
    ensures ok ==> Shape(t', k, c.active) && Renumbered(k, c, o, t', sigma)
    ensures Full(k, c, o) ==> ok && Names(c, o, sigma, names)
    ensures ok && !Full(k, c, o) ==> exists a, r :: 0 <= a < k && 0 <= r < c.active && t'[a][r] == c.active
    ensures ok <==> Full(k, c, o) || UndefinedLast(k, c, o)
  {
    hide StructureOk, Full, Copying, Closed, UndefinedLast, Met, Noted, RowEntries, Shape, Arranged, At, Live, Numbering, RowCopied, Renumbered, Names, TablesOk, ListOk;
    CompressReady(k, c, o);
    ghost var t, n, m := c.tables.image, Size(o), c.active;
    t' := seq(k, a => seq(c.active, r => 0));
    sigma, ok, names := map[], false, [];
    var lookup: Lookup, next: nat, pos: int := map[], 0, 0;
    ghost var p: nat := 0;
    CopyingStart(t, t', k, n, o.list, o.pos, m);
    MetNothing(t, k, n, o.list);
    while pos != c.links.next
      invariant p <= m && pos == At(o.list, p) && next == |names| && names == Met(t, k, n, o.list, p)
      invariant Copying(t, t', k, n, o.list, o.pos, m, lookup, names, p)
      invariant KeysWithin(lookup, t, k, n, Alive(c, o)) && (UNDEFINED in lookup ==> !Full(k, c, o))
      decreases m - p
    {
      var index;
      CopyingParts(t, t', k, n, o.list, o.pos, m, lookup, names, p);
      ghost var lookup0, names0, t0 := lookup, names, t';
      lookup, index, next, names := Number(lookup, pos, next, names);
      TooManyNames(k, c, o, lookup, names, pos);
      if index >= c.active {
        Overrun(k, c, o, p, names, lookup);
        return;
      }
      ghost var lookup1, names1 := lookup, names;
      t', lookup, next, names := CopyRow(c.tables.image, t', k, lookup, next, pos, n, m, names);
      MetStep(t, k, n, o.list, p);
      KeysAfterRow(k, c, o, lookup1, lookup, pos);
      CopyingStep(t, t0, t', k, n, o.list, o.pos, m, lookup0, lookup1, lookup, names0, names1, names, p);
      pos, p := c.links.forwd[pos], p + 1;
    }
    ok, sigma := true, lookup;
    CopyingEnd(k, c, o, t', lookup, names);
  }

  lemma MetNothing(t: Table, k: nat, n: nat, list: seq<nat>)
    requires Shape(t, k, n) && RowsIn(list, n)
    ensures Met(t, k, n, list, 0) == []
  {
  }

  lemma MetStep(t: Table, k: nat, n: nat, list: seq<nat>, p: nat)
    requires Shape(t, k, n) && p < |list| && RowsIn(list, n)
    ensures |t| == k && (forall a :: 0 <= a < k ==> list[p] < |t[a]|)
    ensures Met(t, k, n, list, p + 1) == Noted(Noted(Met(t, k, n, list, p), [list[p]]), RowEntries(t, list[p], k))
  {
  }

  lemma CompressReady(k: nat, c: Cosets, o: Order)
    requires StructureOk(k, c, o)
    ensures Closed(c.tables.image, k, Size(o), Alive(c, o)) && Shape(c.tables.image, k, Size(o))
    ensures Size(o) == |o.list| == |c.links.forwd| && Arranged(o.list, o.pos) && 1 <= c.active <= |o.list|
    ensures RowsIn(o.list, Size(o))
    ensures At(o.list, 0) == 0 && c.links.next == At(o.list, c.active)
    ensures forall p :: 0 <= p < c.active ==> At(o.list, p) == o.list[p] && o.list[p] in Alive(c, o) && o.list[p] < |c.links.forwd| &&
                                              At(o.list, p) != c.links.next && c.links.forwd[o.list[p]] == At(o.list, p + 1)
  {
    StructureParts(k, c, o);
    TablesClosed(c.tables, k, Size(o), Alive(c, o), o.chains);
    hide StructureOk, TablesOk;
    ListSteps(c.links.forwd, c.links.bckwd, c.links.last, c.links.next, o.list, o.pos, c.active);
    ClosedShape(c.tables.image, k, Size(o), Alive(c, o));
  }

  lemma ListSteps(forwd: seq<int>, bckwd: seq<int>, last: int, next: int, list: seq<nat>, pos: seq<nat>, m: nat)
    requires ListOk(forwd, bckwd, last, next, list, pos, m)
    ensures |list| == |forwd| && Arranged(list, pos) && 1 <= m <= |list| && At(list, 0) == 0 && next == At(list, m)
    ensures forall p :: 0 <= p < m ==> At(list, p) == list[p] && list[p] in Live(pos, m) && list[p] < |forwd| &&
                                       At(list, p) != next && forwd[list[p]] == At(list, p + 1)
  {
    forall p | 0 <= p < m
      ensures At(list, p) == list[p] && list[p] in Live(pos, m) && list[p] < |forwd| && At(list, p) != next && forwd[list[p]] == At(list, p + 1) {
      assert pos[list[p]] == p;
      if m < |list| { assert pos[list[m]] == m; }
    }
  }

  lemma ClosedShape(t: Table, k: nat, n: nat, live: set<nat>)
    requires Closed(t, k, n, live)
    ensures Shape(t, k, n)
  {
  }

  lemma CopyingStart(t: Table, t': Table, k: nat, n: nat, list: seq<nat>, pos: seq<nat>, m: nat)
    requires Shape(t, k, n) && |list| == n && Arranged(list, pos) && m <= n && t' == seq(k, a => seq(m, r => 0))
    ensures Copying(t, t', k, n, list, pos, m, map[], [], 0)
  {
  }

  lemma CopyingParts(t: Table, t': Table, k: nat, n: nat, list: seq<nat>, pos: seq<nat>, m: nat, lookup: Lookup, names: seq<int>, p: nat)
    requires Shape(t, k, n) && |list| == n && Arranged(list, pos) && p <= m <= n
    requires Copying(t, t', k, n, list, pos, m, lookup, names, p)
    ensures Shape(t', k, m) && Numbering(lookup, names) && (p == 0 ==> names == [])
  {
  }

  lemma TooManyNames(k: nat, c: Cosets, o: Order, lookup: Lookup, names: seq<int>, pos: nat)
    requires Arranged(o.list, o.pos) && c.active <= |o.list| && Numbering(lookup, names) && pos in lookup
    requires forall x :: x in lookup ==> (x == UNDEFINED && !Full(k, c, o)) || (x >= 0 && x in Alive(c, o))
    ensures 0 <= lookup[pos] && (Full(k, c, o) ==> lookup[pos] < c.active)
  {
    if Full(k, c, o) {
      forall x | x in lookup ensures x in Keys(o.list, c.active, false) { assert o.list[..c.active][o.pos[x]] == x; }
      hide Full, Arranged;
      NamesBound(lookup, names, o.list, o.pos, c.active, false);
    }
  }

  lemma KeysAfterRow(k: nat, c: Cosets, o: Order, lookup0: Lookup, lookup: Lookup, pos: nat)
    requires Closed(c.tables.image, k, Size(o), Alive(c, o)) && pos in Alive(c, o)
    requires KeysWithin(lookup0, c.tables.image, k, Size(o), Alive(c, o)) && (UNDEFINED in lookup0 ==> !Full(k, c, o))
    requires RowKeys(lookup0, lookup, c.tables.image, k, pos)
    ensures KeysWithin(lookup, c.tables.image, k, Size(o), Alive(c, o)) && (UNDEFINED in lookup ==> !Full(k, c, o))
  {
  }

  lemma CopyingStep(t: Table, t0: Table, t': Table, k: nat, n: nat, list: seq<nat>, pos: seq<nat>, m: nat,
                    lookup0: Lookup, lookup1: Lookup, lookup: Lookup, names0: seq<int>, names1: seq<int>, names: seq<int>, p: nat)
    requires Shape(t, k, n) && |list| == n && Arranged(list, pos) && p < m <= n
    requires Copying(t, t0, k, n, list, pos, m, lookup0, names0, p) && Shape(t', k, m)
    requires Numbering(lookup1, names1) && Numbering(lookup, names) && names0 <= names1 <= names
    requires lookup1.Keys == lookup0.Keys + {list[p] as int} && forall y :: y in lookup0 ==> lookup1[y] == lookup0[y]
    requires lookup1.Keys <= lookup.Keys && forall y :: y in lookup1 ==> lookup[y] == lookup1[y]
    requires RowCopied(t, t', lookup, k, n, m, list[p], k)
    requires forall b, r :: 0 <= b < k && 0 <= r < m && r != lookup1[list[p]] ==> t'[b][r] == t0[b][r]
    requires p == 0 ==> list[0] == 0 && names0 == []
    ensures Copying(t, t', k, n, list, pos, m, lookup, names, p + 1)
  {
    forall i | 0 <= i < p + 1 ensures RowCopied(t, t', lookup, k, n, m, list[i], k) {
      if i < p {
        assert RowCopied(t, t0, lookup0, k, n, m, list[i], k);
        assert pos[list[i]] == i && pos[list[p]] == p;
        RowUntouched(t, t0, t', lookup0, lookup1, lookup, names1, k, n, m, list[i], list[p]);
      }
    }
  }

  lemma RowUntouched(t: Table, t0: Table, t': Table, lookup0: Lookup, lookup1: Lookup, lookup: Lookup, names1: seq<int>,
                     k: nat, n: nat, m: nat, x: nat, y: nat)
    requires Shape(t, k, n) && Shape(t0, k, m) && Shape(t', k, m) && x < n && x != y && Numbering(lookup1, names1) && y in lookup1
    requires RowCopied(t, t0, lookup0, k, n, m, x, k)
    requires lookup0.Keys <= lookup1.Keys <= lookup.Keys
    requires forall y :: y in lookup0 ==> lookup1[y] == lookup0[y]
    requires forall y :: y in lookup1 ==> lookup[y] == lookup1[y]
    requires forall b, r :: 0 <= b < k && 0 <= r < m && r != lookup1[y] ==> t'[b][r] == t0[b][r]
    ensures RowCopied(t, t', lookup, k, n, m, x, k)
  {
    var r := lookup0[x];
    assert lookup1[x] == r && names1[r] == x && names1[lookup1[y]] == y;
    forall b | 0 <= b < k ensures t[b][x] in lookup && t'[b][lookup[x]] == lookup[t[b][x]] {
      var z := t[b][x];
      assert z in lookup0 && lookup1[z] == lookup0[z] && lookup[z] == lookup1[z];
      assert t'[b][r] == t0[b][r];
    }
  }

  lemma CopyingEnd(k: nat, c: Cosets, o: Order, t': Table, lookup: Lookup, names: seq<int>)
    requires |o.list| == Size(o) && Arranged(o.list, o.pos) && 1 <= c.active <= Size(o) && o.list[0] == 0
    requires Closed(c.tables.image, k, Size(o), Alive(c, o))
    requires Copying(c.tables.image, t', k, Size(o), o.list, o.pos, c.active, lookup, names, c.active)
    requires KeysWithin(lookup, c.tables.image, k, Size(o), Alive(c, o)) && (UNDEFINED in lookup ==> !Full(k, c, o))
    requires Shape(c.tables.image, k, Size(o)) && RowsIn(o.list, Size(o))
    requires names == Met(c.tables.image, k, Size(o), o.list, c.active)
    ensures !Full(k, c, o) ==> UndefinedLast(k, c, o)
    ensures Shape(t', k, c.active) && Renumbered(k, c, o, t', lookup)
    ensures Full(k, c, o) ==> Names(c, o, lookup, names)
    ensures !Full(k, c, o) ==> exists a, r :: 0 <= a < k && 0 <= r < c.active && t'[a][r] == c.active
  {
    hide *;
    RowsCopied(k, c, o, t', lookup, names);
    CopiedRenumbered(k, c, o, t', lookup, names);
    CopiedKeys(k, c, o, lookup);
    if Full(k, c, o) {
      AllNamed(c, o, lookup, names);
    }
    UndefinedNumbered(k, c, o, t', lookup, names);
    if !Full(k, c, o) {
      AllMet(k, c, o, names, lookup);
    }
  }

  lemma AllNamed(c: Cosets, o: Order, lookup: Lookup, names: seq<int>)
    requires Arranged(o.list, o.pos) && c.active <= Size(o) && Numbering(lookup, names)
    requires forall x :: x in lookup ==> x >= 0 && x in Alive(c, o)
    requires forall x :: x in Alive(c, o) ==> x in lookup
    ensures Names(c, o, lookup, names)
  {
    forall x | x in lookup ensures x in Keys(o.list, c.active, false) { assert o.list[..c.active][o.pos[x]] == x; }
    forall x | x in Keys(o.list, c.active, false) ensures x in lookup {
      var i :| 0 <= i < c.active && o.list[..c.active][i] as int == x;
      assert o.list[i] in Alive(c, o);
    }
    NamesBound(lookup, names, o.list, o.pos, c.active, false);
    NamesEnough(lookup, names, o.list, o.pos, c.active, false);
  }

  lemma CopiedRenumbered(k: nat, c: Cosets, o: Order, t': Table, lookup: Lookup, names: seq<int>)
    requires Closed(c.tables.image, k, Size(o), Alive(c, o)) && Shape(t', k, c.active) && Numbering(lookup, names) && 0 in lookup && lookup[0] == 0
    requires forall x :: x in Alive(c, o) ==>
               x in lookup && 0 <= lookup[x] < c.active && x < Size(o) && RowCopied(c.tables.image, t', lookup, k, Size(o), c.active, x, k)
    ensures Renumbered(k, c, o, t', lookup)
  {
    assert forall x, y :: x in lookup && y in lookup && lookup[x] == lookup[y] ==> names[lookup[x]] == x && names[lookup[y]] == y;
  }

  lemma CopiedKeys(k: nat, c: Cosets, o: Order, lookup: Lookup)
    requires Closed(c.tables.image, k, Size(o), Alive(c, o))
    requires forall x :: x in Alive(c, o) ==> x in lookup
    requires KeysWithin(lookup, c.tables.image, k, Size(o), Alive(c, o)) && (UNDEFINED in lookup ==> !Full(k, c, o))
    ensures Full(k, c, o) ==> forall x :: x in lookup ==> x >= 0 && x in Alive(c, o)
  {
    hide Full, Closed, Alive;
  }

  lemma UndefinedNumbered(k: nat, c: Cosets, o: Order, t': Table, lookup: Lookup, names: seq<int>)
    requires Arranged(o.list, o.pos) && c.active <= Size(o) && Numbering(lookup, names)
    requires Closed(c.tables.image, k, Size(o), Alive(c, o)) && Shape(t', k, c.active)
    requires forall x :: x in Alive(c, o) ==>
               x in lookup && 0 <= lookup[x] < c.active && x < Size(o) && RowCopied(c.tables.image, t', lookup, k, Size(o), c.active, x, k)
    requires KeysWithin(lookup, c.tables.image, k, Size(o), Alive(c, o))
    ensures !Full(k, c, o) ==> exists a, r :: 0 <= a < k && 0 <= r < c.active && t'[a][r] == c.active
    ensures !Full(k, c, o) ==> UNDEFINED in lookup && lookup[UNDEFINED] == c.active
  {
    var t := c.tables.image;
    if !Full(k, c, o) {
      var a, x :| 0 <= a < k && x in Alive(c, o) && t[a][x] == UNDEFINED;
      assert RowCopied(t, t', lookup, k, Size(o), c.active, x, k);
      assert t[a][x] in lookup && t'[a][lookup[x]] == lookup[t[a][x]];
      hide Full, Closed, Alive, RowCopied, Arranged, Numbering;
      LastName(k, c, o, lookup, names);
    }
  }

  lemma RowsCopied(k: nat, c: Cosets, o: Order, t': Table, lookup: Lookup, names: seq<int>)
    requires Arranged(o.list, o.pos) && 1 <= c.active <= Size(o) && o.list[0] == 0
    requires Closed(c.tables.image, k, Size(o), Alive(c, o))
    requires Copying(c.tables.image, t', k, Size(o), o.list, o.pos, c.active, lookup, names, c.active)
    ensures Shape(t', k, c.active) && Numbering(lookup, names) && 0 in lookup && lookup[0] == 0
    ensures forall x :: x in Alive(c, o) ==>
               x in lookup && 0 <= lookup[x] < c.active && x < Size(o) && RowCopied(c.tables.image, t', lookup, k, Size(o), c.active, x, k)
  {
    var t, m := c.tables.image, c.active;
    forall x | x in Alive(c, o) ensures x in lookup && 0 <= lookup[x] < m && x < Size(o) && RowCopied(t, t', lookup, k, Size(o), m, x, k) {
      assert o.list[o.pos[x]] == x;
      assert RowCopied(t, t', lookup, k, Size(o), m, o.list[o.pos[x]], k);
    }
  }

  /** With an undefined entry about, `UNDEFINED` gets the number one past the live cosets. */
  lemma LastName(k: nat, c: Cosets, o: Order, lookup: Lookup, names: seq<int>)
    requires Arranged(o.list, o.pos) && c.active <= Size(o) && Numbering(lookup, names) && UNDEFINED in lookup
    requires forall x :: x in Alive(c, o) ==> x in lookup && 0 <= lookup[x] < c.active
    requires forall x :: x in lookup ==> x == UNDEFINED || (x >= 0 && x in Alive(c, o))
    ensures lookup[UNDEFINED] == c.active
  {
    var m := c.active;
    forall x | x in lookup ensures x in Keys(o.list, m, true) {
      if x != UNDEFINED { assert o.list[..m][o.pos[x]] == x; }
    }
    forall x | x in Keys(o.list, m, true) ensures x in lookup {
      if x != UNDEFINED {
        var i :| 0 <= i < m && o.list[..m][i] as int == x;
        assert o.list[i] in Alive(c, o);
      }
    }
    NamesBound(lookup, names, o.list, o.pos, m, true);
    NamesEnough(lookup, names, o.list, o.pos, m, true);
    assert names[m] in lookup && lookup[names[m]] == m;
  }

  /** `names` is the inverse of the renumbering `sigma`. */
  ghost predicate Names(c: Cosets, o: Order, sigma: Lookup, names: seq<int>) {
    && |names| == c.active
    && forall r :: 0 <= r < c.active ==> names[r] >= 0 && names[r] in Alive(c, o) && names[r] in sigma && sigma[names[r]] == r
  }

  /** `sigma` carries the live rows of the table to those of `t'`. */
  ghost predicate Renumbered(k: nat, c: Cosets, o: Order, t': Table, sigma: Lookup)
    requires Shape(t', k, c.active)
  {
    && |c.tables.image| == k
    && (forall x :: x in Alive(c, o) ==> x in sigma && 0 <= sigma[x] < c.active)
    && (0 in Alive(c, o) ==> sigma[0] == 0)
    && (forall x, y :: x in sigma && y in sigma && sigma[x] == sigma[y] ==> x == y)
    && (forall a, x :: 0 <= a < k && x in Alive(c, o) ==>
          x < |c.tables.image[a]| && c.tables.image[a][x] in sigma && t'[a][sigma[x]] == sigma[c.tables.image[a][x]])
  }
}
