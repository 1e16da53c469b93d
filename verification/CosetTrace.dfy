/**
 * Defining cosets, and applying a relation to a coset.
 * Lines cited here are those of src/cong/tc.cc.
 */
module CosetTrace {
  import opened Words
  import opened Derivations
  import opened CosetTable
  import opened CosetColumn
  import opened CosetList
  import opened CosetTables
  import opened CosetRows
  import opened CosetMeaning
  import opened CosetState

  // ----- taking a coset off the free list, or making one -----

  /** The entries of the live rows agree. */
  ghost predicate SameRows(t: Table, t': Table, k: nat, live: set<nat>)
    requires |t| == |t'| == k && forall a, y :: 0 <= a < k && y in live ==> y < |t[a]| && y < |t'[a]|
  {
    forall a, y :: 0 <= a < k && y in live ==> t'[a][y] == t[a][y]
  }

  /** `d` is live and has neither images nor preimages. */
  ghost predicate Isolated(t: Tables, k: nat, n: nat, chains: seq<seq<seq<nat>>>, d: nat) {
    && d < n && Columns(t, k) && |chains| == k
    && forall a :: 0 <= a < k ==> |t.image[a]| == n && |t.init[a]| >= n && |t.next[a]| >= n && |chains[a]| == n &&
                                  t.image[a][d] == UNDEFINED && t.init[a][d] == UNDEFINED && chains[a][d] == []
  }

  /** The list and marker up to the old end are unchanged. */
  ghost predicate Extends(o: Order, m: nat, o': Order) {
    && o'.cur == o.cur && m <= |o.list| <= |o'.list|
    && forall i :: 0 <= i < m ==> o'.list[i] == o.list[i]
  }

  /** Lines 327-342: make sure there is a free coset `_next` and put it at the end of the active list. */
  method Reserve(k: nat, c: Cosets, ghost o: Order) returns (links: Links, tables: Tables, ghost o': Order)
    requires StructureOk(k, c, o) && o.cur < c.active
    ensures links.last > 0 && links.last !in Alive(c, o) && links.last < Size(o') && Extends(o, c.active, o')
    ensures LinksIn(links, o', c.active + 1) && Live(o'.pos, c.active + 1) == Alive(c, o) + {links.last as nat}
    ensures c.active + 1 <= Size(o')
    ensures |o'.pos| == |links.forwd| == |links.bckwd| == Size(o') && c.current == At(o'.list, o'.cur)
    ensures TablesOk(tables, k, Size(o'), Alive(c, o), o'.chains)
    ensures Closed(c.tables.image, k, Size(o), Alive(c, o)) && Closed(tables.image, k, Size(o'), Alive(c, o))
    ensures SameRows(c.tables.image, tables.image, k, Alive(c, o))
  {
    StructureParts(k, c, o);
    TablesClosed(c.tables, k, Size(o), Alive(c, o), o.chains);
    var Links(forwd, bckwd, last, next) := c.links;
    tables, o' := c.tables, o;
    if next == UNDEFINED {
      AppendOk(forwd, bckwd, last, next, o.list, o.pos, c.active);
      AddRowOk(c.tables, k, Size(o), Alive(c, o), o.chains);
      hide ListOk, TablesOk;
      next := c.active;
      forwd := forwd[last := next] + [UNDEFINED];
      bckwd := bckwd + [last];
      tables := AddRow(tables, k);
      o' := Order(o.list + [c.active], o.pos + [c.active], seq(k, i requires 0 <= i < k => o.chains[i] + [[]]), o.cur);
    } else {
      RecycleOk(forwd, bckwd, last, next, o.list, o.pos, c.active);
      hide ListOk, TablesOk;
      bckwd := bckwd[next := last];
    }
    TablesClosed(tables, k, Size(o'), Alive(c, o), o'.chains);
    links := Links(forwd, bckwd, next, forwd[next]);
  }

  /** Lines 327-348: a coset with an empty row joins the active list. */
  method TakeCoset(k: nat, c: Cosets, ghost o: Order) returns (c': Cosets, ghost o': Order)
    requires StructureOk(k, c, o) && o.cur < c.active
    ensures StructureOk(k, c', o') && c'.active == c.active + 1 && Extends(o, c.active, o')
    ensures c'.links.last > 0 && c'.links.last !in Alive(c, o) && Alive(c', o') == Alive(c, o) + {c'.links.last as nat}
    ensures Isolated(c'.tables, k, Size(o'), o'.chains, c'.links.last)
    ensures Closed(c.tables.image, k, Size(o), Alive(c, o)) && Closed(c'.tables.image, k, Size(o'), Alive(c', o'))
    ensures SameRows(c.tables.image, c'.tables.image, k, Alive(c, o))
  {
    hide ListOk, TablesOk, Live, At;
    var links, tables;
    links, tables, o' := Reserve(k, c, o);
    TablesSizes(tables, k, Size(o'), Alive(c, o), o'.chains);
    TablesColumns(tables, k, Size(o'), Alive(c, o), o'.chains);
    var d: nat := links.last;
    var tables' := ClearRow(tables, k, d, Size(o'));
    ClearRowOk(tables, tables', k, Size(o'), Alive(c, o), o'.chains, d);
    o' := o'.(chains := seq(k, i requires 0 <= i < k => o'.chains[i][d := []]));
    TablesClosed(tables', k, Size(o'), Alive(c, o) + {d}, o'.chains);
    TablesSizes(tables', k, Size(o'), Alive(c, o) + {d}, o'.chains);
    c' := Cosets(c.active + 1, c.current, links, tables');
  }

  lemma TablesColumns(t: Tables, k: nat, n: nat, live: set<nat>, chains: seq<seq<seq<nat>>>)
    requires TablesOk(t, k, n, live, chains)
    ensures Columns(t, k) && |chains| == k
  {
  }

  // ----- edges -----

  ghost predicate GrownTo(k: nat, c: Cosets, o: Order, c': Cosets, o': Order) {
    && Closed(c.tables.image, k, Size(o), Alive(c, o)) && Closed(c'.tables.image, k, Size(o'), Alive(c', o'))
    && Grown(c.tables.image, k, Size(o), Alive(c, o), c'.tables.image, Size(o'), Alive(c', o'))
    && Extends(o, c.active, o')
  }

  /** Replacing the tables keeps the structure when the column invariants hold. */
  lemma SetTables(k: nat, c: Cosets, o: Order, t: Tables, chains: seq<seq<seq<nat>>>)
    requires StructureOk(k, c, o) && TablesOk(t, k, Size(o), Alive(c, o), chains)
    ensures StructureOk(k, c.(tables := t), o.(chains := chains))
  {
  }

  /** Nothing but the entry of `x` under `a` differs. */
  ghost predicate OneEdge(t: Table, t': Table, k: nat, live: set<nat>, a: nat, x: nat, d: nat)
    requires |t| == |t'| == k && forall b, y :: 0 <= b < k && y in live ==> y < |t[b]| && y < |t'[b]|
  {
    forall b, y :: 0 <= b < k && y in live ==> t'[b][y] == if b == a && y == x then d else t[b][y]
  }

  /** Give `x`, which has no image under `a`, the live image `d` (lines 543-552). */
  method AddEdge(k: nat, c: Cosets, x: nat, a: nat, d: nat, ghost o: Order) returns (c': Cosets, ghost o': Order)
    requires StructureOk(k, c, o) && a < k && x in Alive(c, o) && d in Alive(c, o) && d > 0
    requires x < Size(o) && |c.tables.image| == k && |c.tables.image[a]| == Size(o) && c.tables.image[a][x] == UNDEFINED
    ensures StructureOk(k, c', o') && c' == c.(tables := c'.tables) && o' == o.(chains := o'.chains)
    ensures Closed(c.tables.image, k, Size(o), Alive(c, o)) && Closed(c'.tables.image, k, Size(o), Alive(c, o))
    ensures OneEdge(c.tables.image, c'.tables.image, k, Alive(c, o), a, x, d)
    ensures |o.chains| == |o'.chains| == k && |o.chains[a]| == Size(o) && d < Size(o)
    ensures o'.chains == o.chains[a := o.chains[a][d := [x] + o.chains[a][d]]]
    ensures c'.tables.image[a][x] == d
  {
    TablesSizes(c.tables, k, Size(o), Alive(c, o), o.chains);
    TablesColumns(c.tables, k, Size(o), Alive(c, o), o.chains);
    TablesClosed(c.tables, k, Size(o), Alive(c, o), o.chains);
    hide ListOk, TablesOk, Live, Alive;
    LinkOk(c.tables, k, Size(o), Alive(c, o), o.chains, a, x, d);
    var t := c.tables;
    t := Tables(t.image[a := t.image[a][x := d]], t.init, t.next);
    t := Tables(t.image, t.init, t.next[a := t.next[a][x := t.init[a][d]]]);
    t := Tables(t.image, t.init[a := t.init[a][d := x]], t.next);
    c' := c.(tables := t);
    o' := o.(chains := o.chains[a := o.chains[a][d := [x] + o.chains[a][d]]]);
    SetTables(k, c, o, t, o'.chains);
    TablesClosed(t, k, Size(o), Alive(c, o), o'.chains);
  }

  /** Create a new active coset for `x` to map to under `a` (lines 322-356). */
  method NewCoset(k: nat, c: Cosets, x: nat, a: nat, ghost o: Order, ghost s: System, ghost rep: seq<Word>)
    returns (c': Cosets, ghost o': Order, ghost rep': seq<Word>)
    requires StructureOk(k, c, o) && o.cur < c.active && Meaning(s, k, c, o, rep)
    requires x in Alive(c, o) && a < k
    requires x < Size(o) && |c.tables.image| == k && |c.tables.image[a]| == Size(o) && c.tables.image[a][x] == UNDEFINED
    ensures StructureOk(k, c', o') && c'.active == c.active + 1 && Meaning(s, k, c', o', rep')
    ensures GrownTo(k, c, o, c', o')
    ensures c'.links.last > 0 && c'.links.last !in Alive(c, o) && Alive(c', o') == Alive(c, o) + {c'.links.last as nat}
    ensures OneEdge(c.tables.image, c'.tables.image, k, Alive(c, o), a, x, c'.links.last)
    ensures c'.tables.image[a][x] == c'.links.last
    ensures |o'.chains| == k && |o'.chains[a]| == Size(o') && o'.chains[a][c'.links.last] == [x]
    ensures |rep'| == |o'.pos| && x < |rep| <= |rep'| && rep'[c'.links.last] == rep[x] + [a] && forall y :: y in Alive(c, o) ==> rep'[y] == rep[y]
  {
    var c1;
    ghost var o1;
    hide Extends, StructureOk, Isolated, Meaning, Closed, OneEdge, SameRows, Alive, GrownTo;
    c1, o1 := TakeCoset(k, c, o);
    ghost var d: nat := c1.links.last;
    IsolatedParts(c1.tables, k, Size(o1), o1.chains, d, a);
    SameRowsEntry(k, c, o, c1, o1, a, x);
    c', o' := AddEdge(k, c1, x, a, c1.links.last, o1);
    SizesAgree(k, c, o, c1, o1, s, rep);
    rep' := (rep + seq(Size(o1) - Size(o), i => []))[d := rep[x] + [a]];
    NewCosetDone(k, c, o, c1, o1, c', o', s, rep, rep', x, a, d);
  }

  lemma IsolatedParts(t: Tables, k: nat, n: nat, chains: seq<seq<seq<nat>>>, d: nat, a: nat)
    requires Isolated(t, k, n, chains, d) && a < k
    ensures d < n && |t.image| == k && |t.image[a]| == n && |chains| == k && |chains[a]| == n && chains[a][d] == []
  {
  }

  lemma SizesAgree(k: nat, c: Cosets, o: Order, c1: Cosets, o1: Order, s: System, rep: seq<Word>)
    requires StructureOk(k, c, o) && StructureOk(k, c1, o1) && Meaning(s, k, c, o, rep) && Extends(o, c.active, o1)
    ensures |rep| == Size(o) == |o.pos| <= Size(o1) == |o1.pos|
  {
  }

  lemma NewCosetDone(k: nat, c: Cosets, o: Order, c1: Cosets, o1: Order, c': Cosets, o': Order,
                     s: System, rep: seq<Word>, rep': seq<Word>, x: nat, a: nat, d: nat)
    requires StructureOk(k, c, o) && Meaning(s, k, c, o, rep) && Extends(o, c.active, o1)
    requires x in Alive(c, o) && a < k && d !in Alive(c, o) && Alive(c1, o1) == Alive(c, o) + {d} && d < Size(o1)
    requires Closed(c.tables.image, k, Size(o), Alive(c, o)) && Closed(c1.tables.image, k, Size(o1), Alive(c1, o1))
    requires c.tables.image[a][x] == UNDEFINED
    requires SameRows(c.tables.image, c1.tables.image, k, Alive(c, o)) && Isolated(c1.tables, k, Size(o1), o1.chains, d)
    requires c' == c1.(tables := c'.tables) && o' == o1.(chains := o'.chains)
    requires Closed(c'.tables.image, k, Size(o1), Alive(c1, o1))
    requires OneEdge(c1.tables.image, c'.tables.image, k, Alive(c1, o1), a, x, d)
    requires |rep| == Size(o) <= Size(o1) == |rep'| && x < |rep|
    requires rep' == (rep + seq(Size(o1) - Size(o), i => []))[d := rep[x] + [a]]
    ensures Alive(c', o') == Alive(c, o) + {d} && GrownTo(k, c, o, c', o') && Meaning(s, k, c', o', rep')
    ensures OneEdge(c.tables.image, c'.tables.image, k, Alive(c, o), a, x, d)
    ensures forall y :: y in Alive(c, o) ==> y < |rep| && rep'[y] == rep[y]
  {
    assert Alive(c', o') == Alive(c1, o1);
    hide StructureOk, Alive, Extends, MeaningOk;
    EdgeAfterRow(c.tables.image, c1.tables, c'.tables.image, k, Size(o), Size(o1), Alive(c, o), o1.chains, a, x, d);
    hide Isolated, SameRows;
    NewCosetMeaning(s, k, c.tables.image, Size(o), Alive(c, o), rep, c'.tables.image, Size(o'), rep', a, x, d);
    ExtendsChains(o, c.active, o1, o');
  }

  lemma EdgeAfterRow(t: Table, t1: Tables, t': Table, k: nat, n: nat, n1: nat, live: set<nat>, chains: seq<seq<seq<nat>>>, a: nat, x: nat, d: nat)
    requires Closed(t, k, n, live) && Closed(t1.image, k, n1, live + {d}) && Closed(t', k, n1, live + {d}) && n <= n1
    requires SameRows(t, t1.image, k, live) && Isolated(t1, k, n1, chains, d)
    requires OneEdge(t1.image, t', k, live + {d}, a, x, d) && x in live && d !in live
    ensures OneEdge(t, t', k, live, a, x, d)
    ensures forall b :: 0 <= b < k ==> t'[b][d] == UNDEFINED
  {
  }

  lemma ExtendsChains(o: Order, m: nat, o1: Order, o': Order)
    requires Extends(o, m, o1) && o' == o1.(chains := o'.chains)
    ensures Extends(o, m, o')
  {
  }

  lemma SameRowsEntry(k: nat, c: Cosets, o: Order, c': Cosets, o': Order, a: nat, x: nat)
    requires Closed(c.tables.image, k, Size(o), Alive(c, o)) && Closed(c'.tables.image, k, Size(o'), Alive(c', o'))
    requires Alive(c, o) <= Alive(c', o')
    requires SameRows(c.tables.image, c'.tables.image, k, Alive(c, o)) && a < k && x in Alive(c, o)
    ensures x in Alive(c', o') && x < Size(o') && |c'.tables.image[a]| == Size(o') && c'.tables.image[a][x] == c.tables.image[a][x]
  {
  }

  lemma GrownToTrans(k: nat, c: Cosets, o: Order, c1: Cosets, o1: Order, c2: Cosets, o2: Order)
    requires GrownTo(k, c, o, c1, o1) && GrownTo(k, c1, o1, c2, o2) && c.active <= c1.active
    ensures GrownTo(k, c, o, c2, o2)
  {
    assert Extends(o, c.active, o2);
    hide Extends, Alive, Closed;
    GrownTrans(c.tables.image, k, Size(o), Alive(c, o), c1.tables.image, Size(o1), Alive(c1, o1), c2.tables.image, Size(o2), Alive(c2, o2));
  }

  lemma GrownToRefl(k: nat, c: Cosets, o: Order)
    requires StructureOk(k, c, o)
    ensures GrownTo(k, c, o, c, o)
  {
    TablesClosed(c.tables, k, Size(o), Alive(c, o), o.chains);
  }

  lemma EdgeGrownTo(k: nat, c: Cosets, o: Order, c': Cosets, o': Order, a: nat, x: nat, d: nat)
    requires Closed(c.tables.image, k, Size(o), Alive(c, o)) && Closed(c'.tables.image, k, Size(o), Alive(c, o))
    requires c' == c.(tables := c'.tables) && o' == o.(chains := o'.chains) && c.active <= Size(o)
    requires OneEdge(c.tables.image, c'.tables.image, k, Alive(c, o), a, x, d) && a < k && x in Alive(c, o) && c.tables.image[a][x] == UNDEFINED
    ensures GrownTo(k, c, o, c', o')
  {
    assert Alive(c', o') == Alive(c, o);
  }

  lemma RunGrownTo(k: nat, c: Cosets, o: Order, c': Cosets, o': Order, x: nat, w: Word)
    requires GrownTo(k, c, o, c', o') && x in Alive(c, o) && Run(c.tables.image, x, w) != UNDEFINED
    ensures Run(c'.tables.image, x, w) == Run(c.tables.image, x, w)
  {
    GrownRun(c.tables.image, k, Size(o), Alive(c, o), c'.tables.image, Size(o'), Alive(c', o'), x, w);
  }

  lemma RunStep(k: nat, c: Cosets, o: Order, x: nat, w: Word, a: Letter, y: int)
    requires Closed(c.tables.image, k, Size(o), Alive(c, o)) && x in Alive(c, o) && a < k
    requires Run(c.tables.image, x, w) == y && y in Alive(c, o)
    ensures Run(c.tables.image, x, w + [a]) == c.tables.image[a][y]
  {
    RunAppend(c.tables.image, x, w, [a]);
    assert Run(c.tables.image, y, [a]) == Run(c.tables.image, c.tables.image[a][y], [a][1..]);
  }

  lemma EntryLive(k: nat, c: Cosets, o: Order, y: nat, a: nat)
    requires StructureOk(k, c, o) && y in Alive(c, o) && a < k
    ensures Closed(c.tables.image, k, Size(o), Alive(c, o))
    ensures y < Size(o) && |c.tables.image| == k && |c.tables.image[a]| == Size(o)
    ensures c.tables.image[a][y] == UNDEFINED || (c.tables.image[a][y] > 0 && c.tables.image[a][y] in Alive(c, o))
  {
    TablesClosed(c.tables, k, Size(o), Alive(c, o), o.chains);
  }

  /** Read `w` from `x`, defining new cosets where entries are missing (lines 477-487, 490-500). */
  method TracePath(k: nat, c: Cosets, x: nat, w: Word, ghost o: Order, ghost s: System, ghost rep: seq<Word>)
    returns (c': Cosets, y: nat, ghost o': Order, ghost rep': seq<Word>)
    requires StructureOk(k, c, o) && o.cur < c.active && Meaning(s, k, c, o, rep) && x in Alive(c, o) && Over(k, w)
    ensures StructureOk(k, c', o') && Meaning(s, k, c', o', rep') && GrownTo(k, c, o, c', o')
    ensures c.active <= c'.active && o'.cur < c'.active
    ensures y in Alive(c', o') && Run(c'.tables.image, x, w) == y
    ensures Alive(c, o) <= Alive(c', o')
    ensures Full(k, c, o) || Run(c.tables.image, x, w) != UNDEFINED ==> c' == c && o' == o
  {
    hide *;
    c', o', rep', y := c, o, rep, x;
    GrownToRefl(k, c, o);
    RunNone(c.tables.image, x, w);
    var i := 0;
    while i < |w|
      invariant 0 <= i <= |w|
      invariant StructureOk(k, c', o') && Meaning(s, k, c', o', rep') && GrownTo(k, c, o, c', o')
      invariant c.active <= c'.active && o'.cur == o.cur && Alive(c, o) <= Alive(c', o')
      invariant y in Alive(c', o') && Run(c'.tables.image, x, w[..i]) == y
      invariant Full(k, c, o) || Run(c.tables.image, x, w) != UNDEFINED ==> c' == c && o' == o
    {
      var a := w[i];
      LetterAt(k, w, i);
      EntryLive(k, c', o', y, a);
      RunStep(k, c', o', x, w[..i], a, y);
      if c'.tables.image[a][y] != UNDEFINED {
        y := c'.tables.image[a][y];
      } else {
        ghost var c1, o1 := c', o';
        GapLeft(k, c1, o1, y, a);
        RunsOff(c'.tables.image, x, w, i + 1);
        c', o', rep' := NewCoset(k, c', y, a, o', s, rep');
        IsDefined(y);
        RunGrownTo(k, c1, o1, c', o', x, w[..i]);
        GrownToTrans(k, c, o, c1, o1, c', o');
        GrownToCur(k, c1, o1, c', o');
        EntryLive(k, c', o', y, a);
        RunStep(k, c', o', x, w[..i], a, y);
        y := c'.links.last;
      }
      i := i + 1;
    }
    assert w[..i] == w;
  }

  lemma IsDefined(y: nat)
    ensures y != UNDEFINED
  {
  }

  lemma RunNone(t: Table, x: int, w: Word)
    ensures Run(t, x, w[..0]) == x
  {
  }

  lemma LetterAt(k: nat, w: Word, i: nat)
    requires i < |w| && Over(k, w)
    ensures w[i] < k && w[..i + 1] == w[..i] + [w[i]]
  {
  }

  lemma GapLeft(k: nat, c: Cosets, o: Order, y: nat, a: nat)
    requires StructureOk(k, c, o) && y in Alive(c, o) && a < k && y < Size(o) && |c.tables.image| == k && |c.tables.image[a]| == Size(o)
    requires c.tables.image[a][y] == UNDEFINED
    ensures !Full(k, c, o)
  {
    hide StructureOk;
  }

  lemma RunsOff(t: Table, x: int, w: Word, i: nat)
    requires i <= |w| && Run(t, x, w[..i]) == UNDEFINED
    ensures Run(t, x, w) == UNDEFINED
  {
    assert w == w[..i] + w[i..];
    RunAppend(t, x, w[..i], w[i..]);
  }

  lemma GrownToCur(k: nat, c: Cosets, o: Order, c': Cosets, o': Order)
    requires GrownTo(k, c, o, c', o')
    ensures o'.cur == o.cur && Alive(c, o) <= Alive(c', o')
    ensures Closed(c.tables.image, k, Size(o), Alive(c, o)) && Closed(c'.tables.image, k, Size(o'), Alive(c', o'))
  {
  }

  // ----- applying one relation -----

  /** Growing first and then taking a quotient is a quotient. */
  lemma GrownBecame(k: nat, c: Cosets, o: Order, c1: Cosets, o1: Order, c': Cosets, o': Order, phi: seq<nat>)
    requires GrownTo(k, c, o, c1, o1) && Became(k, c1, o1, c', o', phi) && o.cur < c.active
    requires 0 in Alive(c, o) && |phi| == Size(o1)
    ensures |phi[..Size(o)]| == Size(o) && Became(k, c, o, c', o', phi[..Size(o)])
  {
    var phi' := phi[..Size(o)];
    var t, t1, t' := c.tables.image, c1.tables.image, c'.tables.image;
    forall a, x | 0 <= a < k && x in Alive(c, o) && t[a][x] != UNDEFINED ensures t'[a][phi'[x]] == phi'[t[a][x]] {
      assert t1[a][x] == t[a][x];
    }
    assert MarkerWithin(o.list, o.cur, o'.list, o'.cur) by {
      assert o1.list[..o.cur] == o.list[..o.cur] && o1.list[..o.cur + 1] == o.list[..o.cur + 1];
    }
  }

  lemma GrownOnly(k: nat, c: Cosets, o: Order, c': Cosets, o': Order)
    requires GrownTo(k, c, o, c', o') && StructureOk(k, c', o') && o.cur < c.active <= c'.active && 0 in Alive(c, o)
    ensures Size(o) <= Size(o') && Became(k, c, o, c', o', Identity(Size(o)))
  {
    hide StructureOk;
    IdentifyNothing(k, c', o');
    IdentityPrefix(Size(o), Size(o'));
    hide Became, GrownTo;
    GrownBecame(k, c, o, c', o', c', o', Identity(Size(o')));
  }

  lemma IdentityPrefix(n: nat, n': nat)
    requires n <= n'
    ensures |Identity(n')| == n' && Identity(n')[..n] == Identity(n)
  {
  }

  /** Both last letters lack an image: one new coset for both (lines 528-539). */
  method DefineBoth(k: nat, c: Cosets, lhs: nat, a: nat, rhs: nat, b: nat, ghost o: Order, ghost s: System, ghost rep: seq<Word>)
    returns (c': Cosets, ghost o': Order, ghost rep': seq<Word>)
    requires StructureOk(k, c, o) && o.cur < c.active && Meaning(s, k, c, o, rep) && Symmetric(s)
    requires lhs in Alive(c, o) && rhs in Alive(c, o) && a < k && b < k
    requires Closed(c.tables.image, k, Size(o), Alive(c, o)) && |rep| == Size(o)
    requires c.tables.image[a][lhs] == UNDEFINED && c.tables.image[b][rhs] == UNDEFINED
    requires Derives(s, rep[lhs] + [a], rep[rhs] + [b])
    ensures StructureOk(k, c', o') && Meaning(s, k, c', o', rep') && GrownTo(k, c, o, c', o') && c'.active == c.active + 1
    ensures Closed(c'.tables.image, k, Size(o'), Alive(c', o')) && lhs in Alive(c', o') && rhs in Alive(c', o')
    ensures c'.tables.image[a][lhs] == c'.tables.image[b][rhs] != UNDEFINED
  {
    hide StructureOk, Meaning, GrownTo, Alive, Closed;
    EntryLive(k, c, o, lhs, a);
    EntryLive(k, c, o, rhs, b);
    var c1;
    ghost var o1;
    c1, o1, rep' := NewCoset(k, c, lhs, a, o, s, rep);
    GrownToCur(k, c, o, c1, o1);
    EntryLive(k, c1, o1, lhs, a);
    EntryLive(k, c1, o1, rhs, b);
    if a == b {
      c', o' := LinkSecondPreimage(k, c1, lhs, rhs, a, o1);
    } else {
      c', o' := AddEdge(k, c1, rhs, b, c1.links.last, o1);
    }
    StructureParts(k, c1, o1);
    DefinedBoth(k, c, o, c1, o1, c', o', s, rep, rep', lhs, a, rhs, b);
  }

  /** Lines 533-538: `rhs` becomes the second preimage of the new coset, unless it is `lhs` itself. */
  method LinkSecondPreimage(k: nat, c: Cosets, lhs: nat, rhs: nat, a: nat, ghost o: Order) returns (c': Cosets, ghost o': Order)
    requires StructureOk(k, c, o) && lhs in Alive(c, o) && rhs in Alive(c, o) && a < k
    requires c.links.last > 0 && c.links.last in Alive(c, o) && c.links.last < Size(o)
    requires |c.tables.image| == k && |c.tables.image[a]| == Size(o) && lhs < Size(o) && rhs < Size(o)
    requires c.tables.image[a][lhs] == c.links.last && (rhs != lhs ==> c.tables.image[a][rhs] == UNDEFINED)
    requires |o.chains| == k && |o.chains[a]| == Size(o) && o.chains[a][c.links.last] == [lhs]
    ensures StructureOk(k, c', o') && c' == c.(tables := c'.tables) && o' == o.(chains := o'.chains)
    ensures Closed(c.tables.image, k, Size(o), Alive(c, o)) && Closed(c'.tables.image, k, Size(o), Alive(c, o))
    ensures rhs == lhs ==> c'.tables.image == c.tables.image
    ensures rhs != lhs ==> OneEdge(c.tables.image, c'.tables.image, k, Alive(c, o), a, rhs, c.links.last)
    ensures c'.tables.image[a][rhs] == c.links.last
  {
    TablesSizes(c.tables, k, Size(o), Alive(c, o), o.chains);
    TablesColumns(c.tables, k, Size(o), Alive(c, o), o.chains);
    TablesClosed(c.tables, k, Size(o), Alive(c, o), o.chains);
    hide ListOk, Live, Alive;
    var d: nat := c.links.last;
    c' := c.(tables := LinkBehind(c.tables, a, lhs, rhs, d));
    if lhs == rhs {
      SinglePreimage(c.tables, k, Size(o), Alive(c, o), o.chains, a, lhs, d);
      assert c'.tables.image[a] == c.tables.image[a] && c'.tables.next[a] == c.tables.next[a];
      assert c'.tables.image == c.tables.image && c'.tables.next == c.tables.next;
      o' := o;
    } else {
      hide TablesOk;
      LinkBehindOk(c.tables, k, Size(o), Alive(c, o), o.chains, a, lhs, rhs, d);
      o' := o.(chains := o.chains[a := o.chains[a][d := [lhs, rhs]]]);
      SetTables(k, c, o, c'.tables, o'.chains);
      TablesClosed(c'.tables, k, Size(o), Alive(c, o), o'.chains);
    }
  }

  lemma SinglePreimage(t: Tables, k: nat, n: nat, live: set<nat>, chains: seq<seq<seq<nat>>>, a: nat, b: nat, d: nat)
    requires TablesOk(t, k, n, live, chains) && a < k && d in live && d < |chains[a]| && chains[a][d] == [b]
    ensures b < |t.next[a]| && t.next[a][b] == UNDEFINED
  {
    assert ColumnOk(t, k, n, live, chains, a);
    assert Chained(ColumnOf(t, a), n, live, d, chains[a][d]);
    ChainNext(ColumnOf(t, a), n, live, d, chains[a][d], 0);
  }

  lemma DefinedBoth(k: nat, c: Cosets, o: Order, c1: Cosets, o1: Order, c': Cosets, o': Order, s: System,
                    rep: seq<Word>, rep': seq<Word>, lhs: nat, a: nat, rhs: nat, b: nat)
    requires StructureOk(k, c1, o1) && Meaning(s, k, c1, o1, rep') && GrownTo(k, c, o, c1, o1) && Symmetric(s)
    requires lhs in Alive(c, o) && rhs in Alive(c, o) && a < k && b < k && c1.links.last in Alive(c1, o1)
    requires Closed(c.tables.image, k, Size(o), Alive(c, o)) && |rep| == Size(o)
    requires Closed(c1.tables.image, k, Size(o1), Alive(c1, o1)) && Closed(c'.tables.image, k, Size(o1), Alive(c1, o1))
    requires c' == c1.(tables := c'.tables) && o' == o1.(chains := o'.chains) && lhs in Alive(c1, o1) && rhs in Alive(c1, o1)
    requires c1.tables.image[a][lhs] == c1.links.last && c.active < c1.active
    requires if a == b && lhs == rhs then c'.tables.image == c1.tables.image
             else c1.tables.image[b][rhs] == UNDEFINED && OneEdge(c1.tables.image, c'.tables.image, k, Alive(c1, o1), b, rhs, c1.links.last)
    requires |rep'| == Size(o1) && rep'[c1.links.last] == rep[lhs] + [a] && rep'[rhs] == rep[rhs]
    requires Derives(s, rep[lhs] + [a], rep[rhs] + [b])
    ensures Alive(c', o') == Alive(c1, o1) && Size(o') == Size(o1)
    ensures Meaning(s, k, c', o', rep') && GrownTo(k, c, o, c', o')
    ensures c'.tables.image[a][lhs] == c'.tables.image[b][rhs] == c1.links.last
  {
    StructureParts(k, c1, o1);
    assert Alive(c', o') == Alive(c1, o1);
    if a == b && lhs == rhs {
      assert GrownTo(k, c, o, c', o');
    } else {
      hide StructureOk, GrownTo, Alive;
      DerivesSym(s, rep[lhs] + [a], rep[rhs] + [b]);
      EdgeMeaning(s, k, c1.tables.image, Size(o1), Alive(c1, o1), rep', c'.tables.image, b, rhs, c1.links.last);
      EdgeGrownTo(k, c1, o1, c', o', b, rhs, c1.links.last);
      GrownToTrans(k, c, o, c1, o1, c', o');
    }
  }

  /** A relation of nonempty words over the generators. */
  ghost predicate IsRelation(k: nat, p: Pair) {
    p.0 != [] && p.1 != [] && Over(k, p.0) && Over(k, p.1)
  }

  function Init(w: Word): Word
    requires w != []
  {
    w[..|w| - 1]
  }

  function Last(w: Word): Letter
    requires w != []
  {
    w[|w| - 1]
  }

  /** One of the last letters lacks an image: it gets the image of the other (lines 543-552). */
  method DefineOne(k: nat, c: Cosets, x: nat, a: nat, d: nat, ghost o: Order, ghost s: System, ghost rep: seq<Word>)
    returns (c': Cosets, ghost o': Order)
    requires StructureOk(k, c, o) && o.cur < c.active && Meaning(s, k, c, o, rep)
    requires x in Alive(c, o) && d in Alive(c, o) && d > 0 && a < k
    requires Closed(c.tables.image, k, Size(o), Alive(c, o)) && |rep| == Size(o) && d < Size(o)
    requires c.tables.image[a][x] == UNDEFINED
    requires Derives(s, rep[x] + [a], rep[d])
    ensures StructureOk(k, c', o') && Meaning(s, k, c', o', rep) && GrownTo(k, c, o, c', o') && c'.active == c.active
    ensures Closed(c'.tables.image, k, Size(o'), Alive(c', o')) && x in Alive(c', o')
    ensures c'.tables.image[a][x] == d
  {
    hide GrownTo, Alive, Closed, StructureOk, Derives;
    StructureParts(k, c, o);
    EntryLive(k, c, o, x, a);
    c', o' := AddEdge(k, c, x, a, d, o);
    EdgeGrownTo(k, c, o, c', o', a, x, d);
    GrownToCur(k, c, o, c', o');
    SameAlive(c, o, c', o');
    EdgeMeaning(s, k, c.tables.image, Size(o), Alive(c, o), rep, c'.tables.image, a, x, d);
  }

  lemma SameAlive(c: Cosets, o: Order, c': Cosets, o': Order)
    requires c'.active == c.active && o'.pos == o.pos && o'.list == o.list
    ensures Alive(c', o') == Alive(c, o) && Size(o') == Size(o)
  {
  }

  /**
   * Apply the relation `p` to the coset `x` (lines 474-557, with new cosets
   * allowed): afterwards the coset that `x` has become satisfies it.
   */
  method TraceRelation(k: nat, c: Cosets, x: nat, p: Pair, ghost o: Order, ghost s: System, ghost rep: seq<Word>)
    returns (c': Cosets, ghost o': Order, ghost rep': seq<Word>, ghost phi: seq<nat>)
    requires StructureOk(k, c, o) && o.cur < c.active && Meaning(s, k, c, o, rep) && x in Alive(c, o)
    requires Symmetric(s) && s.left == {} && IsRelation(k, p) && Applies(s, x, p)
    ensures StructureOk(k, c', o') && o'.cur < c'.active && Meaning(s, k, c', o', rep')
    ensures Became(k, c, o, c', o', phi)
    ensures x < |phi| && Satisfies(c'.tables.image, phi[x], p)
    ensures Full(k, c, o) ==> Alive(c', o') <= Alive(c, o)
    ensures Satisfies(c.tables.image, x, p) ==> c' == c && o' == o
  {
    var c1, c2, lhs, rhs;
    ghost var o1, o2, rep1;
    hide StructureOk, Meaning, GrownTo, Became, Alive, Closed, Derives, Over, Symmetric, Run;
    OverInit(k, p.0);
    OverInit(k, p.1);
    if Satisfies(c.tables.image, x, p) {
      SatisfiedPaths(c.tables.image, x, p);
    }
    c1, lhs, o1, rep1 := TracePath(k, c, x, Init(p.0), o, s, rep);
    c2, rhs, o2, rep' := TracePath(k, c1, x, Init(p.1), o1, s, rep1);
    TracedBoth(k, c, o, c1, o1, c2, o2, x, p, lhs, rhs, s, rep');
    c', o', rep', phi := CloseRelation(k, c2, x, p, lhs, rhs, o2, s, rep', c, o);
  }

  /** The end of `trace`: make the images of the last letters agree (lines 520-556). */
  method CloseRelation(k: nat, c2: Cosets, x: nat, p: Pair, lhs: nat, rhs: nat, ghost o2: Order, ghost s: System, ghost rep: seq<Word>,
                       ghost c: Cosets, ghost o: Order)
    returns (c': Cosets, ghost o': Order, ghost rep': seq<Word>, ghost phi: seq<nat>)
    requires StructureOk(k, c, o) && o.cur < c.active <= c2.active && x in Alive(c, o) && GrownTo(k, c, o, c2, o2)
    requires StructureOk(k, c2, o2) && o2.cur == o.cur && Meaning(s, k, c2, o2, rep) && x in Alive(c2, o2)
    requires Symmetric(s) && s.left == {} && IsRelation(k, p) && Last(p.0) < k && Last(p.1) < k
    requires lhs in Alive(c2, o2) && rhs in Alive(c2, o2)
    requires Run(c2.tables.image, x, Init(p.0)) == lhs && Run(c2.tables.image, x, Init(p.1)) == rhs
    requires |rep| == Size(o2) && lhs < |rep| && rhs < |rep| && Derives(s, rep[lhs] + [Last(p.0)], rep[rhs] + [Last(p.1)])
    ensures StructureOk(k, c', o') && o'.cur < c'.active && Meaning(s, k, c', o', rep')
    ensures Became(k, c, o, c', o', phi)
    ensures x < |phi| && Satisfies(c'.tables.image, phi[x], p)
    ensures Full(k, c2, o2) ==> Alive(c', o') <= Alive(c2, o2)
    ensures Satisfies(c2.tables.image, x, p) ==> c' == c2 && o' == o2
  {
    assert p.0 != [] && p.1 != [];
    hide *;
    rep' := rep;
    var a, b := Last(p.0), Last(p.1);
    SatisfiedEnds(k, c2, o2, x, p, lhs, rhs);
    EntryLive(k, c2, o2, lhs, a);
    EntryLive(k, c2, o2, rhs, b);
    var u, v := c2.tables.image[a][lhs], c2.tables.image[b][rhs];
    if u != UNDEFINED && v != UNDEFINED {
      IdentifyLastSound(k, c2, o2, s, rep', lhs, a, rhs, b);
      c', o', phi := Identify(k, c2, u, v, o2, s, rep');
      phi := TracedIdentified(k, c, o, c2, o2, c', o', phi, x, p, lhs, rhs);
    } else {
      NotFull(k, c2, o2, lhs, a, rhs, b);
      if u == UNDEFINED && v == UNDEFINED {
        c', o', rep' := DefineBoth(k, c2, lhs, a, rhs, b, o2, s, rep');
      } else if u == UNDEFINED {
        DefineLastSound(k, c2, o2, s, rep', lhs, a, rhs, b);
        c', o' := DefineOne(k, c2, lhs, a, v, o2, s, rep');
        EntryKept(k, c2, o2, c', o', rhs, b);
      } else {
        DerivesSym(s, rep'[lhs] + [a], rep'[rhs] + [b]);
        DefineLastSound(k, c2, o2, s, rep', rhs, b, lhs, a);
        c', o' := DefineOne(k, c2, rhs, b, u, o2, s, rep');
        EntryKept(k, c2, o2, c', o', lhs, a);
      }
      phi := Identity(Size(o));
      TracedDefined(k, c, o, c2, o2, c', o', x, p, lhs, rhs);
    }
  }

  /** Nothing is missing on the paths of a relation that holds. */
  lemma SatisfiedPaths(t: Table, x: int, p: Pair)
    requires p.0 != [] && p.1 != [] && Satisfies(t, x, p)
    ensures Run(t, x, Init(p.0)) != UNDEFINED && Run(t, x, Init(p.1)) != UNDEFINED
  {
    assert Init(p.0) == p.0[..|p.0| - 1] && Init(p.1) == p.1[..|p.1| - 1];
    if Run(t, x, Init(p.0)) == UNDEFINED { RunsOff(t, x, p.0, |p.0| - 1); }
    if Run(t, x, Init(p.1)) == UNDEFINED { RunsOff(t, x, p.1, |p.1| - 1); }
  }

  lemma SatisfiedEnds(k: nat, c: Cosets, o: Order, x: nat, p: Pair, lhs: nat, rhs: nat)
    requires StructureOk(k, c, o) && x in Alive(c, o) && IsRelation(k, p) && lhs in Alive(c, o) && rhs in Alive(c, o)
    requires Run(c.tables.image, x, Init(p.0)) == lhs && Run(c.tables.image, x, Init(p.1)) == rhs && Last(p.0) < k && Last(p.1) < k
    ensures |c.tables.image| == k && lhs < |c.tables.image[Last(p.0)]| && rhs < |c.tables.image[Last(p.1)]|
    ensures var u, v := c.tables.image[Last(p.0)][lhs], c.tables.image[Last(p.1)][rhs];
            Satisfies(c.tables.image, x, p) <==> u == v != UNDEFINED
  {
    OverInit(k, p.0);
    OverInit(k, p.1);
    hide StructureOk, Alive, Run, Over, Init, Last;
    EntryLive(k, c, o, lhs, Last(p.0));
    EntryLive(k, c, o, rhs, Last(p.1));
    RunStep(k, c, o, x, Init(p.0), Last(p.0), lhs);
    RunStep(k, c, o, x, Init(p.1), Last(p.1), rhs);
  }

  lemma NotFull(k: nat, c: Cosets, o: Order, x: nat, a: nat, y: nat, b: nat)
    requires x in Alive(c, o) && y in Alive(c, o) && a < k && b < k
    requires |c.tables.image| == k && x < |c.tables.image[a]| && y < |c.tables.image[b]|
    requires c.tables.image[a][x] == UNDEFINED || c.tables.image[b][y] == UNDEFINED
    ensures !Full(k, c, o)
  {
  }

  lemma EntryKept(k: nat, c: Cosets, o: Order, c': Cosets, o': Order, y: nat, a: nat)
    requires GrownTo(k, c, o, c', o') && y in Alive(c, o) && a < k
    requires |c.tables.image| == k && y < |c.tables.image[a]| && c.tables.image[a][y] != UNDEFINED
    ensures |c'.tables.image| == k && y in Alive(c', o') && y < |c'.tables.image[a]| && c'.tables.image[a][y] == c.tables.image[a][y]
  {
  }

  lemma OverInit(k: nat, w: Word)
    requires w != [] && Over(k, w)
    ensures Over(k, Init(w)) && Last(w) < k && w == Init(w) + [Last(w)]
  {
  }

  lemma MeaningSize(s: System, k: nat, c: Cosets, o: Order, rep: seq<Word>)
    requires Meaning(s, k, c, o, rep)
    ensures |rep| == Size(o) && Closed(c.tables.image, k, Size(o), Alive(c, o)) && forall x :: x in Alive(c, o) ==> x < |rep|
  {
  }

  lemma TracedBoth(k: nat, c: Cosets, o: Order, c1: Cosets, o1: Order, c2: Cosets, o2: Order, x: nat, p: Pair, lhs: nat, rhs: nat,
                   s: System, rep: seq<Word>)
    requires IsRelation(k, p) && Applies(s, x, p) && Symmetric(s) && s.left == {} && x in Alive(c, o) && Alive(c, o) <= Alive(c1, o1)
    requires GrownTo(k, c, o, c1, o1) && GrownTo(k, c1, o1, c2, o2) && c.active <= c1.active <= c2.active
    requires lhs in Alive(c1, o1) && rhs in Alive(c2, o2) && StructureOk(k, c2, o2) && Meaning(s, k, c2, o2, rep)
    requires Run(c1.tables.image, x, Init(p.0)) == lhs && Run(c2.tables.image, x, Init(p.1)) == rhs
    ensures GrownTo(k, c, o, c2, o2) && lhs in Alive(c2, o2) && o2.cur == o.cur && x in Alive(c2, o2)
    ensures Run(c2.tables.image, x, Init(p.0)) == lhs
    ensures |rep| == Size(o2) == |o2.pos| && lhs < |rep| && rhs < |rep|
    ensures Derives(s, rep[lhs] + [Last(p.0)], rep[rhs] + [Last(p.1)])
  {
    MeaningSize(s, k, c2, o2, rep);
    hide StructureOk, GrownTo, Alive, Derives, Over, Symmetric, Applies, MeaningOk, Run, Init, Last, Closed;
    GrownToTrans(k, c, o, c1, o1, c2, o2);
    GrownToCur(k, c, o, c2, o2);
    GrownToCur(k, c1, o1, c2, o2);
    RunGrownTo(k, c1, o1, c2, o2, x, Init(p.0));
    StructureParts(k, c2, o2);
    OverInit(k, p.0);
    OverInit(k, p.1);
    RelationSound(s, k, c2.tables.image, Size(o2), Alive(c2, o2), rep, x, p, Init(p.0), Last(p.0), Init(p.1), Last(p.1));
  }

  /** With both images known, the images are related. */
  lemma IdentifyLastSound(k: nat, c: Cosets, o: Order, s: System, rep: seq<Word>, lhs: nat, a: nat, rhs: nat, b: nat)
    requires StructureOk(k, c, o) && Meaning(s, k, c, o, rep) && Symmetric(s) && |rep| == Size(o)
    requires lhs in Alive(c, o) && rhs in Alive(c, o) && a < k && b < k && lhs < |rep| && rhs < |rep|
    requires Derives(s, rep[lhs] + [a], rep[rhs] + [b])
    requires Closed(c.tables.image, k, Size(o), Alive(c, o))
    requires c.tables.image[a][lhs] != UNDEFINED && c.tables.image[b][rhs] != UNDEFINED
    ensures IsLive(c, o, c.tables.image[a][lhs]) && IsLive(c, o, c.tables.image[b][rhs])
    ensures |rep| == |o.pos| && Derives(s, rep[c.tables.image[a][lhs]], rep[c.tables.image[b][rhs]])
  {
    StructureParts(k, c, o);
    hide StructureOk, Derives, Symmetric, Reached;
    var u, v := c.tables.image[a][lhs], c.tables.image[b][rhs];
    DerivesSym(s, rep[lhs] + [a], rep[u]);
    DerivesTrans(s, rep[u], rep[lhs] + [a], rep[rhs] + [b]);
    DerivesTrans(s, rep[u], rep[rhs] + [b], rep[v]);
  }

  /** With only the image of `rhs` known, it is the image of `lhs` too. */
  lemma DefineLastSound(k: nat, c: Cosets, o: Order, s: System, rep: seq<Word>, lhs: nat, a: nat, rhs: nat, b: nat)
    requires StructureOk(k, c, o) && Meaning(s, k, c, o, rep) && |rep| == Size(o)
    requires rhs in Alive(c, o) && a < k && b < k && lhs < |rep| && rhs < |rep|
    requires Derives(s, rep[lhs] + [a], rep[rhs] + [b])
    requires Closed(c.tables.image, k, Size(o), Alive(c, o)) && c.tables.image[b][rhs] != UNDEFINED
    ensures 0 < c.tables.image[b][rhs] < Size(o) && c.tables.image[b][rhs] in Alive(c, o)
    ensures Derives(s, rep[lhs] + [a], rep[c.tables.image[b][rhs]])
  {
    hide StructureOk, Derives, Reached;
    DerivesTrans(s, rep[lhs] + [a], rep[rhs] + [b], rep[c.tables.image[b][rhs]]);
  }

  lemma TracedDefined(k: nat, c: Cosets, o: Order, c2: Cosets, o2: Order, c': Cosets, o': Order, x: nat, p: Pair, lhs: nat, rhs: nat)
    requires GrownTo(k, c, o, c2, o2) && GrownTo(k, c2, o2, c', o') && o.cur < c.active <= c2.active <= c'.active
    requires StructureOk(k, c, o) && StructureOk(k, c', o') && x in Alive(c, o) && x in Alive(c2, o2) && IsRelation(k, p)
    requires Run(c2.tables.image, x, Init(p.0)) == lhs && Run(c2.tables.image, x, Init(p.1)) == rhs
    requires Closed(c'.tables.image, k, Size(o'), Alive(c', o')) && lhs in Alive(c', o') && rhs in Alive(c', o')
    requires c'.tables.image[Last(p.0)][lhs] == c'.tables.image[Last(p.1)][rhs] != UNDEFINED
    ensures o'.cur < c'.active && Became(k, c, o, c', o', Identity(Size(o)))
    ensures x < |Identity(Size(o))| && Satisfies(c'.tables.image, Identity(Size(o))[x], p)
  {
    assert 0 in Alive(c, o) by { assert o.list[0] == 0 && o.pos[o.list[0]] == 0; }
    StructureParts(k, c, o);
    assert x < Size(o);
    hide StructureOk, GrownTo, Became, Over;
    GrownToTrans(k, c, o, c2, o2, c', o');
    GrownToCur(k, c, o, c', o');
    GrownOnly(k, c, o, c', o');
    OverInit(k, p.0);
    OverInit(k, p.1);
    RunGrownTo(k, c2, o2, c', o', x, Init(p.0));
    RunGrownTo(k, c2, o2, c', o', x, Init(p.1));
    GrownToCur(k, c2, o2, c', o');
    hide Alive, Closed;
    RunStep(k, c', o', x, Init(p.0), Last(p.0), lhs);
    RunStep(k, c', o', x, Init(p.1), Last(p.1), rhs);
  }

  lemma TracedIdentified(k: nat, c: Cosets, o: Order, c2: Cosets, o2: Order, c': Cosets, o': Order, phi2: seq<nat>,
                         x: nat, p: Pair, lhs: nat, rhs: nat) returns (phi: seq<nat>)
    requires GrownTo(k, c, o, c2, o2) && Became(k, c2, o2, c', o', phi2) && o.cur < c.active
    requires StructureOk(k, c, o) && StructureOk(k, c2, o2) && x in Alive(c, o) && x in Alive(c2, o2) && IsRelation(k, p)
    requires Run(c2.tables.image, x, Init(p.0)) == lhs && Run(c2.tables.image, x, Init(p.1)) == rhs
    requires Closed(c2.tables.image, k, Size(o2), Alive(c2, o2)) && lhs in Alive(c2, o2) && rhs in Alive(c2, o2)
    requires Last(p.0) < k && Last(p.1) < k
    requires var u, v := c2.tables.image[Last(p.0)][lhs], c2.tables.image[Last(p.1)][rhs];
             0 <= u < |phi2| && 0 <= v < |phi2| && phi2[u] == phi2[v]
    ensures Became(k, c, o, c', o', phi) && x < |phi| && Satisfies(c'.tables.image, phi[x], p)
  {
    phi := phi2[..Size(o)];
    assert 0 in Alive(c, o) by { assert o.list[0] == 0 && o.pos[o.list[0]] == 0; }
    assert Quotient(c2.tables.image, k, Size(o2), Alive(c2, o2), c'.tables.image, Size(o'), Alive(c', o'), phi2);
    StructureParts(k, c, o);
    assert x < Size(o);
    hide StructureOk, Over, Quotient;
    GrownBecame(k, c, o, c2, o2, c', o', phi2);
    OverInit(k, p.0);
    OverInit(k, p.1);
    hide GrownTo, Became, Alive, Closed;
    RunStep(k, c2, o2, x, Init(p.0), Last(p.0), lhs);
    RunStep(k, c2, o2, x, Init(p.1), Last(p.1), rhs);
    RunQuotient(c2.tables.image, k, Size(o2), Alive(c2, o2), c'.tables.image, Size(o'), Alive(c', o'), phi2, x, p.0);
    RunQuotient(c2.tables.image, k, Size(o2), Alive(c2, o2), c'.tables.image, Size(o'), Alive(c', o'), phi2, x, p.1);
  }
}
