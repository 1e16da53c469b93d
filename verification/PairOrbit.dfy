/**
 * Pairs of elements found by multiplication, and the equivalence they generate.
 * Lines cited here are those of src/cong/p.h.
 */
module PairOrbit {
  import opened Evaluation
  import opened UnionFind

  /** `_map`, `_reverse_map`, `_lookup`, `_found_pairs` and `_pairs_to_mult`. */
  datatype Orbit<E> = Orbit(places: map<E, nat>, elements: seq<E>, table: seq<nat>, found: set<(E, E)>, queue: seq<(E, E)>)

  ghost predicate PlacesOk<E>(u: set<E>, o: Orbit<E>) {
    && |o.table| == |o.elements| && Downward(o.table)
    && (forall i :: 0 <= i < |o.elements| ==> o.elements[i] in u && o.elements[i] in o.places && o.places[o.elements[i]] == i)
    && (forall x :: x in o.places ==> o.places[x] < |o.elements| && o.elements[o.places[x]] == x)
  }

  /** Pairs are stored once, in the order of their indices. */
  ghost predicate Normalized<E>(o: Orbit<E>, p: (E, E)) {
    p.0 in o.places && p.1 in o.places && o.places[p.0] < o.places[p.1]
  }

  ghost predicate PairsOk<E>(o: Orbit<E>) {
    (forall p :: p in o.found ==> Normalized(o, p)) && (forall j :: 0 <= j < |o.queue| ==> o.queue[j] in o.found)
  }

  ghost predicate Agrees<E>(lab: seq<nat>, o: Orbit<E>)
    requires |lab| == |o.elements|
  {
    forall p :: p in o.found && p.0 in o.places && p.1 in o.places && o.places[p.0] < |lab| && o.places[p.1] < |lab| ==>
      lab[o.places[p.0]] == lab[o.places[p.1]]
  }

  /** The union-find structure holds the equivalence generated by the found pairs: both are constant under the same labellings. */
  ghost predicate Generated<E>(o: Orbit<E>) {
    forall lab: seq<nat> {:trigger Respects(lab, o.table)} :: |lab| == |o.elements| ==> (Respects(lab, o.table) <==> Agrees(lab, o))
  }

  // ----- adding an element -----

  /** `add_index`, before the procedure is done (lines 318-328). */
  function AddIndex<E>(o: Orbit<E>, x: E): Orbit<E> {
    o.(places := o.places[x := |o.elements|], elements := o.elements + [x], table := o.table + [|o.table|])
  }

  lemma RespectsGrow<T>(lab: seq<T>, t: seq<nat>)
    requires Downward(t) && |lab| == |t| + 1
    ensures Respects(lab, t + [|t|]) <==> Respects(lab[..|t|], t)
  {
    var t' := t + [|t|];
    if Respects(lab, t') {
      forall i | 0 <= i < |t| ensures Follows(lab[..|t|], t, i) {
        assert Follows(lab, t', i) && t[i] <= i;
      }
    }
    if Respects(lab[..|t|], t) {
      forall i | 0 <= i < |t'| ensures Follows(lab, t', i) {
        if i < |t| { assert Follows(lab[..|t|], t, i) && t[i] <= i; }
      }
    }
  }

  lemma DownGrow(t: seq<nat>)
    requires Downward(t)
    ensures Downward(t + [|t|])
  {
  }

  lemma AddIndexOk<E>(u: set<E>, o: Orbit<E>, x: E)
    requires PlacesOk(u, o) && PairsOk(o) && Generated(o) && x in u && x !in o.places
    ensures PlacesOk(u, AddIndex(o, x)) && PairsOk(AddIndex(o, x)) && Generated(AddIndex(o, x))
  {
    var o' := AddIndex(o, x);
    DownGrow(o.table);
    forall lab: seq<nat> | |lab| == |o'.elements| ensures Respects(lab, o'.table) <==> Agrees(lab, o') {
      var short := lab[..|o.elements|];
      RespectsGrow(lab, o.table);
      AgreesGrow(o, x, lab);
      assert Respects(short, o.table) <==> Agrees(short, o);
    }
    hide Respects, Agrees;
    forall p | p in o'.found ensures Normalized(o', p) { assert Normalized(o, p); }
  }

  lemma AgreesGrow<E>(o: Orbit<E>, x: E, lab: seq<nat>)
    requires PairsOk(o) && x !in o.places && |lab| == |o.elements| + 1 && forall y :: y in o.places ==> o.places[y] < |o.elements|
    ensures Agrees(lab, AddIndex(o, x)) <==> Agrees(lab[..|o.elements|], o)
  {
    var o', short := AddIndex(o, x), lab[..|o.elements|];
    if Agrees(lab, o') {
      forall p | p in o.found && p.0 in o.places && p.1 in o.places ensures short[o.places[p.0]] == short[o.places[p.1]] {
        assert Normalized(o, p) && o'.places[p.0] == o.places[p.0] && o'.places[p.1] == o.places[p.1];
      }
    }
    if Agrees(short, o) {
      forall p | p in o'.found && p.0 in o'.places && p.1 in o'.places ensures lab[o'.places[p.0]] == lab[o'.places[p.1]] {
        assert Normalized(o, p) && o'.places[p.0] == o.places[p.0] && o'.places[p.1] == o.places[p.1];
      }
    }
  }

  // ----- adding a pair -----

  /** A new pair is recorded, queued and united (lines 304-306). */
  function Record<E>(o: Orbit<E>, p: (E, E), t: seq<nat>): Orbit<E> {
    o.(found := o.found + {p}, queue := o.queue + [p], table := t)
  }

  lemma RecordOk<E>(u: set<E>, o: Orbit<E>, p: (E, E), i: nat, j: nat)
    requires PlacesOk(u, o) && PairsOk(o) && Generated(o) && Normalized(o, p)
    requires (i == o.places[p.0] && j == o.places[p.1]) || (i == o.places[p.1] && j == o.places[p.0])
    ensures i < |o.table| && j < |o.table|
    ensures var o' := Record(o, p, Linked(o.table, Root(o.table, i), Root(o.table, j)));
            PlacesOk(u, o') && PairsOk(o') && Generated(o')
  {
    var o' := Record(o, p, Linked(o.table, Root(o.table, i), Root(o.table, j)));
    LinkedDown(o.table, Root(o.table, i), Root(o.table, j));
    forall lab: seq<nat> | |lab| == |o'.elements| ensures Respects(lab, o'.table) <==> Agrees(lab, o') {
      LinkedRespects(lab, o.table, i, j);
      assert Respects(lab, o.table) <==> Agrees(lab, o);
      hide Respects;
    }
    hide Respects, Agrees;
    forall q | q in o'.found ensures Normalized(o', q) {
      if q != p { assert Normalized(o, q); }
    }
  }

  /** The pair has been recorded, or is trivial. */
  ghost predicate Known<E>(o: Orbit<E>, x: E, y: E) {
    x == y || (x, y) in o.found || (y, x) in o.found
  }

  /** What `add_pair` and `get_index` leave alone. */
  ghost predicate Extends<E>(o: Orbit<E>, o': Orbit<E>) {
    && o.found <= o'.found && (forall x :: x in o.places ==> x in o'.places && o'.places[x] == o.places[x])
    && |o.queue| <= |o'.queue| && o'.queue[..|o.queue|] == o.queue
    && (forall p :: p in o'.found ==> p in o.found || p in o'.queue[|o.queue|..])
  }

  lemma ExtendsRefl<E>(o: Orbit<E>)
    ensures Extends(o, o)
  {
  }

  lemma ExtendsTrans<E>(o: Orbit<E>, o1: Orbit<E>, o2: Orbit<E>)
    requires Extends(o, o1) && Extends(o1, o2)
    ensures Extends(o, o2)
  {
    assert o2.queue[..|o.queue|] == o1.queue[..|o.queue|];
    forall p | p in o2.found ensures p in o.found || p in o2.queue[|o.queue|..] {
      if p !in o1.found {
        assert p in o2.queue[|o1.queue|..];
        var j :| 0 <= j < |o2.queue| - |o1.queue| && o2.queue[|o1.queue|..][j] == p;
        assert o2.queue[|o.queue|..][|o1.queue| - |o.queue| + j] == p;
      } else if p !in o.found {
        var j :| 0 <= j < |o1.queue| - |o.queue| && o1.queue[|o.queue|..][j] == p;
        assert o2.queue[..|o1.queue|][|o.queue| + j] == p;
        assert o2.queue[|o.queue|..][j] == p;
      }
    }
  }

  /** The index of an element, which gets one if it has none (lines 310-328, before the procedure is done). */
  method GetIndex<E(==)>(o: Orbit<E>, x: E, ghost u: set<E>) returns (o': Orbit<E>, i: nat)
    requires PlacesOk(u, o) && PairsOk(o) && Generated(o) && x in u
    ensures PlacesOk(u, o') && PairsOk(o') && Generated(o') && Extends(o, o') && o'.found == o.found && o'.queue == o.queue
    ensures x in o'.places && o'.places[x] == i
    ensures o' == if x in o.places then o else AddIndex(o, x)
  {
    if x !in o.places {
      AddIndexOk(u, o, x);
      o', i := AddIndex(o, x), |o.elements|;
    } else {
      o', i := o, o.places[x];
    }
  }

  /** `add_pair` (lines 264-308). */
  method AddPair<E(==)>(o: Orbit<E>, x: E, y: E, ghost u: set<E>) returns (o': Orbit<E>)
    requires PlacesOk(u, o) && PairsOk(o) && Generated(o) && x in u && y in u
    ensures PlacesOk(u, o') && PairsOk(o') && Generated(o') && Extends(o, o') && Known(o', x, y)
    ensures o'.found <= o.found + {(x, y), (y, x)}
    ensures |o'.queue| - |o.queue| == |o'.found| - |o.found|
  {
    hide *;
    ExtendsRefl(o);
    if x == y {
      KnownSame(o, x);
      return o;
    }
    var i, j;
    o', i := GetIndex(o, x, u);
    ghost var o1 := o';
    o', j := GetIndex(o', y, u);
    ExtendsTrans(o, o1, o');
    IndicesDiffer(u, o1, o', x, y, i, j);
    var p := if i < j then (x, y) else (y, x);
    if x in o.places && y in o.places && p in o'.found {
      KnownPair(o', p, x, y);
      return;
    }
    NewPair(u, o, o', p, x, y);
    ghost var o2 := o';
    RecordOk(u, o', p, i, j);
    TableDown(u, o');
    var t := UniteTable(o'.table, i, j);
    o' := Record(o', p, t);
    Recorded(o2, p, t, x, y);
    ExtendsTrans(o, o2, o');
  }

  lemma KnownSame<E>(o: Orbit<E>, x: E)
    ensures Known(o, x, x)
  {
  }

  lemma KnownPair<E>(o: Orbit<E>, p: (E, E), x: E, y: E)
    requires p in o.found && (p == (x, y) || p == (y, x))
    ensures Known(o, x, y)
  {
  }

  lemma TableDown<E>(u: set<E>, o: Orbit<E>)
    requires PlacesOk(u, o)
    ensures Downward(o.table) && |o.table| == |o.elements|
  {
  }

  /** Both elements have indices now, and the pair in the order of the indices is normalized. */
  lemma IndicesDiffer<E>(u: set<E>, o1: Orbit<E>, o: Orbit<E>, x: E, y: E, i: nat, j: nat)
    requires x != y && PlacesOk(u, o) && Extends(o1, o)
    requires x in o1.places && o1.places[x] == i && y in o.places && o.places[y] == j
    ensures Normalized(o, if i < j then (x, y) else (y, x)) && x in o.places && o.places[x] == i && o.places[y] == j
  {
    assert x in o.places && o.places[x] == i;
    assert o.elements[i] == x && o.elements[j] == y;
  }

  lemma Recorded<E>(o: Orbit<E>, p: (E, E), t: seq<nat>, x: E, y: E)
    requires p !in o.found && (p == (x, y) || p == (y, x))
    ensures Extends(o, Record(o, p, t)) && Known(Record(o, p, t), x, y)
    ensures Record(o, p, t).found == o.found + {p} && |Record(o, p, t).found| == |o.found| + 1
    ensures |Record(o, p, t).queue| == |o.queue| + 1
  {
    assert (o.queue + [p])[|o.queue|..] == [p];
  }

  /** A pair with a new element has not been found before. */
  lemma NewPair<E>(u: set<E>, o: Orbit<E>, o': Orbit<E>, p: (E, E), x: E, y: E)
    requires PairsOk(o) && o'.found == o.found && (p == (x, y) || p == (y, x)) && (x !in o.places || y !in o.places || p !in o'.found)
    ensures p !in o'.found
  {
    assert p in o.found ==> Normalized(o, p);
  }
}
