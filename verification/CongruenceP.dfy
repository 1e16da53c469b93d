/**
 * The class `Congruence::P`: the least congruence containing given pairs of words, by multiplying pairs of elements.
 * Lines cited here are those of src/cong/p.h.
 */
module CongruenceP {
  import opened Words
  import opened Derivations
  import opened Evaluation
  import opened UnionFind
  import opened PairOrbit
  import opened PairClosure
  import opened CongruenceByPairs
  import opened KillFlag

  // ----- the generating pairs -----

  ghost predicate ProperPairs<E>(g: Generators<E>, extra: seq<Pair>) {
    forall j :: 0 <= j < |extra| ==> Proper(g, extra[j].0) && Proper(g, extra[j].1)
  }

  function Values<E>(g: Generators<E>, extra: seq<Pair>): seq<(E, E)> {
    seq(|extra|, j requires 0 <= j < |extra| => (Eval(g, extra[j].0), Eval(g, extra[j].1)))
  }

  lemma ValuesIn<E>(g: Generators<E>, u: set<E>, extra: seq<Pair>)
    requires InSemigroup(g, u) && ProperPairs(g, extra)
    ensures forall j :: 0 <= j < |extra| ==> Values(g, extra)[j].0 in u && Values(g, extra)[j].1 in u
  {
    hide InSemigroup, Proper;
    forall j | 0 <= j < |extra| ensures Values(g, extra)[j].0 in u && Values(g, extra)[j].1 in u {
      EvalIn(g, u, extra[j].0);
      EvalIn(g, u, extra[j].1);
    }
  }

  function NoOrbit<E>(): Orbit<E> {
    Orbit(map[], [], [], {}, [])
  }

  lemma NothingYet<E(!new)>(g: Generators<E>, kind: Kind, u: set<E>)
    requires InSemigroup(g, u)
    ensures Searching(g, kind, u, [], NoOrbit())
  {
    var o := NoOrbit<E>();
    forall lab: seq<nat> {:trigger Respects(lab, o.table)} | |lab| == |o.elements| ensures Respects(lab, o.table) <==> Agrees(lab, o) {
    }
    assert PlacesOk(u, o) && PairsOk(o) && Generated(o);
    hide InSemigroup, Generated;
  }

  lemma FirstPairs<E>(r: E -> nat, start: seq<(E, E)>, p: (E, E))
    ensures Contains(r, start + [p]) <==> Contains(r, start) && r(p.0) == r(p.1)
  {
    assert (start + [p])[|start|] == p;
    if Contains(r, start + [p]) {
      forall j | 0 <= j < |start| ensures r(start[j].0) == r(start[j].1) { assert (start + [p])[j] == start[j]; }
    }
  }

  lemma WiderStart<E(!new)>(g: Generators<E>, kind: Kind, u: set<E>, start: seq<(E, E)>, p: (E, E), found: set<(E, E)>)
    requires SoundPairs(g, kind, u, start, found)
    ensures SoundPairs(g, kind, u, start + [p], found)
    ensures forall r: E -> nat {:trigger IsCongruence(g, kind, u, r)} :: IsCongruence(g, kind, u, r) && Contains(r, start + [p]) ==> r(p.0) == r(p.1)
  {
    hide IsCongruence, Contains, Separates;
    forall r: E -> nat {:trigger IsCongruence(g, kind, u, r)} | IsCongruence(g, kind, u, r) && Contains(r, start + [p])
      ensures !Separates(r, found) && r(p.0) == r(p.1) {
      FirstPairs(r, start, p);
    }
  }

  lemma StartParts<E(!new)>(g: Generators<E>, kind: Kind, u: set<E>, start: seq<(E, E)>, o: Orbit<E>)
    requires Searching(g, kind, u, start, o)
    ensures InSemigroup(g, u) && SoundPairs(g, kind, u, start, o.found) && Processed(g, kind, o) && StartKnown(o, start)
  {
  }

  lemma PairAdded<E(!new)>(g: Generators<E>, kind: Kind, u: set<E>, start: seq<(E, E)>, p: (E, E), o: Orbit<E>, o': Orbit<E>)
    requires Processed(g, kind, o) && StartKnown(o, start) && Extends(o, o') && Known(o', p.0, p.1)
    ensures Processed(g, kind, o') && StartKnown(o', start + [p])
  {
    forall q | q in o'.found ensures q in o'.queue || Multiplied(g, kind, o', q, |g.gens|) {
      if q in o.found {
        if q in o.queue {
          var j :| 0 <= j < |o.queue| && o.queue[j] == q;
          assert o'.queue[..|o.queue|][j] == q;
        } else {
          assert Multiplied(g, kind, o, q, |g.gens|);
          MultipliedKept(g, kind, o, o', q, |g.gens|);
        }
      } else {
        var j :| 0 <= j < |o'.queue[|o.queue|..]| && o'.queue[|o.queue|..][j] == q;
        assert o'.queue[|o.queue| + j] == q;
      }
    }
    hide Multiplied;
    forall j | 0 <= j < |start + [p]| ensures Known(o', (start + [p])[j].0, (start + [p])[j].1) {
      if j < |start| {
        assert (start + [p])[j] == start[j] && Known(o, start[j].0, start[j].1);
        KnownKept(o, o', start[j].0, start[j].1);
      }
    }
  }

  lemma SearchingNow<E(!new)>(g: Generators<E>, kind: Kind, u: set<E>, start: seq<(E, E)>, o: Orbit<E>)
    requires InSemigroup(g, u) && PlacesOk(u, o) && PairsOk(o) && Generated(o) && SoundPairs(g, kind, u, start, o.found)
    requires Processed(g, kind, o) && StartKnown(o, start)
    ensures Searching(g, kind, u, start, o)
  {
  }

  /** One turn of the loop that reads the generating pairs (lines 63-69). */
  method AddStart<E(==, !new)>(g: Generators<E>, kind: Kind, o: Orbit<E>, p: (E, E), ghost u: set<E>, ghost start: seq<(E, E)>) returns (o': Orbit<E>)
    requires Searching(g, kind, u, start, o) && p.0 in u && p.1 in u
    ensures Searching(g, kind, u, start + [p], o')
  {
    hide *;
    SearchBound(g, kind, u, start, o);
    StartParts(g, kind, u, start, o);
    o' := AddPair(o, p.0, p.1, u);
    WiderStart(g, kind, u, start, p, o.found);
    SoundPair(g, kind, u, start + [p], o.found, o'.found, p.0, p.1);
    PairAdded(g, kind, u, start, p, o, o');
    SearchingNow(g, kind, u, start + [p], o');
  }

  method ReadPairs<E(==, !new)>(g: Generators<E>, kind: Kind, extra: seq<Pair>, ghost u: set<E>) returns (o: Orbit<E>)
    requires InSemigroup(g, u) && ProperPairs(g, extra)
    ensures Searching(g, kind, u, Values(g, extra), o)
  {
    hide *;
    o := NoOrbit();
    EmptyOrbit<E>();
    NothingYet(g, kind, u);
    ValuesIn(g, u, extra);
    ghost var all := Values(g, extra);
    var j := 0;
    ValuesSize(g, extra);
    assert all[..0] == [];
    while j < |extra|
      invariant j <= |extra| == |all| && Searching(g, kind, u, all[..j], o)
    {
      var p := (Eval(g, extra[j].0), Eval(g, extra[j].1));
      o := AddStart(g, kind, o, p, u, all[..j]);
      assert all[..j + 1] == all[..j] + [p];
      j := j + 1;
    }
    assert all[..j] == all;
  }

  lemma EmptyOrbit<E>()
    ensures NoOrbit<E>() == Orbit(map[], [], [], {}, [])
  {
  }

  lemma ValuesSize<E>(g: Generators<E>, extra: seq<Pair>)
    ensures |Values(g, extra)| == |extra| && forall j :: 0 <= j < |extra| ==> Values(g, extra)[j] == (Eval(g, extra[j].0), Eval(g, extra[j].1))
  {
  }

  // ----- the class -----

  class P<!E(==, !new)> {
    const g: Generators<E>
    const kind: Kind
    /** The generating pairs: `_extra` of the congruence. */
    const extra: seq<Pair>

    var orbit: Orbit<E>
    var classLookup: seq<nat>
    var nextClass: nat
    var done: bool

    /** The semigroup. */
    ghost const universe: set<E>
    /** The pairs found, also those thrown away at the end. */
    ghost var found: set<(E, E)>
    /** How many indices were numbered by each run that was stopped while numbering the classes; these numberings stay in `classLookup`. */
    ghost var sizes: seq<nat>

    ghost function Whole(): Orbit<E>
      reads this
    {
      orbit.(found := found)
    }

    ghost predicate Valid()
      reads this
    {
      && ProperPairs(g, extra) && Stored(g, kind, universe, Values(g, extra), Whole(), classLookup, nextClass, sizes, done)
      && (!done ==> orbit.found == found)
    }

    /** The elements are related by the least congruence containing the generating pairs. */
    ghost predicate Congruent(x: E, y: E) {
      CongruenceByPairs.Congruent(g, kind, universe, Values(g, extra), x, y)
    }

    lemma Parts()
      requires Valid()
      ensures Stored(g, kind, universe, Values(g, extra), Whole(), classLookup, nextClass, sizes, done) && ProperPairs(g, extra)
      ensures Searching(g, kind, universe, Values(g, extra), Whole()) && InSemigroup(g, universe)
      ensures PlacesOk(universe, Whole()) && Downward(Whole().table) && Whole().table == orbit.table && Whole().places == orbit.places
      ensures !done ==> orbit == Whole() && LeftBehind(orbit, classLookup, nextClass, sizes)
      ensures done ==> orbit.queue == [] && NumbersOk(orbit.table, classLookup, nextClass, sizes)
      ensures Whole().queue == orbit.queue && |orbit.table| == |orbit.elements| == |Whole().elements|
      ensures forall j :: 0 <= j < |Values(g, extra)| ==> Values(g, extra)[j].0 in universe && Values(g, extra)[j].1 in universe
    {
      SearchBound(g, kind, universe, Values(g, extra), Whole());
      StartParts(g, kind, universe, Values(g, extra), Whole());
      hide Searching, NumbersOk, LeftBehind, InSemigroup, ProperPairs, SoundPairs, Processed, StartKnown, Generated, PairsOk;
    }

    lemma WholeIs()
      ensures Whole() == orbit.(found := found)
    {
    }

    lemma NowValid()
      requires Stored(g, kind, universe, Values(g, extra), Whole(), classLookup, nextClass, sizes, done) && ProperPairs(g, extra)
      requires !done ==> orbit.found == found
      ensures Valid()
    {
    }

    /** The generating pairs are added at once (lines 42-70). */
    constructor (g: Generators<E>, kind: Kind, extra: seq<Pair>, ghost universe: set<E>)
      requires InSemigroup(g, universe) && ProperPairs(g, extra)
      ensures Valid() && !done && this.g == g && this.kind == kind && this.extra == extra && this.universe == universe && sizes == []
    {
      this.g, this.kind, this.extra, this.universe := g, kind, extra, universe;
      classLookup, nextClass, done, sizes := [], 0, false, [];
      var o := ReadPairs(g, kind, extra, universe);
      orbit, found := o, o.found;
      new;
      ValuesIn(g, universe, extra);
      SearchBound(g, kind, universe, Values(g, extra), o);
      NoChunks(o.table);
      StartedEmpty(o);
      hide InSemigroup, Searching, LeftBehind;
    }

    /** One call of `run(steps, killed)` (lines 158-245). */
    method Run(steps: nat, canKill: bool) returns (killed: bool)
      requires Valid() && !done
      modifies this
      ensures Valid() && (killed ==> canKill) && (done ==> !killed && sizes == old(sizes))
      ensures !done && !killed ==> WorkLeft(universe, orbit) == WorkLeft(universe, old(orbit)) - Turns(steps)
      ensures sizes == old(sizes) || (killed && orbit.queue == [] && sizes == old(sizes) + [|orbit.table|])
    {
      hide *;
      Parts();
      var o, ending := Search(g, kind, orbit, steps, canKill, universe, Values(g, extra));
      SearchBound(g, kind, universe, Values(g, extra), o);
      Continues(o);
      if ending != Emptied {
        orbit, found := o, o.found;
        killed := ending == Stopped;
        NowValidAt(o);
        return;
      }
      LeftParts(o, classLookup, nextClass, sizes);
      var classes, next := Renumber(o.table, classLookup, nextClass, sizes);
      killed := Killed(canKill);
      if killed {
        KilledLate(o, classes, next);
        orbit, found, classLookup, nextClass := o, o.found, classes, next;
        sizes := if o.table == [] then sizes else sizes + [|o.table|];
      } else {
        Ends(o, classes, next);
        found := o.found;
        orbit, classLookup, nextClass, done := o.(found := {}, queue := []), classes, next, true;
      }
      NowValidAt(o);
    }

    lemma NowValidAt(o: Orbit<E>)
      requires Stored(g, kind, universe, Values(g, extra), o, classLookup, nextClass, sizes, done) && ProperPairs(g, extra)
      requires if done then orbit == o.(found := {}, queue := []) && found == o.found && o.queue == [] else orbit == o && found == o.found
      ensures Valid()
    {
      assert Whole() == o;
      hide Stored;
    }

    /** What was left behind is still right for what has been found since. */
    lemma Continues(o: Orbit<E>)
      requires Valid() && !done && Searching(g, kind, universe, Values(g, extra), o)
      requires (orbit.table != [] ==> o.table != []) && (orbit.queue == [] ==> o == orbit)
      ensures Downward(o.table) && LeftBehind(o, classLookup, nextClass, sizes) && Stored(g, kind, universe, Values(g, extra), o, classLookup, nextClass, sizes, false)
    {
      Parts();
      SearchBound(g, kind, universe, Values(g, extra), o);
      if orbit.queue != [] {
        NoChunks(orbit.table);
        NoChunks(o.table);
      }
      hide Searching, Valid, PlacesOk, NumbersOk, Chunks;
    }

    lemma KilledLate(o: Orbit<E>, classes: seq<nat>, next: nat)
      requires Valid() && !done && Searching(g, kind, universe, Values(g, extra), o) && Downward(o.table) && o.queue == []
      requires LeftBehind(o, classLookup, nextClass, sizes) && classes == classLookup + Numbers(o.table, |o.table|)
      requires o.table == [] ==> next == nextClass
      ensures Stored(g, kind, universe, Values(g, extra), o, classes, next, if o.table == [] then sizes else sizes + [|o.table|], false)
    {
      hide Searching, Valid, PlacesOk, NumbersOk, Chunks, LeftBehind, Downward, Numbers;
      Parts();
      LeftAppended(o, classLookup, nextClass, sizes, classes, next);
    }

    lemma Ends(o: Orbit<E>, classes: seq<nat>, next: nat)
      requires Valid() && !done && Searching(g, kind, universe, Values(g, extra), o) && Downward(o.table) && o.queue == []
      requires LeftBehind(o, classLookup, nextClass, sizes) && classes == classLookup + Numbers(o.table, |o.table|)
      requires next == if |o.table| > 0 then RootCount(o.table, |o.table|) else nextClass
      ensures Stored(g, kind, universe, Values(g, extra), o, classes, next, sizes, true)
    {
      Parts();
      hide Searching, Valid, PlacesOk, Chunks;
    }

    /** `run(killed)`: until it is done or killed (lines 152-156). */
    method RunToEnd(canKill: bool)
      requires Valid()
      modifies this
      ensures Valid() && (!canKill ==> done) && (old(done) ==> done)
      ensures !canKill ==> sizes == old(sizes)
    {
      hide *;
      var killed := Killed(canKill);
      while !killed && !done
        invariant Valid() && (killed ==> canKill) && (old(done) ==> done) && (!canKill ==> sizes == old(sizes))
        decreases if done || killed then -1 else WorkLeft(universe, orbit)
      {
        Parts();
        WorkBound();
        TurnsMany(LIMIT_MAX);
        killed := Run(LIMIT_MAX, canKill);
        Parts();
        WorkBound();
        if !killed {
          killed := Killed(canKill);
        }
      }
    }

    lemma WorkBound()
      requires Valid()
      ensures !done ==> WorkLeft(universe, orbit) >= 0
    {
      Parts();
      SearchBound(g, kind, universe, Values(g, extra), Whole());
      hide Valid, Searching;
    }

    /** `get_index` (lines 310-328): an element without index gets one, and a class number if the classes have been numbered. */
    method GetIndex(x: E) returns (i: nat)
      requires Valid() && x in universe
      modifies this
      ensures Valid() && done == old(done) && sizes == old(sizes) && Grown(old(orbit), orbit)
      ensures nextClass - |classLookup| == old(nextClass) - |old(classLookup)| && old(classLookup) <= classLookup
      ensures x in orbit.places && orbit.places[x] == i && i < |orbit.table|
    {
      hide *;
      Parts();
      if x in orbit.places {
        i := orbit.places[x];
        GrownRefl(universe, Whole(), x);
        WholeIs();
        GrownPlain(Whole(), Whole(), orbit, orbit);
      } else {
        ghost var before, o := Whole(), orbit;
        WholeIs();
        StoredGrow(g, kind, universe, Values(g, extra), before, classLookup, nextClass, sizes, done, x);
        GrownStep(universe, before, x);
        AddedPlain(orbit, found, x);
        if done {
          classLookup, nextClass := classLookup + [nextClass], nextClass + 1;
        }
        i := |orbit.elements|;
        orbit := AddIndex(orbit, x);
        GrownPlain(before, AddIndex(before, x), o, orbit);
        WholeIs();
        NowValid();
      }
    }

    /** `nr_classes` (lines 94-98), given the size of the semigroup. */
    method NrClasses(size: nat) returns (n: int)
      requires Valid() && done && size == |universe|
      ensures n == size - |classLookup| + nextClass
      ensures CongruenceClasses(g, kind, universe, Values(g, extra), n) <==> sizes == []
      ensures CongruenceClasses(g, kind, universe, Values(g, extra), n + Total(sizes))
    {
      hide *;
      Parts();
      NumbersParts(orbit.table, classLookup, nextClass, sizes);
      CountExact(g, kind, universe, Values(g, extra), Whole(), size - |classLookup| + nextClass);
      CountExact(g, kind, universe, Values(g, extra), Whole(), size - |classLookup| + nextClass + Total(sizes));
      n := size - |classLookup| + nextClass;
    }

    /** `word_to_class_index` (lines 100-110). */
    method WordToClassIndex(w: Word) returns (c: nat)
      requires Valid() && done && Proper(g, w)
      modifies this
      ensures Valid() && done && sizes == old(sizes) && Grown(old(orbit), orbit)
      ensures nextClass - |classLookup| == old(nextClass) - |old(classLookup)| && old(classLookup) <= classLookup
      ensures Eval(g, w) in orbit.places && orbit.places[Eval(g, w)] < |classLookup| && classLookup[orbit.places[Eval(g, w)]] == c
      ensures Answered(Eval(g, w), c)
    {
      hide *;
      Parts();
      EvalIn(g, universe, w);
      var i := GetIndex(Eval(g, w));
      Parts();
      NumbersParts(orbit.table, classLookup, nextClass, sizes);
      c := classLookup[i];
      AnswerRead(Eval(g, w));
    }

    /**
     * The number that is read for an indexed element: that of its own class, or
     * if runs were stopped while numbering perhaps that of an earlier index.
     */
    ghost predicate Answered(x: E, c: nat)
      reads this
    {
      && x in orbit.places && Downward(orbit.table) && orbit.places[x] < |orbit.table|
      && var p := Position(sizes + [|orbit.table|], orbit.places[x]); p < |orbit.table| && c == ClassNumber(orbit.table, p)
    }

    lemma AnswerRead(x: E)
      requires Valid() && done && x in orbit.places
      ensures orbit.places[x] < |classLookup| && Answered(x, classLookup[orbit.places[x]])
    {
      Parts();
      PlaceBound(universe, Whole(), x);
      AllChunks(orbit.table, classLookup, nextClass, sizes);
      ChunkAt(orbit.table, sizes + [|orbit.table|], orbit.places[x]);
      hide Valid, Searching, PlacesOk, Chunks;
    }

    /** All indexed elements were numbered by the first run that got that far. */
    ghost predicate FirstCovers()
      reads this
    {
      sizes == [] || |orbit.table| == sizes[0]
    }

    /** Numbers decide, for all elements that have an index. */
    ghost predicate NumbersDecide()
      reads this
    {
      forall x, y :: x in orbit.places && y in orbit.places && orbit.places[x] < |classLookup| && orbit.places[y] < |classLookup| ==>
        (classLookup[orbit.places[x]] == classLookup[orbit.places[y]] <==> Congruent(x, y))
    }

    /** Exactly when class numbers are right: no element has got its index after a run that was stopped while numbering. */
    lemma NumbersDecideIff()
      requires Valid() && done
      ensures NumbersDecide() <==> FirstCovers()
    {
      hide CongruenceByPairs.Congruent, Valid;
      if FirstCovers() {
        forall x, y | x in orbit.places && y in orbit.places
          ensures orbit.places[x] < |classLookup| && orbit.places[y] < |classLookup| && (classLookup[orbit.places[x]] == classLookup[orbit.places[y]] <==> Congruent(x, y)) {
          Decided(x, y);
        }
      } else {
        var x, y := LateElement();
        assert x in orbit.places && y in orbit.places;
      }
    }

    /** An element indexed after a stopped numbering gets the number of the first one, to which it is not related. */
    lemma LateElement() returns (x: E, y: E)
      requires Valid() && done && !FirstCovers()
      ensures x in orbit.places && y in orbit.places && orbit.places[x] < |classLookup| && orbit.places[y] < |classLookup|
      ensures classLookup[orbit.places[x]] == classLookup[orbit.places[y]] && !Congruent(x, y)
    {
      Parts();
      var t, m := orbit.table, sizes[0];
      SettledParts(t, classLookup, nextClass, sizes);
      x, y := Whole().elements[0], Whole().elements[m];
      IndexOf(universe, Whole(), 0);
      IndexOf(universe, Whole(), m);
      hide Valid, Searching, PlacesOk, NumbersOk, CongruenceByPairs.Congruent, Position, Total;
      AnswerRead(x);
      AnswerRead(y);
      FirstPositions(sizes, |t|);
      RootIs(t, 0);
      RootIs(t, m);
      RelatedExact(g, kind, universe, Values(g, extra), Whole(), x, y);
    }

    /** Before the end it is true exactly if the words stand for elements in one class of those found so far. */
    method CurrentEquals(v: Word, w: Word) returns (answer: Answer)
      requires Valid() && Proper(g, v) && Proper(g, w)
      modifies this
      ensures Valid() && done == old(done) && sizes == old(sizes) && Grown(old(orbit), orbit)
      ensures !done ==> answer == if Related(old(orbit), Eval(g, v), Eval(g, w)) then True else Unknown
      ensures (!done || FirstCovers()) && ((v, w) in extra || (w, v) in extra) ==> answer == True
      ensures done ==> exists c, d :: Answered(Eval(g, v), c) && Answered(Eval(g, w), d) && answer == if c == d then True else False
      ensures done && FirstCovers() ==> answer == if Congruent(Eval(g, v), Eval(g, w)) then True else False
      ensures !done ==> answer != False && (answer == True ==> Congruent(Eval(g, v), Eval(g, w)))
      ensures !done && orbit.queue == [] ==> (answer == True <==> Congruent(Eval(g, v), Eval(g, w)))
    {
      hide *;
      Parts();
      EvalIn(g, universe, v);
      EvalIn(g, universe, w);
      if done {
        var c := WordToClassIndex(v);
        ghost var o, before := orbit, classLookup;
        var d := WordToClassIndex(w);
        Parts();
        SameNumber(o, Eval(g, v), before, c);
        Decided(Eval(g, v), Eval(g, w));
        AnswerRead(Eval(g, v));
        GrownTrans(old(orbit), o, orbit);
        GivenCongruent(v, w);
        answer := if c == d then True else False;
      } else {
        var i := GetIndex(Eval(g, v));
        ghost var o := orbit;
        var j := GetIndex(Eval(g, w));
        Parts();
        GrownPlace(o, orbit, Eval(g, v));
        GrownTrans(old(orbit), o, orbit);
        Undecided(Eval(g, v), Eval(g, w));
        RelatedBefore(old(orbit), Eval(g, v), Eval(g, w));
        GivenRelated(v, w);
        var ii := FindRoot(orbit.table, i);
        var jj := FindRoot(orbit.table, j);
        answer := if ii == jj then True else Unknown;
      }
    }

    /** One class then is one class now, and is seen at the roots. */
    lemma RelatedBefore(o: Orbit<E>, x: E, y: E)
      requires Valid() && Grown(o, orbit) && x in orbit.places && y in orbit.places
      ensures orbit.places[x] < |orbit.table| && orbit.places[y] < |orbit.table| && Downward(orbit.table) && Downward(o.table)
      ensures Root(orbit.table, orbit.places[x]) == Root(orbit.table, orbit.places[y]) <==> Related(o, x, y)
    {
      Parts();
      PlaceBound(universe, Whole(), x);
      PlaceBound(universe, Whole(), y);
      assert Related(orbit, x, y) <==> Related(o, x, y);
      hide Valid, Searching, PlacesOk;
    }

    lemma GivenIndex(v: Word, w: Word) returns (j: nat)
      requires (v, w) in extra
      ensures j < |Values(g, extra)| && Values(g, extra)[j] == (Eval(g, v), Eval(g, w))
    {
      j :| j < |extra| && extra[j] == (v, w);
    }

    lemma GivenRelated(v: Word, w: Word)
      requires Valid() && !done && Eval(g, v) in orbit.places && Eval(g, w) in orbit.places
      ensures orbit.places[Eval(g, v)] < |orbit.table| && orbit.places[Eval(g, w)] < |orbit.table| && Downward(orbit.table)
      ensures (v, w) in extra || (w, v) in extra ==> Root(orbit.table, orbit.places[Eval(g, v)]) == Root(orbit.table, orbit.places[Eval(g, w)])
    {
      Parts();
      StartParts(g, kind, universe, Values(g, extra), orbit);
      PlaceBound(universe, orbit, Eval(g, v));
      PlaceBound(universe, orbit, Eval(g, w));
      SearchBound(g, kind, universe, Values(g, extra), orbit);
      hide Valid, Searching, PlacesOk, PairsOk, Generated, Known;
      if (v, w) in extra {
        var j := GivenIndex(v, w);
        KnownRelated(universe, orbit, Values(g, extra)[j].0, Values(g, extra)[j].1);
      } else if (w, v) in extra {
        var j := GivenIndex(w, v);
        KnownRelated(universe, orbit, Values(g, extra)[j].0, Values(g, extra)[j].1);
      }
    }

    lemma GivenCongruent(v: Word, w: Word)
      ensures (v, w) in extra || (w, v) in extra ==> Congruent(Eval(g, v), Eval(g, w))
    {
      hide IsCongruence;
      if (v, w) in extra {
        var j := GivenIndex(v, w);
      } else if (w, v) in extra {
        var j := GivenIndex(w, v);
      }
    }

    lemma SameNumber(o: Orbit<E>, x: E, before: seq<nat>, c: nat)
      requires Grown(o, orbit) && before <= classLookup && x in o.places && o.places[x] < |before| && before[o.places[x]] == c
      ensures x in orbit.places && orbit.places[x] < |classLookup| && classLookup[orbit.places[x]] == c
    {
    }

    /** Once it is done, class numbers decide, unless elements have been indexed since a stopped numbering. */
    lemma Decided(x: E, y: E)
      requires Valid() && done && x in orbit.places && y in orbit.places
      ensures orbit.places[x] < |classLookup| && orbit.places[y] < |classLookup|
      ensures FirstCovers() ==> (classLookup[orbit.places[x]] == classLookup[orbit.places[y]] <==> Congruent(x, y))
    {
      Parts();
      AnswerRead(x);
      AnswerRead(y);
      PlaceBound(universe, Whole(), x);
      PlaceBound(universe, Whole(), y);
      PlacedIn(universe, Whole(), x);
      PlacedIn(universe, Whole(), y);
      if FirstCovers() {
        SettledFit(orbit.table, classLookup, nextClass, sizes);
        OwnPosition(sizes, |orbit.table|, orbit.places[x]);
        OwnPosition(sizes, |orbit.table|, orbit.places[y]);
        hide Valid, Searching, PlacesOk, CongruenceByPairs.Congruent, NumbersOk, Position;
        RelatedExact(g, kind, universe, Values(g, extra), Whole(), x, y);
        ClassNumberSame(orbit.table, orbit.places[x], orbit.places[y]);
      }
    }

    lemma Undecided(x: E, y: E)
      requires Valid() && !done && x in orbit.places && y in orbit.places && x in universe && y in universe
      ensures Downward(orbit.table) && orbit.places[x] < |orbit.table| && orbit.places[y] < |orbit.table|
      ensures Root(orbit.table, orbit.places[x]) == Root(orbit.table, orbit.places[y]) ==> Congruent(x, y)
      ensures orbit.queue == [] ==> (Root(orbit.table, orbit.places[x]) == Root(orbit.table, orbit.places[y]) <==> Congruent(x, y))
    {
      Parts();
      hide Valid, Searching, PlacesOk, CongruenceByPairs.Congruent;
      PlaceBound(universe, orbit, x);
      PlaceBound(universe, orbit, y);
      if Related(orbit, x, y) {
        RelatedSound(g, kind, universe, Values(g, extra), orbit, x, y);
      }
      if orbit.queue == [] {
        RelatedExact(g, kind, universe, Values(g, extra), orbit, x, y);
      }
    }
  }

  // ----- what queries leave alone -----

  /** More elements may have indices; nothing else has changed. */
  ghost predicate Grown<E(!new)>(o: Orbit<E>, o': Orbit<E>) {
    && Downward(o.table) && Downward(o'.table) && o'.queue == o.queue && o'.found == o.found
    && (forall x :: x in o.places ==> x in o'.places && o'.places[x] == o.places[x])
    && (forall x, y :: Related(o', x, y) <==> Related(o, x, y))
  }

  lemma GrownRefl<E(!new)>(u: set<E>, o: Orbit<E>, x: E)
    requires PlacesOk(u, o) && x in o.places
    ensures Grown(o, o) && o.places[x] < |o.table|
  {
  }

  lemma GrownTrans<E(!new)>(o: Orbit<E>, o1: Orbit<E>, o2: Orbit<E>)
    requires Grown(o, o1) && Grown(o1, o2)
    ensures Grown(o, o2)
  {
    hide Related;
  }

  lemma GrownStep<E(!new)>(u: set<E>, o: Orbit<E>, z: E)
    requires PlacesOk(u, o) && z !in o.places
    ensures Grown(o, AddIndex(o, z)) && |AddIndex(o, z).table| == |o.table| + 1 == |o.elements| + 1
  {
    forall x, y ensures Downward(AddIndex(o, z).table) && (Related(AddIndex(o, z), x, y) <==> Related(o, x, y)) {
      RelatedGrow(u, o, z, x, y);
    }
    DownGrow(o.table);
    hide Related;
  }

  /** The pairs found do not matter. */
  lemma GrownPlain<E(!new)>(o: Orbit<E>, o': Orbit<E>, plain: Orbit<E>, plain': Orbit<E>)
    requires Grown(o, o') && o == plain.(found := o.found) && o' == plain'.(found := o.found) && plain.found == plain'.found
    ensures Grown(plain, plain')
  {
    forall x, y ensures Related(plain', x, y) <==> Related(plain, x, y) {
      assert Related(o', x, y) <==> Related(o, x, y);
    }
  }

  lemma AddedPlain<E>(o: Orbit<E>, found: set<(E, E)>, x: E)
    ensures AddIndex(o.(found := found), x) == AddIndex(o, x).(found := found)
    ensures AddIndex(o, x).places == o.places[x := |o.elements|] && AddIndex(o, x).found == o.found && |AddIndex(o, x).table| == |o.table| + 1
  {
  }

  lemma GrownPlace<E(!new)>(o: Orbit<E>, o': Orbit<E>, x: E)
    requires Grown(o, o') && x in o.places
    ensures x in o'.places && o'.places[x] == o.places[x]
  {
  }

  lemma PlaceBound<E>(u: set<E>, o: Orbit<E>, x: E)
    requires PlacesOk(u, o) && x in o.places
    ensures o.places[x] < |o.table|
  {
  }

  lemma PlacedIn<E>(u: set<E>, o: Orbit<E>, x: E)
    requires PlacesOk(u, o) && x in o.places
    ensures x in u
  {
    assert o.elements[o.places[x]] == x;
  }

  lemma IndexOf<E>(u: set<E>, o: Orbit<E>, i: nat)
    requires PlacesOk(u, o) && i < |o.elements|
    ensures o.elements[i] in u && o.elements[i] in o.places && o.places[o.elements[i]] == i
  {
  }

  lemma StartedEmpty<E>(o: Orbit<E>)
    requires Downward(o.table)
    ensures LeftBehind(o, [], 0, [])
  {
    NoChunks(o.table);
  }

  lemma LeftAppended<E>(o: Orbit<E>, classes: seq<nat>, next: nat, sizes: seq<nat>, classes': seq<nat>, next': nat)
    requires Downward(o.table) && LeftBehind(o, classes, next, sizes) && o.queue == []
    requires classes' == classes + Numbers(o.table, |o.table|) && (o.table == [] ==> next' == next)
    ensures LeftBehind(o, classes', next', if o.table == [] then sizes else sizes + [|o.table|])
  {
    if o.table != [] {
      Appended(o.table, sizes, |o.table|);
    }
    hide Chunks;
  }

  lemma LeftParts<E>(o: Orbit<E>, classes: seq<nat>, next: nat, sizes: seq<nat>)
    requires Downward(o.table) && LeftBehind(o, classes, next, sizes)
    ensures Settled(o.table, sizes) && classes == Chunks(o.table, sizes)
  {
  }

  lemma NumbersParts(t: seq<nat>, classes: seq<nat>, next: nat, sizes: seq<nat>)
    requires Downward(t) && NumbersOk(t, classes, next, sizes)
    ensures |classes| == Total(sizes) + |t| && next == RootCount(t, |t|) && (Total(sizes) == 0 <==> sizes == [])
  {
    if sizes != [] {
      FirstTotal(sizes);
    }
  }

  lemma SettledFit(t: seq<nat>, classes: seq<nat>, next: nat, sizes: seq<nat>)
    requires Downward(t) && NumbersOk(t, classes, next, sizes)
    ensures forall j :: 0 <= j < |sizes| ==> 0 < sizes[j] <= |t|
  {
  }

  lemma SettledParts(t: seq<nat>, classes: seq<nat>, next: nat, sizes: seq<nat>)
    requires Downward(t) && NumbersOk(t, classes, next, sizes) && sizes != [] && |t| != sizes[0]
    ensures 0 < sizes[0] < |t| && t[0] == 0 && t[sizes[0]] == sizes[0]
    ensures forall j :: 0 <= j < |sizes| ==> 0 < sizes[j] <= |t|
  {
  }

  lemma AllChunks(t: seq<nat>, classes: seq<nat>, next: nat, sizes: seq<nat>)
    requires Downward(t) && NumbersOk(t, classes, next, sizes) && |t| > 0
    ensures Fit(t, sizes + [|t|]) && classes == Chunks(t, sizes + [|t|]) && |classes| == Total(sizes + [|t|]) >= |t|
  {
    Appended(t, sizes, |t|);
  }

  /** In the first numbering, or the only one, every index is numbered itself. */
  lemma OwnPosition(sizes: seq<nat>, n: nat, i: nat)
    requires (forall j :: 0 <= j < |sizes| ==> 0 < sizes[j] <= n) && (sizes == [] || n == sizes[0]) && i < n
    ensures i < Total(sizes + [n]) && Position(sizes + [n], i) == i
  {
    var all := sizes + [n];
    assert all[..|sizes|] == sizes;
    FirstTotal(all);
    FirstChunk(all, i);
  }

  /** The index after the first numbering is numbered like index 0. */
  lemma FirstPositions(sizes: seq<nat>, n: nat)
    requires sizes != [] && (forall j :: 0 <= j < |sizes| ==> 0 < sizes[j] <= n) && sizes[0] < n
    ensures sizes[0] < Total(sizes + [n]) && Position(sizes + [n], 0) == 0 == Position(sizes + [n], sizes[0])
  {
    var all := sizes + [n];
    assert all[..|sizes|] == sizes;
    FirstTotal(sizes);
    FirstChunk(all, 0);
    FirstChunk(all, sizes[0]);
  }
}
