/**
 * How far the relations have been applied, and the end of the procedure.
 * Lines cited here are those of src/cong/tc.cc.
 */
module CosetProgress {
  import opened Words
  import opened Derivations
  import opened CosetTable
  import opened CosetColumn
  import opened CosetList
  import opened CosetTables
  import opened CosetMeaning
  import opened CosetState
  import opened CosetTrace

  // ----- what a run does -----

  /**
   * The relation has been applied to coset 0 or to the coset at the marker: what
   * that coset has become satisfies it, and if it did before nothing has changed.
   */
  ghost predicate Applied(k: nat, atStart: bool, p: Pair, c: Cosets, o: Order, c': Cosets, o': Order) {
    var x := if atStart then 0 else c.current;
    && (Satisfies(c.tables.image, x, p) ==> c' == c && o' == o)
    && exists phi :: Became(k, c, o, c', o', phi) && 0 <= x < |phi| && Satisfies(c'.tables.image, phi[x], p)
  }

  /** The first `j` relations have been applied, one after the other. */
  ghost predicate AppliedAll(k: nat, atStart: bool, ps: seq<Pair>, j: nat, c: Cosets, o: Order, c': Cosets, o': Order)
    requires j <= |ps|
  {
    if j == 0 then c' == c && o' == o
    else var i := j - 1; exists c1, o1 :: AppliedAll(k, atStart, ps, i, c, o, c1, o1) && Applied(k, atStart, ps[i], c1, o1, c', o')
  }

  /** All relations have been applied to the coset at the marker, and the marker is at the next one. */
  ghost predicate RoundMade(k: nat, relations: seq<Pair>, c: Cosets, o: Order, c': Cosets, o': Order) {
    exists c1, o1 :: AppliedAll(k, false, relations, |relations|, c, o, c1, o1) && Moved(c1, o1, c', o')
  }

  ghost predicate Moved(c: Cosets, o: Order, c': Cosets, o': Order) {
    0 <= c.current < |c.links.forwd| && c' == c.(current := c.links.forwd[c.current]) && o' == o.(cur := o.cur + 1)
  }

  /** So many rounds have been made, and the end was not reached before the last of them. */
  ghost predicate RoundsMade(k: nat, relations: seq<Pair>, n: nat, c: Cosets, o: Order, c': Cosets, o': Order) {
    if n == 0 then c' == c && o' == o
    else exists c1, o1 :: RoundsMade(k, relations, n - 1, c, o, c1, o1) && c1.current != c1.links.next && RoundMade(k, relations, c1, o1, c', o')
  }

  lemma AppliedNone(k: nat, atStart: bool, ps: seq<Pair>, c: Cosets, o: Order)
    ensures AppliedAll(k, atStart, ps, 0, c, o, c, o)
  {
  }

  lemma AppliedNext(k: nat, atStart: bool, ps: seq<Pair>, j: nat, c: Cosets, o: Order, c1: Cosets, o1: Order, c': Cosets, o': Order, phi: seq<nat>)
    requires j < |ps| && AppliedAll(k, atStart, ps, j, c, o, c1, o1) && Became(k, c1, o1, c', o', phi)
    requires 0 <= (if atStart then 0 else c1.current) < |phi| && Satisfies(c'.tables.image, phi[if atStart then 0 else c1.current], ps[j])
    requires Satisfies(c1.tables.image, if atStart then 0 else c1.current, ps[j]) ==> c' == c1 && o' == o1
    ensures AppliedAll(k, atStart, ps, j + 1, c, o, c', o')
  {
    hide Became, Satisfies;
    assert Applied(k, atStart, ps[j], c1, o1, c', o');
  }

  lemma RoundIs(k: nat, relations: seq<Pair>, c: Cosets, o: Order, c1: Cosets, o1: Order, c': Cosets, o': Order)
    requires AppliedAll(k, false, relations, |relations|, c, o, c1, o1) && Moved(c1, o1, c', o')
    ensures RoundMade(k, relations, c, o, c', o')
  {
    hide AppliedAll, Moved;
  }

  lemma RoundsNone(k: nat, relations: seq<Pair>, c: Cosets, o: Order)
    ensures RoundsMade(k, relations, 0, c, o, c, o)
  {
  }

  lemma RoundsNext(k: nat, relations: seq<Pair>, n: nat, c: Cosets, o: Order, c1: Cosets, o1: Order, c': Cosets, o': Order)
    requires RoundsMade(k, relations, n, c, o, c1, o1) && c1.current != c1.links.next && RoundMade(k, relations, c1, o1, c', o')
    ensures RoundsMade(k, relations, n + 1, c, o, c', o')
  {
    hide RoundMade;
  }

  // ----- how far the relations have been applied -----

  /** The first `e` pairs hold at coset 0. */
  ghost predicate HoldAtStart(c: Cosets, extra: seq<Pair>, e: nat)
    requires e <= |extra|
  {
    forall j :: 0 <= j < e ==> Satisfies(c.tables.image, 0, extra[j])
  }

  /** All relations hold at the cosets before the marker, and the first `r` of them at the marker. */
  ghost predicate Progress(c: Cosets, o: Order, relations: seq<Pair>, r: nat)
    requires r <= |relations| && o.cur <= |o.list| && (r > 0 ==> o.cur < |o.list|)
  {
    && (forall j, i :: 0 <= j < |relations| && 0 <= i < o.cur ==> Satisfies(c.tables.image, o.list[i], relations[j]))
    && (forall j :: 0 <= j < r ==> Satisfies(c.tables.image, o.list[o.cur], relations[j]))
  }

  /** The relations that the table satisfied from the start, if it was filled in beforehand. */
  ghost predicate BaseOk(k: nat, c: Cosets, o: Order, base: set<Pair>) {
    base == {} ||
    (Full(k, c, o) && forall p, x :: p in base && x in Alive(c, o) ==> Satisfies(c.tables.image, x, p))
  }

  lemma BecameParts(k: nat, c: Cosets, o: Order, c': Cosets, o': Order, phi: seq<nat>)
    requires Became(k, c, o, c', o', phi)
    ensures 0 in Alive(c, o) && 0 in Alive(c', o') && |phi| == Size(o) && phi[0] == 0
    ensures Closed(c.tables.image, k, Size(o), Alive(c, o)) && Closed(c'.tables.image, k, Size(o'), Alive(c', o'))
    ensures Quotient(c.tables.image, k, Size(o), Alive(c, o), c'.tables.image, Size(o'), Alive(c', o'), phi)
    ensures forall x :: x in Alive(c, o) && x in Alive(c', o') ==> x < |phi| && phi[x] == x
    ensures MarkerWithin(o.list, o.cur, o'.list, o'.cur)
  {
  }

  lemma StartKept(k: nat, c: Cosets, o: Order, c': Cosets, o': Order, phi: seq<nat>, extra: seq<Pair>, e: nat)
    requires Became(k, c, o, c', o', phi) && e <= |extra| && HoldAtStart(c, extra, e)
    ensures HoldAtStart(c', extra, e)
  {
    BecameParts(k, c, o, c', o', phi);
    hide Became, Quotient, Satisfies;
    forall j | 0 <= j < e ensures Satisfies(c'.tables.image, 0, extra[j]) {
      SatisfiesQuotient(c.tables.image, k, Size(o), Alive(c, o), c'.tables.image, Size(o'), Alive(c', o'), phi, 0, extra[j]);
    }
  }

  lemma BaseKept(k: nat, c: Cosets, o: Order, c': Cosets, o': Order, phi: seq<nat>, base: set<Pair>)
    requires Became(k, c, o, c', o', phi) && BaseOk(k, c, o, base)
    requires Full(k, c, o) ==> Alive(c', o') <= Alive(c, o)
    ensures BaseOk(k, c', o', base)
  {
    BecameParts(k, c, o, c', o', phi);
    if base != {} {
      assert Full(k, c', o');
      hide Became, Satisfies;
      forall p, x | p in base && x in Alive(c', o') ensures Satisfies(c'.tables.image, x, p) {
        SatisfiesQuotient(c.tables.image, k, Size(o), Alive(c, o), c'.tables.image, Size(o'), Alive(c', o'), phi, x, p);
      }
    }
  }

  lemma LiveBefore(k: nat, c: Cosets, o: Order)
    requires StructureOk(k, c, o) && o.cur < c.active
    ensures o.cur < |o.list| && forall i :: 0 <= i <= o.cur ==> o.list[i] in Alive(c, o)
  {
    forall i | 0 <= i <= o.cur ensures o.list[i] in Alive(c, o) { assert o.pos[o.list[i]] == i; }
  }

  /** Applying the next relation at the marker makes progress, also if the coset at the marker dies. */
  lemma ProgressStep(k: nat, c: Cosets, o: Order, c': Cosets, o': Order, phi: seq<nat>, relations: seq<Pair>, r: nat)
    requires StructureOk(k, c, o) && o.cur < c.active && StructureOk(k, c', o') && o'.cur < c'.active
    requires Became(k, c, o, c', o', phi) && r < |relations| && o.cur < |o.list|
    requires Progress(c, o, relations, r)
    requires o.list[o.cur] < |phi| && Satisfies(c'.tables.image, phi[o.list[o.cur]], relations[r])
    ensures o'.cur < |o'.list| && Progress(c', o', relations, r + 1)
  {
    LiveBefore(k, c, o);
    LiveBefore(k, c', o');
    BecameParts(k, c, o, c', o', phi);
    hide StructureOk, Quotient, Satisfies, MarkerWithin, Alive, Closed;
    forall j | 0 <= j < |relations|
      ensures forall i :: 0 <= i < o'.cur ==> Satisfies(c'.tables.image, o'.list[i], relations[j])
      ensures j <= r ==> Satisfies(c'.tables.image, o'.list[o'.cur], relations[j]) {
      SatisfiedKept(k, c.tables.image, Size(o), Alive(c, o), o.list, o.cur, c'.tables.image, Size(o'), Alive(c', o'), o'.list, o'.cur, phi, relations[j]);
    }
  }

  /** Line 617: on to the next coset. */
  lemma ProgressNext(k: nat, c: Cosets, o: Order, relations: seq<Pair>)
    requires StructureOk(k, c, o) && o.cur < c.active && o.cur < |o.list| && Progress(c, o, relations, |relations|)
    ensures 0 <= c.current < |c.links.forwd| && c.current == o.list[o.cur]
    ensures StructureOk(k, c.(current := c.links.forwd[c.current]), o.(cur := o.cur + 1))
    ensures Progress(c.(current := c.links.forwd[c.current]), o.(cur := o.cur + 1), relations, 0)
  {
    assert o.pos[o.list[o.cur]] == o.cur;
    assert c.links.forwd[o.list[o.cur]] == At(o.list, o.cur + 1);
    var c', o' := c.(current := c.links.forwd[c.current]), o.(cur := o.cur + 1);
    assert Alive(c', o') == Alive(c, o);
    hide ListOk, TablesOk, Satisfies;
  }

  /** Lines 620 and 629: the marker has passed the last active coset iff `_current` equals `_next`. */
  lemma AtEnd(k: nat, c: Cosets, o: Order)
    requires StructureOk(k, c, o)
    ensures c.current == c.links.next <==> o.cur == c.active
  {
    if o.cur < c.active {
      assert o.pos[o.list[o.cur]] == o.cur;
      if c.active < |o.list| { assert o.pos[o.list[c.active]] == c.active; }
    }
  }

  /** At the end every relation holds at every live coset. */
  lemma ProgressEnd(k: nat, s: System, c: Cosets, o: Order, relations: seq<Pair>, extra: seq<Pair>, base: set<Pair>)
    requires StructureOk(k, c, o) && o.cur == c.active && Progress(c, o, relations, 0)
    requires HoldAtStart(c, extra, |extra|) && BaseOk(k, c, o, base)
    requires s.both == Sym(PairsOf(relations) + base)
    requires s.right == Sym(PairsOf(extra))
    ensures SatisfiesSystem(s, c.tables.image, Alive(c, o))
  {
    forall p, x | p in s.both && x in Alive(c, o) ensures Satisfies(c.tables.image, x, p) {
      assert o.list[o.pos[x]] == x && o.pos[x] < o.cur;
    }
  }

  /** What holds between two steps of the procedure, while it has not finished. */
  ghost predicate Running(k: nat, s: System, relations: seq<Pair>, extra: seq<Pair>, base: set<Pair>, initDone: bool,
                          c: Cosets, o: Order, rep: seq<Word>) {
    && StructureOk(k, c, o) && o.cur < c.active && Meaning(s, k, c, o, rep) && BaseOk(k, c, o, base)
    && o.cur < |o.list| && Progress(c, o, relations, 0)
    && (if initDone then HoldAtStart(c, extra, |extra|) else o.cur == 0)
  }

  /** The relations are part of the presentation. */
  ghost predicate Fits(k: nat, s: System, relations: seq<Pair>, extra: seq<Pair>) {
    && Symmetric(s) && s.left == {}
    && (forall j :: 0 <= j < |relations| ==> IsRelation(k, relations[j]) && relations[j] in s.both)
    && (forall j :: 0 <= j < |extra| ==> IsRelation(k, extra[j]) && extra[j] in s.right)
  }

  lemma ZeroLive(k: nat, c: Cosets, o: Order)
    requires StructureOk(k, c, o)
    ensures 0 in Alive(c, o) && o.list != [] && o.list[0] == 0
  {
    assert o.pos[o.list[0]] == 0;
  }

  /** Lines 97-99: the extra pairs, applied to coset 0 only. */
  method ApplyExtra(k: nat, c: Cosets, relations: seq<Pair>, extra: seq<Pair>, ghost o: Order, ghost s: System, ghost rep: seq<Word>, ghost base: set<Pair>)
    returns (c': Cosets, ghost o': Order, ghost rep': seq<Word>)
    requires Running(k, s, relations, extra, base, false, c, o, rep) && Fits(k, s, relations, extra)
    ensures Running(k, s, relations, extra, base, true, c', o', rep') && AppliedAll(k, true, extra, |extra|, c, o, c', o')
  {
    c', o', rep' := c, o, rep;
    var e := 0;
    AppliedNone(k, true, extra, c, o);
    hide StructureOk, Meaning, BaseOk, Became, Alive, AppliedAll;
    while e < |extra|
      invariant 0 <= e <= |extra| && AppliedAll(k, true, extra, e, c, o, c', o')
      invariant Running(k, s, relations, extra, base, false, c', o', rep') && HoldAtStart(c', extra, e)
    {
      ZeroLive(k, c', o');
      var c1;
      ghost var o1, rep1, phi;
      c1, o1, rep1, phi := TraceRelation(k, c', 0, extra[e], o', s, rep');
      StartKept(k, c', o', c1, o1, phi, extra, e);
      BaseKept(k, c', o', c1, o1, phi, base);
      MarkerAtZero(k, c', o', c1, o1, phi);
      AppliedNext(k, true, extra, e, c, o, c', o', c1, o1, phi);
      ZeroLive(k, c1, o1);
      c', o', rep' := c1, o1, rep1;
      e := e + 1;
    }
  }

  lemma MarkerAtZero(k: nat, c: Cosets, o: Order, c': Cosets, o': Order, phi: seq<nat>)
    requires Became(k, c, o, c', o', phi)
    ensures o'.cur <= o.cur && |phi| > 0 && phi[0] == 0
  {
  }

  /** Lines 580-582: every relation, applied to the coset at the marker. */
  method ApplyRelations(k: nat, c: Cosets, relations: seq<Pair>, extra: seq<Pair>, ghost o: Order, ghost s: System, ghost rep: seq<Word>, ghost base: set<Pair>)
    returns (c': Cosets, ghost o': Order, ghost rep': seq<Word>)
    requires Running(k, s, relations, extra, base, true, c, o, rep) && Fits(k, s, relations, extra)
    ensures Running(k, s, relations, extra, base, true, c', o', rep') && Progress(c', o', relations, |relations|)
    ensures AppliedAll(k, false, relations, |relations|, c, o, c', o')
  {
    c', o', rep' := c, o, rep;
    var r := 0;
    AppliedNone(k, false, relations, c, o);
    hide StructureOk, Meaning, BaseOk, Became, Alive, HoldAtStart, AppliedAll;
    while r < |relations|
      invariant 0 <= r <= |relations| && AppliedAll(k, false, relations, r, c, o, c', o')
      invariant Running(k, s, relations, extra, base, true, c', o', rep') && Progress(c', o', relations, r)
    {
      CurrentLive(k, c', o');
      var c1;
      ghost var o1, rep1, phi;
      c1, o1, rep1, phi := TraceRelation(k, c', c'.current, relations[r], o', s, rep');
      ProgressStep(k, c', o', c1, o1, phi, relations, r);
      ProgressWeaken(c1, o1, relations, r + 1);
      StartKept(k, c', o', c1, o1, phi, extra, |extra|);
      BaseKept(k, c', o', c1, o1, phi, base);
      AppliedNext(k, false, relations, r, c, o, c', o', c1, o1, phi);
      c', o', rep' := c1, o1, rep1;
      r := r + 1;
    }
  }

  lemma ProgressWeaken(c: Cosets, o: Order, relations: seq<Pair>, r: nat)
    requires r <= |relations| && o.cur < |o.list| && Progress(c, o, relations, r)
    ensures Progress(c, o, relations, 0)
  {
  }

  lemma CurrentLive(k: nat, c: Cosets, o: Order)
    requires StructureOk(k, c, o) && o.cur < c.active
    ensures o.cur < |o.list| && c.current == o.list[o.cur] && c.current >= 0 && c.current in Alive(c, o)
  {
    assert o.pos[o.list[o.cur]] == o.cur;
  }

  /** One round of the main loop: all relations at the marker, then on to the next coset (lines 579-617). */
  method Round(k: nat, c: Cosets, relations: seq<Pair>, extra: seq<Pair>, ghost o: Order, ghost s: System, ghost rep: seq<Word>, ghost base: set<Pair>)
    returns (c': Cosets, ghost o': Order, ghost rep': seq<Word>)
    requires Running(k, s, relations, extra, base, true, c, o, rep) && Fits(k, s, relations, extra)
    ensures RoundDone(k, s, relations, extra, base, c', o', rep')
    ensures if c'.current == c'.links.next then o'.cur == c'.active
            else Running(k, s, relations, extra, base, true, c', o', rep')
    ensures c.current != c.links.next && RoundMade(k, relations, c, o, c', o')
  {
    hide AppliedAll, RoundMade;
    AtEnd(k, c, o);
    c', o', rep' := ApplyRelations(k, c, relations, extra, o, s, rep, base);
    ProgressNext(k, c', o', relations);
    NextKeeps(k, s, c', o', rep', extra, base);
    ghost var c1, o1 := c', o';
    c', o' := c'.(current := c'.links.forwd[c'.current]), o'.(cur := o'.cur + 1);
    RoundIs(k, relations, c, o, c1, o1, c', o');
    AtEnd(k, c', o');
    StructureParts(k, c', o');
  }

  /** `Running`, except that the marker may have passed the last active coset. */
  ghost predicate RoundDone(k: nat, s: System, relations: seq<Pair>, extra: seq<Pair>, base: set<Pair>, c: Cosets, o: Order, rep: seq<Word>) {
    && StructureOk(k, c, o) && Meaning(s, k, c, o, rep) && BaseOk(k, c, o, base)
    && o.cur <= |o.list| && Progress(c, o, relations, 0) && HoldAtStart(c, extra, |extra|)
  }

  lemma NextKeeps(k: nat, s: System, c: Cosets, o: Order, rep: seq<Word>, extra: seq<Pair>, base: set<Pair>)
    requires Meaning(s, k, c, o, rep) && BaseOk(k, c, o, base) && HoldAtStart(c, extra, |extra|) && 0 <= c.current < |c.links.forwd|
    ensures var c', o' := c.(current := c.links.forwd[c.current]), o.(cur := o.cur + 1);
            Meaning(s, k, c', o', rep) && BaseOk(k, c', o', base) && HoldAtStart(c', extra, |extra|)
  {
    assert Alive(c.(current := c.links.forwd[c.current]), o.(cur := o.cur + 1)) == Alive(c, o);
  }
}
