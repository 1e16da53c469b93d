/**
 * The Todd-Coxeter procedure as an object: `Congruence::TC`.
 * Lines cited here are those of src/cong/tc.cc unless another file is named.
 */
module ToddCoxeter {
  import opened Words
  import opened Derivations
  import opened CosetTable
  import CosetColumn
  import opened CosetList
  import opened CosetTables
  import opened CosetMeaning
  import opened CosetState
  import opened CosetTrace
  import opened CosetCompress
  import opened CosetExact
  import opened CosetProgress
  import opened CosetPrefill
  import opened KillFlag

  function ReverseAll(ps: seq<Pair>): seq<Pair> {
    seq(|ps|, i requires 0 <= i < |ps| => ReversePair(ps[i]))
  }

  /** Left congruences are handled as right congruences on reversed words. */
  function Oriented(kind: Kind, ps: seq<Pair>): seq<Pair> {
    if kind == LeftSided then ReverseAll(ps) else ps
  }

  /** `_relations` after `init_tc_relations`: the relations applied at every coset. */
  function TracedRelations(kind: Kind, defining: seq<Pair>, extra: seq<Pair>, prefilled: bool): seq<Pair> {
    (if kind == TwoSided then extra else []) + (if prefilled then [] else Oriented(kind, defining))
  }

  /** `_extra` after `init_tc_relations`: the relations applied at coset 0 only. */
  function TracedExtra(kind: Kind, extra: seq<Pair>): seq<Pair> {
    if kind == TwoSided then [] else Oriented(kind, extra)
  }

  /** The same congruence on the words as they are traced. */
  ghost function TracedSystem(kind: Kind, defining: seq<Pair>, extra: seq<Pair>): System {
    if kind == LeftSided then ReverseSystem(Presentation(kind, defining, extra)) else Presentation(kind, defining, extra)
  }

  /** The word as it is traced. */
  function Key(kind: Kind, w: Word): Word {
    if kind == LeftSided then Reverse(w) else w
  }

  ghost predicate Relations(k: nat, ps: seq<Pair>) {
    forall j :: 0 <= j < |ps| ==> IsRelation(k, ps[j])
  }

  // ----- the traced system -----

  lemma ReverseSym(ps: seq<Pair>)
    ensures ReversePairs(Sym(PairsOf(ps))) == Sym(PairsOf(ReverseAll(ps)))
  {
    var qs := ReverseAll(ps);
    forall p | p in ReversePairs(Sym(PairsOf(ps))) ensures p in Sym(PairsOf(qs)) {
      var q :| q in Sym(PairsOf(ps)) && p == ReversePair(q);
      if q in PairsOf(ps) {
        var j :| 0 <= j < |ps| && ps[j] == q;
        assert qs[j] == p;
      } else {
        var r :| r in PairsOf(ps) && q == (r.1, r.0);
        var j :| 0 <= j < |ps| && ps[j] == r;
        assert qs[j] == (p.1, p.0);
      }
    }
    forall p | p in Sym(PairsOf(qs)) ensures p in ReversePairs(Sym(PairsOf(ps))) {
      var q := if p in PairsOf(qs) then p else (p.1, p.0);
      var j :| 0 <= j < |qs| && qs[j] == q;
      assert ps[j] in PairsOf(ps);
      assert (ps[j].1, ps[j].0) in Flipped(PairsOf(ps));
      assert q == ReversePair(ps[j]);
      assert (q.1, q.0) == ReversePair((ps[j].1, ps[j].0));
    }
  }

  lemma TracedSystemOk(kind: Kind, defining: seq<Pair>, extra: seq<Pair>, prefilled: bool, base: set<Pair>)
    requires base == if prefilled then PairsOf(Oriented(kind, defining)) else {}
    ensures var s := TracedSystem(kind, defining, extra);
            && Symmetric(s) && s.left == {}
            && s.both == Sym(PairsOf(TracedRelations(kind, defining, extra, prefilled)) + base)
            && s.right == Sym(PairsOf(TracedExtra(kind, extra)))
  {
    var more := if kind == TwoSided then extra else [];
    var traced := TracedRelations(kind, defining, extra, prefilled);
    PairsOfConcat(more, if prefilled then [] else Oriented(kind, defining));
    assert PairsOf(traced) + base == PairsOf(more) + PairsOf(Oriented(kind, defining));
    assert PairsOf([]) == {} && Sym({}) == {} && ReversePairs({}) == {};
    ReverseSym(defining);
    ReverseSym(extra);
    SymSymmetric(PairsOf(traced) + base);
    SymSymmetric(PairsOf(TracedExtra(kind, extra)));
  }

  lemma PairsOfConcat(ps: seq<Pair>, qs: seq<Pair>)
    ensures PairsOf(ps + qs) == PairsOf(ps) + PairsOf(qs)
  {
    forall p | p in PairsOf(ps) + PairsOf(qs) ensures p in PairsOf(ps + qs) {
      if p in PairsOf(ps) {
        var j :| 0 <= j < |ps| && ps[j] == p;
        assert (ps + qs)[j] == p;
      } else {
        var j :| 0 <= j < |qs| && qs[j] == p;
        assert (ps + qs)[|ps| + j] == p;
      }
    }
  }

  lemma OrientedRelations(k: nat, kind: Kind, ps: seq<Pair>)
    requires Relations(k, ps)
    ensures Relations(k, Oriented(kind, ps))
  {
    if kind == LeftSided {
      forall j | 0 <= j < |ps| ensures IsRelation(k, ReverseAll(ps)[j]) {
        assert IsRelation(k, ps[j]);
      }
    }
  }

  /** Relatedness may be decided on the traced words. */
  lemma KeyRelated(kind: Kind, defining: seq<Pair>, extra: seq<Pair>, u: Word, v: Word)
    ensures Derives(Presentation(kind, defining, extra), u, v) <==>
            Derives(TracedSystem(kind, defining, extra), Key(kind, u), Key(kind, v))
  {
    DerivesReverse(Presentation(kind, defining, extra), u, v);
  }

  /** The table at the moment the procedure finished. */
  datatype Outcome = Outcome(table: Table, size: nat, live: set<nat>, rep: seq<Word>)

  ghost predicate OutcomeOk(s: System, k: nat, f: Outcome) {
    Finished(s, k, f.table, f.size, f.live, f.rep)
  }

  ghost predicate OutcomeComplete(s: System, k: nat, f: Outcome)
    requires OutcomeOk(s, k, f)
  {
    Complete(f.table, k, f.size, f.live)
  }

  /** What `init_relations` comes back with: the defining relations, or nothing if it has been killed (src/cong.cc, line 359). */
  datatype Reading = Read(relations: seq<Pair>) | Stopped

  /** The answer of `current_equals`. */
  datatype Answer = True | False | Unknown

  class Enumeration {
    const nrgens: nat
    const kind: Kind
    const generating: seq<Pair>
    const prefilled: bool
    /** The defining relations are read off a semigroup when the procedure is started. */
    const toRead: bool

    /** The defining relations: those given or, once they have been read, those of the semigroup. */
    var defining: seq<Pair>
    var active: nat
    var current: int
    var links: Links
    var tables: Tables
    var relations: seq<Pair>
    var extra: seq<Pair>
    var initDone: bool
    var tcDone: bool

    ghost var order: Order
    ghost var rep: seq<Word>
    ghost var outcome: Outcome
    // Whether the final renumbering was given an incomplete table with free rows.
    ghost var misnumbered: bool
    // Whether the procedure was started although reading the defining relations had been stopped.
    ghost var starved: bool

    ghost function Traced(): System
      reads this`defining
    {
      TracedSystem(kind, defining, generating)
    }

    ghost function Base(): set<Pair>
      reads this`defining
    {
      if prefilled then PairsOf(Oriented(kind, defining)) else {}
    }

    function Now(): Cosets
      reads this
    {
      Cosets(active, current, links, tables)
    }

    /** `u` and `v` are related by the defining relations that have been read, and the generating pairs. */
    ghost predicate Related(u: Word, v: Word)
      reads this`defining
    {
      Derives(Presentation(kind, defining, generating), u, v)
    }

    ghost predicate Valid()
      reads this
    {
      && Relations(nrgens, defining) && Relations(nrgens, generating)
      && (toRead ==> !prefilled) && (starved ==> toRead && initDone) && (toRead && (starved || !initDone) ==> defining == [])
      && (toRead && !initDone ==> Now() == StartCosets(nrgens) && order == StartOrder(nrgens) && rep == [[]])
      && (initDone ==> relations == TracedRelations(kind, defining, generating, prefilled) && extra == TracedExtra(kind, generating))
      && (if tcDone then initDone && Concluded(nrgens, Traced(), outcome, misnumbered, Now())
          else Running(nrgens, Traced(), TracedRelations(kind, defining, generating, prefilled), TracedExtra(kind, generating),
                       Base(), initDone, Now(), order, rep))
    }

    /** Lines 70-90: the single coset 0, and no entries; `toRead` says that the defining relations are those of a semigroup. */
    constructor (nrgens: nat, kind: Kind, defining: seq<Pair>, generating: seq<Pair>, toRead: bool)
      requires Relations(nrgens, defining) && Relations(nrgens, generating) && (toRead ==> defining == [])
      ensures Valid() && !initDone && !tcDone && !starved
      ensures this.nrgens == nrgens && this.kind == kind && this.defining == defining && this.generating == generating
      ensures !prefilled && this.toRead == toRead
    {
      this.nrgens, this.kind, this.defining, this.generating, this.prefilled, this.toRead := nrgens, kind, defining, generating, false, toRead;
      active, current, links := 1, 0, Links([UNDEFINED], [0], 0, UNDEFINED);
      tables := Tables(seq(nrgens, a => [UNDEFINED]), seq(nrgens, a => [UNDEFINED]), seq(nrgens, a => [UNDEFINED]));
      relations, extra, initDone, tcDone := [], [], false, false;
      order, rep := StartOrder(nrgens), [[]];
      outcome, misnumbered, starved := Outcome([], 0, {}, []), false, false;
      new;
      StartOk(nrgens, Traced(), TracedRelations(kind, defining, generating, false), TracedExtra(kind, generating), Now(), order);
    }

    /**
     * `prefill` and `init_after_prefill` (lines 104-165): the table is given in
     * full, and holds what the defining relations say.
     */
    constructor Prefilled(nrgens: nat, kind: Kind, defining: seq<Pair>, generating: seq<Pair>, table: Table, n: nat, ghost rep: seq<Word>)
      requires Relations(nrgens, defining) && Relations(nrgens, generating)
      requires Fills(TracedSystem(kind, defining, generating), nrgens, PairsOf(Oriented(kind, defining)), table, n, rep)
      ensures Valid() && !initDone && !tcDone
      ensures this.nrgens == nrgens && this.kind == kind && this.defining == defining && this.generating == generating
      ensures prefilled && !toRead && !starved
    {
      this.nrgens, this.kind, this.defining, this.generating, this.prefilled, this.toRead := nrgens, kind, defining, generating, true, false;
      relations, extra, initDone, tcDone := [], [], false, false;
      outcome, misnumbered, starved := Outcome([], 0, {}, []), false, false;
      assert FullTable(table, nrgens, n) by { hide Relations, TracedSystem; }
      var c;
      ghost var o;
      c, o := InitAfterPrefill(table, nrgens, n);
      active, current, links, tables := c.active, c.current, c.links, c.tables;
      order, this.rep := o, rep;
      new;
      hide Fills, StructureOk, TracedRelations, TracedExtra, TracedSystem, Relations, Running, FullTable;
      PrefilledRunning(Traced(), nrgens, TracedRelations(kind, defining, generating, true), TracedExtra(kind, generating), Base(), n, rep, Now(), order);
    }

    /**
     * What starting the procedure does to the defining relations.  If reading
     * them has been stopped there are none, and they are never read again.
     */
    ghost predicate Began(began: bool, defining0: seq<Pair>, starved0: bool, reading: Reading)
      reads this`defining, this`starved
    {
      if began || !toRead then defining == defining0 && starved == starved0
      else starved == reading.Stopped? && defining == if reading.Read? then reading.relations else []
    }

    /**
     * `init`: set up the relations and apply the extra pairs to coset 0 (lines
     * 92-102); `reading` is what reading the defining relations came to.
     */
    method Init(reading: Reading)
      requires Valid() && (reading.Read? ==> Relations(nrgens, reading.relations))
      modifies this
      ensures Valid() && initDone && tcDone == old(tcDone) && (old(initDone) ==> Now() == old(Now()))
      ensures tcDone ==> outcome == old(outcome) && misnumbered == old(misnumbered)
      ensures Began(old(initDone), old(defining), old(starved), reading)
      ensures if old(initDone) then order == old(order) else AppliedAll(nrgens, true, extra, |extra|, old(Now()), old(order), Now(), order)
    {
      hide *;
      BeganBefore(reading);
      NowIs();
      if !initDone {
        InitRelations(reading);
        InitExtra();
      }
    }

    lemma NowIs()
      ensures Now() == Cosets(active, current, links, tables)
    {
    }

    /** Lines 96-100. */
    method InitExtra()
      requires Relations(nrgens, defining) && Relations(nrgens, generating) && !tcDone
      requires relations == TracedRelations(kind, defining, generating, prefilled) && extra == TracedExtra(kind, generating)
      requires Running(nrgens, Traced(), relations, extra, Base(), false, Cosets(active, current, links, tables), order, rep)
      requires Fits(nrgens, Traced(), relations, extra) && (toRead ==> !prefilled) && (starved ==> toRead && defining == [])
      modifies this`active, this`current, this`links, this`tables, this`order, this`rep, this`initDone
      ensures Valid() && initDone
      ensures AppliedAll(nrgens, true, extra, |extra|, old(Cosets(active, current, links, tables)), old(order), Now(), order)
    {
      hide *;
      var c;
      ghost var o, r;
      c, o, r := ApplyExtra(nrgens, Cosets(active, current, links, tables), relations, extra, order, Traced(), rep, Base());
      active, current, links, tables := c.active, c.current, c.links, c.tables;
      order, rep := o, r;
      initDone := true;
      StillValid(c);
      NowIs();
    }

    /** `init_tc_relations` (lines 169-222). */
    method InitRelations(reading: Reading)
      requires Valid() && (reading.Read? ==> Relations(nrgens, reading.relations)) && !initDone
      modifies this`defining, this`starved, this`relations, this`extra
      ensures Relations(nrgens, defining) && Relations(nrgens, generating) && !tcDone
      ensures relations == TracedRelations(kind, defining, generating, prefilled) && extra == TracedExtra(kind, generating)
      ensures Running(nrgens, Traced(), relations, extra, Base(), false, Cosets(active, current, links, tables), order, rep)
      ensures Fits(nrgens, Traced(), relations, extra) && (toRead ==> !prefilled) && (starved ==> toRead && defining == [])
      ensures Began(false, old(defining), old(starved), reading)
    {
      hide *;
      Unstarted(reading);
      ghost var given, starved0 := defining, starved;
      if toRead {
        defining := if reading.Read? then reading.relations else [];
        starved := reading.Stopped?;
      }
      BeganNow(given, starved0, reading);
      relations := TracedRelations(kind, defining, generating, prefilled);
      extra := TracedExtra(kind, generating);
      BaseIs();
      FitsTraced(nrgens, kind, defining, generating, prefilled, Base());
    }

    lemma BeganBefore(reading: Reading)
      ensures Began(true, defining, starved, reading)
    {
    }

    lemma BeganNow(given: seq<Pair>, starved0: bool, reading: Reading)
      requires if !toRead then defining == given && starved == starved0
               else starved == reading.Stopped? && defining == if reading.Read? then reading.relations else []
      ensures Began(false, given, starved0, reading)
    {
    }

    lemma BaseIs()
      ensures Base() == if prefilled then PairsOf(Oriented(kind, defining)) else {}
      ensures Traced() == TracedSystem(kind, defining, generating)
    {
    }

    /** Before the start nothing has been defined that depends on relations still to be read. */
    lemma Unstarted(reading: Reading)
      requires Valid() && (reading.Read? ==> Relations(nrgens, reading.relations)) && !initDone
      ensures Relations(nrgens, generating) && !tcDone && !starved
      ensures var ps := if !toRead then defining else if reading.Read? then reading.relations else [];
              && Relations(nrgens, ps) && (toRead ==> !prefilled)
              && Running(nrgens, TracedSystem(kind, ps, generating), TracedRelations(kind, ps, generating, prefilled), TracedExtra(kind, generating),
                         if prefilled then PairsOf(Oriented(kind, ps)) else {}, false, Cosets(active, current, links, tables), order, rep)
    {
      hide Running, TracedRelations, TracedExtra, TracedSystem, OutcomeOk, OutcomeComplete, StartCosets, StartOrder, Oriented;
      if toRead {
        var ps := if reading.Read? then reading.relations else [];
        StartOk(nrgens, TracedSystem(kind, ps, generating), TracedRelations(kind, ps, generating, false), TracedExtra(kind, generating), Now(), order);
      }
    }

    /** From the state before the call: started, unless it had been, and then so many rounds, and the end if it is done. */
    ghost predicate Ran(began: bool, before: Cosets, o: Order, rounds: nat)
      reads this
    {
      exists c0, o0, c1, o1 ::
        && (if began then c0 == before && o0 == o else AppliedAll(nrgens, true, extra, |extra|, before, o, c0, o0))
        && RoundsMade(nrgens, relations, rounds, c0, o0, c1, o1)
        && (if tcDone then Ended(c1, o1, outcome, misnumbered, Now()) else c1 == Now() && o1 == order)
    }

    /**
     * Apply the procedure for up to `steps` rounds, or until it is killed (lines
     * 567-636; no packing).  Unless it is done before, at least one round is made,
     * and without a kill exactly as many as asked for, or it is done.
     */
    method Run(steps: nat, reading: Reading, canKill: bool) returns (ghost rounds: nat)
      requires Valid() && (reading.Read? ==> Relations(nrgens, reading.relations))
      modifies this
      ensures Valid() && initDone && (old(tcDone) ==> tcDone && Now() == old(Now()) && rounds == 0)
      ensures Began(old(initDone), old(defining), old(starved), reading)
      ensures !old(tcDone) ==> 0 < rounds <= Turns(steps) && Ran(old(initDone), old(Now()), old(order), rounds)
      ensures !canKill ==> tcDone || rounds == Turns(steps)
    {
      hide *;
      DoneStarted();
      Init(reading);
      rounds := 0;
      if !tcDone {
        ghost var c0, o0 := Now(), order;
        rounds := Proceed(steps, canKill);
        RanFrom(old(initDone), old(Now()), old(order), c0, o0, rounds);
      }
    }

    lemma RanFrom(began: bool, before: Cosets, o: Order, c0: Cosets, o0: Order, rounds: nat)
      requires if began then c0 == before && o0 == o else AppliedAll(nrgens, true, extra, |extra|, before, o, c0, o0)
      requires Ran(true, c0, o0, rounds)
      ensures Ran(began, before, o, rounds)
    {
      hide AppliedAll, RoundsMade, Ended;
    }

    lemma RanNow(before: Cosets, o: Order, c1: Cosets, o1: Order, rounds: nat)
      requires RoundsMade(nrgens, relations, rounds, before, o, c1, o1)
      requires if tcDone then Ended(c1, o1, outcome, misnumbered, Now()) else c1 == Now() && o1 == order
      ensures Ran(true, before, o, rounds)
    {
      hide AppliedAll, RoundsMade, Ended;
    }

    method Proceed(steps: nat, canKill: bool) returns (ghost rounds: nat)
      requires Valid() && initDone && !tcDone
      modifies this`active, this`current, this`links, this`tables, this`order, this`rep, this`outcome, this`misnumbered, this`tcDone
      ensures Valid() && initDone
      ensures 0 < rounds <= Turns(steps) && Ran(true, old(Now()), old(order), rounds)
      ensures !canKill ==> tcDone || rounds == Turns(steps)
    {
      hide *;
      Going();
      NowIs();
      var finished, c;
      ghost var o, r, f, wrong, c1, o1;
      finished, c, o, r, f, wrong, rounds, c1, o1 :=
        Advance(nrgens, Cosets(active, current, links, tables), relations, extra, steps, canKill, order, Traced(), rep, Base());
      active, current, links, tables := c.active, c.current, c.links, c.tables;
      order, rep, outcome, misnumbered, tcDone := o, r, f, wrong, finished;
      StillValid(c);
      NowIs();
      RanNow(old(Now()), old(order), c1, o1, rounds);
    }

    // ----- what the table says -----

    /** The table can be relied on: it was not renumbered with undefined entries in it. */
    ghost predicate Sane()
      reads this
    {
      !(tcDone && misnumbered)
    }

    /** The procedure is done and every coset has an image under every generator. */
    ghost predicate Exact()
      requires Valid()
      reads this
    {
      tcDone && Complete(outcome.table, nrgens, outcome.size, outcome.live)
    }

    ghost function CurrentSize(): nat
      reads this
    {
      if tcDone then outcome.size else Size(order)
    }

    ghost function CurrentLive(): set<nat>
      reads this
    {
      if tcDone then outcome.live else Alive(Now(), order)
    }

    ghost function CurrentRep(): seq<Word>
      reads this
    {
      if tcDone then outcome.rep else rep
    }

    /** Whenever the table can be relied on, its entries follow from the presentation. */
    lemma TableMeaning()
      requires Valid() && Sane()
      ensures MeaningOk(Traced(), nrgens, tables.image, CurrentSize(), CurrentLive(), CurrentRep())
      ensures tcDone ==> Finished(Traced(), nrgens, tables.image, CurrentSize(), CurrentLive(), CurrentRep())
    {
      hide MeaningOk, SatisfiesSystem, StructureOk, BaseOk, Relations;
    }

    /** The class number of a word, or `UNDEFINED`. */
    function ClassIndex(w: Word): int
      reads this
    {
      var c := CosetTable.Run(tables.image, 0, Key(kind, w));
      if c == UNDEFINED then UNDEFINED else c - 1
    }

    /** `word_to_class_index` (lines 268-286). */
    method WordToClassIndex(w: Word) returns (index: int)
      requires Valid() && Over(nrgens, w)
      ensures Sane() ==> index == ClassIndex(w)
    {
      if Sane() {
        TableMeaning();
      }
      hide Valid, Presentation;
      var c := ReadWord(tables.image, kind, w, Sane(), nrgens, CurrentSize(), CurrentLive());
      index := if c == UNDEFINED then c else c - 1;
    }

    /** `current_equals` (lines 288-319); the answer is a class number away even before the procedure is done. */
    method CurrentEquals(w1: Word, w2: Word, reading: Reading, canKill: bool) returns (answer: Answer)
      requires Valid() && Over(nrgens, w1) && Over(nrgens, w2) && (reading.Read? ==> Relations(nrgens, reading.relations))
      modifies this
      ensures Valid() && tcDone == old(tcDone)
      ensures if initDone then Began(old(initDone), old(defining), old(starved), reading)
              else !old(initDone) && defining == old(defining) && starved == old(starved)
      ensures !canKill && w1 != w2 ==> initDone
      ensures Sane() && answer == True ==> Related(w1, w2)
      ensures Sane() && answer == False ==> tcDone && !Related(w1, w2)
      ensures Exact() && w1 != [] && w2 != [] ==> answer != Unknown
      ensures w1 == w2 ==> answer == True
      ensures Sane() && w1 != w2 && (tcDone || !canKill) ==> (answer == True <==> ClassIndex(w1) == ClassIndex(w2) != UNDEFINED)
      ensures Sane() && tcDone && w1 != w2 ==> (answer == Unknown <==> ClassIndex(w1) == UNDEFINED || ClassIndex(w2) == UNDEFINED)
      ensures Sane() && (tcDone || (kind != TwoSided && !canKill)) && ((w1, w2) in generating || (w2, w1) in generating) ==> answer == True
    {
      hide *;
      ExactDone();
      BeganBefore(reading);
      if w1 == w2 {
        Reflexive(w1);
        return True;
      }
      var killed := Killed(canKill);
      if !tcDone && killed {
        return Unknown;
      }
      Init(reading);
      ExactDone();
      var c1 := WordToClassIndex(w1);
      var c2 := WordToClassIndex(w2);
      AnswerRight(w1, w2, c1, c2);
      GeneratingSame(w1, w2);
      if c1 == UNDEFINED || c2 == UNDEFINED {
        answer := Unknown;
      } else if c1 == c2 {
        answer := True;
      } else if tcDone {
        answer := False;
      } else {
        answer := Unknown;
      }
    }

    /** The pairs of a one-sided congruence hold at coset 0 from the start, those of a two-sided one when it is done. */
    lemma GeneratingSame(u: Word, v: Word)
      requires Valid() && initDone
      ensures Sane() && (tcDone || kind != TwoSided) && ((u, v) in generating || (v, u) in generating) ==> ClassIndex(u) == ClassIndex(v) != UNDEFINED
    {
      hide *;
      if Sane() && (tcDone || kind != TwoSided) {
        TableMeaning();
        GeneratingParts();
        MeaningClosed(Traced(), nrgens, tables.image, CurrentSize(), CurrentLive(), CurrentRep());
        Index(u);
        Index(v);
        if (u, v) in generating {
          GeneratingHolds(u, v);
          SatisfiedPositive(nrgens, kind, tables.image, CurrentSize(), CurrentLive(), generating, u, v);
        } else if (v, u) in generating {
          GeneratingHolds(v, u);
          SatisfiedPositive(nrgens, kind, tables.image, CurrentSize(), CurrentLive(), generating, v, u);
        }
      }
    }

    lemma GeneratingParts()
      requires Valid() && initDone
      ensures Relations(nrgens, generating)
      ensures !tcDone ==> HoldAtStart(Now(), TracedExtra(kind, generating), |TracedExtra(kind, generating)|)
    {
      hide Concluded, StructureOk, Meaning, BaseOk, Progress, TracedRelations, TracedExtra, TracedSystem, Relations, HoldAtStart;
    }

    lemma GeneratingHolds(u: Word, v: Word)
      requires Valid() && Sane() && (tcDone || kind != TwoSided) && (u, v) in generating
      requires tcDone ==> Finished(Traced(), nrgens, tables.image, CurrentSize(), CurrentLive(), CurrentRep())
      requires !tcDone ==> HoldAtStart(Now(), TracedExtra(kind, generating), |TracedExtra(kind, generating)|)
      requires 0 in CurrentLive()
      ensures Satisfies(tables.image, 0, (Key(kind, u), Key(kind, v)))
    {
      hide Valid, Satisfies, Key, Sym, MeaningOk, Symmetric, TracedSystem;
      var j :| 0 <= j < |generating| && generating[j] == (u, v);
      KeyPair(kind, u, v);
      if tcDone {
        GeneratingTraced(kind, defining, generating, j);
      } else {
        OrientedAt(kind, generating, j);
      }
    }

    lemma Reflexive(w: Word)
      ensures Related(w, w)
    {
      DerivesRefl(Presentation(kind, defining, generating), w);
    }

    /** Equal class numbers mean related words, and once the procedure is done different ones mean unrelated words. */
    lemma AnswerRight(u: Word, v: Word, c: int, d: int)
      requires Valid() && Over(nrgens, u) && Over(nrgens, v) && (Sane() ==> c == ClassIndex(u) && d == ClassIndex(v))
      ensures Exact() ==> Sane() && (u != [] ==> c != UNDEFINED) && (v != [] ==> d != UNDEFINED)
      ensures Sane() && c == d != UNDEFINED ==> Related(u, v)
      ensures Sane() && tcDone && c != d ==> !Related(u, v)
    {
      var s, t := Traced(), tables.image;
      KeyRelated(kind, defining, generating, u, v);
      TracedOver(u);
      TracedOver(v);
      TracedSystemOk(kind, defining, generating, prefilled, Base());
      hide Presentation, Derives, Running, Relations, Symmetric, TracedSystem, Key;
      if Sane() {
        TableMeaning();
        hide Valid, MeaningOk, Finished;
        if c == d != UNDEFINED {
          SameCosetRelated(s, nrgens, t, CurrentSize(), CurrentLive(), CurrentRep(), Key(kind, u), Key(kind, v));
        }
        if tcDone && c != d && Related(u, v) {
          RelatedReachSame(s, nrgens, t, CurrentSize(), CurrentLive(), CurrentRep(), Key(kind, u), Key(kind, v));
        }
      }
      if Exact() {
        ExactNumbers(u);
        ExactNumbers(v);
      }
    }

    lemma TracedOver(w: Word)
      requires Over(nrgens, w)
      ensures Over(nrgens, Key(kind, w)) && (w != [] ==> Key(kind, w) != [])
    {
    }

    /** In a complete table every nonempty word has a number below `active - 1`. */
    lemma ExactNumbers(w: Word)
      requires Valid() && Exact() && Over(nrgens, w)
      ensures Sane() && (w != [] ==> 0 <= ClassIndex(w) < active - 1)
    {
      TracedOver(w);
      ExactDone();
      TableMeaning();
      hide *;
      if w != [] {
        ExactTable();
        NumberInRange(Traced(), nrgens, tables.image, active, outcome.rep, Key(kind, w));
        Index(w);
      }
    }

    /** When the table is complete `ClassIndex` is a bijection from the classes of nonempty words to 0, ..., active - 2. */
    lemma IndexBijective()
      requires Valid() && Exact()
      ensures forall w :: Nonempty(nrgens, w) ==> 0 <= ClassIndex(w) < active - 1
      ensures forall u, v :: Nonempty(nrgens, u) && Nonempty(nrgens, v) ==> (ClassIndex(u) == ClassIndex(v) <==> Related(u, v))
      ensures forall i :: 0 <= i < active - 1 ==> Numbered(i)
    {
      hide *;
      ExactDone();
      forall w | Nonempty(nrgens, w) ensures 0 <= ClassIndex(w) < active - 1 {
        NonemptyParts(nrgens, w);
        ExactNumbers(w);
      }
      forall u, v | Nonempty(nrgens, u) && Nonempty(nrgens, v) ensures ClassIndex(u) == ClassIndex(v) <==> Related(u, v) {
        NonemptyParts(nrgens, u);
        NonemptyParts(nrgens, v);
        AnswerRight(u, v, ClassIndex(u), ClassIndex(v));
      }
      forall i | 0 <= i < active - 1 ensures Numbered(i) {
        NumberTaken(i);
      }
    }

    /** Class numbers decide the congruence with the defining relations `asked`. */
    ghost predicate NumbersDecide(asked: seq<Pair>)
      reads this
    {
      forall u, v :: Nonempty(nrgens, u) && Nonempty(nrgens, v) ==>
        (ClassIndex(u) == ClassIndex(v) <==> Derives(Presentation(kind, asked, generating), u, v))
    }

    /** Every coset of the table satisfies the relations. */
    ghost predicate HoldEverywhere(asked: seq<Pair>)
      reads this
    {
      forall j, c :: 0 <= j < |asked| && 0 <= c < active ==> Satisfies(tables.image, c, Oriented(kind, asked)[j])
    }

    /**
     * If reading the defining relations has been stopped, a complete table is
     * right about the congruence asked for exactly when it happens to satisfy
     * the relations that were not read.
     */
    lemma StarvedIff(asked: seq<Pair>)
      requires Valid() && Exact() && starved && Relations(nrgens, asked)
      ensures NumbersDecide(asked) <==> HoldEverywhere(asked)
    {
      hide *;
      StarvedTable();
      var t, m, rep := tables.image, active, outcome.rep;
      if HoldEverywhere(asked) {
        HeldEverywhere(asked);
        WiderFinished(kind, nrgens, asked, generating, t, m, rep);
        NowDecide(asked, rep);
      } else {
        var j, c := NotHeld(asked);
        var u, v := WiderFails(kind, nrgens, asked, generating, t, m, rep, j, c);
        Index(u);
        Index(v);
        NotDecide(asked, u, v);
      }
    }

    /** And exactly then `nr_classes` is right about it. */
    lemma StarvedCount(asked: seq<Pair>)
      requires Valid() && Exact() && starved && Relations(nrgens, asked)
      ensures active > 0 && (ClassCount(Presentation(kind, asked, generating), nrgens, active - 1) <==> HoldEverywhere(asked))
    {
      hide *;
      StarvedTable();
      ExactDone();
      CountTraced();
      var t, m, rep := tables.image, active, outcome.rep;
      if HoldEverywhere(asked) {
        HeldEverywhere(asked);
        WiderFinished(kind, nrgens, asked, generating, t, m, rep);
        WiderParts(kind, asked, generating);
        CompleteCounts(TracedSystem(kind, asked, generating), nrgens, t, m, rep);
        CountKey(kind, asked, generating, nrgens, m - 1);
      } else {
        var j, c := NotHeld(asked);
        var u, v := WiderFails(kind, nrgens, asked, generating, t, m, rep, j, c);
        WiderCount(kind, nrgens, asked, generating, t, m, rep, u, v);
      }
    }

    lemma StarvedTable()
      requires Valid() && Exact() && starved
      ensures Finished(TracedSystem(kind, [], generating), nrgens, tables.image, active, Below(active), outcome.rep)
      ensures Complete(tables.image, nrgens, active, Below(active)) && Relations(nrgens, generating)
    {
      ExactTable();
      hide Running, Relations, MeaningOk, SatisfiesSystem, Complete, TracedSystem;
    }

    lemma HeldEverywhere(asked: seq<Pair>)
      requires HoldEverywhere(asked)
      ensures forall j, c :: 0 <= j < |asked| && 0 <= c < active ==> Satisfies(tables.image, c, Oriented(kind, asked)[j])
    {
    }

    lemma NotHeld(asked: seq<Pair>) returns (j: nat, c: nat)
      requires !HoldEverywhere(asked)
      ensures j < |asked| && c < active && !Satisfies(tables.image, c, Oriented(kind, asked)[j])
    {
      j, c :| j < |asked| && c < active && !Satisfies(tables.image, c, Oriented(kind, asked)[j]);
    }

    lemma NowDecide(asked: seq<Pair>, rep: seq<Word>)
      requires Finished(TracedSystem(kind, asked, generating), nrgens, tables.image, active, Below(active), rep)
      requires Complete(tables.image, nrgens, active, Below(active))
      ensures NumbersDecide(asked)
    {
      hide Finished, Complete, Nonempty, ClassIndex, Derives, Presentation;
      forall u, v | Nonempty(nrgens, u) && Nonempty(nrgens, v)
        ensures ClassIndex(u) == ClassIndex(v) <==> Derives(Presentation(kind, asked, generating), u, v) {
        PairDecides(asked, rep, u, v);
      }
    }

    lemma PairDecides(asked: seq<Pair>, rep: seq<Word>, u: Word, v: Word)
      requires Finished(TracedSystem(kind, asked, generating), nrgens, tables.image, active, Below(active), rep)
      requires Complete(tables.image, nrgens, active, Below(active)) && Nonempty(nrgens, u) && Nonempty(nrgens, v)
      ensures ClassIndex(u) == ClassIndex(v) <==> Derives(Presentation(kind, asked, generating), u, v)
    {
      hide Finished, Complete, Nonempty, ClassIndex, Derives, Presentation, CosetTable.Run, Key;
      Index(u);
      Index(v);
      TableDecides(kind, nrgens, asked, generating, tables.image, active, rep, u, v);
    }

    lemma NotDecide(asked: seq<Pair>, u: Word, v: Word)
      requires Nonempty(nrgens, u) && Nonempty(nrgens, v) && Derives(Presentation(kind, asked, generating), u, v) && ClassIndex(u) != ClassIndex(v)
      ensures !NumbersDecide(asked)
    {
    }

    /** Some nonempty word has class number `i`. */
    ghost predicate Numbered(i: int)
      reads this
    {
      exists w :: Nonempty(nrgens, w) && ClassIndex(w) == i
    }

    lemma NumberTaken(i: nat)
      requires Valid() && Exact() && i < active - 1
      ensures Numbered(i)
    {
      ExactTable();
      hide *;
      var w := NumberedWord(kind, Traced(), nrgens, tables.image, active, outcome.rep, i + 1);
      Index(w);
      IsNumbered(w, i);
    }

    lemma IsNumbered(w: Word, i: int)
      requires Nonempty(nrgens, w) && ClassIndex(w) == i
      ensures Numbered(i)
    {
    }

    lemma Index(w: Word)
      ensures var c := CosetTable.Run(tables.image, 0, Key(kind, w)); (ClassIndex(w) == if c == UNDEFINED then UNDEFINED else c - 1) && (c > 0 ==> ClassIndex(w) == c - 1)
    {
    }

    lemma ExactDone()
      requires Valid()
      ensures Exact() ==> tcDone && Sane()
    {
      hide Running, Relations, MeaningOk, SatisfiesSystem;
    }

    lemma ExactTable()
      requires Valid() && Exact()
      ensures Finished(Traced(), nrgens, tables.image, active, Below(active), outcome.rep)
      ensures Complete(tables.image, nrgens, active, Below(active))
    {
      hide Running, Relations, MeaningOk, SatisfiesSystem, Complete;
    }

    /** `nr_classes` (src/cong/tc.h, lines 47-50): the number of classes of nonempty words exactly when the table is complete. */
    method NrClasses() returns (n: nat)
      requires Valid() && tcDone
      ensures n == active - 1 && (ClassCount(Presentation(kind, defining, generating), nrgens, n) <==> Exact())
    {
      hide *;
      TracedSystemFits();
      CountTraced();
      CountKey(kind, defining, generating, nrgens, active - 1);
      n := active - 1;
    }

    lemma TracedSystemFits()
      ensures Traced() == TracedSystem(kind, defining, generating)
    {
    }

    lemma CountTraced()
      requires Valid() && tcDone
      ensures active > 0 && (ClassCount(Traced(), nrgens, active - 1) <==> Exact())
    {
      DoneParts();
      hide *;
      TracedSystemFits();
      NonemptySides(nrgens, kind, defining, generating);
      CountIffComplete(Traced(), nrgens, outcome.table, outcome.size, outcome.live, outcome.rep);
    }

    lemma DoneParts()
      requires Valid() && tcDone
      ensures Relations(nrgens, defining) && Relations(nrgens, generating)
      ensures Finished(Traced(), nrgens, outcome.table, outcome.size, outcome.live, outcome.rep) && |outcome.live| == active
      ensures MeaningOk(Traced(), nrgens, outcome.table, outcome.size, outcome.live, outcome.rep)
      ensures Closed(outcome.table, nrgens, outcome.size, outcome.live)
      ensures Complete(outcome.table, nrgens, outcome.size, outcome.live) <==> Exact()
      ensures Exact() ==> outcome.live == Below(outcome.size)
    {
      hide Running, Relations, SatisfiesSystem, Complete, Sound, Reached;
    }

    lemma DoneStarted()
      requires Valid()
      ensures tcDone ==> initDone
      ensures (toRead ==> !prefilled) && (starved ==> toRead && defining == [])
    {
      hide Running, OutcomeOk, OutcomeComplete, Relations;
    }

    lemma Going()
      requires Valid() && initDone && !tcDone
      ensures Relations(nrgens, defining) && Relations(nrgens, generating)
      ensures relations == TracedRelations(kind, defining, generating, prefilled) && extra == TracedExtra(kind, generating)
      ensures Running(nrgens, Traced(), relations, extra, Base(), true, Cosets(active, current, links, tables), order, rep)
      ensures Fits(nrgens, Traced(), relations, extra)
      ensures Traced().both == Sym(PairsOf(relations) + Base()) && Traced().right == Sym(PairsOf(extra))
      ensures (toRead ==> !prefilled) && (starved ==> toRead && defining == [])
    {
      FitsTraced(nrgens, kind, defining, generating, prefilled, Base());
      TracedSystemOk(kind, defining, generating, prefilled, Base());
      hide Running, TracedRelations, TracedExtra, TracedSystem, Relations, Fits;
    }

    lemma StillValid(c: Cosets)
      requires Relations(nrgens, defining) && Relations(nrgens, generating) && initDone
      requires relations == TracedRelations(kind, defining, generating, prefilled) && extra == TracedExtra(kind, generating)
      requires (toRead ==> !prefilled) && (starved ==> toRead && defining == [])
      requires active == c.active && current == c.current && links == c.links && tables == c.tables
      requires if tcDone then Concluded(nrgens, Traced(), outcome, misnumbered, c)
               else Running(nrgens, Traced(), relations, extra, Base(), true, c, order, rep)
      ensures Valid()
    {
      hide Running, OutcomeOk, OutcomeComplete, TracedRelations, TracedExtra, TracedSystem, Relations;
    }
  }

  lemma NumberedWord(kind: Kind, s: System, k: nat, t: Table, m: nat, rep: seq<Word>, c: nat) returns (w: Word)
    requires Finished(s, k, t, m, Below(m), rep) && Complete(t, k, m, Below(m)) && 0 < c < m
    ensures Nonempty(k, w) && CosetTable.Run(t, 0, Key(kind, w)) == c
  {
    hide *;
    FinishedParts(s, k, t, m, rep);
    RepNonempty(s, k, t, m, rep, c);
    w := Key(kind, rep[c]);
    KeyTwice(kind, rep[c]);
    KeyNonempty(kind, k, rep[c]);
  }

  lemma NonemptyParts(k: nat, w: Word)
    requires Nonempty(k, w)
    ensures w != [] && Over(k, w)
  {
  }

  lemma NumberInRange(s: System, k: nat, t: Table, m: nat, rep: seq<Word>, w: Word)
    requires Finished(s, k, t, m, Below(m), rep) && Complete(t, k, m, Below(m)) && Nonempty(k, w)
    ensures 0 < CosetTable.Run(t, 0, w) < m
  {
    ClassNumbers(s, k, t, m, Below(m), rep);
  }

  lemma NonemptySides(k: nat, kind: Kind, defining: seq<Pair>, generating: seq<Pair>)
    requires Relations(k, defining) && Relations(k, generating)
    ensures var s := TracedSystem(kind, defining, generating); Symmetric(s) && s.left == {} && forall p :: p in s.both || p in s.right ==> p.0 != []
  {
    var s := TracedSystem(kind, defining, generating);
    TracedSystemOk(kind, defining, generating, false, {});
    OrientedRelations(k, kind, defining);
    OrientedRelations(k, kind, generating);
    var rs, es := TracedRelations(kind, defining, generating, false), TracedExtra(kind, generating);
    assert Relations(k, rs) && Relations(k, es);
    hide TracedSystem, TracedRelations, TracedExtra, Oriented, Symmetric, Relations, PairsOf;
    assert PairsOf(rs) + {} == PairsOf(rs);
    forall p | p in s.both || p in s.right ensures p.0 != [] {
      if p in s.both { NonemptyPair(k, rs, p); } else { NonemptyPair(k, es, p); }
    }
  }

  lemma NonemptyPair(k: nat, ps: seq<Pair>, p: Pair)
    requires Relations(k, ps) && p in Sym(PairsOf(ps))
    ensures p.0 != []
  {
    var q := if p in PairsOf(ps) then p else (p.1, p.0);
    var j :| 0 <= j < |ps| && ps[j] == q;
    assert IsRelation(k, q);
  }

  /** Classes may be counted on the traced words. */
  lemma CountKey(kind: Kind, defining: seq<Pair>, extra: seq<Pair>, k: nat, n: nat)
    ensures ClassCount(Presentation(kind, defining, extra), k, n) <==> ClassCount(TracedSystem(kind, defining, extra), k, n)
  {
    var s, s' := Presentation(kind, defining, extra), TracedSystem(kind, defining, extra);
    hide Presentation, TracedSystem, Derives, Unrelated, Covers;
    if ClassCount(s, k, n) {
      var ws :| |ws| == n && Unrelated(s, k, ws) && Covers(s, k, ws);
      KeysCount(kind, defining, extra, k, ws, s, s');
    }
    if ClassCount(s', k, n) {
      var ws :| |ws| == n && Unrelated(s', k, ws) && Covers(s', k, ws);
      KeysCount(kind, defining, extra, k, ws, s', s);
    }
  }

  function AllKeys(kind: Kind, ws: seq<Word>): seq<Word> {
    seq(|ws|, i requires 0 <= i < |ws| => Key(kind, ws[i]))
  }

  lemma KeysCount(kind: Kind, defining: seq<Pair>, extra: seq<Pair>, k: nat, ws: seq<Word>, s: System, s': System)
    requires Mirrored(kind, defining, extra, s, s')
    requires Unrelated(s, k, ws) && Covers(s, k, ws)
    ensures ClassCount(s', k, |ws|)
  {
    hide *;
    KeysUnrelated(kind, defining, extra, k, ws, s, s');
    KeysCover(kind, defining, extra, k, ws, s, s');
    CountedBy(s', k, AllKeys(kind, ws));
    KeysSize(kind, ws);
  }

  lemma KeysSize(kind: Kind, ws: seq<Word>)
    ensures |AllKeys(kind, ws)| == |ws|
  {
  }

  /** Which of the two systems speaks about the words, and which about the words as they are traced. */
  ghost predicate Mirrored(kind: Kind, defining: seq<Pair>, extra: seq<Pair>, s: System, s': System) {
    var p, q := Presentation(kind, defining, extra), TracedSystem(kind, defining, extra);
    (s == p && s' == q) || (s == q && s' == p)
  }

  lemma KeyBoth(kind: Kind, defining: seq<Pair>, extra: seq<Pair>, s: System, s': System, u: Word, v: Word)
    requires Mirrored(kind, defining, extra, s, s')
    ensures Derives(s, u, v) <==> Derives(s', Key(kind, u), Key(kind, v))
  {
    hide Derives, Presentation, TracedSystem, Key;
    KeyTwice(kind, u);
    KeyTwice(kind, v);
    KeyRelated(kind, defining, extra, u, v);
    KeyRelated(kind, defining, extra, Key(kind, u), Key(kind, v));
  }

  lemma KeyNonempty(kind: Kind, k: nat, w: Word)
    requires Nonempty(k, w)
    ensures Nonempty(k, Key(kind, w))
  {
  }

  lemma KeysUnrelated(kind: Kind, defining: seq<Pair>, extra: seq<Pair>, k: nat, ws: seq<Word>, s: System, s': System)
    requires Mirrored(kind, defining, extra, s, s') && Unrelated(s, k, ws)
    ensures Unrelated(s', k, AllKeys(kind, ws))
  {
    hide Mirrored, Derives, Nonempty, Key;
    var vs := AllKeys(kind, ws);
    forall i | 0 <= i < |vs| ensures Nonempty(k, vs[i]) { KeyNonempty(kind, k, ws[i]); }
    forall i, j | 0 <= i < j < |vs| ensures !Derives(s', vs[i], vs[j]) { KeyBoth(kind, defining, extra, s, s', ws[i], ws[j]); }
  }

  lemma KeysCover(kind: Kind, defining: seq<Pair>, extra: seq<Pair>, k: nat, ws: seq<Word>, s: System, s': System)
    requires Mirrored(kind, defining, extra, s, s') && Covers(s, k, ws)
    ensures Covers(s', k, AllKeys(kind, ws))
  {
    hide Mirrored, Derives, Nonempty, Key;
    var vs := AllKeys(kind, ws);
    forall w | Nonempty(k, w) ensures RelatedToOne(s', w, vs) {
      KeyTwice(kind, w);
      KeyNonempty(kind, k, w);
      assert RelatedToOne(s, Key(kind, w), ws);
      var i :| 0 <= i < |ws| && Derives(s, Key(kind, w), ws[i]);
      KeyBoth(kind, defining, extra, s, s', Key(kind, w), ws[i]);
      assert Derives(s', w, vs[i]);
    }
  }

  lemma KeyTwice(kind: Kind, w: Word)
    ensures Key(kind, Key(kind, w)) == w
  {
    ReverseTwice(w);
  }

  lemma KeyPair(kind: Kind, u: Word, v: Word)
    ensures (Key(kind, u), Key(kind, v)) == if kind == LeftSided then ReversePair((u, v)) else (u, v)
  {
  }

  lemma GeneratingTraced(kind: Kind, defining: seq<Pair>, generating: seq<Pair>, j: nat)
    requires j < |generating|
    ensures var s, p := TracedSystem(kind, defining, generating), (Key(kind, generating[j].0), Key(kind, generating[j].1));
            if kind == TwoSided then p in s.both else p in s.right
  {
    TracedSystemOk(kind, defining, generating, false, {});
    OrientedAt(kind, generating, j);
    KeyPair(kind, generating[j].0, generating[j].1);
    if kind == TwoSided {
      var traced := TracedRelations(kind, defining, generating, false);
      assert traced[j] == generating[j] && generating[j] in PairsOf(traced);
    } else {
      var extra := TracedExtra(kind, generating);
      assert extra[j] in PairsOf(extra);
    }
  }

  lemma MeaningClosed(s: System, k: nat, t: Table, n: nat, live: set<nat>, rep: seq<Word>)
    requires MeaningOk(s, k, t, n, live, rep)
    ensures Closed(t, k, n, live) && 0 in live
  {
  }

  /** A side of a pair is not empty, so the coset it leads to is not 0. */
  lemma SatisfiedPositive(k: nat, kind: Kind, t: Table, n: nat, live: set<nat>, generating: seq<Pair>, u: Word, v: Word)
    requires Relations(k, generating) && (u, v) in generating && Closed(t, k, n, live) && 0 in live
    requires Satisfies(t, 0, (Key(kind, u), Key(kind, v)))
    ensures Run(t, 0, Key(kind, u)) == Run(t, 0, Key(kind, v)) > 0 > UNDEFINED
  {
    hide Closed, Run;
    RunLive(t, k, n, live, 0, Key(kind, u));
  }

  /** The entry of the table; past its end anything may be read. */
  method Entry(t: Table, a: Letter, c: int) returns (d: int)
    ensures a < |t| && 0 <= c < |t[a]| ==> d == t[a][c]
  {
    if a < |t| && 0 <= c < |t[a]| {
      d := t[a][c];
    } else {
      d := *;
    }
  }

  /** Follow the table from coset 0, reading the word backwards for left congruences (lines 270-281). */
  method ReadWord(t: Table, kind: Kind, w: Word, ghost sane: bool, ghost k: nat, ghost n: nat, ghost live: set<nat>) returns (c: int)
    requires Over(k, w) && (sane ==> Closed(t, k, n, live) && 0 in live)
    ensures sane ==> c == Run(t, 0, Key(kind, w))
  {
    var i: nat := 0;
    ghost var key := Key(kind, w);
    assert key[0..] == key;
    c := 0;
    while i < |w| && c != UNDEFINED
      invariant 0 <= i <= |w|
      invariant sane ==> (c == UNDEFINED || (c >= 0 && c in live)) && Run(t, 0, key) == Run(t, c, key[i..])
    {
      var a := if kind == LeftSided then w[|w| - 1 - i] else w[i];
      assert key[i..][0] == a && key[i..][1..] == key[i + 1..];
      c := Entry(t, a, c);
      i := i + 1;
    }
    assert i == |w| ==> key[i..] == [];
  }

  /**
   * What is known when the procedure is done: every relation holds in the table `f` it ended with, and that
   * table, renumbered, is the one left behind, unless `wrong`, which needs an undefined entry.
   */
  ghost predicate Concluded(k: nat, s: System, f: Outcome, wrong: bool, c: Cosets) {
    && OutcomeOk(s, k, f) && |f.live| == c.active
    && (if wrong then !OutcomeComplete(s, k, f)
        else f.table == c.tables.image && f.size == c.active && f.live == Below(c.active))
  }

  /** What the end of the procedure makes of the state `c`: only the table may be replaced, and only if there are free rows. */
  ghost predicate Ended(c: Cosets, o: Order, f: Outcome, wrong: bool, c': Cosets) {
    && c.current == c.links.next && c' == c.(tables := c.tables.(image := c'.tables.image))
    && (c.active == |c.links.forwd| ==> c' == c && !wrong) && (wrong ==> f.table == c.tables.image && f.live == Alive(c, o))
  }

  /** The number of rounds that `--_steps > 0` allows, which for 0 is the wrap-around value. */
  function Turns(steps: nat): nat {
    if steps == 0 then SIZE_MAX + 1 else steps
  }

  /** A batch of rounds, and the end of the procedure if it is reached; `c1` and `o1` are what the rounds come to. */
  method Advance(k: nat, c: Cosets, relations: seq<Pair>, extra: seq<Pair>, steps: nat, canKill: bool,
                 ghost o: Order, ghost s: System, ghost rep: seq<Word>, ghost base: set<Pair>)
    returns (finished: bool, c': Cosets, ghost o': Order, ghost rep': seq<Word>, ghost f: Outcome, ghost wrong: bool,
             ghost rounds: nat, ghost c1: Cosets, ghost o1: Order)
    requires Running(k, s, relations, extra, base, true, c, o, rep) && Fits(k, s, relations, extra)
    requires s.both == Sym(PairsOf(relations) + base) && s.right == Sym(PairsOf(extra))
    ensures !finished ==> Running(k, s, relations, extra, base, true, c', o', rep') && c' == c1 && o' == o1
    ensures finished ==> Concluded(k, s, f, wrong, c') && Ended(c1, o1, f, wrong, c')
    ensures 0 < rounds <= Turns(steps) && RoundsMade(k, relations, rounds, c, o, c1, o1)
    ensures !canKill ==> finished || rounds == Turns(steps)
  {
    hide *;
    f, wrong := Outcome([], 0, {}, []), false;
    finished, c', o', rep', rounds := Rounds(k, c, relations, extra, steps, canKill, o, s, rep, base);
    c1, o1 := c', o';
    if finished {
      var image;
      image, f, wrong := Conclude(k, c', relations, extra, o', s, rep', base);
      c' := c'.(tables := c'.tables.(image := image));
      ConcludedFrom(k, s, f, wrong, c');
      EndedFrom(c1, o1, f, wrong, c');
    }
  }

  lemma EndedFrom(c: Cosets, o: Order, f: Outcome, wrong: bool, c': Cosets)
    requires c.current == c.links.next && c' == c.(tables := c.tables.(image := c'.tables.image))
    requires c.active == |c.links.forwd| ==> c'.tables.image == c.tables.image && !wrong
    requires wrong ==> f.table == c.tables.image && f.live == Alive(c, o)
    ensures Ended(c, o, f, wrong, c')
  {
    hide Alive;
  }

  lemma ConcludedFrom(k: nat, s: System, f: Outcome, wrong: bool, c: Cosets)
    requires OutcomeOk(s, k, f) && |f.live| == c.active && (wrong ==> !OutcomeComplete(s, k, f))
    requires !wrong ==> f.table == c.tables.image && f.size == c.active && f.live == Below(c.active)
    ensures Concluded(k, s, f, wrong, c)
  {
  }

  /** The main loop (lines 578-620): up to `steps` rounds, where 0 wraps around to the largest number. */
  method Rounds(k: nat, c: Cosets, relations: seq<Pair>, extra: seq<Pair>, steps: nat, canKill: bool,
                ghost o: Order, ghost s: System, ghost rep: seq<Word>, ghost base: set<Pair>)
    returns (finished: bool, c': Cosets, ghost o': Order, ghost rep': seq<Word>, ghost rounds: nat)
    requires Running(k, s, relations, extra, base, true, c, o, rep) && Fits(k, s, relations, extra)
    ensures if finished then RoundDone(k, s, relations, extra, base, c', o', rep') && o'.cur == c'.active
            else Running(k, s, relations, extra, base, true, c', o', rep')
    ensures finished ==> c'.current == c'.links.next
    ensures 0 < rounds <= Turns(steps) && RoundsMade(k, relations, rounds, c, o, c', o')
    ensures !canKill ==> finished || rounds == Turns(steps)
  {
    RoundsNone(k, relations, c, o);
    hide Running, RoundDone, Fits, RoundMade, RoundsMade;
    c', o', rep' := c, o, rep;
    finished, rounds := false, 0;
    var left := Turns(steps);
    while left > 0
      invariant Running(k, s, relations, extra, base, true, c', o', rep') && RoundsMade(k, relations, rounds, c, o, c', o')
      invariant rounds + left <= Turns(steps) && (rounds == 0 ==> left > 0) && (!canKill ==> rounds + left == Turns(steps))
    {
      ghost var c1, o1 := c', o';
      c', o', rep' := Round(k, c', relations, extra, o', s, rep', base);
      RoundsNext(k, relations, rounds, c, o, c1, o1, c', o');
      rounds := rounds + 1;
      if c'.current == c'.links.next {
        finished := true;
        return;
      }
      var killed := Killed(canKill);
      left := if killed then 0 else left - 1;
    }
  }

  /** The end of the procedure: renumber the cosets unless no coset is free (lines 225-266, 629-633). */
  method Conclude(k: nat, c: Cosets, relations: seq<Pair>, extra: seq<Pair>,
                  ghost o: Order, ghost s: System, ghost rep: seq<Word>, ghost base: set<Pair>)
    returns (image: Table, ghost f: Outcome, ghost wrong: bool)
    requires RoundDone(k, s, relations, extra, base, c, o, rep) && o.cur == c.active
    requires s.both == Sym(PairsOf(relations) + base) && s.right == Sym(PairsOf(extra))
    ensures OutcomeOk(s, k, f) && |f.live| == c.active
    ensures wrong <==> !Full(k, c, o) && c.active != |c.links.forwd|
    ensures wrong ==> !OutcomeComplete(s, k, f) && f.table == c.tables.image && f.live == Alive(c, o)
    ensures c.active == |c.links.forwd| ==> image == c.tables.image
    ensures !wrong ==> f.table == image && f.size == c.active && f.live == Below(c.active)
  {
    ProgressEnd(k, s, c, o, relations, extra, base);
    CountLive(k, c, o);
    f, wrong, image := Outcome(c.tables.image, Size(o), Alive(c, o), rep), false, c.tables.image;
    hide ListOk, TablesOk, Progress, HoldAtStart, BaseOk, Derives, Sound, Reached, SatisfiesSystem;
    if c.active != |c.links.forwd| {
      var ok, t;
      ghost var sigma, names;
      ok, t, sigma, names := Compress(k, c, o);
      if ok {
        image := t;
      }
      if Full(k, c, o) {
        var rep' := RenumberedFinished(s, k, c, o, rep, t, sigma, names);
        BelowSize(c.active);
        f := Outcome(t, c.active, Below(c.active), rep');
      } else {
        wrong := true;
      }
    }
  }

  const SIZE_MAX: nat := 0xFFFF_FFFF_FFFF_FFFF

  lemma FitsTraced(k: nat, kind: Kind, defining: seq<Pair>, generating: seq<Pair>, prefilled: bool, base: set<Pair>)
    requires Relations(k, defining) && Relations(k, generating)
    requires base == if prefilled then PairsOf(Oriented(kind, defining)) else {}
    ensures Fits(k, TracedSystem(kind, defining, generating), TracedRelations(kind, defining, generating, prefilled), TracedExtra(kind, generating))
  {
    TracedSystemOk(kind, defining, generating, prefilled, base);
    OrientedRelations(k, kind, defining);
    OrientedRelations(k, kind, generating);
    var rs, es := TracedRelations(kind, defining, generating, prefilled), TracedExtra(kind, generating);
    forall j | 0 <= j < |rs| ensures rs[j] in PairsOf(rs) {}
    forall j | 0 <= j < |es| ensures es[j] in PairsOf(es) {}
  }

  lemma CountLive(k: nat, c: Cosets, o: Order)
    requires StructureOk(k, c, o)
    ensures |Alive(c, o)| == c.active
    ensures c.active == |c.links.forwd| ==> Alive(c, o) == Below(c.active) && Size(o) == c.active
  {
    LiveCount(o.list, o.pos, c.active);
  }

  function StartCosets(k: nat): Cosets {
    Cosets(1, 0, Links([UNDEFINED], [0], 0, UNDEFINED),
           Tables(seq(k, a => [UNDEFINED]), seq(k, a => [UNDEFINED]), seq(k, a => [UNDEFINED])))
  }

  function StartOrder(k: nat): Order {
    Order([0], [0], seq(k, a => [[]]), 0)
  }

  lemma StartOk(k: nat, s: System, relations: seq<Pair>, extra: seq<Pair>, c: Cosets, o: Order)
    requires c == StartCosets(k) && o == StartOrder(k)
    ensures Running(k, s, relations, extra, {}, false, c, o, [[]])
  {
    assert Alive(c, o) == {0};
    forall a | 0 <= a < k ensures ColumnOk(c.tables, k, 1, {0}, o.chains, a) {
    }
    assert StructureOk(k, c, o);
    assert Reached(c.tables.image, {0}, [[]]);
  }

  // ----- a start without the defining relations -----

  lemma OrientedAt(kind: Kind, ps: seq<Pair>, j: nat)
    requires j < |ps|
    ensures |Oriented(kind, ps)| == |ps| && Oriented(kind, ps)[j] == if kind == LeftSided then ReversePair(ps[j]) else ps[j]
  {
  }

  /** Adding relations that hold at every coset. */
  lemma WiderFinished(kind: Kind, k: nat, asked: seq<Pair>, generating: seq<Pair>, t: Table, m: nat, rep: seq<Word>)
    requires Finished(TracedSystem(kind, [], generating), k, t, m, Below(m), rep)
    requires forall j, c :: 0 <= j < |asked| && 0 <= c < m ==> Satisfies(t, c, Oriented(kind, asked)[j])
    ensures Finished(TracedSystem(kind, asked, generating), k, t, m, Below(m), rep)
  {
    var s, s' := TracedSystem(kind, [], generating), TracedSystem(kind, asked, generating);
    Wider(kind, asked, generating);
    hide TracedSystem, Satisfies, Run, Oriented, Reached;
    assert Sound(s', t, k, m, Below(m), rep) by {
      hide Derives;
      forall a, c | 0 <= a < k && c in Below(m) && t[a][c] != UNDEFINED ensures Derives(s', rep[c] + [a], rep[t[a][c]]) {
        DerivesWiden(s, s', rep[c] + [a], rep[t[a][c]]);
      }
    }
    var extra := Oriented(kind, asked);
    forall p, c | p in s'.both && c in Below(m) ensures Satisfies(t, c, p) {
      if p !in s.both {
        var q := if p in PairsOf(extra) then p else (p.1, p.0);
        var j :| 0 <= j < |extra| && extra[j] == q;
        OrientedAt(kind, asked, 0);
        SatisfiesFlip(t, c, q);
      }
    }
  }

  lemma SatisfiesFlip(t: Table, c: int, p: Pair)
    ensures Satisfies(t, c, p) <==> Satisfies(t, c, (p.1, p.0))
  {
  }

  lemma Wider(kind: Kind, asked: seq<Pair>, generating: seq<Pair>)
    ensures var s, s' := TracedSystem(kind, [], generating), TracedSystem(kind, asked, generating);
            s'.both == s.both + Sym(PairsOf(Oriented(kind, asked))) && s'.right == s.right && s'.left == s.left == {}
  {
    TracedSystemOk(kind, asked, generating, true, PairsOf(Oriented(kind, asked)));
    TracedSystemOk(kind, [], generating, true, PairsOf(Oriented(kind, [])));
    assert PairsOf([]) == {};
  }

  /** A complete table that satisfies everything decides the congruence. */
  lemma TableDecides(kind: Kind, k: nat, asked: seq<Pair>, generating: seq<Pair>, t: Table, m: nat, rep: seq<Word>, u: Word, v: Word)
    requires Finished(TracedSystem(kind, asked, generating), k, t, m, Below(m), rep) && Complete(t, k, m, Below(m))
    requires Nonempty(k, u) && Nonempty(k, v)
    ensures var c, d := CosetTable.Run(t, 0, Key(kind, u)), CosetTable.Run(t, 0, Key(kind, v));
            c > 0 && d > 0 && (c == d <==> Derives(Presentation(kind, asked, generating), u, v))
  {
    var s := TracedSystem(kind, asked, generating);
    KeyRelated(kind, asked, generating, u, v);
    KeyNonempty(kind, k, u);
    KeyNonempty(kind, k, v);
    TracedSystemOk(kind, asked, generating, true, PairsOf(Oriented(kind, asked)));
    hide Presentation, Derives, Symmetric, TracedSystem, Key, SatisfiesSystem, Sound, Reached, Complete, Nonempty;
    ClassNumbers(s, k, t, m, Below(m), rep);
    var c, d := CosetTable.Run(t, 0, Key(kind, u)), CosetTable.Run(t, 0, Key(kind, v));
    if c == d {
      SameCosetRelated(s, k, t, m, Below(m), rep, Key(kind, u), Key(kind, v));
    } else if Derives(s, Key(kind, u), Key(kind, v)) {
      RelatedReachSame(s, k, t, m, Below(m), rep, Key(kind, u), Key(kind, v));
    }
  }

  /** A relation that fails at a coset tells two related words apart. */
  lemma WiderFails(kind: Kind, k: nat, asked: seq<Pair>, generating: seq<Pair>, t: Table, m: nat, rep: seq<Word>, j: nat, c: nat)
    returns (u: Word, v: Word)
    requires Finished(TracedSystem(kind, [], generating), k, t, m, Below(m), rep) && Complete(t, k, m, Below(m))
    requires Relations(k, asked) && Relations(k, generating) && j < |asked| && c < m && !Satisfies(t, c, Oriented(kind, asked)[j])
    ensures Nonempty(k, u) && Nonempty(k, v) && Derives(Presentation(kind, asked, generating), u, v)
    ensures 0 < CosetTable.Run(t, 0, Key(kind, u)) != CosetTable.Run(t, 0, Key(kind, v)) && CosetTable.Run(t, 0, Key(kind, v)) > 0
  {
    var p, s' := Oriented(kind, asked)[j], TracedSystem(kind, asked, generating);
    var x, y := rep[c] + p.0, rep[c] + p.1;
    assert IsRelation(k, p) by { OrientedRelations(k, kind, asked); }
    Wider(kind, asked, generating);
    assert p in PairsOf(Oriented(kind, asked));
    hide Relations, TracedSystem, Presentation, Key, SatisfiesSystem, Sound, Derives;
    FailingWords(TracedSystem(kind, [], generating), k, t, m, rep, c, p);
    MoveAfter(s', rep[c], p);
    u, v := Key(kind, x), Key(kind, y);
    KeyTwice(kind, x);
    KeyTwice(kind, y);
    KeyNonempty(kind, k, x);
    KeyNonempty(kind, k, y);
    KeyRelated(kind, asked, generating, u, v);
  }

  /** Then there are fewer classes than cosets other than 0. */
  lemma WiderCount(kind: Kind, k: nat, asked: seq<Pair>, generating: seq<Pair>, t: Table, m: nat, rep: seq<Word>, u: Word, v: Word)
    requires Finished(TracedSystem(kind, [], generating), k, t, m, Below(m), rep) && Complete(t, k, m, Below(m)) && m > 0
    requires Nonempty(k, u) && Nonempty(k, v) && Derives(Presentation(kind, asked, generating), u, v)
    requires CosetTable.Run(t, 0, Key(kind, u)) != CosetTable.Run(t, 0, Key(kind, v))
    ensures !ClassCount(Presentation(kind, asked, generating), k, m - 1)
  {
    hide *;
    var s, s', x, y := TracedSystem(kind, [], generating), TracedSystem(kind, asked, generating), Key(kind, u), Key(kind, v);
    FinishedParts(s, k, t, m, rep);
    WiderParts(kind, asked, generating);
    KeyRelated(kind, asked, generating, u, v);
    KeyNonempty(kind, k, u);
    KeyNonempty(kind, k, v);
    CountKey(kind, asked, generating, k, m - 1);
    RepsCover(s, k, t, m, rep, x);
    RepsCover(s, k, t, m, rep, y);
    var d := CosetTable.Run(t, 0, y);
    var vs := rep[1..d] + rep[d + 1..];
    forall w | Nonempty(k, w) ensures RelatedToOne(s', w, vs) {
      MergedCover(s, s', k, t, m, rep, x, y, w, vs);
    }
    FewerClasses(s', k, m - 1, vs);
  }

  lemma WiderParts(kind: Kind, asked: seq<Pair>, generating: seq<Pair>)
    ensures var s, s' := TracedSystem(kind, [], generating), TracedSystem(kind, asked, generating);
            && Symmetric(s) && s.left == {} && Symmetric(s') && s'.left == {}
            && s.both <= s'.both && s.right <= s'.right && s.left <= s'.left
  {
    Wider(kind, asked, generating);
    TracedSystemOk(kind, asked, generating, true, PairsOf(Oriented(kind, asked)));
    TracedSystemOk(kind, [], generating, true, PairsOf(Oriented(kind, [])));
    hide TracedSystem, Symmetric, Sym, Oriented;
  }

  /** Every word is related to the word of a coset other than that of `y`. */
  lemma MergedCover(s: System, s': System, k: nat, t: Table, m: nat, rep: seq<Word>, x: Word, y: Word, w: Word, vs: seq<Word>)
    requires Finished(s, k, t, m, Below(m), rep) && Complete(t, k, m, Below(m)) && |rep| == m
    requires Symmetric(s) && s.left == {} && Symmetric(s') && s'.left == {} && s.both <= s'.both && s.right <= s'.right && s.left <= s'.left
    requires Nonempty(k, x) && Nonempty(k, y) && Nonempty(k, w) && Derives(s', x, y)
    requires 0 < Run(t, 0, x) < m && 0 < Run(t, 0, y) < m && Run(t, 0, x) != Run(t, 0, y)
    requires vs == rep[1..Run(t, 0, y)] + rep[Run(t, 0, y) + 1..]
    ensures RelatedToOne(s', w, vs)
  {
    hide *;
    RepsCover(s, k, t, m, rep, w);
    RepsCover(s, k, t, m, rep, x);
    RepsCover(s, k, t, m, rep, y);
    var c, d, e := Run(t, 0, x), Run(t, 0, y), Run(t, 0, w);
    DerivesWiden(s, s', w, rep[e]);
    DerivesWiden(s, s', x, rep[c]);
    DerivesWiden(s, s', y, rep[d]);
    if e == d {
      DerivesSym(s', y, rep[d]);
      DerivesTrans(s', w, rep[d], y);
      DerivesSym(s', x, y);
      DerivesTrans(s', w, y, x);
      DerivesTrans(s', w, x, rep[c]);
    }
    var j: nat := if e == d then c else e;
    assert vs[if j < d then j - 1 else j - 2] == rep[j];
    RelatedNow(s', w, vs, if j < d then j - 1 else j - 2);
  }

  lemma RelatedNow(s: System, w: Word, ws: seq<Word>, i: nat)
    requires i < |ws| && Derives(s, w, ws[i])
    ensures RelatedToOne(s, w, ws)
  {
  }

  lemma FewerClasses(s: System, k: nat, n: nat, vs: seq<Word>)
    requires Symmetric(s) && |vs| < n && forall w :: Nonempty(k, w) ==> RelatedToOne(s, w, vs)
    ensures !ClassCount(s, k, n)
  {
    hide Symmetric, RelatedToOne, Covers, Derives;
    forall ws: seq<Word> | |ws| == n ensures !Unrelated(s, k, ws) {
      if Unrelated(s, k, ws) {
        TooManyUnrelated(s, k, ws, vs);
      }
    }
  }

  lemma MoveAfter(s: System, w: Word, p: Pair)
    requires p in s.both
    ensures Derives(s, w + p.0, w + p.1)
  {
    var m := Move(w, p.0, p.1, []);
    assert m.Before() == w + p.0 && m.After() == w + p.1;
    DerivesMove(s, m);
  }

  lemma FailingWords(s: System, k: nat, t: Table, m: nat, rep: seq<Word>, c: nat, p: Pair)
    requires Finished(s, k, t, m, Below(m), rep) && Complete(t, k, m, Below(m)) && IsRelation(k, p) && c < m && !Satisfies(t, c, p)
    ensures c < |rep| && Nonempty(k, rep[c] + p.0) && Nonempty(k, rep[c] + p.1)
    ensures 0 < Run(t, 0, rep[c] + p.0) != Run(t, 0, rep[c] + p.1) && Run(t, 0, rep[c] + p.1) > 0
  {
    hide *;
    RepAt(s, k, t, m, rep, c, p);
    RunAppend(t, 0, rep[c], p.0);
    RunAppend(t, 0, rep[c], p.1);
    NotSatisfied(t, k, m, c, p);
    WordPositive(s, k, t, m, rep, rep[c] + p.0);
    WordPositive(s, k, t, m, rep, rep[c] + p.1);
  }

  lemma RepAt(s: System, k: nat, t: Table, m: nat, rep: seq<Word>, c: nat, p: Pair)
    requires Finished(s, k, t, m, Below(m), rep) && Complete(t, k, m, Below(m)) && IsRelation(k, p) && c < m
    ensures c < |rep| && Run(t, 0, rep[c]) == c && Closed(t, k, m, Below(m)) && c in Below(m)
    ensures Nonempty(k, rep[c] + p.0) && Nonempty(k, rep[c] + p.1)
  {
    hide *;
    FinishedParts(s, k, t, m, rep);
    if c > 0 {
      RepNonempty(s, k, t, m, rep, c);
    }
    AppendNonempty(k, rep[c], p.0, p.1, p);
  }

  lemma AppendNonempty(k: nat, w: Word, x: Word, y: Word, p: Pair)
    requires (w == [] || Nonempty(k, w)) && IsRelation(k, p) && p == (x, y)
    ensures Nonempty(k, w + x) && Nonempty(k, w + y)
  {
  }

  /** In a complete table nonempty words do not lead back to coset 0. */
  lemma WordPositive(s: System, k: nat, t: Table, m: nat, rep: seq<Word>, w: Word)
    requires Finished(s, k, t, m, Below(m), rep) && Complete(t, k, m, Below(m)) && Nonempty(k, w)
    ensures Run(t, 0, w) > 0
  {
    ClassNumbers(s, k, t, m, Below(m), rep);
    hide SatisfiesSystem, Sound, Run, Complete;
  }

  lemma FinishedParts(s: System, k: nat, t: Table, m: nat, rep: seq<Word>)
    requires Finished(s, k, t, m, Below(m), rep)
    ensures Closed(t, k, m, Below(m)) && |rep| == m && (forall c: nat :: c < m ==> c in Below(m)) && (m > 0 ==> rep[0] == [] && Run(t, 0, []) == 0)
    ensures forall c :: 0 <= c < m ==> Run(t, 0, rep[c]) == c
  {
    hide SatisfiesSystem, Derives, Closed;
  }

  lemma NotSatisfied(t: Table, k: nat, m: nat, c: nat, p: Pair)
    requires Closed(t, k, m, Below(m)) && Complete(t, k, m, Below(m)) && c in Below(m) && IsRelation(k, p) && !Satisfies(t, c, p)
    ensures Run(t, c, p.0) != Run(t, c, p.1)
  {
    hide Closed, Complete, Run;
    RunComplete(t, k, m, Below(m), c, p.0);
  }

  /**
   * A right congruence without generating pairs over the semigroup with one
   * element and one generator, started after reading its relation has been
   * stopped: the first round applies nothing, the marker meets the end of the
   * list, and the procedure is done with one coset, that is 0 classes for 1.
   */
  lemma StarvedStart()
    ensures var s, c, o := TracedSystem(RightSided, [], []), StartCosets(1), StartOrder(1);
            var c', o' := c.(current := c.links.forwd[c.current]), o.(cur := 1);
            && Running(1, s, [], [], {}, false, c, o, [[]]) && RoundDone(1, s, [], [], {}, c', o', [[]])
            && c'.current == c'.links.next && o'.cur == c'.active == 1
    ensures ClassCount(Presentation(RightSided, [([0, 0], [0])], []), 1, 1) && !ClassCount(Presentation(RightSided, [([0, 0], [0])], []), 1, 0)
  {
    hide *;
    StarvedRound();
    var t, rep: seq<Word> := [[1, 1]], [[], [0]];
    var asked := TracedSystem(RightSided, [([0, 0], [0])], []);
    OneClass(asked, t, rep);
    BelowSize(2);
    CountIffComplete(asked, 1, t, 2, Below(2), rep);
    CountKey(RightSided, [([0, 0], [0])], [], 1, 1);
    CountKey(RightSided, [([0, 0], [0])], [], 1, 0);
    NotNone(asked);
  }

  lemma StarvedRound()
    ensures var s, c, o := TracedSystem(RightSided, [], []), StartCosets(1), StartOrder(1);
            var c', o' := c.(current := c.links.forwd[c.current]), o.(cur := 1);
            && Running(1, s, [], [], {}, false, c, o, [[]]) && RoundDone(1, s, [], [], {}, c', o', [[]])
            && c'.current == c'.links.next && o'.cur == c'.active == 1
  {
    var s, c, o := TracedSystem(RightSided, [], []), StartCosets(1), StartOrder(1);
    StartOk(1, s, [], [], c, o);
    assert Alive(c.(current := UNDEFINED), o.(cur := 1)) == Alive(c, o);
    hide TracedSystem, TablesOk, ListOk, MeaningOk;
  }

  lemma NotNone(s: System)
    ensures !ClassCount(s, 1, 0)
  {
    forall ws: seq<Word> | |ws| == 0 ensures !Covers(s, 1, ws) {
      assert Nonempty(1, [0]) && !RelatedToOne(s, [0], ws);
    }
  }

  lemma OneClass(s: System, t: Table, rep: seq<Word>)
    requires s == TracedSystem(RightSided, [([0, 0], [0])], []) && t == [[1, 1]] && rep == [[], [0]]
    ensures Finished(s, 1, t, 2, Below(2), rep) && Complete(t, 1, 2, Below(2))
    ensures Symmetric(s) && s.left == {} && forall p :: p in s.both || p in s.right ==> p.0 != []
  {
    OneSystem(s);
    OneSound(s, t, rep);
    OneSatisfied(s, t);
    assert Reached(t, Below(2), rep) by { OneRuns(t); }
    hide Sound, SatisfiesSystem, Reached, Symmetric;
  }

  lemma OneSystem(s: System)
    requires s == TracedSystem(RightSided, [([0, 0], [0])], [])
    ensures s.both == {([0, 0], [0]), ([0], [0, 0])} && s.right == {} && Symmetric(s) && s.left == {}
    ensures forall p :: p in s.both || p in s.right ==> p.0 != []
  {
    var ps: seq<Pair> := [([0, 0], [0])];
    assert PairsOf(ps) == {ps[0]} && PairsOf([]) == {} && Sym({}) == {};
    assert Flipped({ps[0]}) == {([0], [0, 0])};
  }

  lemma OneSound(s: System, t: Table, rep: seq<Word>)
    requires s.both == {([0, 0], [0]), ([0], [0, 0])} && t == [[1, 1]] && rep == [[], [0]]
    ensures Below(2) == {0, 1} && Closed(t, 1, 2, Below(2)) && Complete(t, 1, 2, Below(2)) && Sound(s, t, 1, 2, Below(2), rep)
  {
    MoveAfter(s, [], ([0, 0], [0]));
    assert [] + [0, 0] == [0, 0] && [] + [0] == [0];
    DerivesRefl(s, [0]);
    hide Derives;
    assert Below(2) == {0, 1};
    assert rep[0] + [0] == [0] && rep[1] + [0] == [0, 0];
  }

  lemma OneSatisfied(s: System, t: Table)
    requires s.both == {([0, 0], [0]), ([0], [0, 0])} && s.right == {} && t == [[1, 1]] && Below(2) == {0, 1}
    ensures SatisfiesSystem(s, t, Below(2))
  {
    OneRuns(t);
    hide Run, Below;
    forall q, x | q in s.both && x in Below(2) ensures Satisfies(t, x, q) {
      assert q == ([0, 0], [0]) || q == ([0], [0, 0]);
    }
  }

  lemma OneRuns(t: Table)
    requires t == [[1, 1]]
    ensures CosetTable.Run(t, 0, []) == 0
    ensures forall x :: 0 <= x < 2 ==> CosetTable.Run(t, x, [0]) == CosetTable.Run(t, x, [0, 0]) == 1
  {
    forall x | 0 <= x < 2 ensures CosetTable.Run(t, x, [0]) == CosetTable.Run(t, x, [0, 0]) == 1 {
      assert [0][1..] == [] && [0, 0][1..] == [0];
      assert CosetTable.Run(t, x, [0]) == CosetTable.Run(t, 1, []);
    }
  }

  // ----- a finished table that is not complete -----

  /** Generators 0 and 1 and the single relation 00 = 0; generator 1 begins no side of it. */
  ghost function Stuck(): System {
    System(Sym({([0, 0], [0])}), {}, {})
  }

  /**
   * The table the procedure ends with: coset 0 and coset 1, with no images under
   * generator 1.  Two live cosets, so `nr_classes` is 1, but the words 1, 11,
   * 111 and so on are pairwise unrelated.
   */
  lemma StuckCount()
    ensures var t := [[1, 1], [UNDEFINED, UNDEFINED]];
            Finished(Stuck(), 2, t, 2, {0, 1}, [[], [0]]) && !Complete(t, 2, 2, {0, 1})
    ensures !ClassCount(Stuck(), 2, 1)
  {
    var t: Table, rep: seq<Word>, live: set<nat> := [[1, 1], [UNDEFINED, UNDEFINED]], [[], [0]], {0, 1};
    StuckClosed(t);
    StuckSatisfies(t);
    StuckSound(t);
    hide SatisfiesSystem, Sound, ClassCount, Stuck;
    assert Reached(t, live, rep) by { StuckRuns(t); }
    assert Finished(Stuck(), 2, t, 2, live, rep);
    hide Finished, Reached;
    assert |live| == 2;
    CountIffComplete(Stuck(), 2, t, 2, live, rep);
  }

  lemma StuckClosed(t: Table)
    requires t == [[1, 1], [UNDEFINED, UNDEFINED]]
    ensures Closed(t, 2, 2, {0, 1}) && !Complete(t, 2, 2, {0, 1})
    ensures Symmetric(Stuck()) && Stuck().left == {} && forall p :: p in Stuck().both || p in Stuck().right ==> p.0 != []
  {
    assert t[1][0] == UNDEFINED;
    SymSymmetric({([0, 0], [0])});
  }

  lemma StuckSatisfies(t: Table)
    requires t == [[1, 1], [UNDEFINED, UNDEFINED]]
    ensures SatisfiesSystem(Stuck(), t, {0, 1})
  {
    StuckRuns(t);
    forall q, x | q in Stuck().both && x in {0, 1} ensures Satisfies(t, x, q) {
      assert q == ([0, 0], [0]) || q == ([0], [0, 0]);
    }
  }

  lemma StuckSound(t: Table)
    requires t == [[1, 1], [UNDEFINED, UNDEFINED]] && Closed(t, 2, 2, {0, 1})
    ensures Sound(Stuck(), t, 2, 2, {0, 1}, [[], [0]])
  {
    var s, rep: seq<Word> := Stuck(), [[], [0]];
    var m := Move([], [0, 0], [0], []);
    assert m.Before() == [0, 0] && m.After() == [0] && ([0, 0], [0]) in s.both;
    DerivesRefl(s, [0]);
    DerivesMove(s, m);
    hide Derives, Stuck;
    assert rep[0] + [0] == [0] && rep[1] + [0] == [0, 0];
  }

  lemma StuckRuns(t: Table)
    requires t == [[1, 1], [UNDEFINED, UNDEFINED]]
    ensures CosetTable.Run(t, 0, []) == 0
    ensures forall x :: 0 <= x < 2 ==> CosetTable.Run(t, x, [0]) == CosetTable.Run(t, x, [0, 0]) == 1
  {
    forall x | 0 <= x < 2 ensures CosetTable.Run(t, x, [0]) == CosetTable.Run(t, x, [0, 0]) == 1 {
      assert [0][1..] == [] && [0, 0][1..] == [0];
      assert CosetTable.Run(t, x, [0]) == CosetTable.Run(t, 1, []);
    }
  }

  // ----- a table that is renumbered wrongly -----

  ghost function Merged(): System {
    System(Sym({([0, 0], [0, 0, 0]), ([0, 0], [0])}), {}, {})
  }

  /** Cosets 0 and 1 are live, coset 2 has been identified with coset 1, and generator 1 has no images. */
  function MergedCosets(): Cosets {
    Cosets(2, 2, Links([1, 2, UNDEFINED], [0, 0, -1], 1, 2),
           Tables([[1, 1, 1], [UNDEFINED, UNDEFINED, UNDEFINED]], [[UNDEFINED, 1, 2], [UNDEFINED, UNDEFINED, UNDEFINED]],
                  [[UNDEFINED, 0, 0], [UNDEFINED, UNDEFINED, UNDEFINED]]))
  }

  function MergedOrder(): Order {
    Order([0, 1, 2], [0, 1, 2], [[[], [1, 0], []], [[], [], []]], 2)
  }

  /**
   * With the relations 00 = 000 and 00 = 0 everything that holds when the
   * procedure has finished holds in this state: a row is free and entries of
   * live rows are undefined, so the final renumbering takes `UNDEFINED` for a
   * coset.
   */
  lemma Misnumbered()
    ensures var c, o := MergedCosets(), MergedOrder(); var rs := [([0, 0], [0, 0, 0]), ([0, 0], [0])];
            && RoundDone(2, Merged(), rs, [], {}, c, o, [[], [0], [0]]) && o.cur == c.active
            && Merged().both == Sym(PairsOf(rs) + {}) && Merged().right == Sym(PairsOf([]))
            && !Full(2, c, o) && c.active != |c.links.forwd|
  {
    hide StructureOk, Meaning, Satisfies, Alive, Run;
    MergedStructure();
    MergedMeaning();
    MergedRounds();
    var rs: seq<Pair> := [([0, 0], [0, 0, 0]), ([0, 0], [0])];
    assert PairsOf(rs) + {} == {rs[0], rs[1]} && PairsOf([]) == {} && Sym({}) == {};
    assert 0 in Alive(MergedCosets(), MergedOrder()) && MergedCosets().tables.image[1][0] == UNDEFINED;
  }

  lemma MergedRounds()
    ensures forall j, i :: 0 <= j < 2 && 0 <= i < 2 ==>
              Satisfies(MergedCosets().tables.image, MergedOrder().list[i], [([0, 0], [0, 0, 0]), ([0, 0], [0])][j])
  {
    MergedRuns();
  }

  lemma MergedStructure()
    ensures StructureOk(2, MergedCosets(), MergedOrder()) && Alive(MergedCosets(), MergedOrder()) == {0, 1}
  {
    var c, o := MergedCosets(), MergedOrder();
    assert Alive(c, o) == {0, 1};
    MergedColumns();
    MergedLinks();
    hide ColumnOk, ListOk;
  }

  lemma MergedLinks()
    ensures var c, o := MergedCosets(), MergedOrder(); ListOk(c.links.forwd, c.links.bckwd, c.links.last, c.links.next, o.list, o.pos, 2)
  {
    var c, o := MergedCosets(), MergedOrder();
    assert Forwards(c.links.bckwd, o.pos, 2);
  }

  lemma MergedColumns()
    ensures var t, o := MergedCosets().tables, MergedOrder();
            Columns(t, 2) && ColumnOk(t, 2, 3, {0, 1}, o.chains, 0) && ColumnOk(t, 2, 3, {0, 1}, o.chains, 1)
  {
    MergedColumn();
    EmptyColumn();
    hide CosetColumn.Ok;
  }

  lemma MergedColumn()
    ensures CosetColumn.Ok(CosetColumn.Column([1, 1, 1], [UNDEFINED, 1, 2], [UNDEFINED, 0, 0]), 3, {0, 1}, {0, 1}, [[], [1, 0], []])
  {
    var col := CosetColumn.Column([1, 1, 1], [UNDEFINED, 1, 2], [UNDEFINED, 0, 0]);
    assert CosetColumn.Chained(col, 3, {0, 1}, 0, []);
    assert CosetColumn.Chained(col, 3, {0, 1}, 1, [1, 0]) by { MergedChain(); }
    hide CosetColumn.Chained;
  }

  lemma MergedChain()
    ensures CosetColumn.Lists([1, 1, 1], 3, {0, 1}, 1, [1, 0])
    ensures CosetColumn.Threads([UNDEFINED, 1, 2], [UNDEFINED, 0, 0], 1, [1, 0])
  {
    var s: seq<nat> := [1, 0];
    assert s[0] == 1 && s[1] == 0;
  }

  lemma EmptyColumn()
    ensures CosetColumn.Ok(CosetColumn.Column([UNDEFINED, UNDEFINED, UNDEFINED], [UNDEFINED, UNDEFINED, UNDEFINED], [UNDEFINED, UNDEFINED, UNDEFINED]),
                           3, {0, 1}, {0, 1}, [[], [], []])
  {
    var u := [UNDEFINED, UNDEFINED, UNDEFINED];
    var col := CosetColumn.Column(u, u, u);
    assert CosetColumn.Chained(col, 3, {0, 1}, 0, []);
    assert CosetColumn.Chained(col, 3, {0, 1}, 1, []);
    hide CosetColumn.Chained;
  }

  lemma MergedRuns()
    ensures var t := MergedCosets().tables.image;
            && (forall x :: x in {0, 1} ==> Satisfies(t, x, ([0, 0], [0, 0, 0])) && Satisfies(t, x, ([0, 0], [0])))
            && CosetTable.Run(t, 0, []) == 0 && CosetTable.Run(t, 0, [0]) == 1
  {
    var t := MergedCosets().tables.image;
    forall x | x in {0, 1} ensures CosetTable.Run(t, x, [0]) == 1 && CosetTable.Run(t, x, [0, 0]) == 1 && CosetTable.Run(t, x, [0, 0, 0]) == 1 {
      assert [0, 0, 0][1..] == [0, 0] && [0, 0][1..] == [0] && [0][1..] == [];
      assert CosetTable.Run(t, 1, [0]) == 1 && CosetTable.Run(t, 1, [0, 0]) == 1;
    }
  }

  lemma MergedMeaning()
    ensures Meaning(Merged(), 2, MergedCosets(), MergedOrder(), [[], [0], [0]])
  {
    var c, o, s, rep: seq<Word> := MergedCosets(), MergedOrder(), Merged(), [[], [0], [0]];
    var t := c.tables.image;
    MergedStructure();
    MergedRuns();
    assert Closed(t, 2, 3, {0, 1});
    MergedSound();
    assert Reached(t, {0, 1}, rep);
    hide StructureOk, Closed, Sound, Reached, Merged, Alive;
  }

  lemma MergedSound()
    requires Closed(MergedCosets().tables.image, 2, 3, {0, 1})
    ensures Sound(Merged(), MergedCosets().tables.image, 2, 3, {0, 1}, [[], [0], [0]])
  {
    var s := Merged();
    var m := Move([], [0, 0], [0], []);
    assert ([0, 0], [0]) in s.both && m.Before() == [0, 0] == [0] + [0] && m.After() == [0] && [] + [0] == [0];
    DerivesMove(s, m);
    DerivesRefl(s, [0]);
    hide Derives, Merged;
  }
}
