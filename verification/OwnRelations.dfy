/**
 * The defining relations of a congruence over a semigroup: `init_relations`.
 * Lines cited here are those of src/cong.cc.
 */
module OwnRelations {
  import opened Words
  import opened Derivations
  import opened Evaluation
  import opened PinEnumerate
  import opened PinPaths
  import opened PinPresentation
  import opened PinRelations
  import opened CosetTrace
  import opened CosetExact
  import opened FroidurePin
  import opened KillFlag
  import CayleyPrefill
  import ToddCoxeter

  /** Two generators for the first `d` relations, then an element, a generator and an element. */
  ghost predicate Shaped(n: nat, all: seq<Relation>, d: nat) {
    forall j :: 0 <= j < |all| ==>
      if j < d then |all[j]| == 2 && all[j][0] >= 0 && all[j][1] >= 0
      else |all[j]| == 3 && 0 <= all[j][0] < n && all[j][1] >= 0 && 0 <= all[j][2] < n
  }

  /** The relations before `relation` have been turned into pairs of words. */
  ghost predicate Turned(ws: seq<Word>, all: seq<Relation>, pairs: seq<Pair>, relation: Relation) {
    && |pairs| <= |all| && relation == (if |pairs| < |all| then all[|pairs|] else [])
    && forall j :: 0 <= j < |pairs| ==> Denotes(ws, all[j], pairs[j])
  }

  lemma AllShaped<E>(g: Generators<E>, ws: seq<Word>, dups: seq<(nat, nat)>, st: State<E>)
    requires Tabled(g, ws, st)
    ensures Shaped(|ws|, AllRelations(g, ws, dups, st), |dups|)
  {
    AllTriplesIn(g, ws, st);
    hide Tabled, AllTriples;
  }

  lemma TurnedNone(ws: seq<Word>, all: seq<Relation>, relation: Relation)
    requires relation == if 0 < |all| then all[0] else []
    ensures Turned(ws, all, [], relation)
  {
  }

  lemma TurnedStep(ws: seq<Word>, all: seq<Relation>, pairs: seq<Pair>, relation: Relation, p: Pair, next: Relation)
    requires Turned(ws, all, pairs, relation) && relation != [] && Denotes(ws, relation, p)
    requires next == if |pairs| + 1 < |all| then all[|pairs| + 1] else []
    ensures |pairs| < |all| && Turned(ws, all, pairs + [p], next)
  {
    hide Denotes;
  }

  lemma TurnedShape(ws: seq<Word>, all: seq<Relation>, pairs: seq<Pair>, relation: Relation, d: nat)
    requires Turned(ws, all, pairs, relation) && Shaped(|ws|, all, d)
    ensures relation == [] <==> |pairs| == |all|
    ensures |relation| == 2 ==> |pairs| < d && |pairs| < |all| && relation[0] >= 0 && relation[1] >= 0 && Denotes(ws, relation, ([relation[0] as nat], [relation[1] as nat]))
    ensures |pairs| < d && relation != [] ==> |relation| == 2
    ensures relation != [] && |relation| != 2 ==>
              |relation| == 3 && |pairs| >= d && 0 <= relation[0] < |ws| && relation[1] >= 0 && 0 <= relation[2] < |ws|
              && Denotes(ws, relation, (ws[relation[0]] + [relation[1] as nat], ws[relation[2]]))
  {
  }

  lemma DenotesOne(ws: seq<Word>, r: Relation, p: Pair, q: Pair)
    requires Denotes(ws, r, p) && Denotes(ws, r, q)
    ensures p == q
  {
  }

  /** All relations turned into pairs are the rules of the presentation. */
  lemma AllTurned<E>(g: Generators<E>, ws: seq<Word>, dups: seq<(nat, nat)>, st: State<E>, pairs: seq<Pair>)
    requires Tabled(g, ws, st) && Turned(ws, AllRelations(g, ws, dups, st), pairs, [])
    requires |pairs| == |AllRelations(g, ws, dups, st)|
    ensures PairsOf(pairs) == Rules(g, ws, dups, st).both
  {
    var all := AllRelations(g, ws, dups, st);
    hide Tabled, AllRelations, Rules, Denotes;
    forall p ensures p in PairsOf(pairs) <==> p in Rules(g, ws, dups, st).both {
      RulesDenoted(g, ws, dups, st, p);
      if p in PairsOf(pairs) {
        var j :| 0 <= j < |pairs| && pairs[j] == p;
        assert Denotes(ws, all[j], p);
      }
      if j :| 0 <= j < |all| && Denotes(ws, all[j], p) {
        DenotesOne(ws, all[j], p, pairs[j]);
        assert p in PairsOf(pairs);
      }
    }
  }

  /** So they present the semigroup, and are relations the procedures accept. */
  lemma Suitable<E>(semigroup: Semigroup<E>, pairs: seq<Pair>)
    requires semigroup.Valid() && semigroup.IsDone() && Tabled(semigroup.g, semigroup.words, semigroup.state)
    requires PairsOf(pairs) == Rules(semigroup.g, semigroup.words, semigroup.duplicateGens, semigroup.state).both
    ensures CayleyPrefill.Presents(semigroup.g, pairs) && ToddCoxeter.Relations(|semigroup.g.gens|, pairs)
  {
    CayleyPrefill.OwnRelationsPresent(semigroup, pairs);
    semigroup.Parts();
    hide semigroup.Valid, Tabled, Rules, PinPaths.Tabled, CayleyPrefill.Presents;
    forall j | 0 <= j < |pairs| ensures IsRelation(|semigroup.g.gens|, pairs[j]) {
      assert pairs[j] in PairsOf(pairs);
      RuleSound(semigroup.g, semigroup.universe, semigroup.letterToPos, semigroup.duplicateGens, semigroup.words, semigroup.state, pairs[j]);
    }
  }

  lemma Places<E>(semigroup: Semigroup<E>)
    requires semigroup.Valid()
    ensures |semigroup.Elements()| == |semigroup.words|
  {
    semigroup.Parts();
  }

  /** Lines 375-380: the words of a rule. */
  method TurnRule<E>(semigroup: Semigroup<E>, i: nat, a: nat, r: nat) returns (p: Pair)
    requires semigroup.Valid() && semigroup.IsDone() && |semigroup.universe| < LIMIT_MAX / 2 && i < |semigroup.words| && r < |semigroup.words|
    modifies semigroup`state, semigroup`words
    ensures semigroup.Valid() && semigroup.state == old(semigroup.state) && semigroup.words == old(semigroup.words)
    ensures p == (semigroup.words[i] + [a], semigroup.words[r])
  {
    hide *;
    Places(semigroup);
    var found, lhs, rhs;
    found, lhs := semigroup.MinimalFactorisation(i);
    found, rhs := semigroup.MinimalFactorisation(r);
    p := (lhs + [a], rhs);
  }

  /** Read the relations off the semigroup (lines 356-384).  Unless it is killed they present it. */
  method ReadRelations<E>(semigroup: Semigroup<E>, canKill: bool) returns (done: bool, relations: seq<Pair>)
    requires semigroup.Valid() && |semigroup.universe| < LIMIT_MAX / 2
    modifies semigroup
    ensures semigroup.Valid() && (!canKill ==> done) && (!done ==> relations == [])
    ensures done ==> semigroup.IsDone() && ToddCoxeter.Relations(|semigroup.g.gens|, relations) && CayleyPrefill.Presents(semigroup.g, relations)
  {
    hide *;
    relations := [];
    semigroup.Enumerate(LIMIT_MAX, canKill);
    var killed := Killed(canKill);
    if killed {
      return false, [];
    }
    semigroup.ResetNextRelation();
    var relation := semigroup.NextRelation();
    ghost var ws, st, dups := semigroup.words, semigroup.state, semigroup.duplicateGens;
    ghost var all := AllRelations(semigroup.g, ws, dups, st);
    AllShaped(semigroup.g, ws, dups, st);
    TurnedNone(ws, all, relation);
    while |relation| == 2
      invariant semigroup.Valid() && semigroup.IsDone() && semigroup.words == ws && semigroup.state == st && semigroup.duplicateGens == dups
      invariant Turned(ws, all, relations, relation) && semigroup.listed == if |relations| < |all| then |relations| + 1 else |relations|
      decreases |all| - |relations|
    {
      TurnedShape(ws, all, relations, relation, |dups|);
      var p: Pair := ([relation[0]], [relation[1]]);
      var next := semigroup.NextRelation();
      TurnedStep(ws, all, relations, relation, p, next);
      relations, relation := relations + [p], next;
    }
    TurnedShape(ws, all, relations, relation, |dups|);
    while relation != []
      invariant semigroup.Valid() && semigroup.IsDone() && semigroup.words == ws && semigroup.state == st && semigroup.duplicateGens == dups
      invariant Turned(ws, all, relations, relation) && semigroup.listed == if |relations| < |all| then |relations| + 1 else |relations|
      invariant |relations| < |dups| ==> relation == []
      decreases |all| - |relations|
    {
      TurnedShape(ws, all, relations, relation, |dups|);
      var p := TurnRule(semigroup, relation[0], relation[1], relation[2]);
      var next := semigroup.NextRelation();
      TurnedStep(ws, all, relations, relation, p, next);
      relations, relation := relations + [p], next;
    }
    TurnedShape(ws, all, relations, relation, |dups|);
    AllTurned(semigroup.g, ws, dups, st, relations);
    Suitable(semigroup, relations);
    done := true;
  }

  // ----- the congruence, and the procedure over it -----

  ghost predicate Read<E>(g: Generators<E>, relations: seq<Pair>) {
    ToddCoxeter.Relations(|g.gens|, relations) && CayleyPrefill.Presents(g, relations)
  }

  /** `_semigroup`, `_relations` and `_relations_done` of a congruence. */
  class Congruence<!E(==)> {
    const semigroup: Semigroup?<E>
    var relations: seq<Pair>
    var relationsDone: bool

    ghost predicate Valid()
      reads this, semigroup
    {
      semigroup != null ==> semigroup.Valid() && |semigroup.universe| < LIMIT_MAX / 2
                            && if relationsDone then Read(semigroup.g, relations) else relations == []
    }

    /** A congruence over a finitely presented semigroup, or over `semigroup` (lines 46-79). */
    constructor (semigroup: Semigroup?<E>, relations: seq<Pair>)
      requires semigroup != null ==> semigroup.Valid() && |semigroup.universe| < LIMIT_MAX / 2 && relations == []
      ensures Valid() && this.semigroup == semigroup && this.relations == relations && !relationsDone
    {
      this.semigroup, this.relations, relationsDone := semigroup, relations, false;
    }

    /**
     * `init_relations` (lines 347-386), under the lock.  Given relations are left
     * as they are.  Those of a semigroup are read once; if that is stopped there
     * are none, and the next call tries again.
     */
    method InitRelations(canKill: bool)
      requires Valid()
      modifies this, semigroup
      ensures Valid() && (semigroup == null || old(relationsDone) ==> relations == old(relations) && relationsDone)
      ensures !canKill ==> relationsDone
      ensures semigroup != null ==> if relationsDone then Read(semigroup.g, relations) else relations == []
    {
      if relationsDone || semigroup == null {
        relationsDone := true;
      } else {
        hide Read;
        var done, rs := ReadRelations(semigroup, canKill);
        if done {
          NowRead(semigroup.g, rs);
          relations, relationsDone := rs, true;
        }
      }
    }
  }

  lemma NowRead<E>(g: Generators<E>, relations: seq<Pair>)
    ensures ToddCoxeter.Relations(|g.gens|, relations) && CayleyPrefill.Presents(g, relations) <==> Read(g, relations)
  {
  }

  // ----- presentations of one semigroup -----

  /** A pair of one presentation follows from any other one. */
  lemma PairBetween<E>(g: Generators<E>, kind: Kind, ps: seq<Pair>, qs: seq<Pair>, generating: seq<Pair>, m: Move)
    requires Read(g, ps) && Read(g, qs) && (m.lhs, m.rhs) in Sym(PairsOf(ps))
    ensures Derives(Presentation(kind, qs, generating), m.Before(), m.After())
  {
    var s := CayleyPrefill.Defining(qs);
    PairProper(|g.gens|, ps, m.lhs, m.rhs);
    ToddCoxeter.MoveAfter(CayleyPrefill.Defining(ps), [], (m.lhs, m.rhs));
    assert [] + m.lhs == m.lhs && [] + m.rhs == m.rhs;
    assert Evaluation.Proper(g, m.lhs) && Evaluation.Proper(g, m.rhs);
    hide Derives, ToddCoxeter.Relations, Eval, Proper, Sym, PairsOf;
    assert Eval(g, m.lhs) == Eval(g, m.rhs) <==> Derives(s, m.lhs, m.rhs);
    DerivesPrepend(s, m.lhs, m.rhs, m.pre);
    DerivesAppend(s, m.pre + m.lhs, m.pre + m.rhs, m.post);
    DefiningWithin(kind, qs, generating);
    DerivesWiden(s, Presentation(kind, qs, generating), m.Before(), m.After());
  }

  lemma PairProper(k: nat, ps: seq<Pair>, x: Word, y: Word)
    requires ToddCoxeter.Relations(k, ps) && (x, y) in Sym(PairsOf(ps))
    ensures IsRelation(k, (x, y))
  {
    var q := if (x, y) in PairsOf(ps) then (x, y) else (y, x);
    var j :| 0 <= j < |ps| && ps[j] == q;
  }

  lemma DefiningWithin(kind: Kind, ps: seq<Pair>, generating: seq<Pair>)
    ensures var s, s' := CayleyPrefill.Defining(ps), Presentation(kind, ps, generating);
            s.both <= s'.both && s.right == s.left == {} && (forall p :: p in Sym(PairsOf(ps)) <==> p in s.both)
  {
  }

  lemma MoveBetween<E>(g: Generators<E>, kind: Kind, ps: seq<Pair>, qs: seq<Pair>, generating: seq<Pair>, m: Move)
    requires Read(g, ps) && Read(g, qs) && Legal(Presentation(kind, ps, generating), m)
    ensures Derives(Presentation(kind, qs, generating), m.Before(), m.After())
  {
    if (m.lhs, m.rhs) in Sym(PairsOf(ps)) {
      PairBetween(g, kind, ps, qs, generating, m);
    } else {
      hide Read;
      assert Legal(Presentation(kind, qs, generating), m);
      DerivesMove(Presentation(kind, qs, generating), m);
    }
  }

  lemma {:induction false} ChainBetween<E>(g: Generators<E>, kind: Kind, ps: seq<Pair>, qs: seq<Pair>, generating: seq<Pair>, ms: seq<Move>, u: Word, v: Word)
    requires Read(g, ps) && Read(g, qs) && Chain(Presentation(kind, ps, generating), ms, u, v)
    ensures Derives(Presentation(kind, qs, generating), u, v)
  {
    hide Read, Presentation, Legal, Derives;
    if ms == [] {
      DerivesRefl(Presentation(kind, qs, generating), u);
    } else {
      MoveBetween(g, kind, ps, qs, generating, ms[0]);
      ChainBetween(g, kind, ps, qs, generating, ms[1..], ms[0].After(), v);
      DerivesTrans(Presentation(kind, qs, generating), u, ms[0].After(), v);
    }
  }

  /** Which presentation of the semigroup is taken makes no difference to a congruence over it. */
  lemma SameCongruence<E>(g: Generators<E>, kind: Kind, ps: seq<Pair>, qs: seq<Pair>, generating: seq<Pair>, u: Word, v: Word)
    requires Read(g, ps) && Read(g, qs)
    ensures Derives(Presentation(kind, ps, generating), u, v) <==> Derives(Presentation(kind, qs, generating), u, v)
  {
    hide Read, Presentation, Chain;
    if Derives(Presentation(kind, ps, generating), u, v) {
      var ms :| Chain(Presentation(kind, ps, generating), ms, u, v);
      ChainBetween(g, kind, ps, qs, generating, ms, u, v);
    }
    if Derives(Presentation(kind, qs, generating), u, v) {
      var ms :| Chain(Presentation(kind, qs, generating), ms, u, v);
      ChainBetween(g, kind, qs, ps, generating, ms, u, v);
    }
  }

  /** So classes may be counted with any presentation of the semigroup. */
  lemma CountAsked<E>(g: Generators<E>, kind: Kind, ps: seq<Pair>, qs: seq<Pair>, generating: seq<Pair>, k: nat, n: nat)
    requires Read(g, ps) && Read(g, qs)
    ensures ClassCount(Presentation(kind, ps, generating), k, n) <==> ClassCount(Presentation(kind, qs, generating), k, n)
  {
    hide Read, Presentation, Unrelated, Covers;
    var s, s' := Presentation(kind, ps, generating), Presentation(kind, qs, generating);
    if ClassCount(s, k, n) {
      var ws :| |ws| == n && Unrelated(s, k, ws) && Covers(s, k, ws);
      CountBetween(g, kind, ps, qs, generating, k, ws);
    }
    if ClassCount(s', k, n) {
      var ws :| |ws| == n && Unrelated(s', k, ws) && Covers(s', k, ws);
      CountBetween(g, kind, qs, ps, generating, k, ws);
    }
  }

  lemma CountBetween<E>(g: Generators<E>, kind: Kind, ps: seq<Pair>, qs: seq<Pair>, generating: seq<Pair>, k: nat, ws: seq<Word>)
    requires Read(g, ps) && Read(g, qs)
    requires Unrelated(Presentation(kind, ps, generating), k, ws) && Covers(Presentation(kind, ps, generating), k, ws)
    ensures Unrelated(Presentation(kind, qs, generating), k, ws) && Covers(Presentation(kind, qs, generating), k, ws)
  {
    hide Read, Presentation, Derives, Nonempty;
    var s, s' := Presentation(kind, ps, generating), Presentation(kind, qs, generating);
    forall i, j | 0 <= i < j < |ws| ensures !Derives(s', ws[i], ws[j]) {
      SameCongruence(g, kind, ps, qs, generating, ws[i], ws[j]);
    }
    forall w | Nonempty(k, w) ensures RelatedToOne(s', w, ws) {
      assert RelatedToOne(s, w, ws);
      var i :| 0 <= i < |ws| && Derives(s, w, ws[i]);
      SameCongruence(g, kind, ps, qs, generating, w, ws[i]);
    }
  }

  // ----- Todd-Coxeter over a semigroup, without prefilling -----

  /** The procedure belongs to the congruence; once started it has all defining relations, or none. */
  ghost predicate Belongs<E>(c: Congruence<E>, tc: ToddCoxeter.Enumeration)
    reads tc
  {
    && tc.Valid() && tc.toRead && c.semigroup != null && tc.nrgens == |c.semigroup.g.gens|
    && (tc.initDone && !tc.starved ==> Read(c.semigroup.g, tc.defining))
  }

  lemma BelongsParts<E>(c: Congruence<E>, tc: ToddCoxeter.Enumeration)
    requires Belongs(c, tc)
    ensures tc.Valid() && tc.toRead && c.semigroup != null && tc.nrgens == |c.semigroup.g.gens|
    ensures tc.initDone && !tc.starved ==> Read(c.semigroup.g, tc.defining)
  {
    hide tc.Valid, Read;
  }

  lemma NowBelongs<E>(c: Congruence<E>, tc: ToddCoxeter.Enumeration, began: bool, defining0: seq<Pair>, starved0: bool, reading: ToddCoxeter.Reading)
    requires tc.Valid() && tc.toRead && c.semigroup != null && tc.nrgens == |c.semigroup.g.gens|
    requires tc.Began(began, defining0, starved0, reading) && tc.initDone
    requires if began then !starved0 ==> Read(c.semigroup.g, defining0) else reading.Read? ==> Read(c.semigroup.g, reading.relations)
    ensures Belongs(c, tc) && (if began then tc.starved == starved0 else tc.starved == reading.Stopped?)
  {
    hide tc.Valid, Read;
  }

  /** `run` (src/cong/tc.cc, lines 567-636), reading the relations if that has not been tried before. */
  method RunOver<E>(c: Congruence<E>, tc: ToddCoxeter.Enumeration, steps: nat, canKill: bool) returns (ghost rounds: nat)
    requires c.Valid() && Belongs(c, tc)
    modifies c, c.semigroup, tc
    ensures c.Valid() && Belongs(c, tc) && tc.initDone
    ensures if old(tc.initDone) then tc.starved == old(tc.starved) else tc.starved == !c.relationsDone
    ensures !canKill && !old(tc.initDone) ==> !tc.starved
    ensures !old(tc.tcDone) ==> 0 < rounds <= ToddCoxeter.Turns(steps) && tc.Ran(old(tc.initDone), old(tc.Now()), old(tc.order), rounds)
    ensures !canKill ==> tc.tcDone || rounds == ToddCoxeter.Turns(steps)
  {
    hide *;
    BelongsParts(c, tc);
    ghost var began, defining0, starved0 := tc.initDone, tc.defining, tc.starved;
    var reading := ToddCoxeter.Reading.Stopped;
    if !tc.initDone {
      c.InitRelations(canKill);
      if c.relationsDone {
        reading := ToddCoxeter.Reading.Read(c.relations);
        NowRead(c.semigroup.g, c.relations);
      }
    }
    rounds := tc.Run(steps, reading, canKill);
    NowBelongs(c, tc, began, defining0, starved0, reading);
  }

  /**
   * A complete table is right about the congruence over the semigroup exactly
   * when the relations were read, or happen to hold in it all the same.
   */
  lemma ExactIff<E>(c: Congruence<E>, tc: ToddCoxeter.Enumeration, asked: seq<Pair>)
    requires Belongs(c, tc) && tc.initDone && tc.Exact() && Read(c.semigroup.g, asked)
    ensures tc.NumbersDecide(asked) <==> !tc.starved || tc.HoldEverywhere(asked)
  {
    hide *;
    BelongsParts(c, tc);
    NowRead(c.semigroup.g, asked);
    if tc.starved {
      tc.StarvedIff(asked);
    } else {
      tc.IndexBijective();
      NumbersAsked(c, tc, asked);
    }
  }

  /** And exactly then `nr_classes` (src/cong/tc.h, lines 47-50) is right about it. */
  lemma CountIff<E>(c: Congruence<E>, tc: ToddCoxeter.Enumeration, asked: seq<Pair>)
    requires Belongs(c, tc) && tc.initDone && tc.Exact() && Read(c.semigroup.g, asked)
    ensures tc.active > 0
    ensures ClassCount(Presentation(tc.kind, asked, tc.generating), tc.nrgens, tc.active - 1) <==> !tc.starved || tc.HoldEverywhere(asked)
  {
    hide *;
    BelongsParts(c, tc);
    NowRead(c.semigroup.g, asked);
    tc.ExactDone();
    tc.CountTraced();
    if tc.starved {
      tc.StarvedCount(asked);
    } else {
      tc.TracedSystemFits();
      ToddCoxeter.CountKey(tc.kind, tc.defining, tc.generating, tc.nrgens, tc.active - 1);
      CountAsked(c.semigroup.g, tc.kind, tc.defining, asked, tc.generating, tc.nrgens, tc.active - 1);
    }
  }

  lemma NumbersAsked<E>(c: Congruence<E>, tc: ToddCoxeter.Enumeration, asked: seq<Pair>)
    requires c.semigroup != null && Read(c.semigroup.g, tc.defining) && Read(c.semigroup.g, asked)
    requires forall u, v :: Nonempty(tc.nrgens, u) && Nonempty(tc.nrgens, v) ==> (tc.ClassIndex(u) == tc.ClassIndex(v) <==> tc.Related(u, v))
    ensures tc.NumbersDecide(asked)
  {
    hide Read, Presentation, Derives, Nonempty, tc.ClassIndex;
    forall u, v | Nonempty(tc.nrgens, u) && Nonempty(tc.nrgens, v)
      ensures tc.ClassIndex(u) == tc.ClassIndex(v) <==> Derives(Presentation(tc.kind, asked, tc.generating), u, v) {
      SameCongruence(c.semigroup.g, tc.kind, tc.defining, asked, tc.generating, u, v);
    }
  }
}
