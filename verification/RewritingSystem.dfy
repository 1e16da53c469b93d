/**
 * A rewriting system as an object: the class `RWS` with the SHORTLEX order.
 * Lines cited here are those of src/rws.cc unless another file is named.
 */
module RewritingSystem {
  import opened Words
  import opened ShortLex
  import opened Derivations
  import opened Rewriting
  import opened RuleIndex
  import opened InPlace
  import opened ConfluenceTest
  import opened Conservation
  import opened RuleState
  import opened Completion
  import opened Resolution
  import opened Persistence
  import opened KnuthBendix
  import opened Exactness

  const SIZE_MAX: nat := 0xFFFF_FFFF_FFFF_FFFF

  function Fresh(): State {
    State([], [], [], 0, 0, SIZE_MAX, 0, 0, false, false)
  }

  lemma FreshOk(k: nat)
    ensures Ok(k, Fresh()) && Own(Fresh()) && FlagOk(k, Fresh(), false) && Equivalent(Everything(Fresh()), {})
  {
    assert Objects(Fresh()) == multiset{};
    EquivalentRefl({});
    assert Everything(Fresh()) == {};
  }

  lemma AddedBoth(k: nat, st: State, ps: set<Pair>, st': State, p: Pair)
    requires Equivalent(Everything(st), ps) && Equivalent(Everything(st'), Everything(st) + {p})
    ensures Equivalent(Everything(st'), ps + {p})
  {
    hide Everything, Within;
    EquivalentMore(Everything(st), ps, {p});
    EquivalentTrans(Everything(st'), Everything(st) + {p}, ps + {p});
  }

  lemma FlippedPair(ps: set<Pair>, p: Word, q: Word)
    ensures Equivalent(ps + {(p, q)}, ps + {(q, p)})
  {
    SamePair(ps + {(p, q)}, (p, q));
    SamePair(ps + {(q, p)}, (q, p));
    hide Same;
    SameSym(ps + {(p, q)}, p, q);
    SameSym(ps + {(q, p)}, q, p);
    EquivalentReplace(ps, (p, q), (q, p));
  }

  /** The rule that a pair of different words gives. */
  function OrderedRule(st: State, p: Word, q: Word): Rule {
    var (at, st1) := NewObject(st);
    if Less(p, q) then Rule(at, st1.total, q, p, false) else Rule(at, st1.total, p, q, false)
  }

  /** Nothing, a new active rule as it is, or a rule that is reduced first because its left side is comparable with an active one. */
  ghost predicate AddedTo(k: nat, st: State, p: Word, q: Word, st': State) {
    var rule, st1 := OrderedRule(st, p, q), NewObject(st).1;
    if p == q then st' == st
    else if forall r :: r in st.active ==> !SuffixRelated(r.lhs, rule.lhs) then st' == Activated(st1, rule)
    else PushedTo(k, st1, rule, st') && st'.stack == []
  }

  /** `add_rule` from outside (lines 228-250): the pair is put in order; if its left side is comparable with an active one the rule is reduced first. */
  method AddPair(k: nat, st: State, p: Word, q: Word, ghost checked: bool) returns (st': State)
    requires Ok(k, st) && Own(st) && FlagOk(k, st, checked) && Over(k, p) && Over(k, q)
    ensures Ok(k, st') && Own(st') && FlagOk(k, st', checked) && Equivalent(Everything(st'), Everything(st) + {(p, q)})
    ensures AddedTo(k, st, p, q, st') && (Busy(st) ==> Busy(st'))
  {
    hide *;
    if p == q {
      st' := st;
      AddedNothing(k, st, p);
      return;
    }
    var (at, st1) := NewObject(st);
    NewObjectKept(k, st, checked);
    KeptFlag(k, st, st1, checked);
    var rule := if Less(p, q) then Rule(at, st1.total, q, p, false) else Rule(at, st1.total, p, q, false);
    NewRule(k, st, p, q, rule);
    var inserted;
    inserted, st' := Insert(k, st1, rule);
    if inserted {
      InsertedKept(k, st, rule, checked);
    } else {
      var killed;
      st', killed := PushStack(k, st1, rule, false, checked);
      PushedOwn(k, st, rule, st');
      StillBusy(st, st1, st');
    }
    AddedNow(k, st, p, q, rule, st');
    InOrder(Everything(st'), Everything(st), p, q, rule);
  }

  /** Rules are only waiting if some are active. */
  ghost predicate Busy(st: State) {
    st.stack == [] || st.active != []
  }

  lemma StillBusy(st: State, st1: State, st': State)
    requires st1.active == st.active && Lasting(st1, st') && (st'.stack == [] || st1.active != [])
    ensures Busy(st')
  {
  }

  lemma AddedNow(k: nat, st: State, p: Word, q: Word, rule: Rule, st': State)
    requires p != q && rule == OrderedRule(st, p, q) && NewObject(st).1.active == st.active
    requires if forall r :: r in st.active ==> !SuffixRelated(r.lhs, rule.lhs) then st' == Activated(NewObject(st).1, rule)
             else PushedTo(k, NewObject(st).1, rule, st') && st'.stack == []
    ensures AddedTo(k, st, p, q, st')
  {
    hide OrderedRule, SuffixRelated, Activated, PushedTo, NewObject;
  }

  lemma AddedNothing(k: nat, st: State, p: Word)
    ensures Equivalent(Everything(st), Everything(st) + {(p, p)}) && AddedTo(k, st, p, p, st)
  {
    SameRefl(Everything(st), p);
    EquivalentAdd(Everything(st), (p, p));
    hide Same;
  }

  lemma KeptFlag(k: nat, st0: State, st: State, checked: bool)
    requires Kept(k, st0, st, checked) && FlagOk(k, st0, checked) && st == NewObject(st0).1
    ensures Ok(k, st) && FlagOk(k, st, checked) && st.stack == st0.stack && st.active == st0.active
  {
    hide Ok, Equivalent, Confluent, Resolved, Lasting;
  }

  /** The rule made from two different words. */
  lemma NewRule(k: nat, st: State, p: Word, q: Word, rule: Rule)
    requires Over(k, p) && Over(k, q) && p != q
    requires var (at, st1) := NewObject(st); rule == if Less(p, q) then Rule(at, st1.total, q, p, false) else Rule(at, st1.total, p, q, false)
    ensures OrderedPair(k, rule.Pair()) && Over(k, rule.lhs) && Over(k, rule.rhs) && rule.lhs != rule.rhs
    ensures (rule.Pair() == (p, q) || rule.Pair() == (q, p)) && rule.at == NewObject(st).0 && rule == OrderedRule(st, p, q)
  {
    LessTotal(p, q);
  }

  lemma InsertedKept(k: nat, st: State, rule: Rule, checked: bool)
    requires Own(st) && rule.at == NewObject(st).0 && Everything(NewObject(st).1) == Everything(st)
    ensures var st' := Activated(NewObject(st).1, rule);
            Equivalent(Everything(st'), Everything(st) + {rule.Pair()}) && FlagOk(k, st', checked) && Own(st') && Busy(st')
  {
    var st1 := NewObject(st).1;
    ActivatedEverything(st1, rule);
    EquivalentRefl(Everything(Activated(st1, rule)));
    NewObjectOwn(st);
    ActivatedObjects(st1, rule);
    hide Equivalent, Everything, Objects, NewObject;
  }

  lemma InOrder(ps: set<Pair>, qs: set<Pair>, p: Word, q: Word, rule: Rule)
    requires Equivalent(ps, qs + {rule.Pair()}) && (rule.Pair() == (p, q) || rule.Pair() == (q, p))
    ensures Equivalent(ps, qs + {(p, q)})
  {
    hide Within;
    FlippedPair(qs, q, p);
    if rule.Pair() == (q, p) {
      EquivalentTrans(ps, qs + {(q, p)}, qs + {(p, q)});
    }
  }

  class RWS {
    const k: nat

    var state: State
    var settings: Settings

    // The pairs that have been added, and whether the flags were last set by a confluence test.
    ghost var added: set<Pair>
    ghost var checked: bool

    ghost predicate Valid()
      reads this
    {
      Ok(k, state) && Own(state) && FlagOk(k, state, checked) && Equivalent(Everything(state), added) && Busy(state)
    }

    /** Words related by what has been added. */
    ghost predicate Equal(u: Word, v: Word)
      reads this
    {
      Same(added, u, v)
    }

    /** The confluence test has succeeded, nothing has changed since, and no rule is waiting. */
    ghost predicate Established()
      reads this
    {
      state.known && state.confluent && checked && state.stack == []
    }

    /** No rules yet; letters are below `k` (src/rws.h, lines 165-204). */
    constructor (k: nat)
      ensures Valid() && this.k == k && added == {} && state == Fresh() && settings == Settings(UNBOUNDED, UNBOUNDED, Abc, 4096)
    {
      this.k := k;
      state, settings := Fresh(), Settings(UNBOUNDED, UNBOUNDED, Abc, 4096);
      added, checked := {}, false;
      new;
      FreshOk(k);
    }

    lemma Parts()
      requires Valid()
      ensures Ok(k, state) && Own(state) && FlagOk(k, state, checked) && Equivalent(Everything(state), added) && Busy(state)
      ensures Usable(k, state.active, state.shortest) && state.shortest > 0 && Ordered(k, Pairs(state.active))
    {
    }

    lemma NowValid()
      requires Ok(k, state) && Own(state) && FlagOk(k, state, checked) && Equivalent(Everything(state), added) && Busy(state)
      ensures Valid()
    {
    }

    /** `add_rule` (lines 228-268). */
    method AddRule(p: Word, q: Word)
      requires Valid() && Over(k, p) && Over(k, q)
      modifies this`state, this`added
      ensures Valid() && added == old(added) + {(p, q)}
      ensures AddedTo(k, old(state), p, q, state)
      ensures old(state.stack) == [] ==> state.stack == []
    {
      hide *;
      Parts();
      var st := AddPair(k, state, p, q, checked);
      AddedBoth(k, state, added, st, (p, q));
      AddedStack(k, state, p, q, st);
      state, added := st, added + {(p, q)};
      NowValid();
    }

    lemma AddedStack(k: nat, st: State, p: Word, q: Word, st': State)
      requires AddedTo(k, st, p, q, st')
      ensures st.stack == [] ==> st'.stack == []
    {
      hide SuffixRelated, PushedTo, Less;
    }

    /** `confluent`, unless somebody interferes (lines 420-475). */
    method IsConfluent() returns (result: bool)
      requires Valid()
      modifies this`state, this`checked
      ensures Valid() && state.active == old(state.active) && state.stack == old(state.stack) && result == state.confluent && state.known
      ensures checked ==> (result <==> Confluent(k, Pairs(state.active)))
      ensures if old(state.known) then state == old(state) && checked == old(checked) else checked
    {
      hide *;
      Parts();
      var st;
      ghost var ch;
      var killed;
      result, st, killed, ch := TestConfluent(k, state, false, checked);
      Tested(st, ch);
      state, checked := st, ch;
      NowValid();
      FlagMeans();
    }

    lemma FlagMeans()
      requires FlagOk(k, state, checked)
      ensures state.known && checked ==> (state.confluent <==> Confluent(k, Pairs(state.active)))
    {
      hide Confluent, Resolved;
    }

    lemma Tested(st: State, ch: bool)
      requires Valid() && st == state.(known := st.known, confluent := st.confluent)
      ensures Equivalent(Everything(st), added) && Own(st) && Busy(st)
    {
      OwnMoved(state, st);
      hide Equivalent, Usable, Confluent, Own, Resolved;
    }

    /**
     * `knuth_bendix`, given up after `rounds` turns of its main loop (lines
     * 582-653).  If an iterator goes astray, this is the object at that moment.
     * If it comes to an end by itself, without limits, the system is completed;
     * then it is confluent exactly if left sides inside others lead to the same
     * words.  It is so in any case if no rule was skipped when copies were pushed,
     * and if no left side occurred in another one at the start.  A system that is
     * confluent from the start, with no rule waiting, is found to be so at once.
     */
    method KnuthBendix(canKill: bool, rounds: nat) returns (outcome: Outcome, ghost course: Course)
      requires Valid()
      modifies this`state, this`checked
      ensures Valid() && (outcome.Stopped? ==> canKill) && (outcome.Lost? ==> Astray(k, old(state), state))
      ensures outcome.GaveUp? ==> GivenUp(k, old(state), state, settings, rounds, course)
      ensures old(Unchanging()) && !outcome.Stopped? ==> outcome.Ended? && state == old(state) && checked == old(checked)
      ensures old(state.stack == [] && !state.known && Confluent(k, Pairs(state.active))) && !outcome.Stopped? ==>
                outcome.Ended? && state == old(state).(known := true, confluent := true)
      ensures old(Free(state.active)) ==> Free(state.active)
      ensures |old(state.active)| >= settings.maxRules ==> state == old(state).(known := state.known, confluent := state.confluent)
      ensures outcome.Ended? && |old(state.active)| < settings.maxRules ==> Through(settings, state, checked)
      ensures Unlimited(settings) && |state.active| < UNBOUNDED && outcome.Ended? ==>
                && Completed() && (Confluent(k, Pairs(state.active)) <==> NestedJoin(state.active))
                && CourseOk(k, old(state), state, checked, course)
                && (old(Free(state.active)) ==> Confluent(k, Pairs(state.active)))
    {
      hide *;
      Parts();
      UnchangingParts();
      ghost var before := state;
      var st;
      ghost var ch;
      st, outcome, ch, course := Complete(k, state, settings, canKill, rounds, checked);
      CompletedParts(k, state, st, added, ch);
      state, checked := st, ch;
      NowValid();
      if Unlimited(settings) && |state.active| < UNBOUNDED && outcome.Ended? {
        NowCompleted(before);
        CompletedConfluent();
      }
    }

    /** Completion has ended by itself: nothing is waiting, and the overlaps it looks at are resolved. */
    ghost predicate Completed()
      reads this
    {
      state.known && state.confluent && state.stack == [] && Resolved(state.active)
    }

    lemma NowCompleted(before: State)
      requires state.known && state.confluent && Resolved(state.active) && Busy(before) && (before.stack == [] || before.active != [] ==> state.stack == [])
      ensures Completed()
    {
      hide Resolved;
    }

    /** When a completed system is confluent. */
    lemma CompletedConfluent()
      requires Valid() && Completed()
      ensures Ordered(k, Pairs(state.active))
      ensures (Confluent(k, Pairs(state.active)) <==> NestedJoin(state.active)) && (Exact() <==> NestedJoin(state.active))
      ensures Free(state.active) ==> NestedJoin(state.active)
    {
      Parts();
      ExactAnswers();
      hide Valid, Usable, Ordered, Confluent, Resolved, NestedJoin, Free, Decides, NothingWaiting;
      ResolvedConfluent(k, state.active, state.shortest);
    }

    /** Rewrite a word with the active rules (`internal_rewrite`, lines 381-417). */
    method Rewrite(u: Word) returns (r: Word)
      requires Valid() && Over(k, u)
      ensures Reach(Pairs(state.active), u, r) && Normal(Pairs(state.active), r) && Equal(u, r)
      ensures Ordered(k, Pairs(state.active)) && r == NormalForm(k, state.active, u)
    {
      hide *;
      Parts();
      r := RewriteWord(u, state.active, state.shortest, k);
      ReachEqual(u, r);
    }

    lemma ReachEqual(u: Word, v: Word)
      requires Valid() && Reach(Pairs(state.active), u, v)
      ensures Equal(u, v)
    {
      ReachSame(Pairs(state.active), u, v);
      hide Reach, Same, Ok, FlagOk;
      WithinSubset(Pairs(state.active), Everything(state));
      SameWithin(Pairs(state.active), Everything(state), u, v);
      EquivalentSame(Everything(state), added, u, v);
    }

    /**
     * `test_equals` (lines 656-669); it has no answer if completion does not end
     * within `rounds` turns of its main loop, or if an iterator goes astray in it.  The answer
     * is always that of the normal forms with the rules there are at the end; a
     * positive one is always right.  Unless it answers at once, and without
     * limits, these rules are completed, so that the answer is right if left
     * sides inside others lead to the same words, which is sure if no rule was
     * skipped when copies were pushed, and if no left side occurred in another
     * one at the start.
     */
    method TestEquals(p: Word, q: Word, rounds: nat) returns (outcome: Outcome, equal: bool, ghost course: Course)
      requires Valid() && Over(k, p) && Over(k, q)
      modifies this`state, this`checked
      ensures Valid() && Ordered(k, Pairs(state.active))
      ensures outcome.Ended? ==> (equal <==> NormalForm(k, state.active, p) == NormalForm(k, state.active, q))
      ensures outcome.Ended? && equal ==> Equal(p, q)
      ensures outcome.Ended? && Exact() ==> (equal <==> Equal(p, q))
      ensures outcome.Ended? && p != q && !old(Early(p, q)) && Unlimited(settings) && |state.active| < UNBOUNDED ==>
                && Completed() && (Exact() <==> NestedJoin(state.active)) && CourseOk(k, old(state), state, checked, course)
                && (course.AfterCopies? && !course.skipped ==> Exact()) && (old(Free(state.active)) ==> Exact())
      ensures p == q || old(Early(p, q)) || old(Unchanging()) ==> outcome.Ended? && state == old(state)
      ensures p != q && old(Early(p, q)) ==> !equal
      ensures old(state.stack == [] && !state.known && Confluent(k, Pairs(state.active))) ==> outcome.Ended? && (equal <==> Equal(p, q))
      ensures !outcome.Stopped? && (outcome.Lost? ==> Astray(k, old(state), state))
      ensures outcome.GaveUp? ==> GivenUp(k, old(state), state, settings, rounds, course)
    {
      hide *;
      Parts();
      UnchangingParts();
      EarlyParts(p, q);
      ConfluentExact();
      if p == q {
        EqualRefl(p);
        return Ended, true, AtOnce;
      }
      if |p| < state.shortest && |q| < state.shortest {
        ShortNormalForm(k, state.active, state.shortest, p);
        ShortNormalForm(k, state.active, state.shortest, q);
        ExactAnswer(p, q, false);
        return Ended, false, AtOnce;
      }
      ghost var before := state;
      outcome, course := KnuthBendix(false, rounds);
      Parts();
      equal := false;
      if outcome != Ended {
        return;
      }
      ConfluentExact();
      var np := Rewrite(p);
      var nq := Rewrite(q);
      equal := np == nq;
      if equal {
        EqualJoin(p, q, np);
      }
      ExactAnswer(p, q, equal);
      if Completed() {
        CompletedConfluent();
        CourseConfluent(k, before, state, checked, course);
      }
    }

    lemma ConfluentExact()
      requires Valid()
      ensures Ordered(k, Pairs(state.active))
      ensures state.stack == [] && Confluent(k, Pairs(state.active)) ==> Exact()
    {
      ExactAnswers();
      hide Valid, Confluent, Decides, Ordered;
    }

    /** Both words are shorter than every left side. */
    ghost predicate Early(p: Word, q: Word)
      reads this
    {
      |p| < state.shortest && |q| < state.shortest
    }

    lemma EarlyParts(p: Word, q: Word)
      ensures Early(p, q) <==> |p| < state.shortest && |q| < state.shortest
    {
    }

    lemma ExactAnswer(p: Word, q: Word, equal: bool)
      requires Valid() && Over(k, p) && Over(k, q) && Ordered(k, Pairs(state.active))
      requires equal <==> NormalForm(k, state.active, p) == NormalForm(k, state.active, q)
      ensures Exact() ==> (equal <==> Equal(p, q))
    {
      hide Valid, Same, NormalForm, Ordered;
      if Exact() {
        assert SameForm(k, state.active, p, q) <==> Same(added, p, q);
      }
    }

    /** Completion returns at once: the flags say confluent, and no rule is waiting. */
    ghost predicate Unchanging()
      reads this
    {
      state.stack == [] && state.known && state.confluent
    }

    lemma UnchangingParts()
      ensures Unchanging() <==> state.stack == [] && state.known && state.confluent
      ensures Established() ==> Unchanging()
    {
    }

    lemma EqualJoin(p: Word, q: Word, n: Word)
      requires Equal(p, n) && Equal(q, n)
      ensures Equal(p, q)
    {
      SameSym(added, q, n);
      SameTrans(added, p, n, q);
    }

    /** Comparing normal forms is right about all words. */
    ghost predicate Exact()
      requires Ordered(k, Pairs(state.active))
      reads this
    {
      Decides(k, state.active, added)
    }

    /**
     * Exactly when the answers of `test_equals` given with the present rules are
     * right: the rules are confluent, and the waiting ones say nothing new.
     * Without waiting rules this is what `confluent` finds out.
     */
    lemma ExactAnswers()
      requires Valid()
      ensures Ordered(k, Pairs(state.active))
      ensures Exact() <==> Confluent(k, Pairs(state.active)) && NothingWaiting(k, state)
      ensures state.stack == [] ==> (Exact() <==> Confluent(k, Pairs(state.active)))
      ensures Established() ==> Exact()
    {
      ExactIff(k, state);
      DecidesAlike(k, state.active, Everything(state), added);
      WhenEstablished();
      hide Ok, FlagOk, Equivalent, Confluent, Decides, NothingWaiting, Ordered;
    }

    lemma EqualRefl(p: Word)
      ensures Equal(p, p)
    {
      SameRefl(added, p);
    }

    /** An established system is confluent. */
    lemma WhenEstablished()
      requires Valid()
      ensures Established() ==> Confluent(k, Pairs(state.active)) && state.stack == []
    {
      hide Ok, Equivalent, Confluent;
    }
  }

  lemma CompletedParts(k: nat, st: State, st': State, added: set<Pair>, ch: bool)
    requires Going(k, st, st', ch) && Equivalent(Everything(st), added) && Busy(st)
    requires st.active == [] ==> st'.active == [] && st'.stack == st.stack
    ensures Ok(k, st') && Own(st') && FlagOk(k, st', ch) && Equivalent(Everything(st'), added) && Busy(st')
    ensures Free(st.active) ==> Free(st'.active)
  {
    hide Ok, FlagOk, Equivalent, Everything, Own, Free;
    EquivalentTrans(Everything(st'), Everything(st), added);
  }

  lemma CourseConfluent(k: nat, st: State, st': State, checked: bool, course: Course)
    ensures CourseOk(k, st, st', checked, course) && course.AfterCopies? && !course.skipped ==> Confluent(k, Pairs(st'.active))
  {
    hide Copied, Confluent, Everything, Pairs;
  }

  // ----- an answer before completion -----

  function TwoRules(): State {
    State([Rule(0, 1, [0, 1], [], false), Rule(1, 2, [1, 2], [], false)], [], [], 2, 2, 2, 0, 0, false, false)
  }

  /**
   * With letters 0, 1, 2 and the rules 01 = 1 2 = empty the words 0 and 2 are
   * related (both are 012 rewritten), although they are shorter than every
   * left side: asked about them before completion, `test_equals` answers no.
   */
  lemma TooEarly()
    ensures Ok(3, TwoRules()) && TwoRules().stack == [] && |[0]| < TwoRules().shortest && |[2]| < TwoRules().shortest
    ensures Same(Everything(TwoRules()), [0], [2]) && !Confluent(3, Pairs(TwoRules().active))
    ensures Ordered(3, Pairs(TwoRules().active)) && !Decides(3, TwoRules().active, Everything(TwoRules()))
  {
    TwoRulesOk();
    TwoRulesReach();
    TwoRulesIs();
    hide *;
    ExactIff(3, TwoRules());
    var ps := Pairs(TwoRules().active);
    ReachSame(ps, [0, 1, 2], [2]);
    ReachSame(ps, [0, 1, 2], [0]);
    SameSym(ps, [0, 1, 2], [0]);
    SameTrans(ps, [0], [0, 1, 2], [2]);
    NormalShort(3, TwoRules().active, 2, [0]);
    NormalShort(3, TwoRules().active, 2, [2]);
    if Confluent(3, ps) {
      ReachRefl(ps, [0]);
      ReachRefl(ps, [2]);
      ConfluentNormals(3, ps, [0, 1, 2], [0], [2], [0], [2]);
    }
  }

  lemma TwoRulesIs()
    ensures Everything(TwoRules()) == Pairs(TwoRules().active) && TwoRules().stack == [] && TwoRules().shortest == 2 && Over(3, [0, 1, 2])
  {
    assert Pairs([]) == {};
  }

  lemma TwoRulesReach()
    ensures Reach(Pairs(TwoRules().active), [0, 1, 2], [0]) && Reach(Pairs(TwoRules().active), [0, 1, 2], [2])
  {
    var rules := TwoRules().active;
    var ps := Pairs(rules);
    assert rules[0].Pair() in ps && rules[1].Pair() in ps;
    var m, n := Move([], [0, 1], [], [2]), Move([0], [1, 2], [], []);
    assert m.Before() == [0, 1, 2] == n.Before() && m.After() == [2] && n.After() == [0];
    hide Reach, Pairs;
    ReachMove(ps, m);
    ReachMove(ps, n);
  }

  lemma TwoRulesOk()
    ensures Ok(3, TwoRules()) && Usable(3, TwoRules().active, 2)
  {
    var rules := TwoRules().active;
    forall p | p in Pairs(rules) ensures OrderedPair(3, p) {
      assert p == ([0, 1], []) || p == ([1, 2], []);
    }
    assert !SuffixRelated([0, 1], [1, 2]) by {
      assert [0, 1][0..] == [0, 1] && [1, 2][0..] == [1, 2];
    }
  }
}
