/**
 * Completion: overlaps of active rules, and the Knuth-Bendix procedure.
 * Lines cited here are those of src/rws.cc.
 */
module KnuthBendix {
  import opened Words
  import opened ShortLex
  import opened Derivations
  import opened Rewriting
  import opened RuleIndex
  import opened InPlace
  import opened ConfluenceTest
  import opened Conservation
  import opened RuleState
  import opened Completion
  import opened Connections
  import opened Resolution
  import opened Persistence
  import opened OverlapWalk
  import opened Growth
  import opened Reduction
  import opened KillFlag

  const UNBOUNDED: nat := 0xFFFF_FFFF_FFFF_FFFE

  datatype OverlapMeasure = Abc | AbBc | MaxAbBc

  /** `_max_overlap`, `_max_rules`, `_overlap_measure` and `_check_confluence_interval`. */
  datatype Settings = Settings(maxOverlap: nat, maxRules: nat, measure: OverlapMeasure, interval: nat)

  /**
   * Flags set by the confluence test are right about the active rules.  Without
   * a test they are only set when completion has resolved all overlaps it looks at.
   */
  ghost predicate FlagOk(k: nat, st: State, checked: bool) {
    st.known ==>
      if checked then st.confluent <==> Confluent(k, Pairs(st.active))
      else st.confluent && (|st.active| < UNBOUNDED ==> Resolved(st.active))
  }

  /** What every step of the completion keeps: the congruence, and the flags' meaning; and rules only change for richer ones. */
  ghost predicate Kept(k: nat, st0: State, st: State, checked: bool) {
    && Ok(k, st) && Equivalent(Everything(st), Everything(st0)) && Lasting(st0, st) && Advanced(k, st0, st)
    && (FlagOk(k, st0, checked) ==> FlagOk(k, st, checked))
  }

  /** Positions in the list of active rules that were valid are still valid, and the rules before them were there before. */
  ghost predicate Stays(st0: State, st: State) {
    && (st0.next1 < |st0.active| ==> st.next1 < |st.active|) && (st0.next2 < |st0.active| ==> st.next2 < |st.active|)
    && Carried(st0, st)
  }

  lemma KeptRefl(k: nat, st: State, checked: bool)
    requires Ok(k, st)
    ensures Kept(k, st, st, checked)
  {
    EquivalentRefl(Everything(st));
    LastingRefl(k, st);
    AdvancedSame(k, st, st);
  }

  lemma KeptTrans(k: nat, st0: State, st1: State, st2: State, checked: bool)
    requires Kept(k, st0, st1, checked) && Kept(k, st1, st2, checked)
    ensures Kept(k, st0, st2, checked)
  {
    hide Ok, Equivalent, Everything, FlagOk, Lasting, Advanced;
    AdvancedTrans(k, st0, st1, st2);
    EquivalentTrans(Everything(st2), Everything(st1), Everything(st0));
    LastingTrans(k, st0, st1, st2);
  }

  lemma StaysRefl(k: nat, st: State)
    requires Ok(k, st)
    ensures Stays(st, st)
  {
    hide Carried;
    CarriedRefl(k, st);
  }

  lemma StaysTrans(st0: State, st1: State, st2: State)
    requires Stays(st0, st1) && Stays(st1, st2)
    ensures Stays(st0, st2)
  {
    hide Carried;
    CarriedTwice(st0, st1, st2);
  }

  lemma StaysCarried(st0: State, st: State)
    requires Stays(st0, st)
    ensures Carried(st0, st)
  {
  }

  lemma KeptOk(k: nat, st0: State, st: State, checked: bool)
    requires Kept(k, st0, st, checked)
    ensures Ok(k, st) && Advanced(k, st0, st)
  {
    hide Ok, Equivalent, Everything, FlagOk, Lasting, Advanced;
  }

  lemma ClearedKept(k: nat, st0: State, st: State, checked: bool)
    requires Ok(k, st0) && Cleared(k, st0, st) && Cleaned(k, st0, st) && Lasting(st0, st)
    ensures Kept(k, st0, st, checked)
  {
    hide Ok, Equivalent, Everything, Confluent, Lasting, Resolved, Cleaned, Advanced;
    CleanedAdvances(k, st0, st);
  }

  // ----- pushing a rule -----

  /** A new rule that follows from what is there. */
  ghost predicate Follows(k: nat, st: State, rule: Rule) {
    Over(k, rule.lhs) && Over(k, rule.rhs) && Same(Everything(st), rule.lhs, rule.rhs)
  }

  /** What pushing a rule leaves: it is reduced, and everything it reduces, unless it is trivial. */
  ghost predicate PushedTo(k: nat, st: State, rule: Rule, st': State) {
    if rule.lhs != rule.rhs then Cleaned(k, st.(stack := st.stack + [rule]), st') else st' == st.(inactive := st.inactive + [rule.at])
  }

  /** `push_stack` (lines 534-542), of a rule over the alphabet. */
  method PushStack(k: nat, st: State, rule: Rule, canKill: bool, ghost checked: bool) returns (st': State, killed: bool)
    requires Ok(k, st) && Over(k, rule.lhs) && Over(k, rule.rhs)
    ensures Ok(k, st') && Equivalent(Everything(st'), Everything(st) + {rule.Pair()})
    ensures Stays(st, st') && Lasting(st, st')
    ensures FlagOk(k, st, checked) ==> FlagOk(k, st', checked)
    ensures (killed ==> canKill) && (!killed && (st.stack == [] || rule.lhs != rule.rhs) ==> st'.stack == [])
    ensures PushedTo(k, st, rule, st') && Advanced(k, st, st')
  {
    hide *;
    killed := false;
    if rule.lhs != rule.rhs {
      var st1 := st.(stack := st.stack + [rule]);
      PushedOk(k, st, rule);
      st', killed := ClearStack(k, st1, canKill);
      CleanedKeeps(k, st1, st');
      PushedFlag(k, st, st1, st', checked);
      PushedStays(k, st, rule, st1, st');
      PushedAdvances(k, st, rule, st');
    } else {
      st' := st.(inactive := st.inactive + [rule.at]);
      DroppedRule(k, st, rule, checked);
      AdvancedSame(k, st, st');
    }
    PushedNow(k, st, rule, st');
  }

  lemma PushedAdvances(k: nat, st: State, rule: Rule, st': State)
    requires Ok(k, st.(stack := st.stack + [rule])) && Cleaned(k, st.(stack := st.stack + [rule]), st')
    ensures Advanced(k, st, st')
  {
    hide Ok, Cleaned, Advanced;
    var st1 := st.(stack := st.stack + [rule]);
    CleanedAdvances(k, st1, st');
    AdvancedSame(k, st, st1);
    AdvancedTrans(k, st, st1, st');
  }

  lemma PushedNow(k: nat, st: State, rule: Rule, st': State)
    requires if rule.lhs != rule.rhs then Cleaned(k, st.(stack := st.stack + [rule]), st') else st' == st.(inactive := st.inactive + [rule.at])
    ensures PushedTo(k, st, rule, st')
  {
  }

  lemma PushedOk(k: nat, st: State, rule: Rule)
    requires Ok(k, st) && Over(k, rule.lhs) && Over(k, rule.rhs) && rule.lhs != rule.rhs
    ensures Ok(k, st.(stack := st.stack + [rule])) && Everything(st.(stack := st.stack + [rule])) == Everything(st) + {rule.Pair()}
  {
    PairsAppend(st.stack, rule);
    assert Waiting(k, rule);
    hide Pairs, Usable;
  }

  lemma PushedFlag(k: nat, st: State, st1: State, st': State, checked: bool)
    requires st1 == st.(stack := st1.stack) && Cleared(k, st1, st')
    ensures FlagOk(k, st, checked) ==> FlagOk(k, st', checked)
    ensures Equivalent(Everything(st'), Everything(st1)) && Ok(k, st')
  {
    hide Ok, Equivalent, Everything, Confluent, Resolved;
  }

  lemma PushedStays(k: nat, st: State, rule: Rule, st1: State, st': State)
    requires Ok(k, st) && st1 == st.(stack := st.stack + [rule]) && Everything(st1) == Everything(st) + {rule.Pair()}
    requires Cleared(k, st1, st') && Carried(st1, st') && Lasting(st1, st')
    ensures Stays(st, st') && Lasting(st, st')
  {
    hide Ok, Everything, Equivalent, CarriedOver, Keeps, Lasting;
    KeepsMore(Everything(st), Everything(st1));
    CarriedMore(k, Everything(st), st, Everything(st1), st1);
    CarriedTwice(st, st1, st');
    LastingSame(k, st, st1);
    LastingTrans(k, st, st1, st');
  }

  lemma DroppedRule(k: nat, st: State, rule: Rule, checked: bool)
    requires Ok(k, st) && rule.lhs == rule.rhs
    ensures var st' := st.(inactive := st.inactive + [rule.at]);
            && Ok(k, st') && Equivalent(Everything(st'), Everything(st) + {rule.Pair()}) && Stays(st, st') && Lasting(st, st')
            && (FlagOk(k, st, checked) ==> FlagOk(k, st', checked)) && st'.stack == st.stack
  {
    hide *;
    var st' := st.(inactive := st.inactive + [rule.at]);
    SameEverything(st, st.inactive + [rule.at]);
    TrivialPair(Everything(st), rule);
    OkInactive(k, st, st.inactive + [rule.at]);
    FlagMoved(k, st, st', checked);
    DroppedCarried(k, st, st.inactive + [rule.at]);
    CarriedNow(st, st');
    DroppedStays(st, st');
    LastingSame(k, st, st');
  }

  lemma DroppedStays(st: State, st': State)
    requires Carried(st, st') && st' == st.(inactive := st'.inactive)
    ensures Stays(st, st')
  {
    hide Carried;
  }

  lemma TrivialPair(ps: set<Pair>, rule: Rule)
    requires rule.lhs == rule.rhs
    ensures Equivalent(ps, ps + {rule.Pair()})
  {
    SameRefl(ps, rule.lhs);
    EquivalentAdd(ps, rule.Pair());
    hide Same, Within;
    EquivalentFlip(ps + {rule.Pair()}, ps);
  }

  /** What is pushed is connected afterwards, as far as the stack has been emptied. */
  lemma PushedLinked(k: nat, st: State, rule: Rule, st': State)
    requires Ok(k, st) && Over(k, rule.lhs) && Over(k, rule.rhs) && PushedTo(k, st, rule, st')
    ensures Linked(Everything(st'), UpTo(rule.lhs, rule.rhs), rule.lhs, rule.rhs)
  {
    hide Ok, Linked, Everything, Over, Cleaned;
    if rule.lhs != rule.rhs {
      var st1 := st.(stack := st.stack + [rule]);
      PushedOk(k, st, rule);
      CleanedKeeps(k, st1, st');
      CarriedKeeps(st1, st');
      LinkedPair(Everything(st1), rule.Pair());
      LinkedKept(Everything(st1), Everything(st'), UpTo(rule.lhs, rule.rhs), rule.lhs, rule.rhs);
    } else {
      LinkedRefl(Everything(st'), UpTo(rule.lhs, rule.rhs), rule.lhs);
    }
  }

  lemma PushedObjects(k: nat, st: State, rule: Rule, st': State)
    requires Ok(k, st) && Over(k, rule.lhs) && Over(k, rule.rhs) && PushedTo(k, st, rule, st')
    ensures Objects(st') == Objects(st) + multiset{rule.at} && st'.unused == st.unused
  {
    hide Ok, Ats, Cleaned, Over;
    if rule.lhs != rule.rhs {
      var st1 := st.(stack := st.stack + [rule]);
      PushedOk(k, st, rule);
      CleanedKeeps(k, st1, st');
      AtsAppend(st.stack, rule);
    }
  }

  /** Pushing a rule that already follows changes nothing that matters. */
  method PushKnown(k: nat, st: State, rule: Rule, canKill: bool, ghost checked: bool) returns (st': State, killed: bool)
    requires Ok(k, st) && Follows(k, st, rule)
    ensures Kept(k, st, st', checked) && Stays(st, st') && PushedTo(k, st, rule, st')
    ensures (killed ==> canKill) && (!killed && (st.stack == [] || rule.lhs != rule.rhs) ==> st'.stack == [])
  {
    hide Equivalent, Everything, Same, Ok, FlagOk, Stays, Lasting, PushedTo, Advanced;
    st', killed := PushStack(k, st, rule, canKill, checked);
    EquivalentAdd(Everything(st), rule.Pair());
    EquivalentTrans(Everything(st'), Everything(st) + {rule.Pair()}, Everything(st));
  }

  // ----- new rules -----

  /** A rule object to use, recycled if possible (lines 300-313). */
  function NewObject(st: State): (nat, State) {
    if st.inactive != [] then (st.inactive[0], st.(inactive := st.inactive[1..], total := st.total + 1))
    else (st.unused, st.(unused := st.unused + 1, total := st.total + 1))
  }

  /** A pair of words, made a rule in a new object and pushed. */
  ghost predicate PushedPair(k: nat, st: State, l: Word, r: Word, st': State) {
    var (at, st1) := NewObject(st);
    PushedTo(k, st1, Rule(at, st1.total, l, r, false), st')
  }

  lemma NewObjectKept(k: nat, st: State, checked: bool)
    requires Ok(k, st)
    ensures Kept(k, st, NewObject(st).1, checked) && Stays(st, NewObject(st).1) && Everything(NewObject(st).1) == Everything(st) && Pairs(NewObject(st).1.active) == Pairs(st.active)
  {
    hide *;
    EquivalentRefl(Everything(st));
    var st1 := NewObject(st).1;
    NewObjectIs(st);
    ObjectKept(k, st, st1, checked);
    KeepsMore(Everything(st), Everything(st));
    CarriedMore(k, Everything(st), st, Everything(st), st1);
    CarriedNow(st, st1);
    ObjectStays(st, st1);
  }

  lemma NewObjectIs(st: State)
    ensures var st1 := NewObject(st).1;
            st1 == st.(inactive := st1.inactive, unused := st1.unused, total := st1.total) && Everything(st1) == Everything(st) && st.active <= st1.active
  {
    hide Pairs;
  }

  lemma ObjectKept(k: nat, st: State, st1: State, checked: bool)
    requires Ok(k, st) && st1 == st.(inactive := st1.inactive, unused := st1.unused, total := st1.total)
    requires Everything(st1) == Everything(st) && Equivalent(Everything(st), Everything(st))
    ensures Kept(k, st, st1, checked)
  {
    LastingSame(k, st, st1);
    AdvancedSame(k, st, st1);
    hide Equivalent, Usable, Confluent, Everything, Resolved, Lasting, Advanced;
  }

  lemma ObjectStays(st: State, st1: State)
    requires Carried(st, st1) && st1 == st.(inactive := st1.inactive, unused := st1.unused, total := st1.total)
    ensures Stays(st, st1)
  {
    hide Carried;
  }

  /** The object that is used is not in another place. */
  lemma NewObjectOwn(st: State)
    requires Own(st)
    ensures var (at, st1) := NewObject(st);
            (forall x :: (Objects(st1) + multiset{at})[x] <= 1 && (x in Objects(st1) + multiset{at} ==> x < st1.unused)) && st1.stack == st.stack
  {
    hide Ats;
    if st.inactive != [] {
      assert st.inactive == [st.inactive[0]] + st.inactive[1..];
      assert Objects(st) == Objects(NewObject(st).1) + multiset{NewObject(st).0};
    } else {
      assert Objects(NewObject(st).1) == Objects(st);
      assert Objects(st)[st.unused] == 0;
    }
  }

  lemma PushedOwn(k: nat, st: State, rule: Rule, st': State)
    requires Own(st) && Ok(k, NewObject(st).1) && Over(k, rule.lhs) && Over(k, rule.rhs)
    requires rule.at == NewObject(st).0 && PushedTo(k, NewObject(st).1, rule, st')
    ensures Own(st')
  {
    hide Ok, Objects, PushedTo, Over;
    NewObjectOwn(st);
    PushedObjects(k, NewObject(st).1, rule, st');
  }

  // ----- overlaps -----

  /** The active rule held by an object, if it holds one. */
  method FindObject(active: seq<Rule>, at: nat) returns (found: bool, rule: Rule)
    ensures found ==> rule in active && rule.at == at
    ensures !found ==> forall r :: r in active ==> r.at != at
  {
    found, rule := false, Rule(at, 0, [], [], false);
    var i := 0;
    while i < |active|
      invariant i <= |active| && forall j :: 0 <= j < i ==> active[j].at != at
    {
      if active[i].at == at {
        return true, active[i];
      }
      i := i + 1;
    }
  }

  function Max(a: nat, b: nat): nat { if a < b then b else a }

  /** Lines 133-169. */
  function Measured(measure: OverlapMeasure, u: Rule, v: Rule, it: nat): nat {
    match measure
    case Abc => it + |v.lhs|
    case AbBc => |u.lhs| + |v.lhs|
    case MaxAbBc => Max(|u.lhs|, |v.lhs|)
  }

  /** The two ways to rewrite an overlap follow from the two rules (lines 559-567). */
  lemma OverlapFollows(k: nat, st: State, u: Rule, v: Rule, it: nat, rule: Rule)
    requires Ok(k, st) && u in st.active && v in st.active
    requires it <= |u.lhs| && |u.lhs| - it <= |v.lhs| && u.lhs[it..] == v.lhs[..|u.lhs| - it]
    requires rule.lhs == u.lhs[..it] + v.rhs && rule.rhs == u.rhs + v.lhs[|u.lhs| - it..]
    ensures Follows(k, st, rule)
  {
    var ps, a, c := Everything(st), u.lhs[..it], v.lhs[|u.lhs| - it..];
    OverlapOver(k, st, u, v, it);
    assert u.Pair() in ps && v.Pair() in ps;
    hide Everything, Over, Same, Ok;
    assert a + v.lhs == u.lhs + c by { OverlapWords(u.lhs, v.lhs, it); }
    SamePair(ps, u.Pair());
    SamePair(ps, v.Pair());
    SameInside(ps, a, v.lhs, v.rhs, []);
    SameInside(ps, [], u.lhs, u.rhs, c);
    Plain(a, v.lhs, v.rhs, u.lhs, u.rhs, c);
    SameSym(ps, a + v.lhs, rule.lhs);
    SameTrans(ps, rule.lhs, u.lhs + c, rule.rhs);
  }

  lemma OverlapOver(k: nat, st: State, u: Rule, v: Rule, it: nat)
    requires Ok(k, st) && u in st.active && v in st.active && it <= |u.lhs| && |u.lhs| - it <= |v.lhs|
    ensures Over(k, u.lhs[..it] + v.rhs) && Over(k, u.rhs + v.lhs[|u.lhs| - it..])
  {
    UsableRule(k, st.active, st.shortest, u);
    UsableRule(k, st.active, st.shortest, v);
  }

  lemma OverlapWords(l: Word, l': Word, it: nat)
    requires it <= |l| && |l| - it <= |l'| && l[it..] == l'[..|l| - it]
    ensures l[..it] + l' == l + l'[|l| - it..]
  {
    assert l' == l'[..|l| - it] + l'[|l| - it..] && l == l[..it] + l[it..];
  }

  lemma Plain(a: Word, l: Word, r: Word, l': Word, r': Word, c: Word)
    ensures a + l + [] == a + l && a + r + [] == a + r && [] + l' + c == l' + c && [] + r' + c == r' + c
  {
  }

  /** The object held by `u` has kept its identifier, but its left side has been replaced by a shorter one, or by what was its right side. */
  ghost predicate Replaced(st: State, u: Rule) {
    exists r :: r in st.active && r.at == u.at && r.id == u.id && (|r.lhs| < |u.lhs| || r.flipped != u.flipped)
  }

  /**
   * `overlap`: the overlaps of the left side in object `p` with the one in
   * object `q` (lines 545-579).  Comparing identifiers does not show that a
   * rule has been removed, rewritten and activated again.  If then the iterator
   * `it` is about to be used, but no longer lies in the left side, it is
   * `stray`; what the original does from there on is not defined, and `st'` is
   * the state at that moment.  Otherwise, unless stopped, the overlaps of the
   * two rules above the limit are resolved afterwards, if both are still before
   * the first position: all of them, or those above the index `end` at which
   * the overlap is longer than is allowed.
   */
  method Overlaps(k: nat, st: State, p: nat, q: nat, settings: Settings, canKill: bool, stopped: bool, ghost checked: bool)
    returns (st': State, killed: bool, stray: bool, ghost end: int)
    requires Ok(k, st) && Own(st)
    ensures Kept(k, st, st', checked) && Stays(st, st') && Own(st')
    ensures (killed ==> canKill || stopped) && (stopped ==> killed && !stray && st' == st)
    ensures stray ==> exists u :: u in st.active && u.at == p && Replaced(st', u)
    ensures !killed && !stray ==> Dealt(st', InObjects(p, q), end) && (end == -1 || TooLong(st', p, q, settings, end))
    ensures !killed && st.stack == [] ==> st'.stack == []
  {
    hide *;
    st', killed, stray, end := st, stopped, false, -1;
    KeptRefl(k, st, checked);
    StaysRefl(k, st);
    var foundU, first := FindObject(st.active, p);
    var foundV, second := FindObject(st.active, q);
    if !foundU || !foundV {
      NotFound(st, p, q);
      return;
    }
    NowFound(st, p, first);
    NowFound(st, q, second);
    WalkStart(st, p, q, first);
    var u, v, vId := first, second, second.id;
    var limit: nat := |u.lhs| - Min(|u.lhs|, |v.lhs|);
    LimitIs(first, second);
    var it: int := |u.lhs| - 1;
    while it > limit
      invariant it < |first.lhs|
      invariant Ok(k, st') && Own(st') && Kept(k, st, st', checked) && Stays(st, st') && Dealt(st', InObjects(p, q), it)
      invariant (killed ==> canKill || stopped) && (stopped ==> killed && st' == st)
      invariant !killed && st.stack == [] ==> st'.stack == []
      decreases it - limit
    {
      StaysCarried(st, st');
      var now := Killed(canKill);
      killed := killed || now;
      foundU, u := FindObject(st'.active, p);
      foundV, v := FindObject(st'.active, q);
      if killed || !foundU || !foundV || u.id != first.id || v.id != vId {
        WalkStopped(st, st', p, q, first, second, foundU, u, foundV, v);
        return;
      }
      NowFound(st', p, u);
      NowFound(st', q, v);
      if settings.maxOverlap != UNBOUNDED && settings.measure != Abc && Measured(settings.measure, u, v, it) > settings.maxOverlap {
        NowTooLong(st', p, q, settings, u, v, it);
        end := it;
        return;
      }
      stray := it > |u.lhs| || u.flipped != first.flipped;
      if stray {
        NowReplaced(st', u, first);
        return;
      }
      if settings.maxOverlap != UNBOUNDED && Measured(settings.measure, u, v, it) > settings.maxOverlap {
        NowTooLong(st', p, q, settings, u, v, it);
        end := it;
        return;
      }
      if |u.lhs| - it <= |v.lhs| && u.lhs[it..] == v.lhs[..|u.lhs| - it] {
        ghost var before := st';
        st', killed := PushOverlap(k, st', u, v, it, canKill, checked);
        KeptTrans(k, st, before, st', checked);
        StaysCarried(before, st');
        StaysTrans(st, before, st');
        KeptOk(k, st, st', checked);
        WalkPushed(before, st', p, q, u, v, it);
      } else {
        WalkNext(st, st', p, q, first, second, u, v, it);
      }
      it := it - 1;
    }
    StaysCarried(st, st');
    WalkEnd(st, st', p, q, first, second, it);
  }

  /** There is a limit, and the overlap at `it` of the rules in the two objects exceeds it. */
  ghost predicate TooLong(st: State, p: nat, q: nat, settings: Settings, it: int) {
    it >= 0 && settings.maxOverlap != UNBOUNDED && exists u, v :: Found(st, p, u) && Found(st, q, v) && Measured(settings.measure, u, v, it) > settings.maxOverlap
  }

  lemma NowTooLong(st: State, p: nat, q: nat, settings: Settings, u: Rule, v: Rule, it: nat)
    requires Found(st, p, u) && Found(st, q, v) && settings.maxOverlap != UNBOUNDED && Measured(settings.measure, u, v, it) > settings.maxOverlap
    ensures TooLong(st, p, q, settings, it)
  {
  }

  lemma NotTooLong(st: State, p: nat, q: nat, settings: Settings, it: int)
    ensures TooLong(st, p, q, settings, it) ==> settings.maxOverlap != UNBOUNDED
  {
  }

  lemma LimitIs(u: Rule, v: Rule)
    ensures Limit(u, v) == |u.lhs| - Min(|u.lhs|, |v.lhs|)
  {
  }

  lemma NowFound(st: State, p: nat, u: Rule)
    requires u in st.active && u.at == p
    ensures Found(st, p, u)
  {
  }

  lemma NotFound(st: State, p: nat, q: nat)
    requires (forall r :: r in st.active ==> r.at != p) || (forall r :: r in st.active ==> r.at != q)
    ensures Dealt(st, InObjects(p, q), -1)
  {
    hide ResolvedFrom, Everything;
  }

  /** If the walk is not over because it has been stopped, the rules are not those at the start. */
  lemma WalkStopped(st: State, st': State, p: nat, q: nat, first: Rule, second: Rule, foundU: bool, u: Rule, foundV: bool, v: Rule)
    requires Own(st) && Carried(st, st') && Found(st, p, first) && Found(st, q, second) && Own(st')
    requires foundU ==> u in st'.active && u.at == p
    requires foundV ==> v in st'.active && v.at == q
    requires !foundU ==> forall r :: r in st'.active ==> r.at != p
    requires !foundV ==> forall r :: r in st'.active ==> r.at != q
    ensures !foundU || !foundV || u.id != first.id || v.id != second.id ==> Dealt(st', InObjects(p, q), -1)
  {
    hide Own, Carried, Dealt;
    if !foundU || !foundV {
      WalkOver(st, st', p, q, first, second);
    } else if u.id != first.id {
      assert Found(st', p, u);
      WalkOver(st, st', p, q, first, second);
    } else if v.id != second.id {
      assert Found(st', q, v);
      WalkOver(st, st', p, q, first, second);
    }
  }

  /** Nothing overlaps, or the left side in the first object is not the one that is walked any more. */
  lemma WalkNext(st: State, st': State, p: nat, q: nat, first: Rule, second: Rule, u: Rule, v: Rule, it: nat)
    requires Own(st) && Carried(st, st') && Found(st, p, first) && Found(st, q, second) && Own(st') && Found(st', p, u) && Found(st', q, v)
    requires Dealt(st', InObjects(p, q), it) && Limit(first, second) < it < |first.lhs| && it <= |u.lhs|
    requires !(|u.lhs| - it <= |v.lhs| && u.lhs[it..] == v.lhs[..|u.lhs| - it])
    ensures Dealt(st', InObjects(p, q), it - 1)
  {
    hide Own, Carried, Everything, ResolvedFrom;
    forall a, b | Passed(st', a) && Passed(st', b) && Chosen(InObjects(p, q), st', a, b)
      ensures ResolvedFrom(Everything(st'), st'.active[a], st'.active[b], it - 1) {
      StillPassed(st, st', p, first, a);
      StillPassed(st, st', q, second, b);
      FoundPassed(st', p, u, a);
      FoundPassed(st', q, v, b);
      WalkSkipped(st', p, q, u, v, it);
      assert Chosen(InObjects(p, q), st', a, b);
    }
  }

  lemma NowReplaced(st: State, r: Rule, u: Rule)
    requires r in st.active && r.at == u.at && r.id == u.id && (|r.lhs| < |u.lhs| || r.flipped != u.flipped)
    ensures Replaced(st, u)
  {
  }

  /** Lines 561-569: the two words of the critical pair are made a rule and pushed. */
  method PushOverlap(k: nat, st: State, u: Rule, v: Rule, it: nat, canKill: bool, ghost checked: bool) returns (st': State, killed: bool)
    requires Ok(k, st) && Own(st) && u in st.active && v in st.active
    requires it <= |u.lhs| && |u.lhs| - it <= |v.lhs| && u.lhs[it..] == v.lhs[..|u.lhs| - it]
    ensures Kept(k, st, st', checked) && Stays(st, st') && Own(st')
    ensures PushedPair(k, st, CriticalLeft(u.Pair(), v.Pair(), it), CriticalRight(u.Pair(), v.Pair(), it), st')
    ensures CriticalLinked(Everything(st'), u.Pair(), v.Pair(), it)
    ensures (killed ==> canKill) && (!killed && st.stack == [] ==> st'.stack == [])
  {
    hide *;
    var (at, st1) := NewObject(st);
    var rule := Rule(at, st1.total, u.lhs[..it] + v.rhs, u.rhs + v.lhs[|u.lhs| - it..], false);
    OverlapFollows(k, st, u, v, it, rule);
    NewObjectKept(k, st, checked);
    FollowsSame(k, st, st1, rule);
    KeptOk(k, st, st1, checked);
    NewObjectStack(st);
    st', killed := PushKnown(k, st1, rule, canKill, checked);
    KeptTrans(k, st, st1, st', checked);
    StaysTrans(st, st1, st');
    FollowsOver(k, st1, rule);
    PushedOwn(k, st, rule, st');
    CriticalIs(u, v, it);
    PairPushed(k, st, rule, st');
    PushedLinked(k, st1, rule, st');
    CriticalPushed(k, st, u, v, it, Everything(st'));
  }

  lemma NewObjectStack(st: State)
    ensures NewObject(st).1.stack == st.stack
  {
  }

  lemma FollowsOver(k: nat, st: State, rule: Rule)
    requires Follows(k, st, rule)
    ensures Over(k, rule.lhs) && Over(k, rule.rhs)
  {
  }

  lemma PairPushed(k: nat, st: State, rule: Rule, st': State)
    requires rule == Rule(NewObject(st).0, NewObject(st).1.total, rule.lhs, rule.rhs, false) && PushedTo(k, NewObject(st).1, rule, st')
    ensures PushedPair(k, st, rule.lhs, rule.rhs, st')
  {
    hide PushedTo;
  }

  lemma CriticalIs(u: Rule, v: Rule, it: nat)
    requires it <= |u.lhs| && |u.lhs| - it <= |v.lhs|
    ensures CriticalLeft(u.Pair(), v.Pair(), it) == u.lhs[..it] + v.rhs
    ensures CriticalRight(u.Pair(), v.Pair(), it) == u.rhs + v.lhs[|u.lhs| - it..]
  {
    assert u.lhs[|u.lhs|..] == [];
  }

  lemma CriticalPushed(k: nat, st: State, u: Rule, v: Rule, it: nat, ps: set<Pair>)
    requires Ok(k, st) && u in st.active && v in st.active && it <= |u.lhs|
    requires var x, y := CriticalLeft(u.Pair(), v.Pair(), it), CriticalRight(u.Pair(), v.Pair(), it); Linked(ps, UpTo(x, y), x, y)
    ensures CriticalLinked(ps, u.Pair(), v.Pair(), it)
  {
    UsableRule(k, st.active, st.shortest, u);
    UsableRule(k, st.active, st.shortest, v);
    if Overlap(u.lhs, v.lhs, it) {
      CriticalBelow(u.Pair(), v.Pair(), it);
      var x, y, top := CriticalLeft(u.Pair(), v.Pair(), it), CriticalRight(u.Pair(), v.Pair(), it), CriticalTop(u.Pair(), v.Pair(), it);
      hide Linked, Usable, Fits, CriticalLeft, CriticalRight, CriticalTop, Overlap;
      UpToBelow(x, y, top);
      LinkedWider(ps, UpTo(x, y), Below(top), x, y);
    }
  }

  lemma FollowsSame(k: nat, st: State, st': State, rule: Rule)
    requires Follows(k, st, rule) && Everything(st) == Everything(st')
    ensures Follows(k, st', rule)
  {
  }

  // ----- the confluence test and its cache -----

  /** `confluent` (lines 420-475): the answer is right unless the test was killed or the flags were set unchecked. */
  method TestConfluent(k: nat, st: State, canKill: bool, ghost checked: bool) returns (result: bool, st': State, killed: bool, ghost checked': bool)
    requires Ok(k, st) && FlagOk(k, st, checked)
    ensures Ok(k, st') && FlagOk(k, st', checked') && st' == st.(known := st'.known, confluent := st'.confluent)
    ensures result == st'.confluent && (st.known ==> st' == st && checked' == checked)
    ensures (killed ==> canKill) && (!killed ==> st'.known)
    ensures !st.known && !killed ==> checked'
  {
    st', checked' := st, checked;
    killed := Killed(canKill);
    if !st.known && !killed {
      hide Usable, Confluent, Resolved;
      var ok;
      ok, killed := CheckConfluent(st.active, st.shortest, canKill, k);
      st' := st.(known := !ok || !killed, confluent := ok);
      checked' := true;
    }
    result := st'.confluent;
  }

  lemma FlagMoved(k: nat, st: State, st': State, checked: bool)
    requires st'.active == st.active && st'.known == st.known && st'.confluent == st.confluent
    ensures FlagOk(k, st, checked) <==> FlagOk(k, st', checked)
  {
    hide Confluent, Resolved;
  }

  // ----- the Knuth-Bendix procedure -----

  /** The state between two steps: the same congruence as `st0`, and flags that mean what they say. */
  ghost predicate Going(k: nat, st0: State, st: State, checked: bool) {
    Ok(k, st) && Own(st) && Equivalent(Everything(st), Everything(st0)) && Lasting(st0, st) && FlagOk(k, st, checked)
  }

  lemma GoingStart(k: nat, st: State, checked: bool)
    requires Ok(k, st) && Own(st) && FlagOk(k, st, checked)
    ensures Going(k, st, st, checked)
  {
    EquivalentRefl(Everything(st));
    LastingRefl(k, st);
  }

  lemma GoingOn(k: nat, st0: State, st1: State, st2: State, checked: bool)
    requires Going(k, st0, st1, checked) && Kept(k, st1, st2, checked) && Own(st2)
    ensures Going(k, st0, st2, checked)
  {
    hide Ok, Equivalent, Everything, Confluent, Resolved, Lasting, Own, Advanced;
    EquivalentTrans(Everything(st2), Everything(st1), Everything(st0));
    LastingTrans(k, st0, st1, st2);
  }

  lemma GoingOk(k: nat, st0: State, st: State, checked: bool)
    requires Going(k, st0, st, checked)
    ensures Ok(k, st) && Own(st) && FlagOk(k, st, checked) && st.next1 <= |st.active| && st.next2 <= |st.active|
  {
  }

  lemma OwnMoved(st: State, st': State)
    requires Own(st) && st'.active == st.active && st'.stack == st.stack && st'.unused == st.unused
    requires st'.inactive == st.inactive || st'.inactive == []
    ensures Own(st')
  {
    hide Ats;
    forall x ensures Objects(st')[x] <= 1 && (x in Objects(st') ==> x < st'.unused) {
      assert Objects(st)[x] <= 1 && (x in Objects(st) ==> x < st.unused);
      assert Objects(st')[x] <= Objects(st)[x];
    }
  }

  /** Moving the positions, setting the flags in a way that keeps their meaning, or giving unused objects away. */
  lemma GoingMoved(k: nat, st0: State, st: State, st': State, checked: bool, checked': bool)
    requires Going(k, st0, st, checked) && FlagOk(k, st', checked')
    requires st' == st.(known := st'.known, confluent := st'.confluent, next1 := st'.next1, next2 := st'.next2, inactive := st'.inactive)
    requires st'.next1 <= |st.active| && st'.next2 <= |st.active| && (st'.inactive == st.inactive || st'.inactive == [])
    ensures Going(k, st0, st', checked')
  {
    OwnMoved(st, st');
    hide Usable, Equivalent, Confluent, Resolved, Own, Free;
  }

  lemma StaysParts(st: State, st': State)
    requires Stays(st, st')
    ensures st.next1 < |st.active| ==> st'.next1 < |st'.active|
  {
  }

  /** A copy of the rule at the first position has been pushed, the stack has been emptied, and the position moved on. */
  ghost predicate CopyPushed(k: nat, st: State, st': State) {
    && st.next1 < |st.active| && 0 < st'.next1 <= |st'.active|
    && PushedPair(k, st, st.active[st.next1].lhs, st.active[st.next1].rhs, st'.(next1 := st'.next1 - 1)) && st'.stack == []
  }

  /** The rule itself has been removed, so that moving the position on skips the next one. */
  ghost predicate Skips(st: State, st': State)
    requires st.next1 < |st.active| && 0 < st'.next1 <= |st'.active|
  {
    Left(st'.active[st'.next1 - 1]) != Left(st.active[st.next1])
  }

  /** So many rules have been copied and pushed, from the first position on, and rules have been skipped or not. */
  ghost predicate Copied(k: nat, st: State, st': State, n: nat, skipped: bool)
    decreases n
  {
    if n == 0 then st' == st && !skipped
    else var m := n - 1; exists st1, before :: Copied(k, st, st1, m, before) && CopyPushed(k, st1, st') && skipped == (before || Skips(st1, st'))
  }

  lemma CopiedMore(k: nat, st: State, st1: State, st': State, n: nat, skipped: bool)
    requires Copied(k, st, st1, n, skipped) && CopyPushed(k, st1, st')
    ensures Copied(k, st, st', n + 1, skipped || Skips(st1, st'))
  {
    hide PushedPair;
  }

  lemma CopiedNone(k: nat, st: State)
    ensures Copied(k, st, st, 0, false)
  {
  }

  /**
   * Lines 594-602: push copies of active rules, to reduce the rules.  Unless it
   * is stopped it goes on to the end of the list; but when pushing the copy
   * removes the rule itself, the next rule is skipped.  If none has been, then
   * where a left side occurs in another one both ways to rewrite are connected.
   */
  method ReduceRules(k: nat, st0: State, st: State, canKill: bool, ghost checked: bool)
    returns (st': State, killed: bool, ghost copies: nat, ghost skipped: bool)
    requires Going(k, st0, st, checked)
    ensures Going(k, st0, st', checked) && (killed ==> canKill)
    ensures !killed ==> st'.next1 == |st'.active| && Copied(k, st.(next1 := 0), st', copies, skipped)
    ensures !killed && !skipped ==> TamedTo(st', |st'.active|)
    ensures !killed && (st.stack == [] || st.active != []) ==> st'.stack == []
    ensures st.active == [] ==> st'.active == [] && st'.stack == st.stack
  {
    hide *;
    st', copies, skipped := st.(next1 := 0), 0, false;
    killed := Killed(canKill);
    ghost var n := ShortStart(st');
    GoingOk(k, st0, st, checked);
    FlagMoved(k, st, st', checked);
    GoingMoved(k, st0, st, st', checked, checked);
    CopiedNone(k, st');
    TamedNone(st');
    while st'.next1 != |st'.active| && !killed
      invariant Going(k, st0, st', checked) && (killed ==> canKill) && (!killed ==> Copied(k, st.(next1 := 0), st', copies, skipped))
      invariant !killed && !skipped ==> TamedTo(st', st'.next1)
      invariant !killed && copies > 0 ==> st'.stack == []
      invariant (copies == 0 ==> st' == st.(next1 := 0)) && (st.active == [] ==> copies == 0)
      invariant st'.next1 <= |st'.active| && Short(n, st')
      decreases |Irreducible(k, n, st')|, |st'.active| - st'.next1
    {
      GoingOk(k, st0, st', checked);
      ghost var before := st';
      st', killed := PushCopy(k, st', canKill, checked);
      CopyGrows(k, before, st', n);
      GoingOn(k, st0, before, st', checked);
      StaysParts(before, st');
      GoingOk(k, st0, st', checked);
      ghost var moved := st'.(next1 := st'.next1 + 1);
      SameIrreducible(k, n, st', moved);
      FlagMoved(k, st', moved, checked);
      GoingMoved(k, st0, st', moved, checked, checked);
      if !killed {
        OneCopied(k, before, st', moved);
        CopiedMore(k, st.(next1 := 0), before, moved, copies, skipped);
        if !skipped {
          StaysCarried(before, st');
          KeptLasting(k, before, st', checked);
          CopyTames(k, before, st', moved);
        }
        skipped := skipped || SkipsRule(before, moved);
      }
      copies := copies + 1;
      st' := st'.(next1 := st'.next1 + 1);
      GoingOk(k, st0, st', checked);
      if !killed {
        killed := Killed(canKill);
      }
    }
  }

  /** The copy is not longer than the rule, so after it has been pushed either nothing has changed or fewer words are irreducible. */
  lemma CopyGrows(k: nat, st: State, st': State, n: nat)
    requires Ok(k, st) && st.next1 < |st.active| && PushedPair(k, st, st.active[st.next1].lhs, st.active[st.next1].rhs, st') && Short(n, st)
    ensures Short(n, st'.(next1 := st'.next1 + 1)) && |Irreducible(k, n, st')| <= |Irreducible(k, n, st)|
    ensures (st'.active == st.active && st'.next1 == st.next1) || |Irreducible(k, n, st')| < |Irreducible(k, n, st)|
  {
    hide *;
    var (at, st1) := NewObject(st);
    var r := st.active[st.next1];
    var copy := Rule(at, st1.total, r.lhs, r.rhs, false);
    CopyFollows(k, st, r, copy);
    CopyLess(k, st, r);
    OkObject(k, st);
    PushedOk(k, st1, copy);
    CopyOnTop(k, st, r, st1, copy, st');
    CopyShort(st, st1, copy, n);
    var st2 := st1.(stack := st1.stack + [copy]);
    CleanedGrows(k, st2, st', n);
    GrownFewer(k, n, st2, st');
    SameIrreducible(k, n, st, st2);
    if st'.active == st.active {
      SameIrreducible(k, n, st, st');
    }
    ShortMoved(n, st');
  }

  lemma CopyShort(st: State, st1: State, copy: Rule, n: nat)
    requires Short(n, st) && st.next1 < |st.active| && copy.lhs == st.active[st.next1].lhs && copy.rhs == st.active[st.next1].rhs
    requires st1 == NewObject(st).1
    ensures Short(n, st1.(stack := st1.stack + [copy])) && st1.active == st.active && st1.next1 == st.next1
  {
    assert ShortRule(n, st.active[st.next1]);
  }

  lemma ShortMoved(n: nat, st: State)
    requires Short(n, st)
    ensures Short(n, st.(next1 := st.next1 + 1))
  {
    hide ShortRule;
  }

  /** `Skips`, also where it does not apply. */
  ghost predicate SkipsRule(st: State, st': State) {
    st.next1 < |st.active| && 0 < st'.next1 <= |st'.active| && Skips(st, st')
  }

  lemma KeptLasting(k: nat, st: State, st': State, checked: bool)
    requires Kept(k, st, st', checked)
    ensures Lasting(st, st')
  {
  }

  lemma OneCopied(k: nat, st: State, st1: State, st': State)
    requires st.next1 < |st.active| && st1.next1 < |st1.active| && PushedPair(k, st, st.active[st.next1].lhs, st.active[st.next1].rhs, st1)
    requires st1.stack == [] && st' == st1.(next1 := st1.next1 + 1)
    ensures CopyPushed(k, st, st') && (SkipsRule(st, st') <==> Skips(st, st'))
  {
    hide PushedPair, Skips;
    assert st'.(next1 := st'.next1 - 1) == st1;
  }

  /** A rule that has been copied and is still there is tamed. */
  lemma CopyTames(k: nat, st: State, st1: State, st': State)
    requires Ok(k, st) && Ok(k, st1) && Carried(st, st1) && Lasting(st, st1) && TamedTo(st, st.next1)
    requires CopyPushed(k, st, st') && st1.next1 < |st1.active| && st' == st1.(next1 := st1.next1 + 1)
    ensures !SkipsRule(st, st') ==> TamedTo(st', st'.next1)
  {
    hide *;
    CopyParts(k, st, st1, st');
    TamedCarried(k, st, st1);
    if !SkipsRule(st, st') {
      var r := st.active[st.next1];
      NoSkip(st, st1, st');
      if r.lhs != [] && !Normal(Pairs(st.active), r.lhs[..|r.lhs| - 1]) {
        PushedTamed(k, st, r, st1);
      }
      TamedAt(k, st, st1, st.next1);
      TamedStep(st1, st');
    }
  }

  lemma CopyParts(k: nat, st: State, st1: State, st': State)
    requires CopyPushed(k, st, st') && st' == st1.(next1 := st1.next1 + 1)
    ensures st.next1 < |st.active| && PushedPair(k, st, st.active[st.next1].lhs, st.active[st.next1].rhs, st1) && st1.stack == []
  {
    hide PushedPair;
    assert st'.(next1 := st'.next1 - 1) == st1;
  }

  lemma NoSkip(st: State, st1: State, st': State)
    requires st.next1 < |st.active| && st1.next1 < |st1.active| && st' == st1.(next1 := st1.next1 + 1) && !SkipsRule(st, st')
    ensures Left(st1.active[st1.next1]) == Left(st.active[st.next1])
  {
  }

  lemma PushedTamed(k: nat, st: State, r: Rule, st': State)
    requires Ok(k, st) && r in st.active && r.lhs != [] && !Normal(Pairs(st.active), r.lhs[..|r.lhs| - 1])
    requires PushedPair(k, st, r.lhs, r.rhs, st') && st'.stack == []
    ensures Tamed(Everything(st'), r.lhs, r.rhs)
  {
    hide *;
    var (at, st1) := NewObject(st);
    var copy := Rule(at, st1.total, r.lhs, r.rhs, false);
    CopyFollows(k, st, r, copy);
    CopyLess(k, st, r);
    OkObject(k, st);
    PushedOk(k, st1, copy);
    CopyOnTop(k, st, r, st1, copy, st');
    CleanedTamed(k, st1.(stack := st1.stack + [copy]), st');
  }

  lemma CopyOnTop(k: nat, st: State, r: Rule, st1: State, copy: Rule, st': State)
    requires (copy.at, st1) == NewObject(st) && copy == Rule(copy.at, st1.total, r.lhs, r.rhs, false) && r.lhs != r.rhs
    requires PushedPair(k, st, r.lhs, r.rhs, st')
    ensures var st2 := st1.(stack := st1.stack + [copy]); Cleaned(k, st2, st') && st2.stack != [] && Top(st2) == copy
  {
    hide Cleaned;
  }

  lemma CopyLess(k: nat, st: State, r: Rule)
    requires Ok(k, st) && r in st.active
    ensures Less(r.rhs, r.lhs) && Over(k, r.lhs) && Over(k, r.rhs)
  {
    UsableRule(k, st.active, st.shortest, r);
  }

  lemma OkObject(k: nat, st: State)
    requires Ok(k, st)
    ensures Ok(k, NewObject(st).1) && NewObject(st).1.active == st.active
  {
    hide Usable;
  }

  /** Line 600: push a copy of the rule at the first position. */
  method PushCopy(k: nat, st: State, canKill: bool, ghost checked: bool) returns (st': State, killed: bool)
    requires Ok(k, st) && Own(st) && st.next1 < |st.active|
    ensures Kept(k, st, st', checked) && Stays(st, st') && Own(st') && (killed ==> canKill) && (!killed ==> st'.stack == [])
    ensures PushedPair(k, st, st.active[st.next1].lhs, st.active[st.next1].rhs, st')
  {
    hide *;
    var (at, st1) := NewObject(st);
    var r := st.active[st.next1];
    var rule := Rule(at, st1.total, r.lhs, r.rhs, false);
    CopyFollows(k, st, r, rule);
    NewObjectKept(k, st, checked);
    FollowsSame(k, st, st1, rule);
    KeptOk(k, st, st1, checked);
    st', killed := PushKnown(k, st1, rule, canKill, checked);
    KeptTrans(k, st, st1, st', checked);
    StaysTrans(st, st1, st');
    FollowsOver(k, st1, rule);
    PushedOwn(k, st, rule, st');
    PairPushed(k, st, rule, st');
  }

  lemma CopyFollows(k: nat, st: State, r: Rule, rule: Rule)
    requires Ok(k, st) && r in st.active && rule.lhs == r.lhs && rule.rhs == r.rhs
    ensures Follows(k, st, rule) && rule.lhs != rule.rhs
  {
    UsableRule(k, st.active, st.shortest, r);
    LessIrreflexive(r.rhs, r.lhs);
    hide Same;
    SamePair(Everything(st), r.Pair());
  }

  /**
   * Lines 607-620: all overlaps of the rule at the first position with the rules
   * up to it, in both orders.  If those of the rules before it were resolved, so
   * are, without a limit and unless stopped, those of the rules up to it.
   */
  method OverlapsUpTo(k: nat, st0: State, st: State, settings: Settings, canKill: bool, ghost checked: bool)
    returns (st': State, killed: bool, nr: nat, stray: bool)
    requires Going(k, st0, st, checked) && st.next1 < |st.active|
    ensures Going(k, st0, st', checked) && (killed ==> canKill)
    ensures if stray then Astray(k, st0, st') else killed || Walked(k, settings, st, st', nr)
    ensures !killed && st.stack == [] ==> st'.stack == []
  {
    hide *;
    GoingOk(k, st0, st, checked);
    var p := st.active[st.next1].at;
    st', nr := st.(next1 := st.next1 + 1, next2 := st.next1), 0;
    FlagMoved(k, st, st', checked);
    GoingMoved(k, st0, st, st', checked, checked);
    ghost var start, all := st', settings.maxOverlap == UNBOUNDED && Dealt(st, AllPassed, -1);
    if all {
      RuleStart(st, start, p);
    }
    GoingOk(k, st0, start, checked);
    st', killed, stray := OverlapsGoing(k, st0, st', p, p, settings, canKill, false, checked);
    ghost var walked := 0;
    WalkedNone(k, start, st', stray);
    if all && !killed && !stray {
      GoingOk(k, st0, start, checked);
      GoingOk(k, st0, st', checked);
      DealtCarried(start, st', NotIn(p), -1);
      RuleItself(start, st', p);
    }
    var active, rule := FindObject(st'.active, p);
    while !stray && st'.next2 != 0 && active
      invariant Going(k, st0, st', checked) && (killed ==> canKill) && (!killed && st.stack == [] ==> st'.stack == [])
      invariant !killed && !stray && all ==> Dealt(st', NotIn(p), -1) && Dealt(st', WithBetween(p), -1)
      invariant if active then exists r :: r in st'.active && r.at == p else forall r :: r in st'.active ==> r.at != p
      invariant stray ==> Astray(k, st0, st')
      invariant Ok(k, start) && WalkedSome(k, start, st', walked, nr, stray)
      decreases st'.next2
    {
      ghost var before, count := st', nr;
      var more;
      st', killed, more, stray := OverlapsWithOne(k, st0, st', p, settings, canKill, killed, checked, all);
      WalkedMore(k, start, before, st', walked, count, more, stray);
      nr, walked := nr + more, walked + 1;
      active, rule := FindObject(st'.active, p);
    }
    if !killed && !stray && all {
      RuleEnd(st', p);
    }
    WalkedAll(k, settings, st, start, st', walked, nr, p, active, stray);
  }

  /** One rule has been walked: the first position has moved on, and so many overlaps have been counted. */
  ghost predicate Walked(k: nat, settings: Settings, st: State, st': State, nr: nat) {
    && Advanced(k, st.(next1 := st.next1 + 1, next2 := st'.next2), st') && nr <= 2 * st.next1
    && (st'.active == st.active ==> nr == 2 * st.next1)
    && (settings.maxOverlap == UNBOUNDED && Dealt(st, AllPassed, -1) ==> Dealt(st', AllPassed, -1))
  }

  /** The rule has been walked with `walked` of those before it. */
  ghost predicate WalkedSome(k: nat, start: State, st: State, walked: nat, nr: nat, stray: bool) {
    walked <= start.next2 && Advanced(k, start.(next2 := start.next2 - walked), st) && nr <= 2 * walked
    && (st.active == start.active && !stray ==> nr == 2 * walked)
  }

  lemma WalkedNone(k: nat, start: State, st: State, stray: bool)
    requires Advanced(k, start, st)
    ensures WalkedSome(k, start, st, 0, 0, stray)
  {
    hide Advanced;
    assert start.(next2 := start.next2 - 0) == start;
  }

  lemma WalkedMore(k: nat, start: State, st: State, st': State, walked: nat, nr: nat, more: nat, stray: bool)
    requires WalkedSome(k, start, st, walked, nr, false) && st.next2 > 0 && Advanced(k, st.(next2 := st.next2 - 1), st') && more <= 2
    requires st'.active == st.active && !stray ==> more == 2
    ensures WalkedSome(k, start, st', walked + 1, nr + more, stray)
  {
    hide Advanced;
    var from, to := start.(next2 := start.next2 - walked), st.(next2 := st.next2 - 1);
    AdvancedParts(k, from, st);
    AdvancedLower(k, from, st, 1);
    assert from.(next2 := from.next2 - 1) == start.(next2 := start.next2 - (walked + 1));
    AdvancedTrans(k, start.(next2 := start.next2 - (walked + 1)), to, st');
    if st'.active == start.active {
      AdvancedUnchanged(k, start.(next2 := start.next2 - (walked + 1)), to, st');
    }
  }

  lemma WalkedAll(k: nat, settings: Settings, st: State, start: State, st': State, walked: nat, nr: nat, p: nat, active: bool, stray: bool)
    requires st.next1 < |st.active| && start == st.(next1 := st.next1 + 1, next2 := st.next1) && st.active[st.next1].at == p
    requires WalkedSome(k, start, st', walked, nr, stray) && (stray || st'.next2 == 0 || !active) && (!active ==> forall r :: r in st'.active ==> r.at != p)
    ensures !stray && (settings.maxOverlap == UNBOUNDED && Dealt(st, AllPassed, -1) ==> Dealt(st', AllPassed, -1)) ==> Walked(k, settings, st, st', nr)
  {
    hide Advanced, Dealt;
    var from := start.(next2 := start.next2 - walked);
    AdvancedSecond(k, from, st');
    AdvancedParts(k, from, st');
    assert from.(next2 := st'.next2) == st.(next1 := st.next1 + 1, next2 := st'.next2);
    if st'.active == st.active {
      assert st.active[st.next1] in st'.active;
    }
  }

  /** Lines 610-619: the rule before the second position, with that in the object `p`. */
  method OverlapsWithOne(k: nat, st0: State, st: State, p: nat, settings: Settings, canKill: bool, stopped: bool, ghost checked: bool, ghost all: bool)
    returns (st': State, killed: bool, nr: nat, stray: bool)
    requires Going(k, st0, st, checked) && st.next2 != 0 && (stopped ==> canKill) && exists r :: r in st.active && r.at == p
    requires all && !stopped ==> settings.maxOverlap == UNBOUNDED && Dealt(st, NotIn(p), -1) && Dealt(st, WithBetween(p), -1)
    ensures Going(k, st0, st', checked) && (killed ==> canKill) && (stopped ==> killed)
    ensures Advanced(k, st.(next2 := st.next2 - 1), st') && st'.next2 < st.next2 && (stray ==> Astray(k, st0, st'))
    ensures nr <= 2 && (st'.active == st.active && !stray ==> nr == 2)
    ensures !killed && st.stack == [] ==> st'.stack == []
    ensures all && !killed && !stray ==> Dealt(st', NotIn(p), -1) && Dealt(st', WithBetween(p), -1)
  {
    hide *;
    GoingOk(k, st0, st, checked);
    st', nr := st.(next2 := st.next2 - 1), 0;
    FlagMoved(k, st, st', checked);
    GoingMoved(k, st0, st, st', checked, checked);
    ghost var moved := st';
    var q := st'.active[st'.next2].at;
    st', killed, stray := OverlapsGoing(k, st0, st', p, q, settings, canKill, stopped, checked);
    AdvancedParts(k, moved, st');
    if stray {
      return;
    }
    ghost var between := st';
    nr := 1;
    var active, rule := FindObject(st'.active, p);
    var still, other := FindObject(st'.active, q);
    if active && still {
      nr := 2;
      st', killed, stray := OverlapsGoing(k, st0, st', q, p, settings, canKill, killed, checked);
      AdvancedTrans(k, moved, between, st');
      AdvancedParts(k, moved, st');
    } else {
      NotFound(st', q, p);
      GoingOk(k, st0, st', checked);
      CarriedRefl(k, st');
      StillThere(moved, st', p, q);
    }
    if all && !killed && !stray {
      BothWays(st, moved, between, st', p, q);
    }
  }

  lemma StillThere(st: State, st': State, p: nat, q: nat)
    requires st.next2 < |st.active| && st.active[st.next2].at == q && exists r :: r in st.active && r.at == p
    requires (forall r :: r in st'.active ==> r.at != p) || (forall r :: r in st'.active ==> r.at != q)
    ensures st'.active != st.active
  {
    assert st.active[st.next2] in st.active;
  }

  lemma BothWays(st: State, moved: State, between: State, st': State, p: nat, q: nat)
    requires Own(st) && 0 < st.next2 <= |st.active| && moved == st.(next2 := st.next2 - 1) && st.active[st.next2 - 1].at == q
    requires Carried(moved, between) && Carried(between, st') && Dealt(st, NotIn(p), -1) && Dealt(st, WithBetween(p), -1)
    requires Dealt(between, InObjects(p, q), -1) && Dealt(st', InObjects(q, p), -1)
    ensures Dealt(st', NotIn(p), -1) && Dealt(st', WithBetween(p), -1)
  {
    hide *;
    NotInMoved(st, moved, p);
    CarriedTwice(moved, between, st');
    DealtCarried(moved, st', NotIn(p), -1);
    DealtCarried(between, st', InObjects(p, q), -1);
    RuleMore(st, moved, st', p, q);
  }

  lemma NotInMoved(st: State, moved: State, p: nat)
    requires moved == st.(next2 := moved.next2) && Dealt(st, NotIn(p), -1)
    ensures Dealt(moved, NotIn(p), -1)
  {
    SameState(st, moved);
    hide ResolvedFrom, Everything;
    forall a, b | Passed(moved, a) && Passed(moved, b) && Chosen(NotIn(p), moved, a, b)
      ensures ResolvedFrom(Everything(moved), moved.active[a], moved.active[b], -1) {
      assert Passed(st, a) && Passed(st, b) && Chosen(NotIn(p), st, a, b);
    }
  }

  method OverlapsGoing(k: nat, st0: State, st: State, p: nat, q: nat, settings: Settings, canKill: bool, stopped: bool, ghost checked: bool)
    returns (st': State, killed: bool, stray: bool)
    requires Going(k, st0, st, checked) && (stopped ==> canKill)
    ensures Going(k, st0, st', checked) && Carried(st, st') && Advanced(k, st, st')
    ensures (killed ==> canKill) && (stopped ==> killed) && (stray ==> Astray(k, st0, st'))
    ensures !killed && !stray && settings.maxOverlap == UNBOUNDED ==> Dealt(st', InObjects(p, q), -1)
    ensures !killed && st.stack == [] ==> st'.stack == []
  {
    hide *;
    GoingOk(k, st0, st, checked);
    ghost var end;
    st', killed, stray, end := Overlaps(k, st, p, q, settings, canKill, stopped, checked);
    NotTooLong(st', p, q, settings, end);
    StaysCarried(st, st');
    KeptOk(k, st, st', checked);
    GoingOn(k, st0, st, st', checked);
    if stray {
      NowAstray(k, st0, st, st', checked);
    }
  }

  /** A rule that was active at some moment has become another one without a new identifier. */
  ghost predicate Astray(k: nat, st0: State, st': State) {
    exists st, checked, u :: Going(k, st0, st, checked) && Carried(st, st') && u in st.active && Replaced(st', u)
  }

  lemma NowAstray(k: nat, st0: State, st: State, st': State, checked: bool)
    requires Going(k, st0, st, checked) && Carried(st, st') && exists u :: u in st.active && Replaced(st', u)
    ensures Astray(k, st0, st')
  {
    hide Going, Carried, Replaced;
  }

  lemma AstrayTrans(k: nat, st0: State, st1: State, st': State, checked: bool)
    requires Going(k, st0, st1, checked) && Astray(k, st1, st')
    ensures Astray(k, st0, st')
  {
    hide Going, Carried, Replaced;
    var st, checked', u :| Going(k, st1, st, checked') && Carried(st, st') && u in st.active && Replaced(st', u);
    GoingTrans(k, st0, st1, st, checked, checked');
  }

  lemma GoingTrans(k: nat, st0: State, st1: State, st2: State, checked: bool, checked': bool)
    requires Going(k, st0, st1, checked) && Going(k, st1, st2, checked')
    ensures Going(k, st0, st2, checked')
  {
    hide Ok, Equivalent, Everything, FlagOk, Lasting, Own;
    EquivalentTrans(Everything(st2), Everything(st1), Everything(st0));
    LastingTrans(k, st0, st1, st2);
  }

  lemma GoingLasting(k: nat, st0: State, st: State, checked: bool)
    requires Going(k, st0, st, checked)
    ensures Lasting(st0, st) && Keeps(Everything(st0), Everything(st)) && Ok(k, st)
  {
    hide Ok, Equivalent, Everything, FlagOk, Own, Keeps, NestedBefore;
  }

  /** Flags may be set by a confluence test, and the stack emptied as far as it gets. */
  ghost predicate Tidied(k: nat, st: State, st': State) {
    exists known, confluent :: Cleaned(k, st.(known := known, confluent := confluent), st')
  }

  /** The confluence test is made, and the count starts again, when more overlaps have been counted than the interval. */
  function Counted(settings: Settings, nr: nat): nat {
    if nr > settings.interval then 0 else nr
  }

  /**
   * One turn of the loop over the rules, with so many overlaps counted since the
   * last confluence test before and after it: one rule is walked; if a test is
   * due then the rules are not confluent.
   */
  ghost predicate RoundMade(k: nat, settings: Settings, st: State, nr: nat, st': State, nr': nat) {
    && st.next1 < |st.active| && |st.active| < settings.maxRules
    && exists st1, more :: Walked(k, settings, st, st1, more) && Tidied(k, st1, st') && nr' == Counted(settings, nr + more)
                           && (nr + more > settings.interval ==> !Confluent(k, Pairs(st1.active)))
  }

  ghost predicate RoundsMade(k: nat, settings: Settings, n: nat, st: State, st': State, nr: nat)
    decreases n
  {
    if n == 0 then st' == st && nr == 0
    else exists st1, nr1 :: RoundsMade(k, settings, n - 1, st, st1, nr1) && RoundMade(k, settings, st1, nr1, st', nr)
  }

  lemma NoRounds(k: nat, settings: Settings, st: State)
    ensures RoundsMade(k, settings, 0, st, st, 0)
  {
  }

  lemma OneMoreRound(k: nat, settings: Settings, n: nat, st: State, st1: State, nr1: nat, st': State, nr: nat)
    requires RoundsMade(k, settings, n, st, st1, nr1) && RoundMade(k, settings, st1, nr1, st', nr)
    ensures RoundsMade(k, settings, n + 1, st, st', nr)
  {
    hide RoundMade;
  }

  lemma NowRound(k: nat, settings: Settings, st: State, nr: nat, st1: State, more: nat, st': State, nr': nat)
    requires st.next1 < |st.active| && |st.active| < settings.maxRules && Walked(k, settings, st, st1, more) && Tidied(k, st1, st')
    requires nr' == if nr + more > settings.interval then 0 else nr + more
    requires nr + more > settings.interval ==> !Confluent(k, Pairs(st1.active))
    ensures RoundMade(k, settings, st, nr, st', nr')
  {
    hide Walked, Tidied, Confluent;
  }

  /** A test that is not passed means that the rules are not confluent. */
  lemma TestFailed(k: nat, st: State, st': State, checked: bool)
    requires FlagOk(k, st', checked) && st'.known && !st'.confluent && st'.active == st.active
    ensures !Confluent(k, Pairs(st.active))
  {
    hide Confluent, Resolved;
  }

  lemma WalkedDealt(k: nat, settings: Settings, st: State, st': State, nr: nat)
    requires Walked(k, settings, st, st', nr)
    ensures settings.maxOverlap == UNBOUNDED && Dealt(st, AllPassed, -1) ==> Dealt(st', AllPassed, -1)
  {
    hide Dealt, Advanced;
  }

  lemma NowTidied(k: nat, st: State, st1: State, st': State)
    requires st1 == st.(known := st1.known, confluent := st1.confluent) && Cleaned(k, st1, st')
    ensures Tidied(k, st, st')
  {
    hide Cleaned;
  }

  /**
   * Lines 603-630: all overlaps of all rules, with a confluence test now and
   * then, for `rounds` rules at most.  Without limits and unless stopped, the
   * overlaps looked at are resolved in the end.
   */
  method OverlapAll(k: nat, st0: State, st: State, settings: Settings, canKill: bool, stopped: bool, rounds: nat, ghost checked: bool)
    returns (st': State, outcome: Outcome, ghost checked': bool)
    requires Going(k, st0, st, checked) && (stopped ==> canKill)
    ensures Going(k, st0, st', checked') && (outcome.Stopped? ==> canKill) && (stopped ==> outcome.Stopped?)
    ensures outcome.Lost? ==> Astray(k, st0, st')
    ensures outcome.GaveUp? ==> (exists nr :: RoundsMade(k, settings, rounds, st.(next1 := 0), st', nr)) && st'.next1 < |st'.active| < settings.maxRules
    ensures outcome.Ended? ==> Through(settings, st', checked')
    ensures outcome.Ended? && Unlimited(settings) && |st'.active| < UNBOUNDED && (st.stack == [] || st.active == []) ==> Resolved(st'.active)
    ensures outcome.Ended? && st.stack == [] ==> st'.stack == []
    ensures st.active == [] ==> st'.active == [] && st'.stack == st.stack
    ensures Keeps(Everything(st), Everything(st')) && (TamedTo(st, |st.active|) ==> TamedTo(st', |st'.active|))
  {
    hide *;
    st', checked', outcome := st.(next1 := 0), checked, Ended;
    GoingOk(k, st0, st, checked);
    GoingStart(k, st, checked);
    FlagMoved(k, st, st', checked);
    GoingMoved(k, st, st, st', checked, checked);
    NothingPassed(st', AllPassed);
    NoRounds(k, settings, st');
    ghost var start, tested := st', false;
    var killed, nr: nat, made: nat := stopped, 0, 0;
    while st'.next1 != |st'.active|
      invariant Going(k, st, st', checked') && outcome == Ended && !tested && (killed ==> canKill) && (stopped ==> killed) && made <= rounds
      invariant !killed && settings.maxOverlap == UNBOUNDED ==> Dealt(st', AllPassed, -1)
      invariant !killed ==> RoundsMade(k, settings, made, start, st', nr)
      invariant !killed && st.stack == [] ==> st'.stack == []
      invariant st.active == [] ==> st'.active == [] && st'.stack == st.stack && st'.next1 == 0
      decreases rounds - made
    {
      var now := Killed(canKill);
      killed := killed || now;
      if killed || |st'.active| >= settings.maxRules {
        break;
      }
      GoingOk(k, st, st', checked');
      if made == rounds {
        outcome := GaveUp;
        OverlapsEnd(k, st0, st, st', checked, checked');
        return;
      }
      ghost var first := st';
      var more, stray;
      st', killed, more, stray := OverlapsUpTo(k, st, st', settings, canKill, checked');
      if stray {
        outcome := Lost;
        OverlapsEnd(k, st0, st, st', checked, checked');
        AstrayTrans(k, st0, st, st', checked);
        return;
      }
      ghost var before, count := st', nr;
      if !killed {
        WalkedDealt(k, settings, first, before, more);
      }
      nr := nr + more;
      if nr > settings.interval {
        var result;
        st', checked', result, now := TestGoing(k, st, st', canKill, checked');
        killed := killed || now;
        DealtTested(before, st');
        if result {
          tested := !killed;
          break;
        }
        if !now {
          GoingOk(k, st, st', checked');
          TestFailed(k, before, st', checked');
        }
        nr := 0;
      }
      ghost var between := st';
      CleanedRefl(k, st');
      if st'.next1 == |st'.active| {
        st', now := ClearGoing(k, st, st', canKill, checked');
        killed := killed || now;
        DealtStill(between, st');
      }
      NowTidied(k, before, between, st');
      if !killed {
        NowRound(k, settings, first, count, before, more, st', nr);
        OneMoreRound(k, settings, made, start, first, count, st', nr);
      }
      made := made + 1;
    }
    GoingOk(k, st, st', checked');
    OverlapsEnd(k, st0, st, st', checked, checked');
    if killed {
      outcome := Stopped;
      return;
    }
    NowThrough(k, settings, st', checked', tested);
    if tested {
      TestedResolved(k, st', checked');
    } else if Unlimited(settings) && |st'.active| < UNBOUNDED && (st.stack == [] || st.active == []) {
      UnlimitedParts(settings);
      AllDealt(st');
    }
  }

  /** The end of the list is reached, or there are too many rules, or the flags say that the rules are confluent. */
  ghost predicate Through(settings: Settings, st: State, checked: bool) {
    st.next1 == |st.active| || |st.active| >= settings.maxRules || (st.known && st.confluent)
  }

  lemma NowThrough(k: nat, settings: Settings, st: State, checked: bool, tested: bool)
    requires if tested then st.known && st.confluent else st.next1 == |st.active| || |st.active| >= settings.maxRules
    ensures Through(settings, st, checked)
  {
  }

  lemma OverlapsEnd(k: nat, st0: State, st: State, st': State, checked: bool, checked': bool)
    requires Going(k, st0, st, checked) && Going(k, st, st', checked')
    ensures Going(k, st0, st', checked') && Keeps(Everything(st), Everything(st'))
    ensures TamedTo(st, |st.active|) ==> TamedTo(st', |st'.active|)
  {
    hide *;
    GoingTrans(k, st0, st, st', checked, checked');
    GoingLasting(k, st, st', checked');
    if TamedTo(st, |st.active|) {
      TamedLasts(k, st, st');
    }
  }

  /** `_max_overlap` and `_max_rules` are not set. */
  predicate Unlimited(settings: Settings) {
    settings.maxOverlap == settings.maxRules == UNBOUNDED
  }

  lemma UnlimitedParts(settings: Settings)
    requires Unlimited(settings)
    ensures settings.maxOverlap == settings.maxRules == UNBOUNDED
  {
  }

  /** Rules that the flags call confluent are resolved. */
  lemma TestedResolved(k: nat, st: State, checked: bool)
    requires Ok(k, st) && FlagOk(k, st, checked) && st.known && st.confluent
    ensures |st.active| < UNBOUNDED ==> Resolved(st.active)
  {
    hide Resolved, Usable, Confluent, Free, NestedJoin;
    if checked {
      ResolvedConfluent(k, st.active, st.shortest);
    }
  }

  lemma DealtStill(st: State, st': State)
    requires Carried(st, st')
    ensures Dealt(st, AllPassed, -1) ==> Dealt(st', AllPassed, -1)
  {
    hide Carried, Dealt;
    if Dealt(st, AllPassed, -1) {
      DealtCarried(st, st', AllPassed, -1);
    }
  }

  lemma DealtTested(st: State, st': State)
    requires st' == st.(known := st'.known, confluent := st'.confluent)
    ensures Dealt(st, AllPassed, -1) ==> Dealt(st', AllPassed, -1)
  {
    hide ResolvedFrom;
    assert Everything(st') == Everything(st);
    if Dealt(st, AllPassed, -1) {
      forall a, b | Passed(st', a) && Passed(st', b) ensures ResolvedFrom(Everything(st'), st'.active[a], st'.active[b], -1) {
        assert Passed(st, a) && Passed(st, b) && Chosen(AllPassed, st, a, b);
      }
    }
  }

  method TestGoing(k: nat, st0: State, st: State, canKill: bool, ghost checked: bool) returns (st': State, ghost checked': bool, result: bool, killed: bool)
    requires Going(k, st0, st, checked)
    ensures Going(k, st0, st', checked') && st' == st.(known := st'.known, confluent := st'.confluent)
    ensures st.known ==> st' == st && checked' == checked
    ensures result == st'.confluent && (!killed ==> st'.known) && (killed ==> canKill)
    ensures !st.known && !killed ==> checked'
  {
    hide *;
    GoingOk(k, st0, st, checked);
    result, st', killed, checked' := TestConfluent(k, st, canKill, checked);
    GoingMoved(k, st0, st, st', checked, checked');
  }

  method ClearGoing(k: nat, st0: State, st: State, canKill: bool, ghost checked: bool) returns (st': State, killed: bool)
    requires Going(k, st0, st, checked)
    ensures Going(k, st0, st', checked) && Carried(st, st') && Cleaned(k, st, st') && (!killed ==> st'.stack == []) && (killed ==> canKill)
  {
    hide *;
    GoingOk(k, st0, st, checked);
    st', killed := ClearStack(k, st, canKill);
    CleanedKeeps(k, st, st');
    ClearedKept(k, st, st', checked);
    OwnKept(st, st');
    GoingOn(k, st0, st, st', checked);
  }

  /** How completion has come to its natural end: at once, or after copies of rules have been pushed, perhaps with rules skipped. */
  datatype Course = AtOnce | AfterCopies(start: State, reduced: State, copies: nat, skipped: bool)

  /**
   * The state is as it was and the flags say confluent; or copies of all rules
   * that are not skipped have been pushed first, nothing that was connected
   * then has been lost, and if none was skipped the rules are confluent.
   */
  ghost predicate CourseOk(k: nat, st: State, st': State, checked: bool, course: Course) {
    match course
    case AtOnce => st.stack == [] && st'.active == st.active && (checked ==> Confluent(k, Pairs(st'.active)))
    case AfterCopies(start, reduced, copies, skipped) =>
      && start == st.(known := start.known, confluent := start.confluent, next1 := 0)
      && Copied(k, start, reduced, copies, skipped) && reduced.next1 == |reduced.active| && Keeps(Everything(reduced), Everything(st'))
      && (!skipped ==> Confluent(k, Pairs(st'.active)))
  }

  /** It ends, or is stopped by somebody else, or is given up, or an iterator goes astray. */
  datatype Outcome = Ended | Stopped | GaveUp | Lost

  /** Copies of all rules that are not skipped have been pushed, then so many turns of the main loop have been made, and more are to be made. */
  ghost predicate GivenUp(k: nat, st: State, st': State, settings: Settings, rounds: nat, course: Course) {
    match course
    case AtOnce => false
    case AfterCopies(start, reduced, copies, skipped) =>
      && start == st.(known := start.known, confluent := start.confluent, next1 := 0)
      && Copied(k, start, reduced, copies, skipped) && reduced.next1 == |reduced.active|
      && (exists nr :: RoundsMade(k, settings, rounds, reduced.(next1 := 0), st', nr)) && st'.next1 < |st'.active| < settings.maxRules
  }

  /**
   * `knuth_bendix` (lines 582-653).  However it ends, the rules that are
   * active or waiting generate the same congruence as before.  When it comes
   * to its natural end it declares the system confluent without a test; then
   * the overlaps that it looks at are resolved, and if no rule was skipped when
   * copies were pushed the system is confluent.  It is only stopped if somebody
   * may do so, and only given up after `rounds` turns of the main loop.  If an
   * iterator goes astray this is about the state at that moment, and nothing is
   * promised of what the original leaves behind.
   */
  method Complete(k: nat, st: State, settings: Settings, canKill: bool, rounds: nat, ghost checked: bool)
    returns (st': State, outcome: Outcome, ghost checked': bool, ghost course: Course)
    requires Ok(k, st) && Own(st) && FlagOk(k, st, checked)
    ensures Going(k, st, st', checked') && (outcome.Stopped? ==> canKill) && (outcome.Lost? ==> Astray(k, st, st'))
    ensures outcome.GaveUp? ==> GivenUp(k, st, st', settings, rounds, course)
    ensures st.stack == [] && (if st.known then st.confluent else Confluent(k, Pairs(st.active))) && !outcome.Stopped? ==>
              outcome.Ended? && (if st.known then st' == st && checked' == checked else st' == st.(known := true, confluent := true))
    ensures Unlimited(settings) && |st'.active| < UNBOUNDED && outcome.Ended? ==>
              && st'.known && st'.confluent && Resolved(st'.active) && (st.stack == [] || st.active != [] ==> st'.stack == [])
              && CourseOk(k, st, st', checked', course)
    ensures outcome.Ended? && |st.active| < settings.maxRules ==> Through(settings, st', checked')
    ensures st.active == [] ==> st'.active == [] && st'.stack == st.stack
    ensures |st.active| >= settings.maxRules ==> st' == st.(known := st'.known, confluent := st'.confluent)
  {
    hide *;
    GoingStart(k, st, checked);
    st', checked', outcome, course := st, checked, Ended, AtOnce;
    var confluent, killed := false, false;
    if st.stack == [] {
      st', checked', confluent, killed := TestGoing(k, st, st, canKill, checked);
      GoingOk(k, st, st', checked');
      RightAnswer(k, st, st', checked');
      var now := Killed(canKill);
      killed := killed || now;
    }
    outcome := if killed then Stopped else Ended;
    GoingOk(k, st, st', checked');
    if confluent && !killed {
      TestedResolved(k, st', checked');
      EndedAtOnce(k, st, st', checked');
      NowThrough(k, settings, st', checked', true);
      return;
    }
    if |st'.active| >= settings.maxRules {
      AtMost(settings);
      return;
    }
    if killed {
      FlagMoved(k, st', st'.(next1 := 0), checked');
      GoingMoved(k, st, st', st'.(next1 := 0), checked', checked');
      st' := st'.(next1 := 0);
      return;
    }
    ghost var start, copies, skipped := st'.(next1 := 0), 0, false;
    st', killed, copies, skipped := ReduceRules(k, st, st', canKill, checked');
    ghost var reduced := st';
    st', outcome, checked' := OverlapAll(k, st, st', settings, canKill, killed, rounds, checked');
    if outcome == GaveUp {
      course := AfterCopies(start, reduced, copies, skipped);
      NowGivenUp(k, st, st', settings, rounds, start, reduced, copies, skipped);
    }
    if outcome == Ended {
      killed := Killed(canKill);
      outcome := if killed then Stopped else Ended;
    }
    AtMost(settings);
    if outcome == Ended && settings.maxOverlap == UNBOUNDED && settings.maxRules == UNBOUNDED {
      GoingOk(k, st, st', checked');
      ghost var done := st'.(known := true, confluent := true, inactive := []);
      Unchecked(k, done);
      GoingMoved(k, st, st', done, checked', false);
      NowThrough(k, settings, done, false, true);
      if |st'.active| < UNBOUNDED {
        EndedAfter(k, st, start, reduced, st', done, copies, skipped);
      }
      st', checked', course := st'.(known := true, confluent := true, inactive := []), false, AfterCopies(start, reduced, copies, skipped);
    }
  }

  lemma NowGivenUp(k: nat, st: State, st': State, settings: Settings, rounds: nat, start: State, reduced: State, copies: nat, skipped: bool)
    requires start == st.(known := start.known, confluent := start.confluent, next1 := 0)
    requires Copied(k, start, reduced, copies, skipped) && reduced.next1 == |reduced.active|
    requires (exists nr :: RoundsMade(k, settings, rounds, reduced.(next1 := 0), st', nr)) && st'.next1 < |st'.active| < settings.maxRules
    ensures GivenUp(k, st, st', settings, rounds, AfterCopies(start, reduced, copies, skipped))
  {
    hide Copied, RoundsMade;
  }

  lemma RightAnswer(k: nat, st: State, st': State, checked: bool)
    requires FlagOk(k, st', checked) && st'.active == st.active
    ensures st'.known && checked ==> (st'.confluent <==> Confluent(k, Pairs(st.active)))
  {
    hide Confluent, Resolved;
  }

  lemma EndedAtOnce(k: nat, st: State, st': State, checked: bool)
    requires st.stack == [] && st' == st.(known := st'.known, confluent := st'.confluent) && FlagOk(k, st', checked) && st'.known && st'.confluent
    ensures CourseOk(k, st, st', checked, AtOnce)
  {
    hide Confluent, Resolved;
  }

  lemma EndedAfter(k: nat, st: State, start: State, reduced: State, st1: State, st': State, copies: nat, skipped: bool)
    requires start == st.(known := start.known, confluent := start.confluent, next1 := 0)
    requires Copied(k, start, reduced, copies, skipped) && reduced.next1 == |reduced.active| && Keeps(Everything(reduced), Everything(st1))
    requires !skipped ==> TamedTo(st1, |st1.active|)
    requires Ok(k, st1) && Resolved(st1.active) && (st1.stack == [] || st1.active == [])
    requires st' == st1.(known := st'.known, confluent := st'.confluent, inactive := st'.inactive)
    ensures CourseOk(k, st, st', false, AfterCopies(start, reduced, copies, skipped))
  {
    assert Everything(st') == Everything(st1);
    OkOrdered(k, st1);
    hide Copied, Everything, Ok, Resolved, TamedTo, Usable, Ordered, Incomparable, Confluent, Keeps, AllTamed;
    if !skipped {
      if st1.stack == [] {
        TamedAllNow(st1);
      } else {
        NoRules();
      }
      TamedConfluent(k, st1.active, st1.shortest);
    }
  }

  lemma NoRules()
    ensures AllTamed([])
  {
  }

  lemma AtMost(settings: Settings)
    ensures Unlimited(settings) <==> settings.maxOverlap == settings.maxRules == UNBOUNDED
  {
  }

  lemma Unchecked(k: nat, st: State)
    requires st.confluent && (|st.active| < UNBOUNDED ==> Resolved(st.active))
    ensures FlagOk(k, st, false)
  {
  }
}
