/** The relations listed by `next_relation` define the semigroup. */
module PinPresentation {
  import opened Words
  import opened ShortLex
  import opened Rank
  import opened Derivations
  import opened Evaluation
  import opened PinWords
  import opened PinCayley
  import opened PinState
  import opened PinRows
  import opened PinEnumerate
  import opened PinResults
  import opened PinPaths

  type Triple = (nat, nat, int)

  /** The rules given by the pairs before `(p, c)`, in order: word, generator, product. */
  function Triples(right: seq<seq<int>>, reduced: seq<seq<bool>>, suffix: seq<int>, k: nat, p: nat, c: nat): (ts: seq<Triple>)
    requires p < |right| || c == 0
    requires forall i :: 0 <= i < |right| ==> |right[i]| == k
    requires p <= |right| && c <= k
    ensures |ts| == RuleCount(reduced, suffix, k, p, c)
    decreases p, c
  {
    if c > 0 then
      Triples(right, reduced, suffix, k, p, c - 1) + (if IsRule(reduced, suffix, p, c - 1) then [(p, c - 1, right[p][c - 1])] else [])
    else if p > 0 then Triples(right, reduced, suffix, k, p - 1, k)
    else []
  }

  lemma {:induction false} TriplesPrefix(right: seq<seq<int>>, reduced: seq<seq<bool>>, suffix: seq<int>, k: nat, p: nat, c: nat, q: nat, d: nat)
    requires q < |right| || d == 0
    requires forall i :: 0 <= i < |right| ==> |right[i]| == k
    requires q <= |right| && d <= k && c <= k && (p < q || (p == q && c <= d))
    ensures Triples(right, reduced, suffix, k, p, c) <= Triples(right, reduced, suffix, k, q, d)
    decreases q, d
  {
    if p != q || c != d {
      if d > 0 {
        TriplesPrefix(right, reduced, suffix, k, p, c, q, d - 1);
      } else {
        TriplesPrefix(right, reduced, suffix, k, p, c, q - 1, k);
      }
    }
  }

  /** A pair before `(p, c)` that gives a rule is listed. */
  lemma RuleListed(right: seq<seq<int>>, reduced: seq<seq<bool>>, suffix: seq<int>, k: nat, p: nat, c: nat, i: nat, a: nat)
    requires p < |right| || c == 0
    requires forall i :: 0 <= i < |right| ==> |right[i]| == k
    requires p <= |right| && c <= k && Before(i, a, p, c) && a < k && IsRule(reduced, suffix, i, a)
    ensures (i, a, right[i][a]) in Triples(right, reduced, suffix, k, p, c)
  {
    TriplesPrefix(right, reduced, suffix, k, i, a + 1, p, c);
    var ts := Triples(right, reduced, suffix, k, i, a + 1);
    assert ts[|ts| - 1] == (i, a, right[i][a]);
    assert Triples(right, reduced, suffix, k, p, c)[|ts| - 1] == (i, a, right[i][a]);
  }

  lemma {:induction false} ListedRule(right: seq<seq<int>>, reduced: seq<seq<bool>>, suffix: seq<int>, k: nat, p: nat, c: nat, t: Triple)
    requires p < |right| || c == 0
    requires forall i :: 0 <= i < |right| ==> |right[i]| == k
    requires p <= |right| && c <= k && t in Triples(right, reduced, suffix, k, p, c)
    ensures t.0 < |right| && t.1 < k && IsRule(reduced, suffix, t.0, t.1) && t.2 == right[t.0][t.1]
    decreases p, c
  {
    if c > 0 {
      if t in Triples(right, reduced, suffix, k, p, c - 1) {
        ListedRule(right, reduced, suffix, k, p, c - 1, t);
      }
    } else if p > 0 {
      ListedRule(right, reduced, suffix, k, p - 1, k, t);
    }
  }

  /** Which generators are repetitions of earlier ones. */
  ghost predicate DupsOk<E>(g: Generators<E>, ws: seq<Word>, ltp: seq<nat>, dups: seq<(nat, nat)>) {
    && |ltp| == |g.gens|
    && (forall a :: 0 <= a < |ltp| ==> ltp[a] < |ws| && (ws[ltp[a]] == [a] || DupListed(ws, ltp, dups, a)))
    && (forall d :: 0 <= d < |dups| ==> dups[d].1 < dups[d].0 < |g.gens| && g.gens[dups[d].0] == g.gens[dups[d].1])
  }

  ghost predicate DupListed(ws: seq<Word>, ltp: seq<nat>, dups: seq<(nat, nat)>, a: nat)
    requires a < |ltp| && ltp[a] < |ws|
  {
    exists d :: 0 <= d < |dups| && dups[d].0 == a && ws[ltp[a]] == [dups[d].1]
  }

  ghost predicate TriplesIn(ws: seq<Word>, ts: seq<Triple>) {
    forall j :: 0 <= j < |ts| ==> ts[j].0 < |ws| && 0 <= ts[j].2 < |ws|
  }

  ghost predicate DupPair(dups: seq<(nat, nat)>, p: Pair) {
    exists d :: 0 <= d < |dups| && p == ([dups[d].0], [dups[d].1])
  }

  ghost predicate TriplePair(ws: seq<Word>, ts: seq<Triple>, p: Pair)
    requires TriplesIn(ws, ts)
  {
    exists j :: 0 <= j < |ts| && p == (ws[ts[j].0] + [ts[j].1], ws[ts[j].2])
  }

  /** The listed relations as pairs of words. */
  ghost function Listed(ws: seq<Word>, dups: seq<(nat, nat)>, ts: seq<Triple>): (ps: set<Pair>)
    requires TriplesIn(ws, ts)
    ensures forall p :: p in ps <==> DupPair(dups, p) || TriplePair(ws, ts, p)
  {
    (set d | 0 <= d < |dups| :: ([dups[d].0], [dups[d].1])) + (set j | 0 <= j < |ts| :: (ws[ts[j].0] + [ts[j].1], ws[ts[j].2]))
  }

  /** All the rules of a complete enumeration. */
  ghost function AllTriples<E>(g: Generators<E>, ws: seq<Word>, st: State<E>): seq<Triple>
    requires Tabled(g, ws, st)
  {
    Triples(st.graphs.right, st.graphs.reduced, st.found.index.suffix, |g.gens|, |ws|, 0)
  }

  lemma AllTriplesIn<E>(g: Generators<E>, ws: seq<Word>, st: State<E>)
    requires Tabled(g, ws, st)
    ensures TriplesIn(ws, AllTriples(g, ws, st))
  {
    var ts := AllTriples(g, ws, st);
    hide FoundOk, IsRule;
    forall j | 0 <= j < |ts| ensures ts[j].0 < |ws| && 0 <= ts[j].2 < |ws| {
      ListedRule(st.graphs.right, st.graphs.reduced, st.found.index.suffix, |g.gens|, |ws|, 0, ts[j]);
      assert RightOk(g, ws, ts[j].0, ts[j].1, ts[j].2, st.graphs.reduced[ts[j].0][ts[j].1]);
    }
  }

  /** The listed relations, used from left to right. */
  ghost function Rules<E>(g: Generators<E>, ws: seq<Word>, dups: seq<(nat, nat)>, st: State<E>): System
    requires Tabled(g, ws, st)
  {
    AllTriplesIn(g, ws, st);
    System(Listed(ws, dups, AllTriples(g, ws, st)), {}, {})
  }

  /** A rule holds in the semigroup, and replaces a word by a smaller one. */
  lemma RuleSound<E>(g: Generators<E>, u: set<E>, ltp: seq<nat>, dups: seq<(nat, nat)>, ws: seq<Word>, st: State<E>, p: Pair)
    requires Tabled(g, ws, st) && DupsOk(g, ws, ltp, dups) && p in Rules(g, ws, dups, st).both
    ensures Proper(g, p.0) && Proper(g, p.1) && Eval(g, p.0) == Eval(g, p.1) && Less(p.1, p.0)
  {
    AllTriplesIn(g, ws, st);
    var ts := AllTriples(g, ws, st);
    hide FoundOk, IsRule, Triples;
    if DupPair(dups, p) {
      var d :| 0 <= d < |dups| && p == ([dups[d].0], [dups[d].1]);
    } else {
      var j :| 0 <= j < |ts| && p == (ws[ts[j].0] + [ts[j].1], ws[ts[j].2]);
      TripleSound(g, ws, st, ts[j]);
    }
  }

  lemma TripleSound<E>(g: Generators<E>, ws: seq<Word>, st: State<E>, t: Triple)
    requires Tabled(g, ws, st) && t in AllTriples(g, ws, st)
    ensures t.0 < |ws| && t.1 < |g.gens| && 0 <= t.2 < |ws| && Proper(g, ws[t.0] + [t.1]) && Proper(g, ws[t.2])
    ensures Eval(g, ws[t.2]) == Eval(g, ws[t.0] + [t.1]) && Less(ws[t.2], ws[t.0] + [t.1])
  {
    ListedRule(st.graphs.right, st.graphs.reduced, st.found.index.suffix, |g.gens|, |ws|, 0, t);
    assert RightOk(g, ws, t.0, t.1, t.2, st.graphs.reduced[t.0][t.1]);
    assert Proper(g, ws[t.0]) && Proper(g, ws[t.2]);
  }

  // ----- completeness of the presentation -----

  lemma DupRewrites<E>(g: Generators<E>, ws: seq<Word>, ltp: seq<nat>, dups: seq<(nat, nat)>, st: State<E>, a: nat)
    requires Tabled(g, ws, st) && DupsOk(g, ws, ltp, dups) && a < |g.gens|
    ensures ltp[a] < |ws| && Derives(Rules(g, ws, dups, st), [a], ws[ltp[a]])
  {
    var s, x := Rules(g, ws, dups, st), ltp[a];
    AllTriplesIn(g, ws, st);
    if ws[x] == [a] {
      DerivesRefl(s, [a]);
    } else {
      var d :| 0 <= d < |dups| && dups[d].0 == a && ws[x] == [dups[d].1];
      assert DupPair(dups, ([a], ws[x]));
      MoveAlone(s, [a], ws[x]);
    }
  }

  lemma MoveAlone(s: System, u: Word, v: Word)
    requires (u, v) in s.both
    ensures Derives(s, u, v)
  {
    var m := Move([], u, v, []);
    assert m.Before() == u && m.After() == v;
    DerivesMove(s, m);
  }

  lemma RuleRewrites<E>(g: Generators<E>, ws: seq<Word>, dups: seq<(nat, nat)>, st: State<E>, i: nat, a: nat)
    requires Tabled(g, ws, st) && i < |ws| && a < |g.gens| && IsRule(st.graphs.reduced, st.found.index.suffix, i, a)
    ensures Rows(st.graphs.right, |ws|, |g.gens|) && 0 <= st.graphs.right[i][a] < |ws|
    ensures Derives(Rules(g, ws, dups, st), ws[i] + [a], ws[st.graphs.right[i][a]])
  {
    var ts, r := AllTriples(g, ws, st), st.graphs.right[i][a];
    RightFact(g, ws, st, i, a);
    AllTriplesIn(g, ws, st);
    RuleListed(st.graphs.right, st.graphs.reduced, st.found.index.suffix, |g.gens|, |ws|, 0, i, a);
    var j :| 0 <= j < |ts| && ts[j] == (i, a, r);
    hide FoundOk, RightDone, LeftDone;
    assert TriplePair(ws, ts, (ws[i] + [a], ws[r]));
    MoveAlone(Rules(g, ws, dups, st), ws[i] + [a], ws[r]);
  }

  /** The table entry of a suffix, when the product is neither a new word nor a rule. */
  lemma NotRule<E>(g: Generators<E>, u: set<E>, ws: seq<Word>, st: State<E>, i: nat, a: nat) returns (b: Letter, s: nat, r: nat)
    requires InSemigroup(g, u) && Tabled(g, ws, st) && i < |ws| && a < |g.gens|
    requires Rows(st.graphs.right, |ws|, |g.gens|) && 0 <= st.graphs.right[i][a] < |ws|
    requires !IsRule(st.graphs.reduced, st.found.index.suffix, i, a) && ws[st.graphs.right[i][a]] != ws[i] + [a]
    ensures s < |ws| && ws[i] == [b] + ws[s] && b < |g.gens| && r < |ws| && Stands(g, ws, r, ws[s] + [a])
    ensures Less([b] + ws[r], ws[i] + [a]) && Eval(g, [b] + ws[r]) == Eval(g, ws[i] + [a])
  {
    b, s := SuffixUnreduced(g, ws, st, i, a);
    r := st.graphs.right[s][a];
    WordsFacts(g, ws, st);
    hide InSemigroup, Tabled, RightOk, Stands, FoundOk;
    RightStands(g, ws, s, a, r, false);
    SuffixNotReduced(g, u, ws, i, a, b, s, r);
  }

  lemma SuffixUnreduced<E>(g: Generators<E>, ws: seq<Word>, st: State<E>, i: nat, a: nat) returns (b: Letter, s: nat)
    requires Tabled(g, ws, st) && i < |ws| && a < |g.gens|
    requires Rows(st.graphs.right, |ws|, |g.gens|) && 0 <= st.graphs.right[i][a] < |ws|
    requires !IsRule(st.graphs.reduced, st.found.index.suffix, i, a) && ws[st.graphs.right[i][a]] != ws[i] + [a]
    ensures s < |ws| && ws[i] == [b] + ws[s] && 0 <= st.graphs.right[s][a] < |ws| && RightOk(g, ws, s, a, st.graphs.right[s][a], false)
  {
    assert RightOk(g, ws, i, a, st.graphs.right[i][a], st.graphs.reduced[i][a]);
    assert Described(|g.gens|, ws, st.found.index, i);
    b, s := st.found.index.first[i], st.found.index.suffix[i];
    assert !st.graphs.reduced[s][a];
    assert RightOk(g, ws, s, a, st.graphs.right[s][a], st.graphs.reduced[s][a]);
  }

  lemma WordsFacts<E>(g: Generators<E>, ws: seq<Word>, st: State<E>)
    requires Tabled(g, ws, st)
    ensures WordsOver(g, ws) && FoundOk(g, ws, st.found)
  {
  }

  /** With the listed relations every word can be rewritten, from left to right, to the least word of its value. */
  lemma {:induction false} Rewrites<E>(g: Generators<E>, u: set<E>, ltp: seq<nat>, dups: seq<(nat, nat)>, ws: seq<Word>, st: State<E>, w: Word) returns (x: nat)
    requires InSemigroup(g, u) && Tabled(g, ws, st) && LettersOk(g, ws, ltp) && DupsOk(g, ws, ltp, dups) && Proper(g, w)
    ensures x < |ws| && Stands(g, ws, x, w) && Derives(Rules(g, ws, dups, st), w, ws[x])
    decreases RankOf(|g.gens|, w)
  {
    hide *;
    var v, a := ProperSplit(g, w);
    if v == [] {
      x := RewritesLetter(g, ltp, dups, ws, st, a);
      return;
    }
    var rules := Rules(g, ws, dups, st);
    var i := Rewrites(g, u, ltp, dups, ws, st, v);
    RulesSided(g, ws, dups, st);
    DerivesAppend(rules, v, ws[i], [a]);
    RightFact(g, ws, st, i, a);
    WordsFacts(g, ws, st);
    var r := st.graphs.right[i][a];
    StandsStep(g, u, ws, i, v, a, r);
    if ws[r] == ws[i] + [a] {
      x := r;
    } else if IsRule(st.graphs.reduced, st.found.index.suffix, i, a) {
      RuleRewrites(g, ws, dups, st, i, a);
      DerivesTrans(rules, w, ws[i] + [a], ws[r]);
      x := r;
    } else {
      var b, s, r' := NotRule(g, u, ws, st, i, a);
      x := RewritesInside(g, u, ltp, dups, ws, st, w, v, a, i, b, s, r');
    }
  }

  lemma ProperSplit<E>(g: Generators<E>, w: Word) returns (v: Word, a: Letter)
    requires Proper(g, w)
    ensures w == v + [a] && a < |g.gens|
    ensures v == [] ==> w == [a]
    ensures v != [] ==> Proper(g, v) && RankOf(|g.gens|, v) < RankOf(|g.gens|, w)
  {
    v, a := w[..|w| - 1], w[|w| - 1];
    assert w == v + [a];
    if v != [] {
      Shorter(|g.gens|, v, w);
    }
  }

  lemma RewritesLetter<E>(g: Generators<E>, ltp: seq<nat>, dups: seq<(nat, nat)>, ws: seq<Word>, st: State<E>, a: Letter) returns (x: nat)
    requires Tabled(g, ws, st) && LettersOk(g, ws, ltp) && DupsOk(g, ws, ltp, dups) && a < |g.gens|
    ensures x < |ws| && Stands(g, ws, x, [a]) && Derives(Rules(g, ws, dups, st), [a], ws[x])
  {
    x := ltp[a];
    assert Stands(g, ws, x, [a]);
    DupRewrites(g, ws, ltp, dups, st, a);
  }

  /** Rewriting the suffix first gives a smaller word with the same value. */
  lemma {:induction false} RewritesInside<E>(g: Generators<E>, u: set<E>, ltp: seq<nat>, dups: seq<(nat, nat)>, ws: seq<Word>, st: State<E>, w: Word, v: Word, a: Letter,
                            i: nat, b: Letter, s: nat, r: nat) returns (x: nat)
    requires InSemigroup(g, u) && Tabled(g, ws, st) && LettersOk(g, ws, ltp) && DupsOk(g, ws, ltp, dups) && Proper(g, w)
    requires w == v + [a] && v != [] && i < |ws| && Stands(g, ws, i, v) && Derives(Rules(g, ws, dups, st), w, ws[i] + [a])
    requires s < |ws| && ws[i] == [b] + ws[s] && b < |g.gens| && r < |ws| && Stands(g, ws, r, ws[s] + [a])
    requires Less([b] + ws[r], ws[i] + [a]) && Eval(g, [b] + ws[r]) == Eval(g, ws[i] + [a])
    ensures x < |ws| && Stands(g, ws, x, w) && Derives(Rules(g, ws, dups, st), w, ws[x])
    decreases RankOf(|g.gens|, w), 0
  {
    hide *;
    var rules := Rules(g, ws, dups, st);
    var inner, next := ws[s] + [a], [b] + ws[r];
    WordsFacts(g, ws, st);
    RulesSided(g, ws, dups, st);
    InsideProper(g, ws, w, v, a, i, b, s, r);
    Assoc([b], ws[s], [a]);
    InsideSmaller(|g.gens|, w, v, a, ws[i], b, ws[s], ws[r]) by { StandsParts(g, ws, i, v); }
    var j := Rewrites(g, u, ltp, dups, ws, st, inner);
    StandsParts(g, ws, j, inner);
    StandsParts(g, ws, r, inner);
    SameValue(g, ws, st.found, j, r);
    DerivesPrepend(rules, inner, ws[r], [b]);
    DerivesTrans(rules, w, ws[i] + [a], next);
    x := Rewrites(g, u, ltp, dups, ws, st, next);
    DerivesTrans(rules, w, next, ws[x]);
    InsideStands(g, ws, w, v, a, i, next, x);
  }

  lemma StandsParts<E>(g: Generators<E>, ws: seq<Word>, x: int, v: Word)
    requires Stands(g, ws, x, v)
    ensures 0 <= x < |ws| && Eval(g, ws[x]) == Eval(g, v) && LessEq(ws[x], v)
  {
  }

  lemma InsideProper<E>(g: Generators<E>, ws: seq<Word>, w: Word, v: Word, a: Letter, i: nat, b: Letter, s: nat, r: nat)
    requires WordsOver(g, ws) && Proper(g, w) && w == v + [a] && v != [] && i < |ws| && s < |ws| && r < |ws| && b < |g.gens|
    ensures a < |g.gens| && Proper(g, ws[s] + [a]) && Proper(g, [b] + ws[r]) && Over(|g.gens|, w)
    ensures Over(|g.gens|, ws[s] + [a]) && Over(|g.gens|, [b] + ws[r]) && ws[i] != []
  {
    ProperParts(g, w, v, a);
    assert Proper(g, ws[i]) && Proper(g, ws[s]) && Proper(g, ws[r]);
  }

  lemma InsideStands<E>(g: Generators<E>, ws: seq<Word>, w: Word, v: Word, a: Letter, i: nat, next: Word, x: nat)
    requires w == v + [a] && v != [] && i < |ws| && ws[i] != [] && Stands(g, ws, i, v) && Stands(g, ws, x, next)
    requires Less(next, w) && Eval(g, next) == Eval(g, ws[i] + [a])
    ensures Stands(g, ws, x, w)
  {
    InsideValue(g, v, ws[i], a, next, ws[x]);
    hide Eval, Less;
    LessTrans(ws[x], next, w);
  }

  lemma InsideSmaller(k: nat, w: Word, v: Word, a: Letter, wi: Word, b: Letter, tail: Word, wr: Word)
    requires Over(k, w) && w == v + [a] && LessEq(wi, v) && wi == [b] + tail && Over(k, tail + [a]) && Over(k, [b] + wr)
    requires Less([b] + wr, wi + [a])
    ensures RankOf(k, tail + [a]) < RankOf(k, w) && RankOf(k, [b] + wr) < RankOf(k, w) && Less([b] + wr, w)
  {
    assert |wi| <= |v|;
    RankMonotone(k, tail + [a], w);
    LessLast(wi, a, v, a);
    LessTrans([b] + wr, wi + [a], w);
    RankMonotone(k, [b] + wr, w);
  }

  lemma InsideValue<E>(g: Generators<E>, v: Word, wi: Word, a: Letter, next: Word, wx: Word)
    requires v != [] && wi != [] && Eval(g, wi) == Eval(g, v) && Eval(g, wx) == Eval(g, next) == Eval(g, wi + [a])
    ensures Eval(g, wx) == Eval(g, v + [a])
  {
    EvalLast(g, v, a);
    EvalLast(g, wi, a);
  }

  lemma Shorter(k: nat, v: Word, w: Word)
    requires Over(k, w) && |w| > 0 && v == w[..|w| - 1] && v != []
    ensures Over(k, v) && RankOf(k, v) < RankOf(k, w)
  {
    assert forall i :: 0 <= i < |v| ==> v[i] == w[i];
    RankMonotone(k, v, w);
  }

  lemma RulesSided<E>(g: Generators<E>, ws: seq<Word>, dups: seq<(nat, nat)>, st: State<E>)
    requires Tabled(g, ws, st)
    ensures Rules(g, ws, dups, st).left == {} && Rules(g, ws, dups, st).right == {}
  {
  }

  // ----- soundness of the presentation -----

  ghost predicate PairsHold<E>(g: Generators<E>, s: System) {
    s.left == {} && s.right == {} && forall p :: p in s.both ==> Proper(g, p.0) && Proper(g, p.1) && Eval(g, p.0) == Eval(g, p.1)
  }

  lemma MoveSound<E>(g: Generators<E>, u: set<E>, s: System, m: Move)
    requires InSemigroup(g, u) && PairsHold(g, s) && Legal(s, m) && Proper(g, m.Before())
    ensures Proper(g, m.After()) && Eval(g, m.After()) == Eval(g, m.Before())
  {
    var p := (m.lhs, m.rhs);
    assert p in s.both;
    OverParts(|g.gens|, m.pre, m.lhs, m.post);
    OverJoin(|g.gens|, m.pre, m.rhs, m.post);
    hide InSemigroup, PairsHold, Eval, Over;
    EvalReplace(g, u, m.pre, m.lhs, m.rhs, m.post) by { PairHolds(g, s, p); }
    assert Proper(g, m.rhs) by { PairHolds(g, s, p); }
  }

  lemma PairHolds<E>(g: Generators<E>, s: System, p: Pair)
    requires PairsHold(g, s) && p in s.both
    ensures Proper(g, p.0) && Proper(g, p.1) && Eval(g, p.0) == Eval(g, p.1)
  {
  }

  lemma OverParts(k: nat, x: Word, y: Word, z: Word)
    requires Over(k, x + y + z)
    ensures Over(k, x) && Over(k, y) && Over(k, z)
  {
    var w := x + y + z;
    forall i | 0 <= i < |x| ensures x[i] < k { assert w[i] == x[i]; }
    forall i | 0 <= i < |y| ensures y[i] < k { assert w[|x| + i] == y[i]; }
    forall i | 0 <= i < |z| ensures z[i] < k { assert w[|x| + |y| + i] == z[i]; }
  }

  lemma OverJoin(k: nat, x: Word, y: Word, z: Word)
    requires Over(k, x) && Over(k, z)
    ensures Over(k, y) ==> Over(k, x + y + z)
  {
  }

  lemma {:induction false} ChainSound<E>(g: Generators<E>, u: set<E>, s: System, ms: seq<Move>, v: Word, w: Word)
    requires InSemigroup(g, u) && PairsHold(g, s) && Chain(s, ms, v, w) && Proper(g, v)
    ensures Proper(g, w) && Eval(g, w) == Eval(g, v)
  {
    if ms != [] {
      MoveSound(g, u, s, ms[0]);
      ChainSound(g, u, s, ms[1..], ms[0].After(), w);
    }
  }

  /** The relations both ways. */
  ghost function Relations<E>(g: Generators<E>, ws: seq<Word>, dups: seq<(nat, nat)>, st: State<E>): System
    requires Tabled(g, ws, st)
  {
    System(Sym(Rules(g, ws, dups, st).both), {}, {})
  }

  lemma RelationsHold<E>(g: Generators<E>, u: set<E>, ltp: seq<nat>, dups: seq<(nat, nat)>, ws: seq<Word>, st: State<E>)
    requires Tabled(g, ws, st) && DupsOk(g, ws, ltp, dups)
    ensures PairsHold(g, Relations(g, ws, dups, st)) && Symmetric(Relations(g, ws, dups, st))
  {
    var rules := Rules(g, ws, dups, st).both;
    hide Tabled, DupsOk, Rules, Eval, Proper;
    forall p | p in Sym(rules) ensures Proper(g, p.0) && Proper(g, p.1) && Eval(g, p.0) == Eval(g, p.1) {
      RuleSound(g, u, ltp, dups, ws, st, if p in rules then p else (p.1, p.0));
    }
    SymSymmetric(rules);
  }

  /** Two words have the same value exactly when the listed relations make them equal: a complete presentation. */
  lemma PresentationExact<E>(g: Generators<E>, u: set<E>, ltp: seq<nat>, dups: seq<(nat, nat)>, ws: seq<Word>, st: State<E>, v: Word, w: Word)
    requires InSemigroup(g, u) && Tabled(g, ws, st) && LettersOk(g, ws, ltp) && DupsOk(g, ws, ltp, dups) && Proper(g, v) && Proper(g, w)
    ensures Eval(g, v) == Eval(g, w) <==> Derives(Relations(g, ws, dups, st), v, w)
  {
    var s := Relations(g, ws, dups, st);
    RelationsHold(g, u, ltp, dups, ws, st);
    RulesSided(g, ws, dups, st);
    assert Rules(g, ws, dups, st).both <= s.both;
    hide InSemigroup, Tabled, DupsOk, Rules, Relations, Eval, Proper, LettersOk, PairsHold, Symmetric, Chain;
    if Eval(g, v) == Eval(g, w) {
      var x := Rewrites(g, u, ltp, dups, ws, st, v);
      var y := Rewrites(g, u, ltp, dups, ws, st, w);
      WordsFacts(g, ws, st);
      SameValue(g, ws, st.found, x, y);
      hide Derives;
      DerivesWiden(Rules(g, ws, dups, st), s, v, ws[x]);
      DerivesWiden(Rules(g, ws, dups, st), s, w, ws[x]);
      DerivesSym(s, w, ws[x]);
      DerivesTrans(s, v, ws[x], w);
    }
    if Derives(s, v, w) {
      var ms :| Chain(s, ms, v, w);
      ChainSound(g, u, s, ms, v, w);
    }
  }

  /** A word that is not least for its value contains the left side of a rule, and a least word does not. */
  lemma LeastIffIrreducible<E>(g: Generators<E>, u: set<E>, ltp: seq<nat>, dups: seq<(nat, nat)>, ws: seq<Word>, st: State<E>, w: Word)
    requires InSemigroup(g, u) && Tabled(g, ws, st) && LettersOk(g, ws, ltp) && DupsOk(g, ws, ltp, dups) && Proper(g, w)
    ensures w in ws <==> forall m :: Legal(Rules(g, ws, dups, st), m) ==> m.Before() != w
  {
    var s := Rules(g, ws, dups, st);
    var x := Rewrites(g, u, ltp, dups, ws, st, w);
    WordsFacts(g, ws, st);
    RulesSided(g, ws, dups, st);
    hide InSemigroup, Tabled, DupsOk, Rules, Eval, LettersOk, Proper, FoundOk;
    if w in ws {
      var i :| 0 <= i < |ws| && ws[i] == w;
      forall m | Legal(s, m) ensures m.Before() != w {
        if m.Before() == w {
          SmallerValue(g, u, ltp, dups, ws, st, m, i);
        }
      }
    } else {
      var ms: seq<Move> :| Chain(s, ms, w, ws[x]);
      assert ms != [] && Legal(s, ms[0]) && ms[0].Before() == w;
    }
  }

  lemma SmallerValue<E>(g: Generators<E>, u: set<E>, ltp: seq<nat>, dups: seq<(nat, nat)>, ws: seq<Word>, st: State<E>, m: Move, i: nat)
    requires InSemigroup(g, u) && Tabled(g, ws, st) && LettersOk(g, ws, ltp) && DupsOk(g, ws, ltp, dups)
    requires Legal(Rules(g, ws, dups, st), m) && i < |ws|
    ensures m.Before() != ws[i]
  {
    if m.Before() == ws[i] {
      var s, p := Rules(g, ws, dups, st), (m.lhs, m.rhs);
      RulesSided(g, ws, dups, st);
      ProperAt(g, ws, st, i);
      RuleSound(g, u, ltp, dups, ws, st, p);
      assert PairsHold(g, s) by {
        hide Tabled, DupsOk, Rules, Eval, Proper;
        forall q | q in s.both ensures Proper(g, q.0) && Proper(g, q.1) && Eval(g, q.0) == Eval(g, q.1) {
          RuleSound(g, u, ltp, dups, ws, st, q);
        }
      }
      hide *;
      MoveSound(g, u, s, m);
      LessInside(m);
      var y := Rewrites(g, u, ltp, dups, ws, st, m.After());
      WordsFacts(g, ws, st);
      SameValue(g, ws, st.found, y, i);
      LessTrans(ws[i], m.After(), ws[i]);
      LessNever(ws[i]);
    }
  }

  lemma LessNever(w: Word)
    ensures !Less(w, w)
  {
    LexIrreflexive(w);
  }

  lemma LessInside(m: Move)
    requires Less(m.rhs, m.lhs)
    ensures Less(m.After(), m.Before())
  {
    LessPrepend(m.pre, m.rhs, m.lhs);
    LessAppend(m.pre + m.rhs, m.pre + m.lhs, m.post, m.post);
  }
}
