/**
 * Listing the relations one at a time.
 * Lines cited here are those of src/semigroups.h.
 */
module PinRelations {
  import opened Words
  import opened Derivations
  import opened Evaluation
  import opened PinWords
  import opened PinState
  import opened PinLevels
  import opened PinEnumerate
  import opened PinPaths
  import opened PinPresentation

  type Relation = seq<int>

  function DupRelations(dups: seq<(nat, nat)>): seq<Relation> {
    seq(|dups|, d requires 0 <= d < |dups| => [dups[d].0, dups[d].1])
  }

  function RuleRelations(ts: seq<Triple>): seq<Relation> {
    seq(|ts|, j requires 0 <= j < |ts| => [ts[j].0, ts[j].1, ts[j].2])
  }

  /** Everything `next_relation` lists, in order: the duplicate generators, then the rules. */
  ghost function AllRelations<E>(g: Generators<E>, ws: seq<Word>, dups: seq<(nat, nat)>, st: State<E>): seq<Relation>
    requires Tabled(g, ws, st)
  {
    DupRelations(dups) + RuleRelations(AllTriples(g, ws, st))
  }

  /** The two words that a relation puts equal: two generators, or a word times a generator and another word. */
  ghost predicate Denotes(ws: seq<Word>, r: Relation, p: Pair) {
    || (|r| == 2 && r[0] >= 0 && r[1] >= 0 && p == ([r[0] as nat], [r[1] as nat]))
    || (|r| == 3 && 0 <= r[0] < |ws| && r[1] >= 0 && 0 <= r[2] < |ws| && p == (ws[r[0]] + [r[1] as nat], ws[r[2]]))
  }

  /** The pairs used in the presentation are exactly those denoted by the relations that are handed out. */
  lemma RulesDenoted<E>(g: Generators<E>, ws: seq<Word>, dups: seq<(nat, nat)>, st: State<E>, p: Pair)
    requires Tabled(g, ws, st)
    ensures p in Rules(g, ws, dups, st).both <==>
            exists j :: 0 <= j < |AllRelations(g, ws, dups, st)| && Denotes(ws, AllRelations(g, ws, dups, st)[j], p)
  {
    AllTriplesIn(g, ws, st);
    var ts := AllTriples(g, ws, st);
    assert AllRelations(g, ws, dups, st) == DupRelations(dups) + RuleRelations(ts);
    assert p in Rules(g, ws, dups, st).both <==> DupPair(dups, p) || TriplePair(ws, ts, p);
    hide Tabled, AllTriples, AllRelations, DupRelations, RuleRelations, Rules;
    DenotedSplit(ws, dups, AllTriples(g, ws, st), p);
  }

  lemma DenotedSplit(ws: seq<Word>, dups: seq<(nat, nat)>, ts: seq<Triple>, p: Pair)
    requires TriplesIn(ws, ts)
    ensures var all := DupRelations(dups) + RuleRelations(ts);
            DupPair(dups, p) || TriplePair(ws, ts, p) <==> exists j :: 0 <= j < |all| && Denotes(ws, all[j], p)
  {
    var all := DupRelations(dups) + RuleRelations(ts);
    if DupPair(dups, p) {
      var d :| 0 <= d < |dups| && p == ([dups[d].0], [dups[d].1]);
      assert all[d] == [dups[d].0, dups[d].1] && Denotes(ws, all[d], p);
    }
    if TriplePair(ws, ts, p) {
      var j :| 0 <= j < |ts| && p == (ws[ts[j].0] + [ts[j].1], ws[ts[j].2]);
      assert all[|dups| + j] == [ts[j].0, ts[j].1, ts[j].2] && Denotes(ws, all[|dups| + j], p);
    }
    if j :| 0 <= j < |all| && Denotes(ws, all[j], p) {
      if j < |dups| {
        assert all[j] == [dups[j].0, dups[j].1] && DupPair(dups, p);
      } else {
        assert all[j] == [ts[j - |dups|].0, ts[j - |dups|].1, ts[j - |dups|].2] && TriplePair(ws, ts, p);
      }
    }
  }

  /** Their number is `_nrrules`. */
  lemma RelationCount<E>(g: Generators<E>, ws: seq<Word>, dups: seq<(nat, nat)>, st: State<E>)
    requires Tabled(g, ws, st)
    requires st.graphs.nrrules == |dups| + RuleCount(st.graphs.reduced, st.found.index.suffix, |g.gens|, |ws|, 0)
    ensures |AllRelations(g, ws, dups, st)| == st.graphs.nrrules
  {
  }

  /** The scanning position after the first `t` relations. */
  ghost predicate ListedAt<E>(g: Generators<E>, ws: seq<Word>, dups: seq<(nat, nat)>, st: State<E>, rpos: int, rgen: nat, t: nat) {
    if rpos == UNDEFINED then rgen == t <= |dups|
    else && 0 <= rpos <= |ws|
         && (if rpos < |ws| then rgen <= |g.gens| && t == |dups| + RuleCount(st.graphs.reduced, st.found.index.suffix, |g.gens|, rpos, rgen)
             else t == |dups| + RuleCount(st.graphs.reduced, st.found.index.suffix, |g.gens|, |ws|, 0))
  }

  /** A word is a letter exactly when its index is below `_lenindex[1]`. */
  lemma LetterIndex<E>(g: Generators<E>, ws: seq<Word>, st: State<E>, i: nat, a: nat)
    requires Tabled(g, ws, st) && i < |ws| && a < |g.gens| && |st.lenindex| > 1 && LevelAt(ws, st.lenindex[1], 1)
    ensures Rows(st.graphs.reduced, |ws|, |g.gens|) && Sizes(|ws|, st.found.index)
    ensures i < st.lenindex[1] <==> st.found.index.suffix[i] == UNDEFINED
    ensures i >= st.lenindex[1] ==> 0 <= st.found.index.suffix[i] < |ws|
  {
    assert Described(|g.gens|, ws, st.found.index, i);
  }

  /** The rule at `(p, c)` is the next one listed after those before `(p, c)`. */
  lemma NextListed<E>(g: Generators<E>, ws: seq<Word>, st: State<E>, p: nat, c: nat)
    requires Tabled(g, ws, st) && p < |ws| && c < |g.gens| && IsRule(st.graphs.reduced, st.found.index.suffix, p, c)
    ensures Rows(st.graphs.right, |ws|, |g.gens|)
    ensures var t := RuleCount(st.graphs.reduced, st.found.index.suffix, |g.gens|, p, c);
            t < |AllTriples(g, ws, st)| && AllTriples(g, ws, st)[t] == (p, c, st.graphs.right[p][c])
  {
    TriplesPrefix(st.graphs.right, st.graphs.reduced, st.found.index.suffix, |g.gens|, p, c + 1, |ws|, 0);
    var ts := Triples(st.graphs.right, st.graphs.reduced, st.found.index.suffix, |g.gens|, p, c + 1);
    assert ts[|ts| - 1] == (p, c, st.graphs.right[p][c]);
  }

  /** From `(rpos, rgen)` to the next rule, if there is one (lines 1025-1046). */
  method NextRule<E>(g: Generators<E>, st: State<E>, rpos: nat, rgen: nat, ghost ws: seq<Word>)
    returns (relation: Relation, rpos': nat, rgen': nat)
    requires Tabled(g, ws, st) && |st.lenindex| > 1 && LevelAt(ws, st.lenindex[1], 1) && |st.found.elements| == |ws|
    requires rpos < |ws| && rgen <= |g.gens|
    ensures var red, suf, k := st.graphs.reduced, st.found.index.suffix, |g.gens|;
            var t := RuleCount(red, suf, k, rpos, rgen);
            if t < |AllTriples(g, ws, st)| then
              && relation == RuleRelations(AllTriples(g, ws, st))[t]
              && rpos' < |ws| && rgen' <= k && RuleCount(red, suf, k, rpos', rgen') == t + 1
            else relation == [] && rpos' == |ws| && RuleCount(red, suf, k, |ws|, 0) == t
  {
    relation := [];
    rpos', rgen' := rpos, rgen;
    ghost var red, suf, k := st.graphs.reduced, st.found.index.suffix, |g.gens|;
    hide Tabled, AllTriples, LevelAt, SuffixReduced;
    CountBound(g, ws, st, rpos, rgen);
    while rpos' < |st.found.elements|
      invariant rpos' <= |ws| && (rpos' < |ws| ==> rgen' <= k) && (rpos' == |ws| ==> rgen' == 0) && relation == []
      invariant RuleCount(red, suf, k, rpos', rgen') == RuleCount(red, suf, k, rpos, rgen)
      decreases |ws| - rpos'
    {
      while rgen' < |g.gens|
        invariant rgen' <= k && relation == []
        invariant RuleCount(red, suf, k, rpos', rgen') == RuleCount(red, suf, k, rpos, rgen)
      {
        LetterIndex(g, ws, st, rpos', rgen');
        if !st.graphs.reduced[rpos'][rgen'] && (rpos' < st.lenindex[1] || st.graphs.reduced[st.found.index.suffix[rpos']][rgen']) {
          RuleHere(g, ws, st, rpos', rgen');
          NextListed(g, ws, st, rpos', rgen');
          relation := [rpos', rgen', st.graphs.right[rpos'][rgen']];
          rgen' := rgen' + 1;
          return;
        }
        RuleHere(g, ws, st, rpos', rgen');
        rgen' := rgen' + 1;
      }
      rgen' := 0;
      rpos' := rpos' + 1;
    }
    CountBound(g, ws, st, |ws|, 0);
    rgen' := rgen' + 1;
  }

  lemma RuleHere<E>(g: Generators<E>, ws: seq<Word>, st: State<E>, i: nat, a: nat)
    requires Tabled(g, ws, st) && i < |ws| && a < |g.gens| && |st.lenindex| > 1 && LevelAt(ws, st.lenindex[1], 1)
    requires Rows(st.graphs.reduced, |ws|, |g.gens|) && Sizes(|ws|, st.found.index)
    requires i >= st.lenindex[1] ==> 0 <= st.found.index.suffix[i] < |ws|
    ensures IsRule(st.graphs.reduced, st.found.index.suffix, i, a) <==>
            !st.graphs.reduced[i][a] && (i < st.lenindex[1] || st.graphs.reduced[st.found.index.suffix[i]][a])
  {
    LetterIndex(g, ws, st, i, a);
  }

  lemma CountBound<E>(g: Generators<E>, ws: seq<Word>, st: State<E>, p: nat, c: nat)
    requires Tabled(g, ws, st) && p <= |ws| && c <= |g.gens| && (p < |ws| || c == 0)
    ensures RuleCount(st.graphs.reduced, st.found.index.suffix, |g.gens|, p, c) <= |AllTriples(g, ws, st)|
    ensures |AllTriples(g, ws, st)| == RuleCount(st.graphs.reduced, st.found.index.suffix, |g.gens|, |ws|, 0)
  {
    TriplesPrefix(st.graphs.right, st.graphs.reduced, st.found.index.suffix, |g.gens|, p, c, |ws|, 0);
  }

  /** `next_relation` on a fully enumerated semigroup (lines 1018-1058). */
  method NextRelation<E>(g: Generators<E>, st: State<E>, dups: seq<(nat, nat)>, rpos: int, rgen: nat, ghost ws: seq<Word>, ghost t: nat)
    returns (relation: Relation, rpos': int, rgen': nat)
    requires Tabled(g, ws, st) && |st.lenindex| > 1 && LevelAt(ws, st.lenindex[1], 1) && |st.found.elements| == |ws|
    requires ListedAt(g, ws, dups, st, rpos, rgen, t)
    ensures var all := AllRelations(g, ws, dups, st);
            && relation == (if t < |all| then all[t] else [])
            && ListedAt(g, ws, dups, st, rpos', rgen', if t < |all| then t + 1 else t)
    decreases if rpos == UNDEFINED then 1 else 0
  {
    rpos', rgen' := rpos, rgen;
    if rpos == |st.found.elements| {
      hide Tabled, LevelAt, RuleCount, AllTriples;
      AllCount(g, ws, dups, st);
      return [], rpos, rgen;
    }
    if rpos != UNDEFINED {
      hide Tabled, LevelAt, RuleCount, AllTriples;
      AllCount(g, ws, dups, st);
      relation, rpos', rgen' := NextRule(g, st, rpos, rgen, ws);
    } else if rgen < |dups| {
      return [dups[rgen].0, dups[rgen].1], rpos, rgen + 1;
    } else {
      relation, rpos', rgen' := NextRelation(g, st, dups, 0, 0, ws, t);
    }
  }

  lemma AllCount<E>(g: Generators<E>, ws: seq<Word>, dups: seq<(nat, nat)>, st: State<E>)
    requires Tabled(g, ws, st)
    ensures |AllRelations(g, ws, dups, st)| == |dups| + |AllTriples(g, ws, st)|
    ensures |AllTriples(g, ws, st)| == RuleCount(st.graphs.reduced, st.found.index.suffix, |g.gens|, |ws|, 0)
  {
  }
}
