/**
 * A semigroup given by generators, enumerated by the Froidure-Pin algorithm: the class `Semigroup`.
 * Lines cited here are those of src/semigroups.h unless another file is named.
 */
module FroidurePin {
  import opened Words
  import opened Derivations
  import opened Evaluation
  import opened PinWords
  import opened PinCayley
  import opened PinState
  import opened PinLevels
  import opened PinEnumerate
  import opened PinResults
  import opened PinUnique
  import opened PinPaths
  import opened PinPresentation
  import opened PinRelations

  // ----- the generators -----

  /** The first generator, not before `b`, with the value of `a`. */
  ghost function FirstFrom<E>(gens: seq<E>, a: nat, b: nat): (f: nat)
    requires b <= a < |gens| && forall c :: 0 <= c < b ==> gens[c] != gens[a]
    ensures f <= a && gens[f] == gens[a] && forall c :: 0 <= c < f ==> gens[c] != gens[a]
    decreases a - b
  {
    if gens[b] == gens[a] then b else FirstFrom(gens, a, b + 1)
  }

  /** The generators among the first `n` whose values have occurred before, each with the first one of its value. */
  ghost function Duplicates<E>(gens: seq<E>, n: nat): seq<(nat, nat)>
    requires n <= |gens|
  {
    if n == 0 then [] else
      var f := FirstFrom(gens, n - 1, 0);
      Duplicates(gens, n - 1) + if f < n - 1 then [(n - 1, f)] else []
  }

  lemma DuplicatesStep<E>(gens: seq<E>, n: nat, b: nat)
    requires n < |gens| && b <= n && gens[b] == gens[n] && forall c :: 0 <= c < b ==> gens[c] != gens[n]
    ensures Duplicates(gens, n + 1) == Duplicates(gens, n) + if b < n then [(n, b)] else []
  {
    assert FirstFrom(gens, n, 0) == b;
  }

  /** The first `n` generators have been read. */
  ghost predicate Reading<E>(g: Generators<E>, ws: seq<Word>, fd: Found<E>, ltp: seq<nat>, dups: seq<(nat, nat)>, n: nat) {
    && n <= |g.gens| && |ltp| == n && FoundOk(g, ws, fd) && |dups| + |ws| == n && dups == Duplicates(g.gens, n)
    && (forall i :: 0 <= i < |ws| ==> |ws[i]| == 1 && ws[i][0] < n)
    && (forall a :: 0 <= a < n ==> Stands(g, ws, ltp[a], [a]) && (ws[ltp[a]] == [a] || DupListed(ws, ltp, dups, a)))
    && (forall d :: 0 <= d < |dups| ==> dups[d].1 < dups[d].0 < n && g.gens[dups[d].0] == g.gens[dups[d].1])
  }

  lemma ReadDuplicate<E>(g: Generators<E>, ws: seq<Word>, fd: Found<E>, ltp: seq<nat>, dups: seq<(nat, nat)>, n: nat, p: nat)
    requires Reading(g, ws, fd, ltp, dups, n) && n < |g.gens| && g.gens[n] in fd.places && p == fd.places[g.gens[n]]
    ensures p < |fd.index.first| && Reading(g, ws, fd, ltp + [p], dups + [(n, fd.index.first[p])], n + 1)
  {
    FoundLetter(g, ws, fd, n, p);
    var b := fd.index.first[p];
    EarliestLetter(g, ws, fd, ltp, n, p, b);
    DuplicatesStep(g.gens, n, b);
    hide FoundOk, Eval, Duplicates;
    LessLetters([b], [n]);
    DuplicateLetters(g, ws, ltp, dups, n, p, b);
  }

  lemma FoundLetter<E>(g: Generators<E>, ws: seq<Word>, fd: Found<E>, n: nat, p: nat)
    requires FoundOk(g, ws, fd) && n < |g.gens| && g.gens[n] in fd.places && p == fd.places[g.gens[n]]
    requires forall i :: 0 <= i < |ws| ==> |ws[i]| == 1 && ws[i][0] < n
    ensures p < |ws| && p < |fd.index.first| && ws[p] == [fd.index.first[p]] && fd.index.first[p] < n
    ensures Eval(g, [n]) == g.gens[n] == g.gens[fd.index.first[p]] == Eval(g, ws[p])
  {
    assert Described(|g.gens|, ws, fd.index, p);
    assert Eval(g, [n]) == g.gens[n] && Eval(g, [fd.index.first[p]]) == g.gens[fd.index.first[p]];
  }

  lemma DuplicateLetters<E>(g: Generators<E>, ws: seq<Word>, ltp: seq<nat>, dups: seq<(nat, nat)>, n: nat, p: nat, b: nat)
    requires n < |g.gens| && |ltp| == n && p < |ws| && ws[p] == [b] && Eval(g, [n]) == Eval(g, ws[p]) && Less([b], [n])
    requires forall a :: 0 <= a < n ==> Stands(g, ws, ltp[a], [a]) && (ws[ltp[a]] == [a] || DupListed(ws, ltp, dups, a))
    ensures var ltp', dups' := ltp + [p], dups + [(n, b)];
            forall a :: 0 <= a < n + 1 ==> Stands(g, ws, ltp'[a], [a]) && (ws[ltp'[a]] == [a] || DupListed(ws, ltp', dups', a))
  {
    var ltp', dups' := ltp + [p], dups + [(n, b)];
    hide Eval, Less;
    forall a | 0 <= a < n + 1 ensures Stands(g, ws, ltp'[a], [a]) && (ws[ltp'[a]] == [a] || DupListed(ws, ltp', dups', a)) {
      if a < n {
        if ws[ltp[a]] != [a] {
          var d :| 0 <= d < |dups| && dups[d].0 == a && ws[ltp[a]] == [dups[d].1];
          assert dups'[d] == dups[d];
        }
      } else {
        assert dups'[|dups|] == (n, b);
      }
    }
  }

  /** The word of a value is the first generator that has it. */
  lemma EarliestLetter<E>(g: Generators<E>, ws: seq<Word>, fd: Found<E>, ltp: seq<nat>, n: nat, p: nat, b: nat)
    requires FoundOk(g, ws, fd) && n < |g.gens| && |ltp| == n && p < |ws| && ws[p] == [b] && Eval(g, ws[p]) == g.gens[n]
    requires forall a :: 0 <= a < n ==> Stands(g, ws, ltp[a], [a])
    ensures forall c :: 0 <= c < b && c < n ==> g.gens[c] != g.gens[n]
  {
    forall c | 0 <= c < b && c < n ensures g.gens[c] != g.gens[n] {
      assert Stands(g, ws, ltp[c], [c]) && Eval(g, [c]) == g.gens[c];
      if g.gens[c] == g.gens[n] {
        hide FoundOk, Eval;
        SameValue(g, ws, fd, ltp[c], p);
        LessLetters([b], [c]);
      }
    }
  }

  /** Nobody before has the value of a generator that is new. */
  lemma NewValue<E>(g: Generators<E>, ws: seq<Word>, fd: Found<E>, ltp: seq<nat>, n: nat)
    requires FoundOk(g, ws, fd) && n < |g.gens| && |ltp| == n && g.gens[n] !in fd.places
    requires forall a :: 0 <= a < n ==> Stands(g, ws, ltp[a], [a])
    ensures forall c :: 0 <= c < n ==> g.gens[c] != g.gens[n]
  {
    forall c | 0 <= c < n ensures g.gens[c] != g.gens[n] {
      assert Stands(g, ws, ltp[c], [c]) && Eval(g, [c]) == g.gens[c];
      assert fd.elements[ltp[c]] in fd.places;
    }
  }

  function AddGenerator<E(==)>(g: Generators<E>, fd: Found<E>, n: nat): Found<E>
    requires n < |g.gens|
  {
    var x := g.gens[n];
    var isOne := !fd.foundOne && x == g.one;
    Found(fd.elements + [x], fd.places[x := |fd.elements|], Extend(fd.index, n, n, UNDEFINED, UNDEFINED, 1),
          fd.foundOne || isOne, if isOne then |fd.elements| else fd.posOne)
  }

  lemma NewLetter<E>(g: Generators<E>, ws: seq<Word>, fd: Found<E>, n: nat)
    requires FoundOk(g, ws, fd) && n < |g.gens| && g.gens[n] !in fd.places
    requires forall i :: 0 <= i < |ws| ==> |ws[i]| == 1 && ws[i][0] < n
    ensures FoundOk(g, ws + [[n]], AddGenerator(g, fd, n))
  {
    var ws', fd' := ws + [[n]], AddGenerator(g, fd, n);
    assert Eval(g, [n]) == g.gens[n];
    hide Eval;
    assert IndexOk(|g.gens|, ws', fd'.index) by {
      forall i | 0 <= i < |ws'| ensures Described(|g.gens|, ws', fd'.index, i) {
        if i < |ws| { assert Described(|g.gens|, ws, fd.index, i); }
      }
    }
    assert Sorted(ws') by {
      forall i, j | 0 <= i < j < |ws'| ensures Less(ws'[i], ws'[j]) {
        if j == |ws| { LessLetters(ws[i], [n]); }
      }
    }
    hide IndexOk, Sorted;
  }

  lemma LessLetters(v: Word, w: Word)
    requires |v| == |w| == 1
    ensures Less(v, w) <==> v[0] < w[0]
  {
    assert v[1..] == w[1..] == [];
    assert LexLess(v, w) <==> v[0] < w[0];
  }

  lemma ReadNew<E>(g: Generators<E>, ws: seq<Word>, fd: Found<E>, ltp: seq<nat>, dups: seq<(nat, nat)>, n: nat)
    requires Reading(g, ws, fd, ltp, dups, n) && n < |g.gens| && g.gens[n] !in fd.places
    ensures Reading(g, ws + [[n]], AddGenerator(g, fd, n), ltp + [|ws|], dups, n + 1)
  {
    NewLetter(g, ws, fd, n);
    NewValue(g, ws, fd, ltp, n);
    DuplicatesStep(g.gens, n, n);
    assert Eval(g, [n]) == g.gens[n];
    hide FoundOk, AddGenerator, Eval, Less, Duplicates;
    NewLetters(g, ws, ltp, dups, n);
  }

  lemma NewLetters<E>(g: Generators<E>, ws: seq<Word>, ltp: seq<nat>, dups: seq<(nat, nat)>, n: nat)
    requires n < |g.gens| && |ltp| == n
    requires forall a :: 0 <= a < n ==> Stands(g, ws, ltp[a], [a]) && (ws[ltp[a]] == [a] || DupListed(ws, ltp, dups, a))
    ensures var ws', ltp' := ws + [[n]], ltp + [|ws|];
            forall a :: 0 <= a < n + 1 ==> Stands(g, ws', ltp'[a], [a]) && (ws'[ltp'[a]] == [a] || DupListed(ws', ltp', dups, a))
  {
    var ws', ltp' := ws + [[n]], ltp + [|ws|];
    hide Eval, Less;
    forall a | 0 <= a < n + 1 ensures Stands(g, ws', ltp'[a], [a]) && (ws'[ltp'[a]] == [a] || DupListed(ws', ltp', dups, a)) {
      if a < n && ws[ltp[a]] != [a] {
        var d :| 0 <= d < |dups| && dups[d].0 == a && ws[ltp[a]] == [dups[d].1];
        assert ws'[ltp'[a]] == [dups[d].1];
      }
    }
  }

  /** The generators, with repetitions noted (lines 165-192). */
  method ReadGenerators<E(==)>(g: Generators<E>) returns (fd: Found<E>, ltp: seq<nat>, dups: seq<(nat, nat)>, nrrules: nat, ghost ws: seq<Word>)
    ensures Reading(g, ws, fd, ltp, dups, |g.gens|) && nrrules == |dups|
  {
    hide *;
    fd, ltp, dups, ws := Found([], map[], Index([], [], [], [], []), false, 0), [], [], [];
    nrrules := 0;
    ReadingStart(g);
    var i := 0;
    while i < |g.gens|
      invariant i <= |g.gens| && Reading(g, ws, fd, ltp, dups, i) && nrrules == |dups|
    {
      ReadingSize(g, ws, fd, ltp, dups, i);
      if g.gens[i] in fd.places {
        var p := fd.places[g.gens[i]];
        ReadDuplicate(g, ws, fd, ltp, dups, i, p);
        ltp, nrrules, dups := ltp + [p], nrrules + 1, dups + [(i, fd.index.first[p])];
      } else {
        ReadNew(g, ws, fd, ltp, dups, i);
        ltp, ws := ltp + [|fd.elements|], ws + [[i]];
        fd := AddGenerator(g, fd, i);
      }
      i := i + 1;
    }
  }

  lemma ReadingStart<E>(g: Generators<E>)
    ensures Reading(g, [], Found([], map[], Index([], [], [], [], []), false, 0), [], [], 0)
  {
  }

  lemma ReadingSize<E>(g: Generators<E>, ws: seq<Word>, fd: Found<E>, ltp: seq<nat>, dups: seq<(nat, nat)>, n: nat)
    requires Reading(g, ws, fd, ltp, dups, n)
    ensures |fd.elements| == |ws|
  {
  }

  lemma StartAtRest<E>(g: Generators<E>, u: set<E>, ltp: seq<nat>, dups: seq<(nat, nat)>, st: State<E>, ws: seq<Word>)
    requires InSemigroup(g, u) && Reading(g, ws, st.found, ltp, dups, |g.gens|) && |g.gens| > 0
    requires st == State(st.found, Expand(Graphs([], [], [], |dups|), |ws|, |g.gens|), 0, 0, [0, |ws|])
    ensures AtRest(g, u, ltp, |dups|, st, ws) && DupsOk(g, ws, ltp, dups)
  {
    assert ws != [] by { assert Stands(g, ws, ltp[0], [0]); }
    assert LevelAt(ws, 0, 0) && LevelAt(ws, |ws|, 1);
    hide FoundOk;
    assert Behind(ws, st.found.index, 0, 0) by { StartIndex(g, ws, st.found); }
  }

  lemma StartIndex<E>(g: Generators<E>, ws: seq<Word>, fd: Found<E>)
    requires FoundOk(g, ws, fd)
    ensures Sizes(|ws|, fd.index)
  {
  }

  /** Everything that holds between two calls, `listed` relations having been handed out. */
  ghost predicate Stored<E>(g: Generators<E>, u: set<E>, ltp: seq<nat>, dups: seq<(nat, nat)>, st: State<E>, ws: seq<Word>,
                            rpos: int, rgen: nat, listed: nat) {
    && AtRest(g, u, ltp, |dups|, st, ws) && DupsOk(g, ws, ltp, dups) && dups == Duplicates(g.gens, |g.gens|)
    && (if st.pos == |ws| then ListedAt(g, ws, dups, st, rpos, rgen, listed) else rpos == UNDEFINED && rgen == 0 == listed)
  }

  lemma StoredParts<E>(g: Generators<E>, u: set<E>, ltp: seq<nat>, dups: seq<(nat, nat)>, st: State<E>, ws: seq<Word>, rpos: int, rgen: nat, listed: nat)
    requires Stored(g, u, ltp, dups, st, ws, rpos, rgen, listed)
    ensures AtRest(g, u, ltp, |dups|, st, ws) && DupsOk(g, ws, ltp, dups) && InSemigroup(g, u) && LettersOk(g, ws, ltp)
    ensures dups == Duplicates(g.gens, |g.gens|)
    ensures |st.found.elements| == |ws| <= |u| && st.pos <= |ws| && FoundOk(g, ws, st.found) && WordsOver(g, ws)
  {
    RestParts(g, u, ltp, |dups|, st, ws);
    RestFacts(g, u, ltp, |dups|, st, ws);
    hide AtRest, DupsOk, ListedAt;
  }

  lemma StoredDone<E>(g: Generators<E>, u: set<E>, ltp: seq<nat>, dups: seq<(nat, nat)>, st: State<E>, ws: seq<Word>, rpos: int, rgen: nat, listed: nat)
    requires Stored(g, u, ltp, dups, st, ws, rpos, rgen, listed) && st.pos == |ws|
    ensures Complete(g, u, ltp, |dups|, st, ws) && Tabled(g, ws, st) && ListedAt(g, ws, dups, st, rpos, rgen, listed)
    ensures |st.lenindex| > 1 && LevelAt(ws, st.lenindex[1], 1)
    ensures st.graphs.nrrules == |AllRelations(g, ws, dups, st)|
  {
    CompleteTabled(g, u, ltp, |dups|, st, ws);
    CompleteParts(g, u, ltp, |dups|, st, ws);
    hide AtRest, DupsOk, ListedAt, Tabled, RuleCount;
    RelationCount(g, ws, dups, st);
  }

  /** Enumerating further. */
  lemma StoredGrows<E>(g: Generators<E>, u: set<E>, ltp: seq<nat>, dups: seq<(nat, nat)>, st: State<E>, ws: seq<Word>, rpos: int, rgen: nat, listed: nat,
                       st': State<E>, ws': seq<Word>)
    requires Stored(g, u, ltp, dups, st, ws, rpos, rgen, listed) && st.pos < |ws|
    requires AtRest(g, u, ltp, |dups|, st', ws') && ws <= ws'
    ensures Stored(g, u, ltp, dups, st', ws', rpos, rgen, listed)
  {
    hide AtRest;
    DupsGrow(g, ws, ws', ltp, dups);
  }

  class Semigroup<E(==)> {
    const g: Generators<E>
    ghost const universe: set<E>

    var state: State<E>
    var letterToPos: seq<nat>
    var duplicateGens: seq<(nat, nat)>
    var batchSize: nat
    var relationPos: int
    var relationGen: nat

    // The word of every known element, and how many relations have been listed since the last reset.
    ghost var words: seq<Word>
    ghost var listed: nat

    ghost predicate Valid()
      reads this
    {
      Stored(g, universe, letterToPos, duplicateGens, state, words, relationPos, relationGen, listed)
    }

    /** Lines 476-478. */
    predicate IsDone()
      reads this
    {
      state.pos >= |state.found.elements|
    }

    function Elements(): seq<E>
      reads this
    {
      state.found.elements
    }

    lemma Parts()
      requires Valid()
      ensures Stored(g, universe, letterToPos, duplicateGens, state, words, relationPos, relationGen, listed)
      ensures AtRest(g, universe, letterToPos, |duplicateGens|, state, words) && InSemigroup(g, universe)
      ensures LettersOk(g, words, letterToPos) && DupsOk(g, words, letterToPos, duplicateGens) && duplicateGens == Duplicates(g.gens, |g.gens|)
      ensures |Elements()| == |words| <= |universe| && (IsDone() <==> state.pos == |words|) && Elements() == state.found.elements
      ensures state.pos <= |words|
      ensures FoundOk(g, words, state.found) && WordsOver(g, words)
    {
      StoredParts(g, universe, letterToPos, duplicateGens, state, words, relationPos, relationGen, listed);
      hide Stored;
    }

    lemma DoneParts()
      requires Valid() && IsDone()
      ensures Complete(g, universe, letterToPos, |duplicateGens|, state, words) && Tabled(g, words, state)
      ensures ListedAt(g, words, duplicateGens, state, relationPos, relationGen, listed)
      ensures |state.lenindex| > 1 && LevelAt(words, state.lenindex[1], 1)
      ensures state.graphs.nrrules == |AllRelations(g, words, duplicateGens, state)|
    {
      Parts();
      StoredDone(g, universe, letterToPos, duplicateGens, state, words, relationPos, relationGen, listed);
      hide Stored, ListedAt, Tabled, AllRelations;
    }

    /** Read the generators; there must be at least one, and they must generate a finite semigroup (lines 105-195). */
    constructor (g: Generators<E>, ghost universe: set<E>)
      requires InSemigroup(g, universe) && |g.gens| > 0
      ensures Valid() && this.g == g && this.universe == universe && listed == 0 && batchSize == 8192 && state.pos == state.wordlen == 0
    {
      this.g, this.universe := g, universe;
      batchSize, relationPos, relationGen, listed := 8192, UNDEFINED, 0, 0;
      var fd, ltp, dups, nrrules;
      ghost var ws;
      fd, ltp, dups, nrrules, ws := ReadGenerators(g);
      var st := State(fd, Expand(Graphs([], [], [], nrrules), |fd.elements|, |g.gens|), 0, 0, [0, |fd.elements|]);
      ReadingSize(g, ws, fd, ltp, dups, |g.gens|);
      state, letterToPos, duplicateGens, words := st, ltp, dups, ws;
      new;
      hide AtRest, DupsOk, Reading, Tabled, InSemigroup;
      StartAtRest(g, universe, ltp, dups, st, ws);
    }

    /** `enumerate` (lines 1082-1242); `canKill` says whether somebody else holds a kill flag. */
    method Enumerate(limit: nat, canKill: bool)
      requires Valid()
      modifies this`state, this`words
      ensures Valid() && old(words) <= words && (old(IsDone()) || limit <= |old(words)| ==> state == old(state) && words == old(words))
      ensures !canKill && !old(IsDone()) && |old(words)| < limit ==> IsDone() || |words| >= Limit(limit, |old(words)|, batchSize)
      ensures !canKill && |universe| < LIMIT_MAX / 2 ==> IsDone() || |words| >= limit
      ensures words == old(words) || state.wordlen <= 1 || |words| < Limit(limit, |old(words)|, batchSize) + |g.gens|
    {
      hide *;
      Parts();
      if !IsDone() {
        var st;
        ghost var ws;
        st, ws := PinEnumerate.Enumerate(g, letterToPos, state, limit, batchSize, canKill, universe, |duplicateGens|, words);
        StoredGrows(g, universe, letterToPos, duplicateGens, state, words, relationPos, relationGen, listed, st, ws);
        state, words := st, ws;
        NowValid();
        Parts();
      }
    }

    lemma NowValid()
      requires Stored(g, universe, letterToPos, duplicateGens, state, words, relationPos, relationGen, listed)
      ensures Valid()
    {
    }

    /** `product_by_reduction`, once all elements are known (lines 614-630). */
    method ProductByReduction(i: nat, j: nat) returns (r: nat)
      requires Valid() && IsDone() && i < |Elements()| && j < |Elements()|
      ensures r < |Elements()| && Elements()[r] == g.mul(Elements()[i], Elements()[j])
    {
      hide *;
      Parts();
      DoneParts();
      r := PinPaths.ProductByReduction(g, state, i, j, universe, words);
    }

    /** `minimal_factorisation` (lines 893-905): the short-lex least word of an element, if there is such an element. */
    method MinimalFactorisation(pos: nat) returns (found: bool, word: Word)
      requires Valid() && |universe| < LIMIT_MAX / 2
      modifies this`state, this`words
      ensures Valid() && found == (pos < |Elements()|) && (!found ==> IsDone())
      ensures found ==> Proper(g, word) && Eval(g, word) == Elements()[pos]
      ensures found ==> forall w :: Proper(g, w) && Eval(g, w) == Elements()[pos] ==> LessEq(word, w)
      ensures found ==> pos < |words| && word == words[pos]
      ensures old(words) <= words && (old(IsDone()) || pos < |old(Elements())| ==> state == old(state) && words == old(words))
    {
      hide *;
      Parts();
      if pos >= |state.found.elements| && !IsDone() {
        Enumerate(pos + 1, false);
      }
      Parts();
      found := pos < |state.found.elements|;
      word := [];
      if found {
        word := Factorise(g, state.found, pos, words);
        LeastWord(pos);
      }
    }

    lemma LeastWord(pos: nat)
      requires Valid() && pos < |words|
      ensures pos < |Elements()| && Proper(g, words[pos]) && Eval(g, words[pos]) == Elements()[pos]
      ensures forall w :: Proper(g, w) && Eval(g, w) == Elements()[pos] ==> LessEq(words[pos], w)
    {
      Parts();
      assert Proper(g, words[pos]);
      hide Valid, AtRest, Proper, InSemigroup;
      forall w | Proper(g, w) && Eval(g, w) == Elements()[pos] ensures LessEq(words[pos], w) {
        Least(g, universe, letterToPos, |duplicateGens|, state, words, pos, w);
      }
    }

    /** `next_relation` (lines 1013-1059): hand out the relations in turn, then the empty one. */
    method NextRelation() returns (relation: Relation)
      requires Valid() && |universe| < LIMIT_MAX / 2
      modifies this`state, this`words, this`relationPos, this`relationGen, this`listed
      ensures Valid() && IsDone() && Tabled(g, words, state)
      ensures var all := AllRelations(g, words, duplicateGens, state);
              if old(listed) < |all| then relation == all[old(listed)] && listed == old(listed) + 1
              else relation == [] && listed == old(listed)
      ensures old(words) <= words && (old(IsDone()) ==> state == old(state) && words == old(words))
    {
      hide *;
      Parts();
      if !IsDone() {
        Enumerate(LIMIT_MAX, false);
        Parts();
      }
      DoneParts();
      var rpos, rgen;
      relation, rpos, rgen := PinRelations.NextRelation(g, state, duplicateGens, relationPos, relationGen, words, listed);
      relationPos, relationGen := rpos, rgen;
      listed := if listed < |AllRelations(g, words, duplicateGens, state)| then listed + 1 else listed;
      ScanValid();
    }

    lemma ScanValid()
      requires AtRest(g, universe, letterToPos, |duplicateGens|, state, words) && DupsOk(g, words, letterToPos, duplicateGens)
      requires duplicateGens == Duplicates(g.gens, |g.gens|)
      requires ListedAt(g, words, duplicateGens, state, relationPos, relationGen, listed) && state.pos == |words|
      ensures Valid() && IsDone()
    {
      assert |state.found.elements| == |words| by { RestFacts(g, universe, letterToPos, |duplicateGens|, state, words); }
      hide AtRest, DupsOk, ListedAt, Duplicates;
    }

    /** `reset_next_relation` (lines 977-980). */
    method ResetNextRelation()
      requires Valid()
      modifies this`relationPos, this`relationGen, this`listed
      ensures Valid() && listed == 0
    {
      hide AtRest, DupsOk;
      relationPos, relationGen, listed := UNDEFINED, 0, 0;
    }

    /** The relations handed out, `_nrrules` of them, present the semigroup, and the words are its normal forms. */
    lemma Presents(v: Word, w: Word)
      requires Valid() && IsDone() && Proper(g, v) && Proper(g, w)
      ensures Tabled(g, words, state) && |AllRelations(g, words, duplicateGens, state)| == state.graphs.nrrules
      ensures Eval(g, v) == Eval(g, w) <==> Derives(Relations(g, words, duplicateGens, state), v, w)
      ensures w in words <==> forall m :: Legal(Rules(g, words, duplicateGens, state), m) ==> m.Before() != w
    {
      hide *;
      Parts();
      DoneParts();
      PresentationExact(g, universe, letterToPos, duplicateGens, words, state, v, w);
      LeastIffIrreducible(g, universe, letterToPos, duplicateGens, words, state, w);
    }
  }

  /** Two semigroup objects over the same generators that are fully enumerated hold the same, whatever was asked of them. */
  lemma SameSemigroup<E>(a: Semigroup<E>, b: Semigroup<E>)
    requires a.Valid() && b.Valid() && a.IsDone() && b.IsDone() && a.g == b.g
    ensures a.state == b.state && a.words == b.words && a.letterToPos == b.letterToPos && a.duplicateGens == b.duplicateGens
  {
    hide *;
    a.Parts();
    b.Parts();
    a.DoneParts();
    b.DoneParts();
    var dups := |a.duplicateGens|;
    ChangeUniverse(a.g, a.universe, b.universe, b.letterToPos, dups, b.state, b.words);
    SameWords(a.g, a.universe, a.letterToPos, dups, a.state, a.words, b.letterToPos, dups, b.state, b.words);
    SameLetters(a.g, a.words, a.state.found, a.letterToPos, b.letterToPos);
    CompleteUnique(a.g, a.universe, a.letterToPos, dups, a.state, a.words, b.state, b.words);
  }

  /** The finite set that the generators are known to stay in does not matter. */
  lemma ChangeUniverse<E>(g: Generators<E>, u: set<E>, u': set<E>, ltp: seq<nat>, dups: nat, st: State<E>, ws: seq<Word>)
    requires Complete(g, u', ltp, dups, st, ws) && InSemigroup(g, u)
    ensures Complete(g, u, ltp, dups, st, ws)
  {
    hide InSemigroup, Cursor, Levels;
  }

  lemma SameLetters<E>(g: Generators<E>, ws: seq<Word>, fd: Found<E>, ltp: seq<nat>, ltp': seq<nat>)
    requires FoundOk(g, ws, fd) && LettersOk(g, ws, ltp) && LettersOk(g, ws, ltp')
    ensures ltp == ltp'
  {
    hide FoundOk, Eval;
    forall a | 0 <= a < |g.gens| ensures ltp[a] == ltp'[a] {
      assert Stands(g, ws, ltp[a], [a]) && Stands(g, ws, ltp'[a], [a]);
      SameValue(g, ws, fd, ltp[a], ltp'[a]);
    }
  }

  lemma DupsGrow<E>(g: Generators<E>, ws: seq<Word>, ws': seq<Word>, ltp: seq<nat>, dups: seq<(nat, nat)>)
    requires DupsOk(g, ws, ltp, dups) && ws <= ws'
    ensures DupsOk(g, ws', ltp, dups)
  {
    forall a | 0 <= a < |ltp| ensures ltp[a] < |ws'| && (ws'[ltp[a]] == [a] || DupListed(ws', ltp, dups, a)) {
      if ws[ltp[a]] != [a] {
        var d :| 0 <= d < |dups| && dups[d].0 == a && ws[ltp[a]] == [dups[d].1];
        assert ws'[ltp[a]] == [dups[d].1];
      }
    }
  }
}
