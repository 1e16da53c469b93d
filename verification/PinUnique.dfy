/** Complete enumerations agree, however they were reached. */
module PinUnique {
  import opened Words
  import opened ShortLex
  import opened Evaluation
  import opened PinWords
  import opened PinCayley
  import opened PinState
  import opened PinLevels
  import opened PinEnumerate
  import opened PinResults

  lemma WordShared<E>(g: Generators<E>, u: set<E>, ltp: seq<nat>, dups: nat, st: State<E>, ws: seq<Word>,
                      ltp': seq<nat>, dups': nat, st': State<E>, ws': seq<Word>, i: nat) returns (x: nat)
    requires Complete(g, u, ltp, dups, st, ws) && Complete(g, u, ltp', dups', st', ws') && i < |ws|
    ensures x < |ws'| && ws'[x] == ws[i]
  {
    RestFacts(g, u, ltp, dups, st, ws);
    RestFacts(g, u, ltp', dups', st', ws');
    assert Proper(g, ws[i]);
    x := IndexOf(g, u, ltp', dups', st', ws', ws[i]);
    assert Proper(g, ws'[x]);
    Least(g, u, ltp, dups, st, ws, i, ws'[x]);
    hide AtRest, InSemigroup;
    if ws'[x] != ws[i] {
      LessIrreflexive(ws'[x], ws[i]);
    }
  }

  /** A strictly increasing sequence whose members all occur in another one is not ahead of it anywhere. */
  lemma {:induction false} SortedInside(ws: seq<Word>, ws': seq<Word>, place: seq<nat>, i: nat)
    requires Sorted(ws) && Sorted(ws') && |place| == |ws| && i < |ws|
    requires forall j :: 0 <= j < |ws| ==> place[j] < |ws'| && ws'[place[j]] == ws[j]
    ensures place[i] >= i
  {
    if i > 0 {
      SortedInside(ws, ws', place, i - 1);
      assert ws'[place[i - 1]] == ws[i - 1] && ws'[place[i]] == ws[i];
      SortedIndex(ws', place[i - 1], place[i]);
    }
  }

  lemma Places<E>(g: Generators<E>, u: set<E>, ltp: seq<nat>, dups: nat, st: State<E>, ws: seq<Word>,
                  ltp': seq<nat>, dups': nat, st': State<E>, ws': seq<Word>, n: nat) returns (place: seq<nat>)
    requires Complete(g, u, ltp, dups, st, ws) && Complete(g, u, ltp', dups', st', ws') && n <= |ws|
    ensures |place| == n && forall j :: 0 <= j < n ==> place[j] < |ws'| && ws'[place[j]] == ws[j]
  {
    hide *;
    place := [];
    while |place| < n
      invariant |place| <= n && forall j :: 0 <= j < |place| ==> place[j] < |ws'| && ws'[place[j]] == ws[j]
    {
      var x := WordShared(g, u, ltp, dups, st, ws, ltp', dups', st', ws', |place|);
      place := place + [x];
    }
  }

  lemma NotLonger<E>(g: Generators<E>, u: set<E>, ltp: seq<nat>, dups: nat, st: State<E>, ws: seq<Word>,
                     ltp': seq<nat>, dups': nat, st': State<E>, ws': seq<Word>)
    requires Complete(g, u, ltp, dups, st, ws) && Complete(g, u, ltp', dups', st', ws')
    ensures |ws| <= |ws'|
  {
    var place := Places(g, u, ltp, dups, st, ws, ltp', dups', st', ws', |ws|);
    RestFacts(g, u, ltp, dups, st, ws);
    RestFacts(g, u, ltp', dups', st', ws');
    hide Complete;
    if ws != [] {
      SortedInside(ws, ws', place, |ws| - 1);
    }
  }

  /** The list of words is determined by the generators. */
  lemma SameWords<E>(g: Generators<E>, u: set<E>, ltp: seq<nat>, dups: nat, st: State<E>, ws: seq<Word>,
                     ltp': seq<nat>, dups': nat, st': State<E>, ws': seq<Word>)
    requires Complete(g, u, ltp, dups, st, ws) && Complete(g, u, ltp', dups', st', ws')
    ensures ws == ws'
  {
    NotLonger(g, u, ltp, dups, st, ws, ltp', dups', st', ws');
    NotLonger(g, u, ltp', dups', st', ws', ltp, dups, st, ws);
    var place := Places(g, u, ltp, dups, st, ws, ltp', dups', st', ws', |ws|);
    var place' := Places(g, u, ltp', dups', st', ws', ltp, dups, st, ws, |ws'|);
    RestFacts(g, u, ltp, dups, st, ws);
    RestFacts(g, u, ltp', dups', st', ws');
    hide Complete;
    forall i | 0 <= i < |ws| ensures ws[i] == ws'[i] {
      SortedInside(ws, ws', place, i);
      SortedInside(ws', ws, place', i);
      if place[i] > i {
        SortedIndex(ws', i, place[i]);
        SortedIndex(ws, i, place'[i]);
        LessIrreflexive(ws'[i], ws[i]);
      }
    }
  }

  /** The word data, the elements and their places are determined by the words. */
  lemma SameFound<E>(g: Generators<E>, ws: seq<Word>, fd: Found<E>, fd': Found<E>)
    requires FoundOk(g, ws, fd) && FoundOk(g, ws, fd')
    ensures fd == fd'
  {
    assert fd.elements == fd'.elements;
    assert fd.places == fd'.places;
    SameIndex(|g.gens|, ws, fd.index, fd'.index);
    if fd.foundOne {
      assert fd.places[g.one] == fd.posOne;
    }
    if fd'.foundOne {
      assert fd'.places[g.one] == fd'.posOne;
    }
  }

  lemma SameIndex(k: nat, ws: seq<Word>, ix: Index, ix': Index)
    requires IndexOk(k, ws, ix) && IndexOk(k, ws, ix') && Sorted(ws)
    ensures ix == ix'
  {
    forall i | 0 <= i < |ws|
      ensures ix.first[i] == ix'.first[i] && ix.final[i] == ix'.final[i] && ix.length[i] == ix'.length[i]
      ensures ix.prefix[i] == ix'.prefix[i] && ix.suffix[i] == ix'.suffix[i] {
      assert Described(k, ws, ix, i) && Described(k, ws, ix', i);
      if |ws[i]| > 1 {
        SortedIndex(ws, ix.prefix[i], ix'.prefix[i]);
        SortedIndex(ws, ix.suffix[i], ix'.suffix[i]);
      }
    }
    assert ix.first == ix'.first && ix.final == ix'.final && ix.length == ix'.length && ix.prefix == ix'.prefix && ix.suffix == ix'.suffix;
  }

  lemma SameGraphs<E>(g: Generators<E>, ws: seq<Word>, fd: Found<E>, gr: Graphs, gr': Graphs)
    requires FoundOk(g, ws, fd)
    requires RightDone(g, ws, gr, |ws|, |ws|, 0) && RightDone(g, ws, gr', |ws|, |ws|, 0)
    requires LeftDone(g, ws, gr, |ws|, |ws|) && LeftDone(g, ws, gr', |ws|, |ws|)
    ensures gr.right == gr'.right && gr.left == gr'.left && gr.reduced == gr'.reduced
  {
    hide FoundOk;
    forall i | 0 <= i < |ws| ensures gr.right[i] == gr'.right[i] && gr.reduced[i] == gr'.reduced[i] && gr.left[i] == gr'.left[i] {
      forall a | 0 <= a < |g.gens| ensures gr.right[i][a] == gr'.right[i][a] && gr.reduced[i][a] == gr'.reduced[i][a] && gr.left[i][a] == gr'.left[i][a] {
        assert RightOk(g, ws, i, a, gr.right[i][a], gr.reduced[i][a]) && RightOk(g, ws, i, a, gr'.right[i][a], gr'.reduced[i][a]);
        assert LeftOk(g, ws, i, a, gr.left[i][a]) && LeftOk(g, ws, i, a, gr'.left[i][a]);
        SameValue(g, ws, fd, gr.right[i][a], gr'.right[i][a]);
        SameValue(g, ws, fd, gr.left[i][a], gr'.left[i][a]);
      }
    }
  }

  lemma SameLevels(ws: seq<Word>, lenindex: seq<nat>, wordlen: nat, lenindex': seq<nat>, wordlen': nat)
    requires Levels(ws, lenindex, wordlen) && Levels(ws, lenindex', wordlen')
    requires lenindex[wordlen] == lenindex'[wordlen'] == |ws|
    requires wordlen > 0 ==> lenindex[wordlen - 1] < |ws|
    requires wordlen' > 0 ==> lenindex'[wordlen' - 1] < |ws|
    ensures wordlen == wordlen' && lenindex == lenindex'
  {
    if wordlen < wordlen' {
      LevelOrder(ws, lenindex[wordlen], wordlen, lenindex'[wordlen' - 1], wordlen' - 1);
    } else if wordlen' < wordlen {
      LevelOrder(ws, lenindex'[wordlen'], wordlen', lenindex[wordlen - 1], wordlen - 1);
    }
    forall l | 0 <= l <= wordlen + 1 ensures lenindex[l] == lenindex'[l] {
      LevelOrder(ws, lenindex[l], l, lenindex'[l], l);
      LevelOrder(ws, lenindex'[l], l, lenindex[l], l);
    }
  }

  /** Whatever limits, batch sizes and kills led there, a complete enumeration of the same generators is the same. */
  lemma CompleteUnique<E>(g: Generators<E>, u: set<E>, ltp: seq<nat>, dups: nat, st: State<E>, ws: seq<Word>, st': State<E>, ws': seq<Word>)
    requires Complete(g, u, ltp, dups, st, ws) && Complete(g, u, ltp, dups, st', ws')
    ensures st == st' && ws == ws'
  {
    hide *;
    SameWords(g, u, ltp, dups, st, ws, ltp, dups, st', ws');
    CompleteParts(g, u, ltp, dups, st, ws);
    CompleteParts(g, u, ltp, dups, st', ws');
    SameFound(g, ws, st.found, st'.found);
    SameLevels(ws, st.lenindex, st.wordlen, st'.lenindex, st'.wordlen);
    SameGraphs(g, ws, st.found, st.graphs, st'.graphs);
  }

  lemma CompleteParts<E>(g: Generators<E>, u: set<E>, ltp: seq<nat>, dups: nat, st: State<E>, ws: seq<Word>)
    requires Complete(g, u, ltp, dups, st, ws)
    ensures FoundOk(g, ws, st.found) && RightDone(g, ws, st.graphs, |ws|, |ws|, 0) && LeftDone(g, ws, st.graphs, |ws|, |ws|)
    ensures Levels(ws, st.lenindex, st.wordlen) && st.lenindex[st.wordlen] == |ws| == st.pos
    ensures st.wordlen > 0 ==> st.lenindex[st.wordlen - 1] < |ws|
    ensures st.graphs.nrrules == dups + RuleCount(st.graphs.reduced, st.found.index.suffix, |g.gens|, |ws|, 0)
  {
    hide IndexOk, Sorted, ElementsOk, OneOk, RightOk, LeftOk, InSemigroup, Behind, LettersOk, RuleCount;
  }
}
