/**
 * The Cayley graph of an enumerated semigroup as a coset table: `TC::prefill`.
 * Lines cited here are those of src/cong/tc.cc.
 */
module CayleyPrefill {
  import opened Words
  import opened Derivations
  import opened Evaluation
  import opened PinWords
  import opened PinCayley
  import opened PinState
  import opened PinLevels
  import opened PinEnumerate
  import opened PinPaths
  import PinPresentation
  import opened CosetTable
  import opened CosetTrace
  import opened CosetPrefill
  import opened ToddCoxeter
  import opened FroidurePin

  /** The defining relations present the semigroup. */
  ghost predicate Presents<E>(g: Generators<E>, defining: seq<Pair>) {
    forall v, w {:trigger Eval(g, v), Eval(g, w)} :: Proper(g, v) && Proper(g, w) ==>
      (Eval(g, v) == Eval(g, w) <==> Derives(Defining(defining), v, w))
  }

  ghost function Defining(defining: seq<Pair>): System {
    System(Sym(PairsOf(defining)), {}, {})
  }

  // ----- values of traced words -----

  /** The value of a word as it is traced. */
  ghost function Value<E>(g: Generators<E>, kind: Kind, w: Word): E {
    Eval(g, Key(kind, w))
  }

  lemma KeyProper<E>(g: Generators<E>, kind: Kind, w: Word)
    ensures Proper(g, Key(kind, w)) <==> Proper(g, w)
    ensures Key(kind, Key(kind, w)) == w
  {
    var k := Key(kind, w);
    ReverseTwice(w);
    if Proper(g, k) {
      forall i | 0 <= i < |w| ensures w[i] < |g.gens| {
        if kind == LeftSided { assert w[i] == k[|w| - 1 - i]; }
      }
    }
  }

  lemma KeyConcat(kind: Kind, v: Word, w: Word)
    ensures Key(kind, v + w) == if kind == LeftSided then Key(kind, w) + Key(kind, v) else Key(kind, v) + Key(kind, w)
  {
    ReverseConcat(v, w);
  }

  /** Words of equal value stay so when the same word is read after them. */
  lemma ValueAppend<E>(g: Generators<E>, u: set<E>, kind: Kind, v: Word, w: Word, x: Word)
    requires InSemigroup(g, u) && Proper(g, v) && Proper(g, w) && Over(|g.gens|, x) && Value(g, kind, v) == Value(g, kind, w)
    ensures Value(g, kind, v + x) == Value(g, kind, w + x)
  {
    KeyProper(g, kind, v);
    KeyProper(g, kind, w);
    KeyOver(g, kind, x);
    KeyConcat(kind, v, x);
    KeyConcat(kind, w, x);
    hide InSemigroup, Eval;
    if kind == LeftSided {
      EvalPrepend(g, u, Key(kind, x), Key(kind, v), Key(kind, w));
    } else {
      EvalAppend(g, u, Key(kind, v), Key(kind, w), Key(kind, x));
    }
  }

  lemma ValuePrepend<E>(g: Generators<E>, u: set<E>, kind: Kind, v: Word, w: Word, x: Word)
    requires InSemigroup(g, u) && Proper(g, v) && Proper(g, w) && Over(|g.gens|, x) && Value(g, kind, v) == Value(g, kind, w)
    ensures Value(g, kind, x + v) == Value(g, kind, x + w)
  {
    KeyProper(g, kind, v);
    KeyProper(g, kind, w);
    KeyOver(g, kind, x);
    KeyConcat(kind, x, v);
    KeyConcat(kind, x, w);
    hide InSemigroup, Eval;
    if kind == LeftSided {
      EvalAppend(g, u, Key(kind, v), Key(kind, w), Key(kind, x));
    } else {
      EvalPrepend(g, u, Key(kind, x), Key(kind, v), Key(kind, w));
    }
  }

  lemma KeyOver<E>(g: Generators<E>, kind: Kind, x: Word)
    ensures Over(|g.gens|, Key(kind, x)) <==> Over(|g.gens|, x)
  {
    if x == [] {
    } else {
      KeyProper(g, kind, x);
    }
  }

  // ----- the table -----

  /** The word that leads to a coset: nothing for coset 0, and for the others the word of the element before it. */
  ghost function CosetWord(kind: Kind, ws: seq<Word>, c: nat): Word
    requires c <= |ws|
  {
    if c == 0 then [] else Key(kind, ws[c - 1])
  }

  ghost function CosetWords(kind: Kind, ws: seq<Word>): seq<Word> {
    seq(|ws| + 1, c requires 0 <= c < |ws| + 1 => CosetWord(kind, ws, c))
  }

  /** The words stand for the elements, once each. */
  ghost predicate Exactly<E>(g: Generators<E>, ws: seq<Word>) {
    WordsOver(g, ws) && forall i, j :: 0 <= i < |ws| && 0 <= j < |ws| && Eval(g, ws[i]) == Eval(g, ws[j]) ==> i == j
  }

  /** The entry of coset `c` under `a` is the coset of the product. */
  ghost predicate EntryRight<E>(g: Generators<E>, kind: Kind, ws: seq<Word>, c: nat, a: nat, t: int)
    requires c <= |ws|
  {
    0 < t <= |ws| && Value(g, kind, CosetWord(kind, ws, t)) == Value(g, kind, CosetWord(kind, ws, c) + [a])
  }

  ghost predicate CayleyTable<E>(g: Generators<E>, kind: Kind, ws: seq<Word>, t: Table) {
    && Shape(t, |g.gens|, |ws| + 1)
    && forall a, c :: 0 <= a < |g.gens| && 0 <= c <= |ws| ==> EntryRight(g, kind, ws, c, a, t[a][c])
  }

  lemma CosetWordProper<E>(g: Generators<E>, kind: Kind, ws: seq<Word>, c: nat)
    requires WordsOver(g, ws) && c <= |ws|
    ensures Over(|g.gens|, CosetWord(kind, ws, c)) && (c > 0 ==> Proper(g, CosetWord(kind, ws, c)))
  {
    if c > 0 {
      KeyProper(g, kind, ws[c - 1]);
    }
  }

  lemma CosetValue<E>(g: Generators<E>, kind: Kind, ws: seq<Word>, c: nat)
    requires 0 < c <= |ws|
    ensures Value(g, kind, CosetWord(kind, ws, c)) == Eval(g, ws[c - 1])
  {
    KeyProper(g, kind, ws[c - 1]);
  }

  /** Reading a word leads to the coset of the product. */
  lemma {:induction false} TracedValue<E>(g: Generators<E>, u: set<E>, kind: Kind, ws: seq<Word>, t: Table, c: nat, w: Word)
    requires InSemigroup(g, u) && WordsOver(g, ws) && CayleyTable(g, kind, ws, t) && c <= |ws| && Proper(g, w)
    ensures 0 < CosetTable.Run(t, c, w) <= |ws|
    ensures Value(g, kind, CosetWord(kind, ws, CosetTable.Run(t, c, w))) == Value(g, kind, CosetWord(kind, ws, c) + w)
    decreases |w|
  {
    hide *;
    FirstLetter(g, w);
    var a, rest := w[0], w[1..];
    EntryAt(g, kind, ws, t, c, a);
    var d := t[a][c];
    RunFirst(t, c, w);
    if rest == [] {
      RunNothing(t, d);
      assert w == [a];
    } else {
      TracedValue(g, u, kind, ws, t, d, rest);
      CosetWordProper(g, kind, ws, c);
      CosetWordProper(g, kind, ws, d);
      var x := CosetWord(kind, ws, c);
      ProperLetter(g, x, a);
      ProperOver(g, rest);
      ValueAppend(g, u, kind, CosetWord(kind, ws, d), x + [a], rest);
      SplitFirst(x, w);
    }
  }

  lemma FirstLetter<E>(g: Generators<E>, w: Word)
    requires Proper(g, w)
    ensures w != [] && w[0] < |g.gens| && (w[1..] != [] ==> Proper(g, w[1..]))
  {
  }

  lemma ProperOver<E>(g: Generators<E>, w: Word)
    requires Proper(g, w)
    ensures Over(|g.gens|, w)
  {
  }

  lemma EntryAt<E>(g: Generators<E>, kind: Kind, ws: seq<Word>, t: Table, c: nat, a: nat)
    requires CayleyTable(g, kind, ws, t) && c <= |ws| && a < |g.gens|
    ensures a < |t| && c < |t[a]| && 0 < t[a][c] <= |ws|
    ensures Value(g, kind, CosetWord(kind, ws, t[a][c])) == Value(g, kind, CosetWord(kind, ws, c) + [a])
  {
    hide Value, CosetWord;
    assert EntryRight(g, kind, ws, c, a, t[a][c]);
  }

  lemma RunNothing(t: Table, c: nat)
    ensures CosetTable.Run(t, c, []) == c
  {
  }

  lemma ProperLetter<E>(g: Generators<E>, x: Word, a: nat)
    requires Over(|g.gens|, x) && a < |g.gens|
    ensures Proper(g, x + [a])
  {
  }

  lemma SplitFirst(x: Word, w: Word)
    requires w != []
    ensures (x + [w[0]]) + w[1..] == x + w
  {
    assert [w[0]] + w[1..] == w;
  }

  lemma RunFirst(t: Table, c: nat, w: Word)
    requires w != [] && w[0] < |t| && c < |t[w[0]]|
    ensures CosetTable.Run(t, c, w) == CosetTable.Run(t, t[w[0]][c], w[1..])
  {
  }

  /** Cosets of equal value are equal. */
  lemma SameCoset<E>(g: Generators<E>, kind: Kind, ws: seq<Word>, c: nat, d: nat)
    requires Exactly(g, ws) && 0 < c <= |ws| && 0 < d <= |ws|
    requires Value(g, kind, CosetWord(kind, ws, c)) == Value(g, kind, CosetWord(kind, ws, d))
    ensures c == d
  {
    CosetValue(g, kind, ws, c);
    CosetValue(g, kind, ws, d);
  }

  // ----- what the table gives -----

  lemma CayleyFull<E>(g: Generators<E>, kind: Kind, ws: seq<Word>, t: Table)
    requires CayleyTable(g, kind, ws, t)
    ensures FullTable(t, |g.gens|, |ws| + 1)
  {
    hide Value;
    forall a, c | 0 <= a < |g.gens| && 0 <= c < |ws| + 1 ensures 0 < t[a][c] < |ws| + 1 {
      assert EntryRight(g, kind, ws, c, a, t[a][c]);
    }
  }

  lemma CayleyReached<E>(g: Generators<E>, u: set<E>, kind: Kind, ws: seq<Word>, t: Table, c: nat)
    requires InSemigroup(g, u) && Exactly(g, ws) && CayleyTable(g, kind, ws, t) && c <= |ws|
    ensures CosetTable.Run(t, 0, CosetWord(kind, ws, c)) == c
  {
    if c > 0 {
      var w := CosetWord(kind, ws, c);
      CosetWordProper(g, kind, ws, c);
      hide InSemigroup, CayleyTable, Value, Exactly;
      ExactlyOver(g, ws);
      TracedValue(g, u, kind, ws, t, 0, w);
      assert CosetWord(kind, ws, 0) + w == w;
      SameCoset(g, kind, ws, CosetTable.Run(t, 0, w), c);
    }
  }

  lemma ExactlyOver<E>(g: Generators<E>, ws: seq<Word>)
    requires Exactly(g, ws)
    ensures WordsOver(g, ws)
  {
  }

  lemma CayleySatisfies<E>(g: Generators<E>, u: set<E>, kind: Kind, ws: seq<Word>, t: Table, p: Pair, c: nat)
    requires InSemigroup(g, u) && Exactly(g, ws) && CayleyTable(g, kind, ws, t) && c <= |ws|
    requires Proper(g, p.0) && Proper(g, p.1) && Value(g, kind, p.0) == Value(g, kind, p.1)
    ensures Satisfies(t, c, p)
  {
    ExactlyOver(g, ws);
    hide InSemigroup, CayleyTable, Value, Exactly, Proper;
    TracedValue(g, u, kind, ws, t, c, p.0);
    TracedValue(g, u, kind, ws, t, c, p.1);
    CosetWordProper(g, kind, ws, c);
    ValuePrepend(g, u, kind, p.0, p.1, CosetWord(kind, ws, c));
    SameCoset(g, kind, ws, CosetTable.Run(t, c, p.0), CosetTable.Run(t, c, p.1));
  }

  /** Words of equal value are related by the congruence to be traced. */
  lemma ValueRelated<E>(g: Generators<E>, kind: Kind, defining: seq<Pair>, generating: seq<Pair>, v: Word, w: Word)
    requires Presents(g, defining) && Proper(g, v) && Proper(g, w) && Value(g, kind, v) == Value(g, kind, w)
    ensures Derives(TracedSystem(kind, defining, generating), v, w)
  {
    var v', w' := Key(kind, v), Key(kind, w);
    KeyProper(g, kind, v);
    KeyProper(g, kind, w);
    hide TracedSystem, Key, Derives, Eval, Proper;
    assert Eval(g, v') == Eval(g, w');
    DefiningPart(kind, defining, generating);
    DerivesWiden(Defining(defining), Presentation(kind, defining, generating), v', w');
    hide Presentation;
    KeyRelated(kind, defining, generating, v', w');
  }

  lemma DefiningPart(kind: Kind, defining: seq<Pair>, generating: seq<Pair>)
    ensures var d, s := Defining(defining), Presentation(kind, defining, generating); d.both <= s.both && d.right <= s.right && d.left <= s.left
  {
    var a, b := PairsOf(generating), PairsOf(defining);
    forall p | p in Sym(b) ensures p in Sym(a + b) {
      if p in Flipped(b) {
        var q :| q in b && p == (q.1, q.0);
        assert q in a + b;
      }
    }
  }

  lemma RelationValue<E>(g: Generators<E>, kind: Kind, defining: seq<Pair>, p: Pair)
    requires Presents(g, defining) && Relations(|g.gens|, defining) && p in PairsOf(Oriented(kind, defining))
    ensures Proper(g, p.0) && Proper(g, p.1) && Value(g, kind, p.0) == Value(g, kind, p.1)
  {
    var q := DefiningPair(kind, defining, p);
    DefiningHolds(g, defining, q);
    hide Eval;
    KeyProper(g, kind, q.0);
    KeyProper(g, kind, q.1);
  }

  lemma DefiningPair(kind: Kind, defining: seq<Pair>, p: Pair) returns (q: Pair)
    requires p in PairsOf(Oriented(kind, defining))
    ensures q in PairsOf(defining) && p == (Key(kind, q.0), Key(kind, q.1))
  {
    var j :| 0 <= j < |Oriented(kind, defining)| && Oriented(kind, defining)[j] == p;
    q := defining[j];
  }

  lemma DefiningHolds<E>(g: Generators<E>, defining: seq<Pair>, q: Pair)
    requires Presents(g, defining) && Relations(|g.gens|, defining) && q in PairsOf(defining)
    ensures Proper(g, q.0) && Proper(g, q.1) && Eval(g, q.0) == Eval(g, q.1)
  {
    var j :| 0 <= j < |defining| && defining[j] == q;
    assert IsRelation(|g.gens|, defining[j]);
    var m := Move([], q.0, q.1, []);
    assert m.Before() == q.0 && m.After() == q.1;
    assert Proper(g, q.0) && Proper(g, q.1);
    DerivesMove(Defining(defining), m);
    hide Eval, Derives, Defining;
  }

  /** The Cayley graph of the semigroup is what the procedure may start from. */
  lemma CayleyFills<E>(g: Generators<E>, u: set<E>, kind: Kind, defining: seq<Pair>, generating: seq<Pair>, ws: seq<Word>, t: Table)
    requires InSemigroup(g, u) && Exactly(g, ws) && CayleyTable(g, kind, ws, t) && Presents(g, defining) && Relations(|g.gens|, defining)
    ensures Fills(TracedSystem(kind, defining, generating), |g.gens|, PairsOf(Oriented(kind, defining)), t, |ws| + 1, CosetWords(kind, ws))
  {
    var s, rep, n := TracedSystem(kind, defining, generating), CosetWords(kind, ws), |ws| + 1;
    CayleyFull(g, kind, ws, t);
    ExactlyOver(g, ws);
    hide InSemigroup, Presents, Relations, TracedSystem, Derives, Satisfies, Value, Exactly, CosetTable.Run, Proper, Oriented, PairsOf;
    forall a, c | 0 <= a < |g.gens| && 0 <= c < n ensures Derives(s, rep[c] + [a], rep[t[a][c]]) {
      CayleySound(g, kind, defining, generating, ws, t, a, c);
    }
    forall c | 0 <= c < n ensures CosetTable.Run(t, 0, rep[c]) == c {
      CayleyReached(g, u, kind, ws, t, c);
    }
    forall p, c | p in PairsOf(Oriented(kind, defining)) && 0 <= c < n ensures Satisfies(t, c, p) {
      RelationValue(g, kind, defining, p);
      CayleySatisfies(g, u, kind, ws, t, p, c);
    }
  }

  lemma CayleySound<E>(g: Generators<E>, kind: Kind, defining: seq<Pair>, generating: seq<Pair>, ws: seq<Word>, t: Table, a: nat, c: nat)
    requires WordsOver(g, ws) && CayleyTable(g, kind, ws, t) && Presents(g, defining) && a < |g.gens| && c <= |ws|
    ensures 0 < t[a][c] <= |ws|
    ensures Derives(TracedSystem(kind, defining, generating), CosetWord(kind, ws, c) + [a], CosetWord(kind, ws, t[a][c]))
  {
    assert EntryRight(g, kind, ws, c, a, t[a][c]);
    CosetWordProper(g, kind, ws, c);
    CosetWordProper(g, kind, ws, t[a][c]);
    ProperLetter(g, CosetWord(kind, ws, c), a);
    hide Presents, Value, Derives, Proper, CayleyTable;
    ValueRelated(g, kind, defining, generating, CosetWord(kind, ws, c) + [a], CosetWord(kind, ws, t[a][c]));
  }

  // ----- filling the table -----

  /** The entry of row `r` for generator `a`: the letters, and below them the left or right Cayley graph. */
  function EntryOf<E>(semigroup: Semigroup<E>, kind: Kind, r: nat, a: nat): int
    requires semigroup.Valid() && semigroup.IsDone() && r <= |semigroup.Elements()| && a < |semigroup.g.gens|
    reads semigroup
  {
    Shapes(semigroup);
    if r == 0 then semigroup.letterToPos[a] + 1
    else if kind == LeftSided then semigroup.state.graphs.left[r - 1][a] + 1
    else semigroup.state.graphs.right[r - 1][a] + 1
  }

  lemma Shapes<E>(semigroup: Semigroup<E>)
    requires semigroup.Valid() && semigroup.IsDone()
    ensures var k, n := |semigroup.g.gens|, |semigroup.Elements()|;
            |semigroup.letterToPos| == k && Rows(semigroup.state.graphs.left, n, k) && Rows(semigroup.state.graphs.right, n, k)
            && |semigroup.words| == n
  {
    semigroup.Parts();
    semigroup.DoneParts();
    hide semigroup.Valid, RightOk, LeftOk, FoundOk, InSemigroup;
  }

  /** Lines 109-125. */
  method FillTable<E>(semigroup: Semigroup<E>, kind: Kind) returns (t: Table)
    requires semigroup.Valid() && semigroup.IsDone()
    ensures CayleyTable(semigroup.g, kind, semigroup.words, t) && Exactly(semigroup.g, semigroup.words)
  {
    hide *;
    Shapes(semigroup);
    var k, n := |semigroup.g.gens|, |semigroup.Elements()|;
    t := [];
    var a := 0;
    while a < k
      invariant a <= k && |t| == a
      invariant forall h :: 0 <= h < a ==> |t[h]| == n + 1 && forall r :: 0 <= r <= n ==> t[h][r] == EntryOf(semigroup, kind, r, h)
    {
      var column := [];
      var r := 0;
      while r <= n
        invariant r <= n + 1 && |column| == r && forall h :: 0 <= h < r ==> column[h] == EntryOf(semigroup, kind, h, a)
      {
        column := column + [EntryOf(semigroup, kind, r, a)];
        r := r + 1;
      }
      t := t + [column];
      a := a + 1;
    }
    ShapeNow(t, k, n + 1);
    FilledCayley(semigroup, kind, t);
  }

  lemma ShapeNow(t: Table, k: nat, n: nat)
    requires |t| == k && forall a :: 0 <= a < k ==> |t[a]| == n
    ensures Shape(t, k, n)
  {
  }

  lemma FilledCayley<E>(semigroup: Semigroup<E>, kind: Kind, t: Table)
    requires semigroup.Valid() && semigroup.IsDone() && Shape(t, |semigroup.g.gens|, |semigroup.Elements()| + 1)
    requires forall h, r :: 0 <= h < |t| && 0 <= r <= |semigroup.Elements()| ==> t[h][r] == EntryOf(semigroup, kind, r, h)
    ensures CayleyTable(semigroup.g, kind, semigroup.words, t) && Exactly(semigroup.g, semigroup.words)
  {
    Shapes(semigroup);
    forall a, c | 0 <= a < |semigroup.g.gens| && 0 <= c <= |semigroup.words| ensures EntryRight(semigroup.g, kind, semigroup.words, c, a, t[a][c]) {
      EntryIsRight(semigroup, kind, c, a);
      assert t[a][c] == EntryOf(semigroup, kind, c, a);
    }
    ElementsExact(semigroup);
    hide semigroup.Valid, EntryRight, EntryOf, Exactly;
  }

  lemma ElementsExact<E>(semigroup: Semigroup<E>)
    requires semigroup.Valid() && semigroup.IsDone()
    ensures Exactly(semigroup.g, semigroup.words)
  {
    semigroup.Parts();
    hide semigroup.Valid, AtRest, Sorted, IndexOk, Eval, InSemigroup, PinPresentation.DupsOk;
  }

  lemma EntryIsRight<E>(semigroup: Semigroup<E>, kind: Kind, c: nat, a: nat)
    requires semigroup.Valid() && semigroup.IsDone() && c <= |semigroup.words| && a < |semigroup.g.gens| && |semigroup.words| == |semigroup.Elements()|
    ensures EntryRight(semigroup.g, kind, semigroup.words, c, a, EntryOf(semigroup, kind, c, a))
  {
    var g, ws := semigroup.g, semigroup.words;
    semigroup.Parts();
    semigroup.DoneParts();
    Shapes(semigroup);
    var t := EntryOf(semigroup, kind, c, a);
    StandingEntry(semigroup, kind, c, a);
    hide semigroup.Valid, AtRest, FoundOk, InSemigroup, Eval, EntryOf;
    CosetValue(g, kind, ws, t);
    KeyLetter(kind, ws, c, a);
  }

  lemma KeyLetter(kind: Kind, ws: seq<Word>, c: nat, a: nat)
    requires c <= |ws|
    ensures Key(kind, CosetWord(kind, ws, c) + [a]) == if c == 0 then [a] else if kind == LeftSided then [a] + ws[c - 1] else ws[c - 1] + [a]
  {
    if c > 0 {
      ReverseTwice(ws[c - 1]);
      ReverseConcat(CosetWord(kind, ws, c), [a]);
      assert Reverse([a]) == [a];
    }
  }

  /** The entry stands for the letter, or for the product of the element with the generator. */
  lemma StandingEntry<E>(semigroup: Semigroup<E>, kind: Kind, c: nat, a: nat)
    requires semigroup.Valid() && semigroup.IsDone() && c <= |semigroup.words| && a < |semigroup.g.gens| && |semigroup.words| == |semigroup.Elements()|
    ensures var t := EntryOf(semigroup, kind, c, a); var ws := semigroup.words;
            0 < t <= |ws| && Eval(semigroup.g, ws[t - 1])
              == Eval(semigroup.g, if c == 0 then [a] else if kind == LeftSided then [a] + ws[c - 1] else ws[c - 1] + [a])
  {
    hide *;
    semigroup.Parts();
    semigroup.DoneParts();
    Shapes(semigroup);
    EntryIs(semigroup, kind, c, a);
    if c == 0 {
      LetterStands(semigroup.g, semigroup.words, semigroup.letterToPos, a);
    } else {
      ProductStands(semigroup.g, semigroup.words, semigroup.state, c - 1, a);
    }
  }

  lemma EntryIs<E>(semigroup: Semigroup<E>, kind: Kind, r: nat, a: nat)
    requires semigroup.Valid() && semigroup.IsDone() && r <= |semigroup.Elements()| && a < |semigroup.g.gens|
    requires a < |semigroup.letterToPos| && Rows(semigroup.state.graphs.left, |semigroup.Elements()|, |semigroup.g.gens|)
    requires Rows(semigroup.state.graphs.right, |semigroup.Elements()|, |semigroup.g.gens|)
    ensures r > 0 ==> r - 1 < |semigroup.state.graphs.left| && r - 1 < |semigroup.state.graphs.right|
    ensures r > 0 ==> a < |semigroup.state.graphs.left[r - 1]| && a < |semigroup.state.graphs.right[r - 1]|
    ensures EntryOf(semigroup, kind, r, a) == if r == 0 then semigroup.letterToPos[a] + 1
              else if kind == LeftSided then semigroup.state.graphs.left[r - 1][a] + 1 else semigroup.state.graphs.right[r - 1][a] + 1
  {
    hide semigroup.Valid;
  }

  lemma LetterStands<E>(g: Generators<E>, ws: seq<Word>, ltp: seq<nat>, a: nat)
    requires LettersOk(g, ws, ltp) && a < |g.gens|
    ensures a < |ltp| && ltp[a] < |ws| && Eval(g, ws[ltp[a]]) == Eval(g, [a])
  {
    hide Eval;
    assert Stands(g, ws, ltp[a], [a]);
  }

  lemma ProductStands<E>(g: Generators<E>, ws: seq<Word>, st: PinEnumerate.State<E>, i: nat, a: nat)
    requires Tabled(g, ws, st) && i < |ws| && a < |g.gens|
    ensures i < |st.graphs.right| && i < |st.graphs.left| && a < |st.graphs.right[i]| && a < |st.graphs.left[i]|
    ensures 0 <= st.graphs.right[i][a] < |ws| && Eval(g, ws[st.graphs.right[i][a]]) == Eval(g, ws[i] + [a])
    ensures 0 <= st.graphs.left[i][a] < |ws| && Eval(g, ws[st.graphs.left[i][a]]) == Eval(g, [a] + ws[i])
  {
    hide Eval, FoundOk;
    assert RightOk(g, ws, i, a, st.graphs.right[i][a], st.graphs.reduced[i][a]);
    assert LeftOk(g, ws, i, a, st.graphs.left[i][a]);
  }

  /** `prefill` (lines 104-127) for a congruence over an enumerated semigroup whose defining relations present it. */
  method Prefill<E>(semigroup: Semigroup<E>, kind: Kind, defining: seq<Pair>, generating: seq<Pair>) returns (tc: Enumeration)
    requires semigroup.Valid() && semigroup.IsDone()
    requires Presents(semigroup.g, defining) && Relations(|semigroup.g.gens|, defining) && Relations(|semigroup.g.gens|, generating)
    ensures fresh(tc) && tc.Valid() && tc.prefilled && tc.nrgens == |semigroup.g.gens| && tc.kind == kind
    ensures tc.defining == defining && tc.generating == generating
  {
    hide *;
    var t := FillTable(semigroup, kind);
    InUniverse(semigroup);
    CayleyFills(semigroup.g, semigroup.universe, kind, defining, generating, semigroup.words, t);
    SizeIs(semigroup);
    tc := new Enumeration.Prefilled(|semigroup.g.gens|, kind, defining, generating, t, |semigroup.Elements()| + 1, CosetWords(kind, semigroup.words));
  }

  lemma InUniverse<E>(semigroup: Semigroup<E>)
    requires semigroup.Valid()
    ensures InSemigroup(semigroup.g, semigroup.universe)
  {
    semigroup.Parts();
  }

  lemma SizeIs<E>(semigroup: Semigroup<E>)
    requires semigroup.Valid()
    ensures |semigroup.Elements()| == |semigroup.words|
  {
    semigroup.Parts();
  }

  /** The relations that the semigroup hands out present it. */
  lemma OwnRelationsPresent<E>(semigroup: Semigroup<E>, defining: seq<Pair>)
    requires semigroup.Valid() && semigroup.IsDone() && Tabled(semigroup.g, semigroup.words, semigroup.state)
    requires PairsOf(defining) == PinPresentation.Rules(semigroup.g, semigroup.words, semigroup.duplicateGens, semigroup.state).both
    ensures Presents(semigroup.g, defining)
  {
    hide semigroup.Valid, Tabled, PinPresentation.Rules, Derives, Eval, Proper;
    forall v, w | Proper(semigroup.g, v) && Proper(semigroup.g, w)
      ensures Eval(semigroup.g, v) == Eval(semigroup.g, w) <==> Derives(Defining(defining), v, w) {
      semigroup.Presents(v, w);
      assert PinPresentation.Relations(semigroup.g, semigroup.words, semigroup.duplicateGens, semigroup.state) == Defining(defining);
    }
  }
}
