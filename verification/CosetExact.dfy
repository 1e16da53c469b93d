/** What a finished table says about the congruence. */
module CosetExact {
  import opened Words
  import opened Derivations
  import opened CosetTable
  import opened CosetMeaning
  import opened CosetState
  import opened CosetCompress

  function Below(m: nat): (r: set<nat>)
    ensures forall c: nat :: c in r <==> c < m
  {
    if m == 0 then {} else Below(m - 1) + {m - 1}
  }

  lemma OneMore(s: set<nat>, x: nat)
    requires x !in s
    ensures |s + {x}| == |s| + 1
  {
  }

  lemma {:induction false} BelowSize(m: nat)
    ensures |Below(m)| == m
  {
    if m > 0 {
      BelowSize(m - 1);
      var s, x: nat := Below(m - 1), m - 1;
      assert x !in s;
      OneMore(s, x);
    }
  }

  /** The procedure has finished with the cosets in `live`: every relation holds at every one of them. */
  ghost predicate Finished(s: System, k: nat, t: Table, n: nat, live: set<nat>, rep: seq<Word>) {
    && MeaningOk(s, k, t, n, live, rep)
    && SatisfiesSystem(s, t, live)
  }

  // ----- renumbering -----

  ghost function AsPhi(c: Cosets, o: Order, sigma: Lookup): (phi: seq<nat>)
    requires forall x :: x in Alive(c, o) ==> x in sigma && 0 <= sigma[x] < c.active
  {
    seq(Size(o), x => if x in Alive(c, o) then sigma[x] else 0)
  }

  lemma RenumberedClosed(k: nat, c: Cosets, o: Order, t': Table, sigma: Lookup, names: seq<int>)
    requires |names| == c.active && (forall r :: 0 <= r < c.active ==> names[r] >= 0 && names[r] in Alive(c, o))
    requires Closed(c.tables.image, k, Size(o), Alive(c, o)) && Shape(t', k, c.active) && 0 in Alive(c, o)
    requires Renumbered(k, c, o, t', sigma) && Full(k, c, o) && Names(c, o, sigma, names)
    ensures Closed(t', k, c.active, Below(c.active)) && Complete(t', k, c.active, Below(c.active))
    ensures forall a, r {:trigger t'[a][r]} :: 0 <= a < k && 0 <= r < c.active ==>
              0 <= t'[a][r] < c.active && c.tables.image[a][names[r]] == names[t'[a][r]]
  {
    hide Renumbered, Full, Names, Alive;
    forall a, r {:trigger t'[a][r]} | 0 <= a < k && 0 <= r < c.active
      ensures 0 < t'[a][r] < c.active && names[r] >= 0 && names[r] < |c.tables.image[a]| && c.tables.image[a][names[r]] == names[t'[a][r]] {
      RenumberedAt(k, c, o, t', sigma, names, a, r);
    }
  }

  lemma RenumberedAt(k: nat, c: Cosets, o: Order, t': Table, sigma: Lookup, names: seq<int>, a: nat, r: nat)
    requires Closed(c.tables.image, k, Size(o), Alive(c, o)) && Shape(t', k, c.active) && 0 in Alive(c, o)
    requires Renumbered(k, c, o, t', sigma) && Full(k, c, o) && Names(c, o, sigma, names) && a < k && r < c.active
    ensures |names| == c.active && 0 <= names[r] < |c.tables.image[a]|
    ensures 0 < t'[a][r] < c.active && c.tables.image[a][names[r]] == names[t'[a][r]]
  {
    var x: nat := names[r];
    assert x in Alive(c, o) && sigma[x] == r && sigma[0] == 0;
    var y := c.tables.image[a][x];
    assert y != UNDEFINED && y > 0 && y in Alive(c, o) && t'[a][r] == sigma[y];
    var z: nat := names[sigma[y]];
    assert z in sigma && sigma[z] == sigma[y];
    assert z == y;
    assert sigma[y] == 0 ==> y == 0;
  }

  lemma RenumberedQuotient(k: nat, c: Cosets, o: Order, t': Table, sigma: Lookup)
    requires Closed(c.tables.image, k, Size(o), Alive(c, o)) && Shape(t', k, c.active)
    requires Renumbered(k, c, o, t', sigma) && Closed(t', k, c.active, Below(c.active))
    ensures Quotient(c.tables.image, k, Size(o), Alive(c, o), t', c.active, Below(c.active), AsPhi(c, o, sigma))
  {
  }

  /** Compressing a full table keeps its meaning. */
  lemma RenumberedFinished(s: System, k: nat, c: Cosets, o: Order, rep: seq<Word>, t': Table, sigma: Lookup, names: seq<int>) returns (rep': seq<Word>)
    requires Meaning(s, k, c, o, rep) && SatisfiesSystem(s, c.tables.image, Alive(c, o))
    requires Shape(t', k, c.active) && Renumbered(k, c, o, t', sigma) && Full(k, c, o) && Names(c, o, sigma, names)
    ensures Finished(s, k, t', c.active, Below(c.active), rep') && Complete(t', k, c.active, Below(c.active))
  {
    var t, n, live, m := c.tables.image, Size(o), Alive(c, o), c.active;
    var phi := AsPhi(c, o, sigma);
    rep' := seq(m, r requires 0 <= r < m => rep[names[r] as nat]);
    RenumberedClosed(k, c, o, t', sigma, names);
    RenumberedQuotient(k, c, o, t', sigma);
    assert names[0] == 0 by { assert sigma[0] == 0 && sigma[names[0]] == 0; }
    assert forall r :: 0 <= r < m ==> phi[names[r]] == r && phi[0] == 0;
    hide Renumbered, SatisfiesSystem, Quotient, Reached, Sound, Closed, Full, Alive, AsPhi;
    RenumberedSound(s, k, t, n, live, t', m, rep, rep', names);
    RenumberedReached(k, t, n, live, t', m, phi, rep, rep', names);
    RenumberedSatisfies(s, k, t, n, live, t', m, phi, names);
  }

  lemma RenumberedSound(s: System, k: nat, t: Table, n: nat, live: set<nat>, t': Table, m: nat, rep: seq<Word>, rep': seq<Word>, names: seq<int>)
    requires Closed(t, k, n, live) && Closed(t', k, m, Below(m)) && Sound(s, t, k, n, live, rep)
    requires |names| == m == |rep'| && |rep| == n
    requires forall r :: 0 <= r < m ==> names[r] >= 0 && names[r] in live && rep'[r] == rep[names[r]]
    requires forall a, r {:trigger t'[a][r]} :: 0 <= a < k && 0 <= r < m ==> 0 <= t'[a][r] < m && t[a][names[r]] == names[t'[a][r]]
    ensures Sound(s, t', k, m, Below(m), rep')
  {
    forall a, r | 0 <= a < k && r in Below(m) && t'[a][r] != UNDEFINED ensures Derives(s, rep'[r] + [a], rep'[t'[a][r]]) {
      RenumberedSoundAt(s, k, t, n, live, t', m, rep, rep', names, a, r);
    }
  }

  lemma RenumberedSoundAt(s: System, k: nat, t: Table, n: nat, live: set<nat>, t': Table, m: nat, rep: seq<Word>, rep': seq<Word>, names: seq<int>, a: nat, r: nat)
    requires Closed(t, k, n, live) && Shape(t', k, m) && Sound(s, t, k, n, live, rep)
    requires |names| == m == |rep'| && |rep| == n
    requires forall r :: 0 <= r < m ==> names[r] >= 0 && names[r] in live && rep'[r] == rep[names[r]]
    requires a < k && r < m && 0 <= t'[a][r] < m && t[a][names[r]] == names[t'[a][r]]
    ensures Derives(s, rep'[r] + [a], rep'[t'[a][r]])
  {
    var x, y: nat := names[r], t'[a][r];
    hide Derives;
    assert rep'[r] == rep[x] && rep'[y] == rep[names[y]];
    RenumberedEntry(s, t, k, n, live, rep, a, x) by { hide Sound; }
  }

  lemma RenumberedEntry(s: System, t: Table, k: nat, n: nat, live: set<nat>, rep: seq<Word>, a: nat, x: nat)
    requires Closed(t, k, n, live) && Sound(s, t, k, n, live, rep) && a < k && x in live && t[a][x] != UNDEFINED
    ensures Derives(s, rep[x] + [a], rep[t[a][x]])
  {
  }

  lemma RenumberedReached(k: nat, t: Table, n: nat, live: set<nat>, t': Table, m: nat, phi: seq<nat>, rep: seq<Word>, rep': seq<Word>, names: seq<int>)
    requires Closed(t, k, n, live) && Closed(t', k, m, Below(m)) && Quotient(t, k, n, live, t', m, Below(m), phi)
    requires 0 in live && phi[0] == 0 && |rep| == n && Reached(t, live, rep) && |names| == m == |rep'|
    requires forall r :: 0 <= r < m ==> names[r] >= 0 && names[r] in live && phi[names[r]] == r && rep'[r] == rep[names[r]]
    ensures Reached(t', Below(m), rep')
  {
    hide Quotient;
    forall r | r in Below(m) ensures Run(t', 0, rep'[r]) == r {
      var x: nat := names[r];
      assert Run(t, 0, rep[x]) == x;
      RunQuotient(t, k, n, live, t', m, Below(m), phi, 0, rep[x]);
    }
  }

  lemma RenumberedSatisfies(s: System, k: nat, t: Table, n: nat, live: set<nat>, t': Table, m: nat, phi: seq<nat>, names: seq<int>)
    requires Closed(t, k, n, live) && Closed(t', k, m, Below(m)) && Quotient(t, k, n, live, t', m, Below(m), phi)
    requires 0 in live && phi[0] == 0 && |names| == m && SatisfiesSystem(s, t, live)
    requires forall r :: 0 <= r < m ==> names[r] >= 0 && names[r] in live && phi[names[r]] == r
    ensures SatisfiesSystem(s, t', Below(m))
  {
    hide Quotient, Satisfies;
    forall p, r | p in s.both && r in Below(m) ensures Satisfies(t', r, p) {
      var x: nat := names[r];
      assert Satisfies(t, x, p);
      SatisfiesQuotient(t, k, n, live, t', m, Below(m), phi, x, p);
    }
    forall p | p in s.right ensures Satisfies(t', 0, p) {
      SatisfiesQuotient(t, k, n, live, t', m, Below(m), phi, 0, p);
    }
  }

  // ----- exactness -----

  /** Related words reach the same coset, or both run off the table. */
  lemma RelatedReachSame(s: System, k: nat, t: Table, n: nat, live: set<nat>, rep: seq<Word>, u: Word, v: Word)
    requires Finished(s, k, t, n, live, rep) && s.left == {} && Derives(s, u, v)
    ensures Run(t, 0, u) == Run(t, 0, v)
  {
    var ms :| Chain(s, ms, u, v);
    ChainKeepsRun(s, t, k, n, live, ms, u, v);
  }

  /** Words that reach the same coset are related; this holds at every moment. */
  lemma SameCosetRelated(s: System, k: nat, t: Table, n: nat, live: set<nat>, rep: seq<Word>, u: Word, v: Word)
    requires MeaningOk(s, k, t, n, live, rep) && Symmetric(s) && s.left == {}
    requires Run(t, 0, u) == Run(t, 0, v) != UNDEFINED
    ensures Derives(s, u, v)
  {
    hide Derives, Symmetric;
    RunSound(s, t, k, n, live, rep, 0, u);
    RunSound(s, t, k, n, live, rep, 0, v);
    var w := rep[Run(t, 0, u)];
    assert rep[0] + u == u && rep[0] + v == v;
    DerivesSym(s, v, w);
    DerivesTrans(s, u, w, v);
  }

  /** On words that reach cosets, being in the same coset is exactly being related. */
  lemma CosetsAreClasses(s: System, k: nat, t: Table, n: nat, live: set<nat>, rep: seq<Word>, u: Word, v: Word)
    requires Finished(s, k, t, n, live, rep) && Symmetric(s) && s.left == {}
    requires Run(t, 0, u) != UNDEFINED || Run(t, 0, v) != UNDEFINED
    ensures Run(t, 0, u) == Run(t, 0, v) <==> Derives(s, u, v)
  {
    if Derives(s, u, v) {
      RelatedReachSame(s, k, t, n, live, rep, u, v);
    } else if Run(t, 0, u) == Run(t, 0, v) {
      SameCosetRelated(s, k, t, n, live, rep, u, v);
    }
  }

  // ----- complete tables: the classes are numbered 0 .. m - 2 -----

  lemma RunOver(t: Table, k: nat, c: int, w: Word)
    requires |t| == k && Run(t, c, w) != UNDEFINED
    ensures Over(k, w)
    decreases |w|
  {
    if w != [] {
      RunOver(t, k, t[w[0]][c], w[1..]);
      assert w == [w[0]] + w[1..];
    }
  }

  /** In a complete table the nonempty words reach exactly the live cosets other than 0. */
  lemma ClassNumbers(s: System, k: nat, t: Table, n: nat, live: set<nat>, rep: seq<Word>)
    requires Finished(s, k, t, n, live, rep) && Complete(t, k, n, live)
    ensures forall w :: Nonempty(k, w) ==> Run(t, 0, w) > 0 && Run(t, 0, w) in live
    ensures forall c :: c in live && c > 0 ==> Nonempty(k, rep[c]) && Run(t, 0, rep[c]) == c
  {
    forall w | Nonempty(k, w) ensures Run(t, 0, w) > 0 && Run(t, 0, w) in live {
      RunComplete(t, k, n, live, 0, w);
      RunLive(t, k, n, live, 0, w);
    }
    forall c | c in live && c > 0 ensures Nonempty(k, rep[c]) && Run(t, 0, rep[c]) == c {
      RunOver(t, k, 0, rep[c]);
    }
  }

  // ----- incomplete tables: there are infinitely many classes -----

  /** `w` is `w1` followed by `i` letters `a`, where `w1` leads to `c`. */
  ghost predicate Blocked(t: Table, c: nat, a: Letter, i: nat, w: Word, w1: Word) {
    w == w1 + Power(a, i) && Run(t, 0, w1) == c
  }

  lemma RunBlocked(t: Table, c: nat, a: Letter, w: Word)
    requires a < |t| && c < |t[a]| && t[a][c] == UNDEFINED && w != [] && w[0] == a
    ensures Run(t, c, w) == UNDEFINED
  {
  }

  /** A pair that may be applied at `c` does not begin with the missing generator. */
  lemma BlockedLetter(s: System, k: nat, t: Table, n: nat, live: set<nat>, rep: seq<Word>, c: nat, a: Letter, p: Pair)
    requires Finished(s, k, t, n, live, rep) && c in live && a < k && t[a][c] == UNDEFINED && p.0 != []
    requires p in s.both || (p in s.right && c == 0)
    ensures p.0[0] != a
  {
    assert Satisfies(t, c, p);
    if p.0[0] == a {
      RunBlocked(t, c, a, p.0);
    }
  }

  /** A pair applied inside such a word is applied inside its first part, so the word keeps its shape. */
  lemma BlockedMove(s: System, k: nat, t: Table, n: nat, live: set<nat>, rep: seq<Word>, c: nat, a: Letter, i: nat, mv: Move, w1: Word) returns (w2: Word)
    requires Finished(s, k, t, n, live, rep) && s.left == {}
    requires forall p :: p in s.both || p in s.right ==> p.0 != []
    requires c in live && a < k && t[a][c] == UNDEFINED && i > 0
    requires Legal(s, mv) && Blocked(t, c, a, i, mv.Before(), w1)
    ensures Blocked(t, c, a, i, mv.After(), w2)
  {
    var p := (mv.lhs, mv.rhs);
    var w, l := mv.Before(), |mv.pre| + |mv.lhs|;
    if |mv.pre| >= |w1| {
      assert mv.lhs[0] == w[|mv.pre|] == a;
      assert mv.pre == [] ==> w1 == [];
      BlockedLetter(s, k, t, n, live, rep, c, a, p);
    }
    BlockedEnd(s, k, t, n, live, rep, c, a, i, mv, w1);
    var mid := w1[l..];
    assert w1 == w[..|w1|] && w[..l] == mv.pre + mv.lhs;
    assert w1 == mv.pre + mv.lhs + mid;
    w2 := mv.pre + mv.rhs + mid;
    var x := Run(t, 0, mv.pre);
    RunTwo(t, mv.pre, mv.lhs, mid);
    RunTwo(t, mv.pre, mv.rhs, mid);
    BlockedPrefix(s, k, t, n, live, rep, c, mv, w1, mid);
    assert mv.post == w[l..] && w[l..] == mid + Power(a, i);
    assert mv.After() == w2 + Power(a, i);
  }

  lemma RunTwo(t: Table, u: Word, v: Word, w: Word)
    ensures Run(t, 0, u + v + w) == Run(t, Run(t, Run(t, 0, u), v), w)
  {
    RunAppend(t, 0, u + v, w);
    RunAppend(t, 0, u, v);
  }

  /** Both sides of the pair lead from the same live coset to the same coset. */
  lemma BlockedPrefix(s: System, k: nat, t: Table, n: nat, live: set<nat>, rep: seq<Word>, c: nat, mv: Move, w1: Word, mid: Word)
    requires Finished(s, k, t, n, live, rep) && s.left == {} && Legal(s, mv)
    requires w1 == mv.pre + mv.lhs + mid && Run(t, 0, w1) == c
    ensures Run(t, Run(t, 0, mv.pre), mv.lhs) == Run(t, Run(t, 0, mv.pre), mv.rhs)
  {
    var p := (mv.lhs, mv.rhs);
    var x := Run(t, 0, mv.pre);
    RunTwo(t, mv.pre, mv.lhs, mid);
    RunLive(t, k, n, live, 0, mv.pre);
    if x == UNDEFINED {
      NothingFromUndefined(t, mv.lhs);
      NothingFromUndefined(t, mid);
      assert false;
    }
    assert Satisfies(t, x, p);
  }

  lemma NothingFromUndefined(t: Table, w: Word)
    ensures Run(t, UNDEFINED, w) == UNDEFINED
  {
  }

  /** The pair ends before the run of letters `a` begins. */
  lemma BlockedEnd(s: System, k: nat, t: Table, n: nat, live: set<nat>, rep: seq<Word>, c: nat, a: Letter, i: nat, mv: Move, w1: Word)
    requires Finished(s, k, t, n, live, rep) && s.left == {}
    requires c in live && a < k && t[a][c] == UNDEFINED && i > 0
    requires Legal(s, mv) && Blocked(t, c, a, i, mv.Before(), w1) && |mv.pre| < |w1|
    ensures |mv.pre| + |mv.lhs| <= |w1|
  {
    var p := (mv.lhs, mv.rhs);
    var w, l := mv.Before(), |mv.pre| + |mv.lhs|;
    if l > |w1| {
      assert w[..|mv.pre|] == mv.pre && w[..|w1|] == w1 && w[..l] == mv.pre + mv.lhs;
      var rest, tail := w1[|mv.pre|..], w[|w1|..l];
      assert w1 == mv.pre + rest && w[..l] == w1 + tail;
      assert tail[0] == w[|w1|] == a;
      var x := Run(t, 0, mv.pre);
      RunLive(t, k, n, live, 0, mv.pre);
      RunAppend(t, 0, mv.pre, rest);
      if x == UNDEFINED {
        NothingFromUndefined(t, rest);
        assert false;
      }
      assert Satisfies(t, x, p);
      RunAppend(t, 0, mv.pre, mv.lhs);
      RunAppend(t, 0, w1, tail);
      RunBlocked(t, c, a, tail);
      assert false;
    }
  }

  lemma {:induction false} BlockedChain(s: System, k: nat, t: Table, n: nat, live: set<nat>, rep: seq<Word>, c: nat, a: Letter, i: nat,
                                        ms: seq<Move>, u: Word, v: Word, w1: Word) returns (w2: Word)
    requires Finished(s, k, t, n, live, rep) && s.left == {}
    requires forall p :: p in s.both || p in s.right ==> p.0 != []
    requires c in live && a < k && t[a][c] == UNDEFINED && i > 0
    requires Chain(s, ms, u, v) && Blocked(t, c, a, i, u, w1)
    ensures Blocked(t, c, a, i, v, w2)
  {
    if ms == [] {
      w2 := w1;
    } else {
      var w3 := BlockedMove(s, k, t, n, live, rep, c, a, i, ms[0], w1);
      w2 := BlockedChain(s, k, t, n, live, rep, c, a, i, ms[1..], ms[0].After(), v, w3);
    }
  }

  /** If the image of `c` under `a` is missing, the words `rep[c] a a ... a` are pairwise unrelated. */
  lemma MissingEntrySeparates(s: System, k: nat, t: Table, n: nat, live: set<nat>, rep: seq<Word>, c: nat, a: Letter, i: nat, j: nat)
    requires Finished(s, k, t, n, live, rep) && s.left == {}
    requires forall p :: p in s.both || p in s.right ==> p.0 != []
    requires c in live && a < k && t[a][c] == UNDEFINED && 0 < i < j
    ensures !Derives(s, rep[c] + Power(a, i), rep[c] + Power(a, j))
  {
    if Derives(s, rep[c] + Power(a, i), rep[c] + Power(a, j)) {
      var u, v := rep[c] + Power(a, i), rep[c] + Power(a, j);
      var ms :| Chain(s, ms, u, v);
      var w := BlockedChain(s, k, t, n, live, rep, c, a, i, ms, u, v, rep[c]);
      var tail := Power(a, j - i);
      assert w == v[..|w|] && v[..|w|] == rep[c] + tail;
      RunAppend(t, 0, rep[c], tail);
      RunBlocked(t, c, a, tail);
      assert false;
    }
  }

  // ----- counting classes -----

  ghost predicate RelatedToOne(s: System, w: Word, ws: seq<Word>) {
    exists i :: 0 <= i < |ws| && Derives(s, w, ws[i])
  }

  /** Every nonempty word is related to one of the words. */
  ghost predicate Covers(s: System, k: nat, ws: seq<Word>) {
    forall w :: Nonempty(k, w) ==> RelatedToOne(s, w, ws)
  }

  /** The nonempty words fall into exactly `n` classes. */
  ghost predicate ClassCount(s: System, k: nat, n: nat) {
    exists ws :: |ws| == n && Unrelated(s, k, ws) && Covers(s, k, ws)
  }

  lemma RepsUnrelated(s: System, k: nat, t: Table, m: nat, rep: seq<Word>, i: nat, j: nat)
    requires Finished(s, k, t, m, Below(m), rep) && Complete(t, k, m, Below(m)) && Symmetric(s) && s.left == {}
    requires |rep| == m && 0 < i < j < m
    ensures Nonempty(k, rep[i]) && Nonempty(k, rep[j]) && !Derives(s, rep[i], rep[j])
  {
    ClassNumbers(s, k, t, m, Below(m), rep);
    assert i in Below(m) && j in Below(m);
    hide Finished, Derives, Symmetric, Complete, Below;
    CosetsAreClasses(s, k, t, m, Below(m), rep, rep[i], rep[j]);
  }

  lemma RepsCover(s: System, k: nat, t: Table, m: nat, rep: seq<Word>, w: Word)
    requires Finished(s, k, t, m, Below(m), rep) && Complete(t, k, m, Below(m)) && Symmetric(s) && s.left == {}
    requires |rep| == m && Nonempty(k, w)
    ensures 0 < Run(t, 0, w) < m && Nonempty(k, rep[Run(t, 0, w)]) && Derives(s, w, rep[Run(t, 0, w)])
  {
    ClassNumbers(s, k, t, m, Below(m), rep);
    hide Finished, Derives, Symmetric, Complete;
    CosetsAreClasses(s, k, t, m, Below(m), rep, w, rep[Run(t, 0, w)]);
  }

  /** A complete finished table has one coset for every class, and coset 0. */
  lemma CompleteCounts(s: System, k: nat, t: Table, m: nat, rep: seq<Word>)
    requires Finished(s, k, t, m, Below(m), rep) && Complete(t, k, m, Below(m)) && Symmetric(s) && s.left == {} && m > 0
    ensures ClassCount(s, k, m - 1)
  {
    assert |rep| == m;
    var ws := rep[1..];
    hide *;
    assert Unrelated(s, k, ws) by { RepsAllUnrelated(s, k, t, m, rep); }
    assert Covers(s, k, ws) by { RepsAllCover(s, k, t, m, rep); }
    CountedBy(s, k, ws);
  }

  lemma CountedBy(s: System, k: nat, ws: seq<Word>)
    requires Unrelated(s, k, ws) && Covers(s, k, ws)
    ensures ClassCount(s, k, |ws|)
  {
  }

  lemma RepsAllUnrelated(s: System, k: nat, t: Table, m: nat, rep: seq<Word>)
    requires Finished(s, k, t, m, Below(m), rep) && Complete(t, k, m, Below(m)) && Symmetric(s) && s.left == {}
    requires |rep| == m > 0
    ensures Unrelated(s, k, rep[1..])
  {
    hide *;
    var ws := rep[1..];
    forall i | 0 <= i < |ws| ensures Nonempty(k, ws[i]) {
      RepNonempty(s, k, t, m, rep, i + 1);
    }
    forall i, j | 0 <= i < j < |ws| ensures !Derives(s, ws[i], ws[j]) {
      RepsUnrelated(s, k, t, m, rep, i + 1, j + 1);
    }
    UnrelatedFrom(s, k, ws);
  }

  lemma RepNonempty(s: System, k: nat, t: Table, m: nat, rep: seq<Word>, i: nat)
    requires Finished(s, k, t, m, Below(m), rep) && Complete(t, k, m, Below(m)) && |rep| == m && 0 < i < m
    ensures Nonempty(k, rep[i])
  {
    ClassNumbers(s, k, t, m, Below(m), rep);
  }

  lemma RepsAllCover(s: System, k: nat, t: Table, m: nat, rep: seq<Word>)
    requires Finished(s, k, t, m, Below(m), rep) && Complete(t, k, m, Below(m)) && Symmetric(s) && s.left == {}
    requires |rep| == m > 0
    ensures Covers(s, k, rep[1..])
  {
    hide Finished, Derives, Symmetric, Complete, Run, Nonempty, Below;
    forall w | Nonempty(k, w) ensures RelatedToOne(s, w, rep[1..]) {
      RepsCover(s, k, t, m, rep, w);
      assert rep[1..][Run(t, 0, w) - 1] == rep[Run(t, 0, w)];
    }
  }

  function Powers(w: Word, a: Letter, n: nat): seq<Word> {
    seq(n, i requires 0 <= i < n => w + Power(a, i + 1))
  }

  /** An incomplete finished table means arbitrarily many classes. */
  lemma IncompleteUnbounded(s: System, k: nat, t: Table, n: nat, live: set<nat>, rep: seq<Word>, count: nat) returns (ws: seq<Word>)
    requires Finished(s, k, t, n, live, rep) && !Complete(t, k, n, live) && s.left == {}
    requires forall p :: p in s.both || p in s.right ==> p.0 != []
    ensures |ws| == count && Unrelated(s, k, ws)
  {
    hide *;
    var a, c := MissingEntry(s, k, t, n, live, rep);
    ws := Powers(rep[c], a, count);
    PowersNonempty(k, rep[c], a, count);
    forall i, j | 0 <= i < j < count ensures !Derives(s, ws[i], ws[j]) {
      MissingEntrySeparates(s, k, t, n, live, rep, c, a, i + 1, j + 1);
    }
    UnrelatedFrom(s, k, ws);
  }

  lemma MissingEntry(s: System, k: nat, t: Table, n: nat, live: set<nat>, rep: seq<Word>) returns (a: nat, c: nat)
    requires Finished(s, k, t, n, live, rep) && !Complete(t, k, n, live)
    ensures a < k == |t| && c in live && c < |t[a]| && t[a][c] == UNDEFINED && c < |rep| && Over(k, rep[c])
  {
    a, c :| 0 <= a < k && c in live && t[a][c] == UNDEFINED;
    assert c < |rep| && Run(t, 0, rep[c]) == c;
    hide Sound, SatisfiesSystem, Derives;
    RunOver(t, k, 0, rep[c]);
  }

  lemma PowersNonempty(k: nat, w: Word, a: Letter, n: nat)
    requires Over(k, w) && a < k
    ensures var ws := Powers(w, a, n); |ws| == n && forall i :: 0 <= i < n ==> Nonempty(k, ws[i]) && ws[i] == w + Power(a, i + 1)
  {
  }

  lemma UnrelatedFrom(s: System, k: nat, ws: seq<Word>)
    requires forall i :: 0 <= i < |ws| ==> Nonempty(k, ws[i])
    requires forall i, j :: 0 <= i < j < |ws| ==> !Derives(s, ws[i], ws[j])
    ensures Unrelated(s, k, ws)
  {
  }

  /** More than `n` pairwise unrelated words cannot fall into `n` classes. */
  lemma {:induction false} TooManyUnrelated(s: System, k: nat, ws: seq<Word>, vs: seq<Word>)
    requires Symmetric(s) && Unrelated(s, k, ws)
    requires forall i :: 0 <= i < |ws| ==> RelatedToOne(s, ws[i], vs)
    ensures |ws| <= |vs|
    decreases |vs|
  {
    hide Derives, Symmetric;
    if ws != [] {
      var last := ws[|ws| - 1];
      assert RelatedToOne(s, last, vs);
      var j :| 0 <= j < |vs| && Derives(s, last, vs[j]);
      var ws', vs' := ws[..|ws| - 1], vs[..j] + vs[j + 1..];
      forall i | 0 <= i < |ws'| ensures RelatedToOne(s, ws'[i], vs') {
        assert ws'[i] == ws[i] && RelatedToOne(s, ws[i], vs);
        var h :| 0 <= h < |vs| && Derives(s, ws[i], vs[h]);
        if h == j {
          DerivesSym(s, last, vs[j]);
          DerivesTrans(s, ws[i], vs[j], last);
          assert false;
        }
        assert vs'[if h < j then h else h - 1] == vs[h];
      }
      TooManyUnrelated(s, k, ws', vs');
    }
  }

  /** So the number of live cosets other than 0 counts the classes exactly when the table is complete. */
  lemma CountIffComplete(s: System, k: nat, t: Table, n: nat, live: set<nat>, rep: seq<Word>)
    requires Finished(s, k, t, n, live, rep) && Symmetric(s) && s.left == {}
    requires forall p :: p in s.both || p in s.right ==> p.0 != []
    requires Complete(t, k, n, live) ==> live == Below(n)
    ensures |live| > 0
    ensures ClassCount(s, k, |live| - 1) <==> Complete(t, k, n, live)
  {
    assert 0 in live;
    if Complete(t, k, n, live) {
      BelowSize(n);
      CompleteCounts(s, k, t, n, rep);
    } else if ClassCount(s, k, |live| - 1) {
      var vs :| |vs| == |live| - 1 && Unrelated(s, k, vs) && Covers(s, k, vs);
      var ws := IncompleteUnbounded(s, k, t, n, live, rep, |live|);
      hide Finished, Derives, Complete, Symmetric;
      forall i | 0 <= i < |ws| ensures RelatedToOne(s, ws[i], vs) { assert Nonempty(k, ws[i]); }
      TooManyUnrelated(s, k, ws, vs);
    }
  }
}
