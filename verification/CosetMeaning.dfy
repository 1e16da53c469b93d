/** What the table means for the presentation, and how far the relations have been applied. */
module CosetMeaning {
  import opened Words
  import opened ShortLex
  import opened Derivations
  import opened CosetTable
  import opened CosetList

  /**
   * Every entry follows from the presentation, and the representative of a live
   * coset, read from coset 0, leads to that coset.
   */
  ghost predicate MeaningOk(s: System, k: nat, t: Table, n: nat, live: set<nat>, rep: seq<Word>) {
    && Closed(t, k, n, live) && 0 in live
    && Sound(s, t, k, n, live, rep) && rep[0] == []
    && Reached(t, live, rep)
  }

  ghost predicate Reached(t: Table, live: set<nat>, rep: seq<Word>)
    requires forall c :: c in live ==> c < |rep|
  {
    forall c {:trigger rep[c]} :: c in live ==> Run(t, 0, rep[c]) == c
  }

  function Identity(n: nat): seq<nat> {
    seq(n, i => i)
  }

  /** The old entries are all still there. */
  ghost predicate Grown(t: Table, k: nat, n: nat, live: set<nat>, t': Table, n': nat, live': set<nat>)
    requires Closed(t, k, n, live) && Closed(t', k, n', live')
  {
    && n <= n' && live <= live'
    && forall a, c :: 0 <= a < k && c in live && t[a][c] != UNDEFINED ==> t'[a][c] == t[a][c]
  }

  lemma GrownQuotient(t: Table, k: nat, n: nat, live: set<nat>, t': Table, n': nat, live': set<nat>)
    requires Closed(t, k, n, live) && Closed(t', k, n', live') && Grown(t, k, n, live, t', n', live')
    ensures Quotient(t, k, n, live, t', n', live', Identity(n))
  {
    forall a, c | 0 <= a < k && c in live && t[a][c] != UNDEFINED ensures t'[a][Identity(n)[c]] == Identity(n)[t[a][c]] {
      assert t[a][c] < n;
    }
  }

  lemma GrownTrans(t: Table, k: nat, n: nat, live: set<nat>, t': Table, n': nat, live': set<nat>, t'': Table, n'': nat, live'': set<nat>)
    requires Closed(t, k, n, live) && Closed(t', k, n', live') && Closed(t'', k, n'', live'')
    requires Grown(t, k, n, live, t', n', live') && Grown(t', k, n', live', t'', n'', live'')
    ensures Grown(t, k, n, live, t'', n'', live'')
  {
    forall a, c | 0 <= a < k && c in live && t[a][c] != UNDEFINED ensures t''[a][c] == t[a][c] {
      assert t'[a][c] == t[a][c];
    }
  }

  lemma GrownRun(t: Table, k: nat, n: nat, live: set<nat>, t': Table, n': nat, live': set<nat>, c: nat, w: Word)
    requires Closed(t, k, n, live) && Closed(t', k, n', live') && Grown(t, k, n, live, t', n', live')
    requires c in live && Run(t, c, w) != UNDEFINED
    ensures Run(t', c, w) == Run(t, c, w)
  {
    GrownQuotient(t, k, n, live, t', n', live');
    RunQuotient(t, k, n, live, t', n', live', Identity(n), c, w);
  }

  /** Representatives of cosets that are fixed by the quotient still lead to them. */
  lemma ReachedKept(t: Table, k: nat, n: nat, live: set<nat>, t': Table, n': nat, live': set<nat>, phi: seq<nat>, rep: seq<Word>, c: nat)
    requires Closed(t, k, n, live) && Closed(t', k, n', live') && Quotient(t, k, n, live, t', n', live', phi)
    requires 0 in live && c in live && phi[0] == 0 && phi[c] == c && c < |rep| && Run(t, 0, rep[c]) == c
    ensures Run(t', 0, rep[c]) == c
  {
    RunQuotient(t, k, n, live, t', n', live', phi, 0, rep[c]);
  }

  /** Adding an edge between live cosets that follows from the presentation. */
  lemma EdgeMeaning(s: System, k: nat, t: Table, n: nat, live: set<nat>, rep: seq<Word>, t': Table, a: Letter, c: nat, d: nat)
    requires MeaningOk(s, k, t, n, live, rep) && Closed(t', k, n, live)
    requires a < k && c in live && d in live && t[a][c] == UNDEFINED
    requires forall b, x :: 0 <= b < k && x in live ==> t'[b][x] == if b == a && x == c then d else t[b][x]
    requires Derives(s, rep[c] + [a], rep[d])
    ensures MeaningOk(s, k, t', n, live, rep) && Grown(t, k, n, live, t', n, live)
  {
    GrownQuotient(t, k, n, live, t', n, live);
    hide Derives;
    forall x | x in live ensures Run(t', 0, rep[x]) == x {
      ReachedKept(t, k, n, live, t', n, live, Identity(n), rep, x);
    }
  }

  /** A new coset `d` as the image of `c` under `a`. */
  lemma NewCosetMeaning(s: System, k: nat, t: Table, n: nat, live: set<nat>, rep: seq<Word>,
                        t': Table, n': nat, rep': seq<Word>, a: Letter, c: nat, d: nat)
    requires MeaningOk(s, k, t, n, live, rep) && Closed(t', k, n', live + {d}) && n <= n' == |rep'|
    requires a < k && c in live && d < n' && d !in live && t[a][c] == UNDEFINED
    requires forall b, x :: 0 <= b < k && x in live ==> t'[b][x] == if b == a && x == c then d else t[b][x]
    requires forall b :: 0 <= b < k ==> t'[b][d] == UNDEFINED
    requires (forall x :: x in live ==> rep'[x] == rep[x]) && rep'[d] == rep[c] + [a]
    ensures MeaningOk(s, k, t', n', live + {d}, rep') && Grown(t, k, n, live, t', n', live + {d})
  {
    var live' := live + {d};
    assert Grown(t, k, n, live, t', n', live');
    assert Sound(s, t', k, n', live', rep') by { NewCosetSound(s, k, t, n, live, rep, t', n', rep', a, c, d); }
    assert Reached(t', live', rep') by {
      hide Sound, Derives;
      NewCosetReached(k, t, n, live, rep, t', n', rep', a, c, d);
    }
    hide Sound, Closed, Reached, Grown;
  }

  lemma NewCosetSound(s: System, k: nat, t: Table, n: nat, live: set<nat>, rep: seq<Word>,
                      t': Table, n': nat, rep': seq<Word>, a: Letter, c: nat, d: nat)
    requires Closed(t, k, n, live) && Sound(s, t, k, n, live, rep) && Closed(t', k, n', live + {d}) && n <= n' == |rep'|
    requires a < k && c in live && d < n' && d !in live && t[a][c] == UNDEFINED
    requires forall b, x :: 0 <= b < k && x in live ==> t'[b][x] == if b == a && x == c then d else t[b][x]
    requires forall b :: 0 <= b < k ==> t'[b][d] == UNDEFINED
    requires (forall x :: x in live ==> rep'[x] == rep[x]) && rep'[d] == rep[c] + [a]
    ensures Sound(s, t', k, n', live + {d}, rep')
  {
    DerivesRefl(s, rep[c] + [a]);
    hide Derives;
    forall b, x | 0 <= b < k && x in live + {d} && t'[b][x] != UNDEFINED ensures Derives(s, rep'[x] + [b], rep'[t'[b][x]]) {
      assert x in live;
      if !(b == a && x == c) {
        assert t'[b][x] == t[b][x];
      }
    }
  }

  lemma NewCosetReached(k: nat, t: Table, n: nat, live: set<nat>, rep: seq<Word>, t': Table, n': nat, rep': seq<Word>, a: Letter, c: nat, d: nat)
    requires Closed(t, k, n, live) && 0 in live && |rep| == n && Reached(t, live, rep)
    requires Closed(t', k, n', live + {d}) && Grown(t, k, n, live, t', n', live + {d}) && |rep'| == n'
    requires a < k && c in live && d < n' && d !in live && t'[a][c] == d
    requires (forall x :: x in live ==> rep'[x] == rep[x]) && rep'[d] == rep[c] + [a]
    ensures Reached(t', live + {d}, rep')
  {
    var live' := live + {d};
    GrownQuotient(t, k, n, live, t', n', live');
    hide Grown;
    forall x | x in live' ensures Run(t', 0, rep'[x]) == x {
      if x == d {
        ReachedKept(t, k, n, live, t', n', live', Identity(n), rep, c);
        RunAppend(t', 0, rep[c], [a]);
        assert Run(t', c, [a]) == Run(t', t'[a][c], [a][1..]);
      } else {
        ReachedKept(t, k, n, live, t', n', live', Identity(n), rep, x);
      }
    }
  }

  /** The pair may be applied at coset `c`. */
  ghost predicate Applies(s: System, c: nat, p: Pair) {
    p in s.both || (c == 0 && p in s.right)
  }

  lemma RelationDerives(s: System, w: Word, c: nat, p: Pair)
    requires Applies(s, c, p) && (c == 0 ==> w == [])
    ensures Derives(s, w + p.0, w + p.1)
  {
    var m := Move(w, p.0, p.1, []);
    assert Legal(s, m);
    DerivesMove(s, m);
    assert m.Before() == w + p.0 && m.After() == w + p.1;
  }

  /** Reading the two sides of a relation up to their last letters, the last letters must agree. */
  lemma RelationSound(s: System, k: nat, t: Table, n: nat, live: set<nat>, rep: seq<Word>, c: nat, p: Pair, u: Word, a: Letter, v: Word, b: Letter)
    requires Symmetric(s) && s.left == {} && MeaningOk(s, k, t, n, live, rep) && c in live
    requires Applies(s, c, p) && p.0 == u + [a] && p.1 == v + [b]
    requires Run(t, c, u) != UNDEFINED && Run(t, c, v) != UNDEFINED
    ensures Run(t, c, u) in live && Run(t, c, v) in live
    ensures Derives(s, rep[Run(t, c, u)] + [a], rep[Run(t, c, v)] + [b])
  {
    RunSound(s, t, k, n, live, rep, c, u);
    RunSound(s, t, k, n, live, rep, c, v);
    var x, y := Run(t, c, u), Run(t, c, v);
    RelationDerives(s, rep[c], c, p);
    LastLetters(s, rep[c], u, a, rep[x], v, b, rep[y]) by { hide Symmetric, Derives, Sound, Closed, Reached, Run, MeaningOk; }
  }

  lemma LastLetters(s: System, w: Word, u: Word, a: Letter, x: Word, v: Word, b: Letter, y: Word)
    requires Symmetric(s) && s.left == {} && Derives(s, w + u, x) && Derives(s, w + v, y)
    requires Derives(s, w + (u + [a]), w + (v + [b]))
    ensures Derives(s, x + [a], y + [b])
  {
    hide *;
    Assoc(w, u, [a]);
    Assoc(w, v, [b]);
    DerivesAppend(s, w + u, x, [a]);
    DerivesAppend(s, w + v, y, [b]);
    DerivesSym(s, w + u + [a], x + [a]);
    DerivesTrans(s, x + [a], w + u + [a], w + v + [b]);
    DerivesTrans(s, x + [a], w + v + [b], y + [b]);
  }

  // ----- progress -----

  /**
   * From one moment to another the table becomes a quotient of what it was,
   * cosets that stay alive are left alone, and the cosets up to the marker
   * `cur` are among those that were up to the marker before.
   */
  ghost predicate Evolved(k: nat, t: Table, n: nat, live: set<nat>, list: seq<nat>, cur: nat,
                          t': Table, n': nat, live': set<nat>, list': seq<nat>, cur': nat, phi: seq<nat>)
    requires Closed(t, k, n, live) && Closed(t', k, n', live')
  {
    && Quotient(t, k, n, live, t', n', live', phi)
    && 0 in live && phi[0] == 0
    && (forall c :: c in live && c in live' ==> phi[c] == c)
    && MarkerWithin(list, cur, list', cur')
  }

  /** Cosets before the marker keep satisfying a relation. */
  lemma SatisfiedKept(k: nat, t: Table, n: nat, live: set<nat>, list: seq<nat>, cur: nat,
                      t': Table, n': nat, live': set<nat>, list': seq<nat>, cur': nat, phi: seq<nat>, p: Pair)
    requires Closed(t, k, n, live) && Closed(t', k, n', live')
    requires Evolved(k, t, n, live, list, cur, t', n', live', list', cur', phi)
    requires forall i :: 0 <= i <= cur ==> list[i] in live
    requires forall i :: 0 <= i <= cur' ==> list'[i] in live'
    requires forall i :: 0 <= i < cur ==> Satisfies(t, list[i], p)
    ensures forall i :: 0 <= i < cur' ==> Satisfies(t', list'[i], p)
    ensures Satisfies(t, list[cur], p) ==> Satisfies(t', list'[cur'], p)
    ensures list'[cur'] == list[cur] || Satisfies(t', list'[cur'], p)
  {
    forall i | 0 <= i <= cur' ensures i < cur' || list'[i] != list[cur] || Satisfies(t, list[cur], p) ==> Satisfies(t', list'[i], p) {
      var j :| 0 <= j <= cur && list[j] == list'[i] && (i < cur' ==> j < cur);
      if j < cur || Satisfies(t, list[cur], p) {
        SatisfiesQuotient(t, k, n, live, t', n', live', phi, list[j], p);
      }
    }
  }

  lemma ReachedAll(k: nat, t: Table, n: nat, live: set<nat>, t': Table, n': nat, live': set<nat>, phi: seq<nat>, rep: seq<Word>)
    requires Closed(t, k, n, live) && Closed(t', k, n', live') && Quotient(t, k, n, live, t', n', live', phi)
    requires 0 in live && live' <= live && phi[0] == 0 && (forall c :: c in live' ==> phi[c] == c)
    requires |rep| == n && Reached(t, live, rep)
    ensures Reached(t', live', rep)
  {
    assert forall c :: c in live' ==> c < n;
    hide Quotient, Closed;
    forall c | c in live' ensures Run(t', 0, rep[c]) == c {
      ReachedKept(t, k, n, live, t', n', live', phi, rep, c);
    }
  }
}
