/**
 * Partial coset tables as partial deterministic automata: `t[a][c]` is the
 * image of coset `c` under generator `a`, or `UNDEFINED`.
 */
module CosetTable {
  import opened Words
  import opened Derivations

  const UNDEFINED: int := -1

  type Table = seq<seq<int>>

  ghost predicate Shape(t: Table, k: nat, n: nat) {
    |t| == k && forall a :: 0 <= a < k ==> |t[a]| == n
  }

  /** Entries of live rows are undefined or live, and coset 0 has no preimage. */
  ghost predicate Closed(t: Table, k: nat, n: nat, live: set<nat>) {
    && Shape(t, k, n)
    && (forall c :: c in live ==> c < n)
    && (forall a, c :: 0 <= a < k && c in live && t[a][c] != UNDEFINED ==> t[a][c] > 0 && t[a][c] in live)
  }

  ghost predicate Complete(t: Table, k: nat, n: nat, live: set<nat>)
    requires Closed(t, k, n, live)
  {
    forall a, c :: 0 <= a < k && c in live ==> t[a][c] != UNDEFINED
  }

  /** The coset reached from `c` by reading `w`, or `UNDEFINED`. */
  function Run(t: Table, c: int, w: Word): int
    decreases |w|
  {
    if w == [] then c
    else if w[0] < |t| && 0 <= c < |t[w[0]]| then Run(t, t[w[0]][c], w[1..])
    else UNDEFINED
  }

  lemma {:induction false} RunAppend(t: Table, c: int, u: Word, v: Word)
    ensures Run(t, c, u + v) == Run(t, Run(t, c, u), v)
    decreases |u|
  {
    if u == [] {
      assert u + v == v;
    } else {
      assert (u + v)[0] == u[0] && (u + v)[1..] == u[1..] + v;
      if u[0] < |t| && 0 <= c < |t[u[0]]| {
        RunAppend(t, t[u[0]][c], u[1..], v);
      }
    }
  }

  lemma {:induction false} RunLive(t: Table, k: nat, n: nat, live: set<nat>, c: int, w: Word)
    requires Closed(t, k, n, live) && (c == UNDEFINED || c in live)
    ensures Run(t, c, w) == UNDEFINED || Run(t, c, w) in live
    ensures w != [] && Run(t, c, w) != UNDEFINED ==> Run(t, c, w) > 0
    decreases |w|
  {
    if w != [] && w[0] < |t| && 0 <= c < |t[w[0]]| {
      RunLive(t, k, n, live, t[w[0]][c], w[1..]);
    }
  }

  /** In a complete table every word over the generators reaches a coset. */
  lemma {:induction false} RunComplete(t: Table, k: nat, n: nat, live: set<nat>, c: nat, w: Word)
    requires Closed(t, k, n, live) && Complete(t, k, n, live) && c in live && Over(k, w)
    ensures Run(t, c, w) in live
    decreases |w|
  {
    if w != [] {
      assert w[0] < k;
      RunComplete(t, k, n, live, t[w[0]][c], w[1..]);
    }
  }

  // ----- soundness: table edges and the congruence -----

  /** Every table entry is a consequence of the presentation, read on representative words. */
  ghost predicate Sound(s: System, t: Table, k: nat, n: nat, live: set<nat>, rep: seq<Word>)
    requires Closed(t, k, n, live)
  {
    && |rep| == n
    && forall a, c :: 0 <= a < k && c in live && t[a][c] != UNDEFINED ==> Derives(s, rep[c] + [a], rep[t[a][c]])
  }

  lemma {:induction false} RunSound(s: System, t: Table, k: nat, n: nat, live: set<nat>, rep: seq<Word>, c: nat, w: Word)
    requires Closed(t, k, n, live) && Sound(s, t, k, n, live, rep) && c in live && s.left == {}
    requires Run(t, c, w) != UNDEFINED
    ensures Run(t, c, w) in live
    ensures Derives(s, rep[c] + w, rep[Run(t, c, w)])
    decreases |w|
  {
    if w == [] {
      assert rep[c] + w == rep[c];
      DerivesRefl(s, rep[c]);
    } else {
      var a, rest := w[0], w[1..];
      var d := t[a][c];
      RunLive(t, k, n, live, d, rest);
      DerivesAppend(s, rep[c] + [a], rep[d], rest);
      assert rep[c] + w == rep[c] + [a] + rest;
      RunSound(s, t, k, n, live, rep, d, rest);
      DerivesTrans(s, rep[c] + w, rep[d] + rest, rep[Run(t, c, w)]);
    }
  }

  // ----- completeness: relations satisfied by the table -----

  /** Reading either side of `p` from `c` leads to the same coset. */
  ghost predicate Satisfies(t: Table, c: int, p: Pair) {
    Run(t, c, p.0) != UNDEFINED && Run(t, c, p.0) == Run(t, c, p.1)
  }

  ghost predicate SatisfiesSystem(s: System, t: Table, live: set<nat>) {
    && (forall p, c :: p in s.both && c in live ==> Satisfies(t, c, p))
    && (forall p :: p in s.right ==> Satisfies(t, 0, p))
  }

  lemma MoveKeepsRun(s: System, t: Table, k: nat, n: nat, live: set<nat>, m: Move)
    requires Closed(t, k, n, live) && 0 in live && s.left == {} && SatisfiesSystem(s, t, live)
    requires Legal(s, m)
    ensures Run(t, 0, m.Before()) == Run(t, 0, m.After())
  {
    var c := Run(t, 0, m.pre);
    RunLive(t, k, n, live, 0, m.pre);
    RunAppend(t, 0, m.pre + m.lhs, m.post);
    RunAppend(t, 0, m.pre, m.lhs);
    RunAppend(t, 0, m.pre + m.rhs, m.post);
    RunAppend(t, 0, m.pre, m.rhs);
    var p := (m.lhs, m.rhs);
    if c == UNDEFINED {
      assert m.pre != [];
      assert p in s.both;
      assert Satisfies(t, 0, p);
      assert m.lhs == [] ==> m.rhs == [] || Run(t, UNDEFINED, m.rhs) == UNDEFINED;
    } else {
      assert Satisfies(t, c, p);
    }
  }

  /** Related words reach the same coset (or both run off the table). */
  lemma {:induction false} ChainKeepsRun(s: System, t: Table, k: nat, n: nat, live: set<nat>, ms: seq<Move>, u: Word, v: Word)
    requires Closed(t, k, n, live) && 0 in live && s.left == {} && SatisfiesSystem(s, t, live)
    requires Chain(s, ms, u, v)
    ensures Run(t, 0, u) == Run(t, 0, v)
  {
    if ms != [] {
      MoveKeepsRun(s, t, k, n, live, ms[0]);
      ChainKeepsRun(s, t, k, n, live, ms[1..], ms[0].After(), v);
    }
  }

  // ----- quotients of tables -----

  /** `phi` sends the old table onto part of the new one, respecting every defined entry. */
  ghost predicate Quotient(t: Table, k: nat, n: nat, live: set<nat>, t': Table, n': nat, live': set<nat>, phi: seq<nat>)
    requires Closed(t, k, n, live) && Closed(t', k, n', live')
  {
    && |phi| == n
    && (forall c :: c in live ==> phi[c] in live')
    && (forall a, c :: 0 <= a < k && c in live && t[a][c] != UNDEFINED ==> t'[a][phi[c]] == phi[t[a][c]])
  }

  lemma {:induction false} RunQuotient(t: Table, k: nat, n: nat, live: set<nat>, t': Table, n': nat, live': set<nat>, phi: seq<nat>, c: nat, w: Word)
    requires Closed(t, k, n, live) && Closed(t', k, n', live') && Quotient(t, k, n, live, t', n', live', phi)
    requires c in live && Run(t, c, w) != UNDEFINED
    ensures Run(t, c, w) in live
    ensures Run(t', phi[c], w) == phi[Run(t, c, w)]
    decreases |w|
  {
    if w != [] {
      var d := t[w[0]][c];
      RunLive(t, k, n, live, d, w[1..]);
      RunQuotient(t, k, n, live, t', n', live', phi, d, w[1..]);
    }
  }

  lemma SatisfiesQuotient(t: Table, k: nat, n: nat, live: set<nat>, t': Table, n': nat, live': set<nat>, phi: seq<nat>, c: nat, p: Pair)
    requires Closed(t, k, n, live) && Closed(t', k, n', live') && Quotient(t, k, n, live, t', n', live', phi)
    requires c in live && Satisfies(t, c, p)
    ensures Satisfies(t', phi[c], p)
  {
    RunQuotient(t, k, n, live, t', n', live', phi, c, p.0);
    RunQuotient(t, k, n, live, t', n', live', phi, c, p.1);
  }
}
