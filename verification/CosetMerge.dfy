/**
 * Coincidence processing.  While cosets are being killed the table is only
 * correct up to the coincidences still waiting; this is expressed by letting an
 * arbitrary labelling `psi` of the cosets identify everything that is known, or
 * waiting, to be identified.  Lines cited here are those of src/cong/tc.cc.
 */
module CosetMerge {
  import opened Words
  import opened Derivations
  import opened CosetTable
  import opened CosetColumn
  import opened CosetList

  /** Cosets killed since the list had `m0` active members. */
  ghost predicate Killed(pos: seq<nat>, m: nat, m0: nat, c: nat)
    requires c < |pos|
  {
    m <= pos[c] < m0
  }

  ghost predicate ForwardsAll(bckwd: seq<int>, pos: seq<nat>, m: nat, m0: nat)
    requires |bckwd| == |pos|
  {
    forall c {:trigger Forwards(bckwd, pos, c)} :: 0 <= c < |pos| && Killed(pos, m, m0, c) ==> Forwards(bckwd, pos, c)
  }

  /** `psi` identifies killed cosets with their forwarding addresses, and the two sides of waiting pairs. */
  ghost predicate Respects(psi: seq<nat>, bckwd: seq<int>, pos: seq<nat>, m: nat, m0: nat, ls: seq<nat>, rs: seq<nat>)
    requires |bckwd| == |pos| && ForwardsAll(bckwd, pos, m, m0)
    requires |ls| == |rs| && Waiting(ls, pos, m0) && Waiting(rs, pos, m0)
  {
    && |psi| == |pos|
    && (forall c {:trigger psi[c]} :: 0 <= c < |pos| && Killed(pos, m, m0, c) ==> Forwards(bckwd, pos, c) && psi[c] == psi[-bckwd[c]])
    && (forall j :: 0 <= j < |ls| ==> psi[ls[j]] == psi[rs[j]])
  }

  ghost predicate Waiting(ls: seq<nat>, pos: seq<nat>, m0: nat) {
    forall j :: 0 <= j < |ls| ==> 0 < ls[j] < |pos| && pos[ls[j]] < m0
  }

  /** Equal up to `psi`, and defined. */
  ghost predicate Same(psi: seq<nat>, x: int, y: int) {
    0 <= x < |psi| && 0 <= y < |psi| && psi[x] == psi[y]
  }

  /** The entries of `t0` survive in `t`, and entries of killed cosets have been passed on. */
  ghost predicate Carries(k: nat, t0: Table, t: Table, bckwd: seq<int>, pos: seq<nat>, m: nat, m0: nat, psi: seq<nat>)
    requires |bckwd| == |pos| && ForwardsAll(bckwd, pos, m, m0)
    requires Shape(t0, k, |pos|) && Shape(t, k, |pos|)
  {
    && (forall a, c :: 0 <= a < k && 0 <= c < |pos| && pos[c] < m0 && t0[a][c] != UNDEFINED ==> Same(psi, t[a][c], t0[a][c]))
    && (forall a, c :: 0 <= a < k && 0 <= c < |pos| && Killed(pos, m, m0, c) && t[a][c] != UNDEFINED ==>
          Forwards(bckwd, pos, c) && Same(psi, t[a][-bckwd[c]], t[a][c]))
  }

  ghost predicate Faithful(k: nat, t0: Table, t: Table, bckwd: seq<int>, pos: seq<nat>, m: nat, m0: nat, ls: seq<nat>, rs: seq<nat>, x: nat, y: nat)
    requires |bckwd| == |pos| && ForwardsAll(bckwd, pos, m, m0) && x < |pos| && y < |pos|
    requires |ls| == |rs| && Waiting(ls, pos, m0) && Waiting(rs, pos, m0)
    requires Shape(t0, k, |pos|) && Shape(t, k, |pos|)
  {
    forall psi {:trigger Respects(psi, bckwd, pos, m, m0, ls, rs)} ::
      Respects(psi, bckwd, pos, m, m0, ls, rs) ==> Carries(k, t0, t, bckwd, pos, m, m0, psi) && psi[x] == psi[y]
  }

  // ----- forwarding addresses -----

  /** The active coset that `c` has been identified with. */
  ghost function Root(bckwd: seq<int>, pos: seq<nat>, m: nat, c: nat): (r: nat)
    requires |bckwd| == |pos| && c < |pos|
    ensures r < |pos| && (c > 0 ==> r > 0)
    decreases pos[c]
  {
    if pos[c] >= m && Forwards(bckwd, pos, c) then Root(bckwd, pos, m, -bckwd[c]) else c
  }

  lemma {:induction false} RootLive(bckwd: seq<int>, pos: seq<nat>, m: nat, m0: nat, c: nat)
    requires |bckwd| == |pos| && ForwardsAll(bckwd, pos, m, m0) && c < |pos| && pos[c] < m0
    ensures pos[Root(bckwd, pos, m, c)] < m
    decreases pos[c]
  {
    if pos[c] >= m {
      assert Forwards(bckwd, pos, c);
      RootLive(bckwd, pos, m, m0, -bckwd[c]);
    }
  }

  lemma {:induction false} RootRespected(psi: seq<nat>, bckwd: seq<int>, pos: seq<nat>, m: nat, m0: nat, ls: seq<nat>, rs: seq<nat>, c: nat)
    requires |bckwd| == |pos| && ForwardsAll(bckwd, pos, m, m0) && c < |pos| && pos[c] < m0
    requires |ls| == |rs| && Waiting(ls, pos, m0) && Waiting(rs, pos, m0)
    requires Respects(psi, bckwd, pos, m, m0, ls, rs)
    ensures psi[Root(bckwd, pos, m, c)] == psi[c]
    decreases pos[c]
  {
    if pos[c] >= m {
      assert Forwards(bckwd, pos, c);
      RootRespected(psi, bckwd, pos, m, m0, ls, rs, -bckwd[c]);
    }
  }

  /** Lines 376-383: follow forwarding addresses to an active coset. */
  method Follow(bckwd: seq<int>, c: nat, ghost forwd: seq<int>, ghost last: int, ghost next: int, ghost list: seq<nat>,
                ghost pos: seq<nat>, ghost m: nat)
    returns (r: nat)
    requires ListOk(forwd, bckwd, last, next, list, pos, m) && c < |pos|
    ensures r == Root(bckwd, pos, m, c)
  {
    r := c;
    LiveSign(forwd, bckwd, last, next, list, pos, m, r);
    while bckwd[r] < 0
      invariant r < |pos| && (r !in Live(pos, m) ==> Forwards(bckwd, pos, r))
      invariant bckwd[r] < 0 <==> r !in Live(pos, m)
      invariant Root(bckwd, pos, m, r) == Root(bckwd, pos, m, c)
      decreases pos[r]
    {
      r := -bckwd[r];
      LiveSign(forwd, bckwd, last, next, list, pos, m, r);
    }
  }

  // ----- one kill -----

  /** What killing `rhs` in favour of `lhs` does to positions and forwarding addresses. */
  ghost predicate KillStep(bckwd: seq<int>, bckwd': seq<int>, pos: seq<nat>, pos': seq<nat>, m: nat, m0: nat, lhs: nat, rhs: nat)
    requires |bckwd| == |bckwd'| == |pos| == |pos'| && lhs < |pos| && rhs < |pos|
  {
    && 0 < m <= m0 && pos[lhs] < m && pos[rhs] < m && 0 < lhs && bckwd'[rhs] == 0 - lhs
    && (forall c :: 0 <= c < |pos| ==> (pos'[c] < m0 <==> pos[c] < m0))
    && (forall c :: 0 <= c < |pos| ==> (m - 1 <= pos'[c] <==> c == rhs || m <= pos[c]))
    && (forall c :: 0 <= c < |pos| && Killed(pos, m, m0, c) ==> bckwd'[c] == bckwd[c])
  }

  /** One column after merging `rhs` into `lhs`; a new coincidence is on the stacks. */
  ghost predicate ColumnStep(img: seq<int>, img': seq<int>, live: set<nat>, lhs: nat, rhs: nat, ls: seq<nat>, rs: seq<nat>)
    requires lhs < |img| && rhs < |img| && |img'| == |img| && |ls| == |rs|
  {
    && Merged(img, img', live, lhs, rhs)
    && (img[lhs] != UNDEFINED && img[rhs] != UNDEFINED ==>
          OnStack(Min(img'[lhs], img'[rhs]), Max(img'[lhs], img'[rhs]), ls, rs))
  }

  ghost predicate OnStack(x: int, y: int, ls: seq<nat>, rs: seq<nat>)
    requires |ls| == |rs|
  {
    exists j :: 0 <= j < |ls| && ls[j] == x && rs[j] == y
  }

  lemma ColumnSame(img: seq<int>, img': seq<int>, live: set<nat>, lhs: nat, rhs: nat, ls: seq<nat>, rs: seq<nat>, psi: seq<nat>)
    requires lhs < |img| && rhs < |img| && |img'| == |img| == |psi| && |ls| == |rs| && lhs != rhs
    requires ColumnStep(img, img', live, lhs, rhs, ls, rs) && lhs in live && rhs in live
    requires forall j :: 0 <= j < |ls| ==> ls[j] < |psi| && rs[j] < |psi| && psi[ls[j]] == psi[rs[j]]
    requires forall c :: 0 <= c < |img| ==> UNDEFINED <= img[c] < |psi|
    requires psi[lhs] == psi[rhs]
    ensures forall c :: 0 <= c < |img| && img[c] != UNDEFINED ==> Same(psi, img'[c], img[c])
    ensures forall c :: 0 <= c < |img| && c !in live ==> img'[c] == img[c]
    ensures img'[rhs] != UNDEFINED ==> Same(psi, img'[lhs], img'[rhs])
  {
  }

  /** A kill keeps the invariant: entries are carried over up to every respecting labelling. */
  lemma KillCarries(k: nat, t0: Table, t: Table, t': Table, bckwd: seq<int>, bckwd': seq<int>, pos: seq<nat>, pos': seq<nat>,
                    m: nat, m0: nat, lhs: nat, rhs: nat, ls: seq<nat>, rs: seq<nat>, psi: seq<nat>)
    requires |bckwd| == |bckwd'| == |pos| == |pos'| == |psi| && lhs < |pos| && rhs < |pos| && lhs != rhs && |ls| == |rs|
    requires Shape(t0, k, |pos|) && Shape(t, k, |pos|) && Shape(t', k, |pos|)
    requires KillStep(bckwd, bckwd', pos, pos', m, m0, lhs, rhs)
    requires ForwardsAll(bckwd, pos, m, m0) && ForwardsAll(bckwd', pos', m - 1, m0)
    requires forall a :: 0 <= a < k ==> ColumnStep(t[a], t'[a], Live(pos, m), lhs, rhs, ls, rs)
    requires forall a, c :: 0 <= a < k && 0 <= c < |pos| ==> UNDEFINED <= t[a][c] < |pos|
    requires forall j :: 0 <= j < |ls| ==> ls[j] < |psi| && rs[j] < |psi| && psi[ls[j]] == psi[rs[j]]
    requires psi[lhs] == psi[rhs]
    requires Carries(k, t0, t, bckwd, pos, m, m0, psi)
    ensures Carries(k, t0, t', bckwd', pos', m - 1, m0, psi)
  {
    var live := Live(pos, m);
    forall a, c | 0 <= a < k && 0 <= c < |pos| && pos'[c] < m0 && t0[a][c] != UNDEFINED ensures Same(psi, t'[a][c], t0[a][c]) {
      ColumnSame(t[a], t'[a], live, lhs, rhs, ls, rs, psi);
      assert Same(psi, t[a][c], t0[a][c]);
    }
    forall a, c | 0 <= a < k && 0 <= c < |pos| && Killed(pos', m - 1, m0, c) && t'[a][c] != UNDEFINED
      ensures Forwards(bckwd', pos', c) && Same(psi, t'[a][-bckwd'[c]], t'[a][c]) {
      assert Forwards(bckwd', pos', c);
      ColumnSame(t[a], t'[a], live, lhs, rhs, ls, rs, psi);
      if c != rhs {
        assert Killed(pos, m, m0, c) && c !in live;
        assert Same(psi, t[a][-bckwd[c]], t[a][c]);
      }
    }
  }

  // ----- when nothing is waiting any more -----

  /** Sends every coset to the active coset it has been identified with. */
  ghost function RootMap(bckwd: seq<int>, pos: seq<nat>, m: nat): seq<nat>
    requires |bckwd| == |pos|
  {
    seq(|pos|, c requires 0 <= c < |pos| => Root(bckwd, pos, m, c))
  }

  lemma RootMapRespects(bckwd: seq<int>, pos: seq<nat>, m: nat, m0: nat)
    requires |bckwd| == |pos| && ForwardsAll(bckwd, pos, m, m0)
    ensures Respects(RootMap(bckwd, pos, m), bckwd, pos, m, m0, [], [])
  {
    forall c | 0 <= c < |pos| && Killed(pos, m, m0, c)
      ensures Forwards(bckwd, pos, c) && RootMap(bckwd, pos, m)[c] == RootMap(bckwd, pos, m)[-bckwd[c]] {
      assert Forwards(bckwd, pos, c);
    }
  }

  lemma {:induction false} CarriedToRoot(k: nat, t0: Table, t: Table, bckwd: seq<int>, pos: seq<nat>, m: nat, m0: nat, psi: seq<nat>, a: nat, c: nat)
    requires |bckwd| == |pos| && ForwardsAll(bckwd, pos, m, m0) && Shape(t0, k, |pos|) && Shape(t, k, |pos|)
    requires Carries(k, t0, t, bckwd, pos, m, m0, psi) && |psi| == |pos|
    requires a < k && c < |pos| && pos[c] < m0 && 0 <= t[a][c] < |pos|
    ensures Same(psi, t[a][Root(bckwd, pos, m, c)], t[a][c])
    decreases pos[c]
  {
    if pos[c] >= m {
      assert Forwards(bckwd, pos, c) && Killed(pos, m, m0, c);
      assert Same(psi, t[a][-bckwd[c]], t[a][c]);
      CarriedToRoot(k, t0, t, bckwd, pos, m, m0, psi, a, -bckwd[c]);
    }
  }

  /** After coincidence processing the table is a quotient of the one before, identifying `x` and `y`. */
  lemma MergeIsQuotient(k: nat, t0: Table, t: Table, bckwd: seq<int>, pos: seq<nat>, pos0: seq<nat>, m: nat, m0: nat, x: nat, y: nat)
    requires |bckwd| == |pos| == |pos0| && m <= m0 && ForwardsAll(bckwd, pos, m, m0) && x < |pos| && y < |pos|
    requires forall c :: 0 <= c < |pos| ==> (pos[c] < m0 <==> pos0[c] < m0)
    requires Closed(t0, k, |pos|, Live(pos0, m0)) && Closed(t, k, |pos|, Live(pos, m))
    requires Faithful(k, t0, t, bckwd, pos, m, m0, [], [], x, y)
    ensures Quotient(t0, k, |pos|, Live(pos0, m0), t, |pos|, Live(pos, m), RootMap(bckwd, pos, m))
    ensures RootMap(bckwd, pos, m)[x] == RootMap(bckwd, pos, m)[y]
  {
    var psi := RootMap(bckwd, pos, m);
    RootMapRespects(bckwd, pos, m, m0);
    assert Carries(k, t0, t, bckwd, pos, m, m0, psi);
    forall c | c in Live(pos0, m0) ensures psi[c] in Live(pos, m) {
      RootLive(bckwd, pos, m, m0, c);
    }
    forall a, c | 0 <= a < k && c in Live(pos0, m0) && t0[a][c] != UNDEFINED ensures t[a][psi[c]] == psi[t0[a][c]] {
      assert Same(psi, t[a][c], t0[a][c]);
      CarriedToRoot(k, t0, t, bckwd, pos, m, m0, psi, a, c);
    }
  }

  // ----- soundness of coincidences -----

  /** Killed cosets stand for the same class as their forwarding addresses. */
  ghost predicate SoundKills(s: System, bckwd: seq<int>, pos: seq<nat>, m: nat, m0: nat, rep: seq<Word>)
    requires |bckwd| == |pos| == |rep| && ForwardsAll(bckwd, pos, m, m0)
  {
    forall c {:trigger rep[c]} :: 0 <= c < |pos| && Killed(pos, m, m0, c) ==>
      Forwards(bckwd, pos, c) && Derives(s, rep[c], rep[-bckwd[c]])
  }

  ghost predicate SoundPairs(s: System, ls: seq<nat>, rs: seq<nat>, rep: seq<Word>)
    requires |ls| == |rs| && forall j :: 0 <= j < |ls| ==> ls[j] < |rep| && rs[j] < |rep|
  {
    forall j :: 0 <= j < |ls| ==> Derives(s, rep[ls[j]], rep[rs[j]])
  }

  lemma {:induction false} RootSound(s: System, bckwd: seq<int>, pos: seq<nat>, m: nat, m0: nat, rep: seq<Word>, c: nat)
    requires |bckwd| == |pos| == |rep| && ForwardsAll(bckwd, pos, m, m0)
    requires SoundKills(s, bckwd, pos, m, m0, rep) && c < |pos| && pos[c] < m0
    ensures Derives(s, rep[c], rep[Root(bckwd, pos, m, c)])
    decreases pos[c]
  {
    if pos[c] >= m {
      assert Forwards(bckwd, pos, c) && Killed(pos, m, m0, c);
      RootSound(s, bckwd, pos, m, m0, rep, -bckwd[c]);
      DerivesTrans(s, rep[c], rep[-bckwd[c]], rep[Root(bckwd, pos, m, c)]);
    } else {
      DerivesRefl(s, rep[c]);
    }
  }

  /** An edge of one column, sound on representatives. */
  ghost predicate SoundEdge(s: System, img: seq<int>, rep: seq<Word>, a: Letter, c: nat)
    requires |img| == |rep| && c < |rep|
  {
    img[c] == UNDEFINED || (0 <= img[c] < |rep| && Derives(s, rep[c] + [a], rep[img[c]]))
  }

  /** Merging keeps the edges sound, and the new coincidence is a consequence of the presentation. */
  lemma MergedSound(s: System, img: seq<int>, img': seq<int>, live: set<nat>, lhs: nat, rhs: nat, rep: seq<Word>, a: Letter, c: nat)
    requires Symmetric(s) && s.left == {}
    requires |img| == |img'| == |rep| && lhs < |rep| && rhs < |rep| && c < |rep| && lhs != rhs
    requires Merged(img, img', live, lhs, rhs) && lhs in live && rhs in live && c in live
    requires Derives(s, rep[rhs], rep[lhs])
    requires SoundEdge(s, img, rep, a, c) && SoundEdge(s, img, rep, a, rhs)
    ensures SoundEdge(s, img', rep, a, c)
  {
    var b := if c == lhs && img[lhs] == UNDEFINED then rhs else c;
    if img[b] != UNDEFINED {
      if b == rhs && c == lhs {
        DerivesAppend(s, rep[rhs], rep[lhs], [a]);
        DerivesSym(s, rep[rhs] + [a], rep[lhs] + [a]);
        DerivesTrans(s, rep[lhs] + [a], rep[rhs] + [a], rep[img[rhs]]);
      }
      assert Derives(s, rep[c] + [a], rep[img[b]]);
      if img[b] == rhs {
        DerivesTrans(s, rep[c] + [a], rep[rhs], rep[lhs]);
      }
    }
  }

  lemma CoincidenceSound(s: System, img': seq<int>, lhs: nat, rhs: nat, rep: seq<Word>, a: Letter)
    requires Symmetric(s) && s.left == {}
    requires |img'| == |rep| && lhs < |rep| && rhs < |rep|
    requires Derives(s, rep[rhs], rep[lhs]) && img'[lhs] != UNDEFINED && img'[rhs] != UNDEFINED
    requires SoundEdge(s, img', rep, a, lhs) && SoundEdge(s, img', rep, a, rhs)
    ensures Derives(s, rep[img'[lhs]], rep[img'[rhs]]) && Derives(s, rep[img'[rhs]], rep[img'[lhs]])
  {
    DerivesAppend(s, rep[rhs], rep[lhs], [a]);
    DerivesTrans(s, rep[rhs] + [a], rep[lhs] + [a], rep[img'[lhs]]);
    DerivesSym(s, rep[rhs] + [a], rep[img'[rhs]]);
    DerivesTrans(s, rep[img'[rhs]], rep[rhs] + [a], rep[img'[lhs]]);
    DerivesSym(s, rep[img'[rhs]], rep[img'[lhs]]);
  }
}
