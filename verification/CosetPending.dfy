/** The invariant of coincidence processing, and the steps that keep it. */
module CosetPending {
  import opened Words
  import opened Derivations
  import opened CosetTable
  import opened CosetColumn
  import opened CosetList
  import opened CosetMerge
  import opened CosetTables

  /**
   * `t0` was the table when processing started, with `m0` active cosets.  Up to
   * the waiting pairs `(ls[j], rs[j])` the current table `t` is a quotient of
   * `t0` identifying `x` and `y`, and everything done so far follows from the
   * presentation `s`.
   */
  ghost predicate PendingOk(s: System, k: nat, t0: Table, t: Table, bckwd: seq<int>, pos: seq<nat>, m: nat, m0: nat,
                            rep: seq<Word>, ls: seq<nat>, rs: seq<nat>, x: nat, y: nat) {
    && |bckwd| == |pos| == |rep| && |ls| == |rs| && m <= m0 && x < |pos| && y < |pos|
    && Shape(t0, k, |pos|) && Closed(t, k, |pos|, Live(pos, m))
    && ForwardsAll(bckwd, pos, m, m0) && Waiting(ls, pos, m0) && Waiting(rs, pos, m0)
    && Faithful(k, t0, t, bckwd, pos, m, m0, ls, rs, x, y)
    && Sound(s, t, k, |pos|, Live(pos, m), rep)
    && SoundKills(s, bckwd, pos, m, m0, rep)
    && SoundPairs(s, ls, rs, rep)
  }

  lemma RespectsPush(psi: seq<nat>, bckwd: seq<int>, pos: seq<nat>, m: nat, m0: nat, ls: seq<nat>, rs: seq<nat>, l: nat, r: nat)
    requires |bckwd| == |pos| && ForwardsAll(bckwd, pos, m, m0)
    requires |ls| == |rs| && Waiting(ls, pos, m0) && Waiting(rs, pos, m0)
    requires 0 < l < |pos| && 0 < r < |pos| && pos[l] < m0 && pos[r] < m0
    ensures Waiting(ls + [l], pos, m0) && Waiting(rs + [r], pos, m0)
    ensures Respects(psi, bckwd, pos, m, m0, ls + [l], rs + [r]) <==>
            Respects(psi, bckwd, pos, m, m0, ls, rs) && psi[l] == psi[r]
  {
    var ls', rs' := ls + [l], rs + [r];
    if Respects(psi, bckwd, pos, m, m0, ls', rs') {
      assert psi[ls'[|ls|]] == psi[rs'[|ls|]];
      forall j | 0 <= j < |ls| ensures psi[ls[j]] == psi[rs[j]] { assert psi[ls'[j]] == psi[rs'[j]]; }
    }
  }

  lemma SoundPairsPush(s: System, ls: seq<nat>, rs: seq<nat>, rep: seq<Word>, l: nat, r: nat)
    requires |ls| == |rs| && l < |rep| && r < |rep|
    requires forall j :: 0 <= j < |ls| ==> ls[j] < |rep| && rs[j] < |rep|
    ensures SoundPairs(s, ls + [l], rs + [r], rep) <==> SoundPairs(s, ls, rs, rep) && Derives(s, rep[l], rep[r])
  {
    var ls', rs' := ls + [l], rs + [r];
    if SoundPairs(s, ls', rs', rep) {
      assert Derives(s, rep[ls'[|ls|]], rep[rs'[|ls|]]);
      forall j | 0 <= j < |ls| ensures Derives(s, rep[ls[j]], rep[rs[j]]) { assert Derives(s, rep[ls'[j]], rep[rs'[j]]); }
    }
  }

  /** Following forwarding addresses from the pair in hand changes nothing. */
  lemma PendingFollow(s: System, k: nat, t0: Table, t: Table, bckwd: seq<int>, pos: seq<nat>, m: nat, m0: nat,
                      rep: seq<Word>, ls: seq<nat>, rs: seq<nat>, x: nat, y: nat, l: nat, r: nat)
    requires Symmetric(s) && |ls| == |rs| && l < |bckwd| == |pos| && r < |pos|
    requires PendingOk(s, k, t0, t, bckwd, pos, m, m0, rep, ls + [l], rs + [r], x, y)
    ensures pos[Root(bckwd, pos, m, l)] < m && pos[Root(bckwd, pos, m, r)] < m
    ensures Root(bckwd, pos, m, l) > 0 && Root(bckwd, pos, m, r) > 0
    ensures PendingOk(s, k, t0, t, bckwd, pos, m, m0, rep,
                      ls + [Root(bckwd, pos, m, l)], rs + [Root(bckwd, pos, m, r)], x, y)
  {
    var l', r' := Root(bckwd, pos, m, l), Root(bckwd, pos, m, r);
    assert (ls + [l])[|ls|] == l && (rs + [r])[|rs|] == r;
    assert forall j :: 0 <= j < |ls| ==> ls[j] == (ls + [l])[j] && rs[j] == (rs + [r])[j];
    assert Waiting(ls, pos, m0) && Waiting(rs, pos, m0);
    hide Carries, Sound, SoundKills, Closed, Shape, Forwards, Derives;
    RootLive(bckwd, pos, m, m0, l);
    RootLive(bckwd, pos, m, m0, r);
    forall psi | |psi| == |pos| ensures
        Waiting(ls + [l'], pos, m0) && Waiting(rs + [r'], pos, m0) &&
        (Respects(psi, bckwd, pos, m, m0, ls + [l'], rs + [r']) ==> Respects(psi, bckwd, pos, m, m0, ls + [l], rs + [r])) {
      RespectsPush(psi, bckwd, pos, m, m0, ls, rs, l, r);
      RespectsPush(psi, bckwd, pos, m, m0, ls, rs, l', r');
      if Respects(psi, bckwd, pos, m, m0, ls + [l'], rs + [r']) {
        RootRespected(psi, bckwd, pos, m, m0, ls, rs, l);
        RootRespected(psi, bckwd, pos, m, m0, ls, rs, r);
      }
    }
    SoundPairsPush(s, ls, rs, rep, l, r);
    SoundPairsPush(s, ls, rs, rep, l', r');
    RootSound(s, bckwd, pos, m, m0, rep, l);
    RootSound(s, bckwd, pos, m, m0, rep, r);
    DerivesSym(s, rep[l], rep[l']);
    DerivesTrans(s, rep[l'], rep[l], rep[r]);
    DerivesTrans(s, rep[l'], rep[r], rep[r']);
  }

  /** A pair of equal cosets may be dropped. */
  lemma PendingDrop(s: System, k: nat, t0: Table, t: Table, bckwd: seq<int>, pos: seq<nat>, m: nat, m0: nat,
                    rep: seq<Word>, ls: seq<nat>, rs: seq<nat>, x: nat, y: nat, l: nat)
    requires |ls| == |rs|
    requires PendingOk(s, k, t0, t, bckwd, pos, m, m0, rep, ls + [l], rs + [l], x, y)
    ensures PendingOk(s, k, t0, t, bckwd, pos, m, m0, rep, ls, rs, x, y)
  {
    assert (ls + [l])[|ls|] == l;
    assert forall j :: 0 <= j < |ls| ==> ls[j] == (ls + [l])[j] && rs[j] == (rs + [l])[j];
    assert Waiting(ls, pos, m0) && Waiting(rs, pos, m0);
    hide Carries, Sound, SoundKills, Closed, Shape, Forwards, Derives;
    forall psi ensures Respects(psi, bckwd, pos, m, m0, ls, rs) ==> Respects(psi, bckwd, pos, m, m0, ls + [l], rs + [l]) {
      RespectsPush(psi, bckwd, pos, m, m0, ls, rs, l, l);
    }
    SoundPairsPush(s, ls, rs, rep, l, l);
  }

  /** Processing starts with the single pair `(x, y)`. */
  lemma PendingStart(s: System, k: nat, t: Table, bckwd: seq<int>, pos: seq<nat>, m: nat, rep: seq<Word>, x: nat, y: nat, l: nat, r: nat)
    requires |bckwd| == |pos| == |rep| && 0 < x < |pos| && 0 < y < |pos| && pos[x] < m && pos[y] < m
    requires Shape(t, k, |pos|) && Closed(t, k, |pos|, Live(pos, m)) && Sound(s, t, k, |pos|, Live(pos, m), rep)
    requires (l == x && r == y) || (l == y && r == x)
    requires Derives(s, rep[l], rep[r])
    requires forall a, c :: 0 <= a < k && 0 <= c < |pos| ==> UNDEFINED <= t[a][c] < |pos|
    ensures PendingOk(s, k, t, t, bckwd, pos, m, m, rep, [l], [r], x, y)
  {
    assert SoundPairs(s, [l], [r], rep);
    assert ForwardsAll(bckwd, pos, m, m);
    assert SoundKills(s, bckwd, pos, m, m, rep);
    assert Waiting([l], pos, m) && Waiting([r], pos, m);
    hide Derives, Sound, Closed, SoundPairs, SoundKills, ForwardsAll, Waiting;
    assert Faithful(k, t, t, bckwd, pos, m, m, [l], [r], x, y) by {
    forall psi ensures Respects(psi, bckwd, pos, m, m, [l], [r]) ==> Carries(k, t, t, bckwd, pos, m, m, psi) && psi[x] == psi[y] {
      if Respects(psi, bckwd, pos, m, m, [l], [r]) {
        assert psi[[l][0]] == psi[[r][0]];
        StartCarries(k, t, bckwd, pos, m, psi);
      }
    }
    }
  }

  lemma StartCarries(k: nat, t: Table, bckwd: seq<int>, pos: seq<nat>, m: nat, psi: seq<nat>)
    requires |bckwd| == |pos| == |psi| && Shape(t, k, |pos|)
    requires forall a, c :: 0 <= a < k && 0 <= c < |pos| ==> UNDEFINED <= t[a][c] < |pos|
    ensures Carries(k, t, t, bckwd, pos, m, m, psi)
  {
  }

  // ----- a kill keeps the invariant -----

  lemma KillRespects(psi: seq<nat>, bckwd: seq<int>, bckwd': seq<int>, pos: seq<nat>, pos': seq<nat>, m: nat, m0: nat,
                     lhs: nat, rhs: nat, ls: seq<nat>, rs: seq<nat>, ls': seq<nat>, rs': seq<nat>)
    requires |bckwd| == |bckwd'| == |pos| == |pos'| && lhs < |pos| && rhs < |pos| && lhs != rhs && rhs > 0
    requires |ls| == |rs| && |ls| <= |ls'| == |rs'| && ls'[..|ls|] == ls && rs'[..|rs|] == rs
    requires KillStep(bckwd, bckwd', pos, pos', m, m0, lhs, rhs)
    requires ForwardsAll(bckwd, pos, m, m0) && ForwardsAll(bckwd', pos', m - 1, m0)
    requires Waiting(ls, pos, m0) && Waiting(rs, pos, m0) && Waiting(ls', pos', m0) && Waiting(rs', pos', m0)
    requires Respects(psi, bckwd', pos', m - 1, m0, ls', rs')
    ensures psi[lhs] == psi[rhs]
    ensures Waiting(ls + [lhs], pos, m0) && Waiting(rs + [rhs], pos, m0)
    ensures Respects(psi, bckwd, pos, m, m0, ls + [lhs], rs + [rhs])
  {
    assert Killed(pos', m - 1, m0, rhs);
    assert psi[rhs] == psi[-bckwd'[rhs]];
    forall c | 0 <= c < |pos| && Killed(pos, m, m0, c) ensures Forwards(bckwd, pos, c) && psi[c] == psi[-bckwd[c]] {
      assert Forwards(bckwd, pos, c) && Killed(pos', m - 1, m0, c);
      assert psi[c] == psi[-bckwd'[c]];
    }
    forall j | 0 <= j < |ls| ensures psi[ls[j]] == psi[rs[j]] {
      assert ls[j] == ls'[j] && rs[j] == rs'[j];
    }
    RespectsPush(psi, bckwd, pos, m, m0, ls, rs, lhs, rhs);
  }

  lemma KillFaithful(k: nat, t0: Table, t: Table, t': Table, bckwd: seq<int>, bckwd': seq<int>, pos: seq<nat>, pos': seq<nat>,
                     m: nat, m0: nat, lhs: nat, rhs: nat, ls: seq<nat>, rs: seq<nat>, ls': seq<nat>, rs': seq<nat>, x: nat, y: nat)
    requires |bckwd| == |bckwd'| == |pos| == |pos'| && lhs < |pos| && rhs < |pos| && lhs != rhs && rhs > 0
    requires |ls| == |rs| && |ls| <= |ls'| == |rs'| && ls'[..|ls|] == ls && rs'[..|rs|] == rs && x < |pos| && y < |pos|
    requires KillStep(bckwd, bckwd', pos, pos', m, m0, lhs, rhs)
    requires ForwardsAll(bckwd, pos, m, m0) && ForwardsAll(bckwd', pos', m - 1, m0)
    requires Waiting(ls, pos, m0) && Waiting(rs, pos, m0) && Waiting(ls', pos', m0) && Waiting(rs', pos', m0)
    requires Waiting(ls + [lhs], pos, m0) && Waiting(rs + [rhs], pos, m0)
    requires Shape(t0, k, |pos|) && Shape(t, k, |pos|) && Shape(t', k, |pos|)
    requires forall a :: 0 <= a < k ==> InRange(t[a], |pos|) && ColumnStep(t[a], t'[a], Live(pos, m), lhs, rhs, ls', rs')
    requires Faithful(k, t0, t, bckwd, pos, m, m0, ls + [lhs], rs + [rhs], x, y)
    ensures Faithful(k, t0, t', bckwd', pos', m - 1, m0, ls', rs', x, y)
  {
    assert m > 0;
    hide Carries, Forwards, KillStep, ColumnStep, InRange, Respects, Waiting, ForwardsAll, Live;
    forall psi | Respects(psi, bckwd', pos', m - 1, m0, ls', rs')
      ensures Carries(k, t0, t', bckwd', pos', m - 1, m0, psi) && x < |psi| && y < |psi| && psi[x] == psi[y] {
      KillFaithfulAt(k, t0, t, t', bckwd, bckwd', pos, pos', m, m0, lhs, rhs, ls, rs, ls', rs', x, y, psi);
    }
  }

  lemma KillFaithfulAt(k: nat, t0: Table, t: Table, t': Table, bckwd: seq<int>, bckwd': seq<int>, pos: seq<nat>, pos': seq<nat>,
                       m: nat, m0: nat, lhs: nat, rhs: nat, ls: seq<nat>, rs: seq<nat>, ls': seq<nat>, rs': seq<nat>, x: nat, y: nat, psi: seq<nat>)
    requires |bckwd| == |bckwd'| == |pos| == |pos'| && lhs < |pos| && rhs < |pos| && lhs != rhs && rhs > 0
    requires |ls| == |rs| && |ls| <= |ls'| == |rs'| && ls'[..|ls|] == ls && rs'[..|rs|] == rs && x < |pos| && y < |pos|
    requires KillStep(bckwd, bckwd', pos, pos', m, m0, lhs, rhs)
    requires ForwardsAll(bckwd, pos, m, m0) && ForwardsAll(bckwd', pos', m - 1, m0)
    requires Waiting(ls, pos, m0) && Waiting(rs, pos, m0) && Waiting(ls', pos', m0) && Waiting(rs', pos', m0)
    requires Waiting(ls + [lhs], pos, m0) && Waiting(rs + [rhs], pos, m0)
    requires Shape(t0, k, |pos|) && Shape(t, k, |pos|) && Shape(t', k, |pos|)
    requires forall a :: 0 <= a < k ==> InRange(t[a], |pos|) && ColumnStep(t[a], t'[a], Live(pos, m), lhs, rhs, ls', rs')
    requires Faithful(k, t0, t, bckwd, pos, m, m0, ls + [lhs], rs + [rhs], x, y)
    requires Respects(psi, bckwd', pos', m - 1, m0, ls', rs')
    ensures Carries(k, t0, t', bckwd', pos', m - 1, m0, psi) && |psi| == |pos| && psi[x] == psi[y]
  {
    assert |psi| == |pos|;
    assert forall a, c :: 0 <= a < k && 0 <= c < |pos| ==> UNDEFINED <= t[a][c] < |pos|;
    hide Carries, Forwards, KillStep, ColumnStep, InRange, Respects, Waiting, ForwardsAll, Live;
    KillRespects(psi, bckwd, bckwd', pos, pos', m, m0, lhs, rhs, ls, rs, ls', rs');
    KillCarries(k, t0, t, t', bckwd, bckwd', pos, pos', m, m0, lhs, rhs, ls', rs', psi);
  }

  lemma KillSound(s: System, k: nat, n: nat, t: Table, t': Table, live: set<nat>, lhs: nat, rhs: nat, rep: seq<Word>)
    requires Symmetric(s) && s.left == {} && |rep| == n
    requires Closed(t, k, n, live) && Closed(t', k, n, live - {rhs}) && lhs in live && rhs in live && lhs != rhs
    requires forall a :: 0 <= a < k ==> Merged(t[a], t'[a], live, lhs, rhs)
    requires Sound(s, t, k, n, live, rep) && Derives(s, rep[rhs], rep[lhs])
    ensures Sound(s, t', k, n, live - {rhs}, rep)
    ensures forall a, c :: 0 <= a < k && c in live ==> SoundEdge(s, t'[a], rep, a, c)
  {
    forall a, c | 0 <= a < k && c in live ensures SoundEdge(s, t'[a], rep, a, c) {
      assert SoundEdge(s, t[a], rep, a, c) && SoundEdge(s, t[a], rep, a, rhs);
      assert Merged(t[a], t'[a], live, lhs, rhs);
      hide Merged, Derives, Sound, Closed;
      MergedSound(s, t[a], t'[a], live, lhs, rhs, rep, a, c);
    }
    hide Merged, Derives;
    forall a, c | 0 <= a < k && c in live - {rhs} && t'[a][c] != UNDEFINED ensures Derives(s, rep[c] + [a], rep[t'[a][c]]) {
      assert SoundEdge(s, t'[a], rep, a, c);
    }
  }

  lemma FoundSound(s: System, img: seq<int>, img': seq<int>, live: set<nat>, lhs: nat, rhs: nat, rep: seq<Word>, a: Letter, x: nat, y: nat)
    requires Symmetric(s) && s.left == {}
    requires |img| == |img'| == |rep| && lhs < |rep| && rhs < |rep| && x < |rep| && y < |rep| && lhs != rhs
    requires Merged(img, img', live, lhs, rhs) && lhs in live && rhs in live
    requires Derives(s, rep[rhs], rep[lhs]) && FoundIn(img, img', lhs, rhs, x, y)
    requires SoundEdge(s, img', rep, a, lhs) && SoundEdge(s, img', rep, a, rhs)
    ensures Derives(s, rep[x], rep[y])
  {
    CoincidenceSound(s, img', lhs, rhs, rep, a);
  }

  lemma KillSoundKills(s: System, bckwd: seq<int>, bckwd': seq<int>, pos: seq<nat>, pos': seq<nat>, m: nat, m0: nat, lhs: nat, rhs: nat, rep: seq<Word>)
    requires |bckwd| == |bckwd'| == |pos| == |pos'| == |rep| && lhs < |pos| && rhs < |pos|
    requires KillStep(bckwd, bckwd', pos, pos', m, m0, lhs, rhs)
    requires ForwardsAll(bckwd, pos, m, m0) && ForwardsAll(bckwd', pos', m - 1, m0)
    requires SoundKills(s, bckwd, pos, m, m0, rep) && Derives(s, rep[rhs], rep[lhs])
    ensures SoundKills(s, bckwd', pos', m - 1, m0, rep)
  {
    hide Derives;
    forall c | 0 <= c < |pos| && Killed(pos', m - 1, m0, c) ensures Forwards(bckwd', pos', c) && Derives(s, rep[c], rep[-bckwd'[c]]) {
      assert Forwards(bckwd', pos', c);
      if c != rhs {
        assert Killed(pos, m, m0, c);
        assert Derives(s, rep[c], rep[-bckwd[c]]);
      }
    }
  }

  lemma KillSoundPairs(s: System, k: nat, n: nat, tb: Tables, tb': Tables, live: set<nat>, lhs: nat, rhs: nat, chains': seq<seq<seq<nat>>>,
                       rep: seq<Word>, ls: seq<nat>, rs: seq<nat>, ls': seq<nat>, rs': seq<nat>)
    requires Symmetric(s) && s.left == {} && |rep| == n && lhs in live && rhs in live && lhs < n && rhs < n && lhs != rhs && |ls| == |rs|
    requires Shape(tb.image, k, n) && Merging(tb, tb', k, n, live, lhs, rhs, chains', ls, rs, ls', rs', k)
    requires forall a, c :: 0 <= a < k && c in live ==> c < n && SoundEdge(s, tb'.image[a], rep, a, c)
    requires forall j :: 0 <= j < |ls| ==> ls[j] < n && rs[j] < n
    requires SoundPairs(s, ls, rs, rep) && Derives(s, rep[rhs], rep[lhs])
    ensures forall j :: 0 <= j < |ls'| ==> ls'[j] < n && rs'[j] < n
    ensures SoundPairs(s, ls', rs', rep)
  {
    hide Derives, Merged, FoundIn, ColumnOk;
    forall j | 0 <= j < |ls'| ensures ls'[j] < n && rs'[j] < n && Derives(s, rep[ls'[j]], rep[rs'[j]]) {
      if j < |ls| {
        assert ls'[j] == ls[j] && rs'[j] == rs[j];
      } else {
        var x, y := ls'[j], rs'[j];
        var a :| 0 <= a < k && FoundIn(tb.image[a], tb'.image[a], lhs, rhs, x, y);
        assert ColumnStep(tb.image[a], tb'.image[a], live, lhs, rhs, ls', rs');
        assert SoundEdge(s, tb'.image[a], rep, a, lhs) && SoundEdge(s, tb'.image[a], rep, a, rhs);
        FoundSound(s, tb.image[a], tb'.image[a], live, lhs, rhs, rep, a, x, y);
      }
    }
  }

  lemma MergingWaiting(k: nat, n: nat, tb: Tables, tb': Tables, live: set<nat>, lhs: nat, rhs: nat, chains': seq<seq<seq<nat>>>,
                       ls: seq<nat>, rs: seq<nat>, ls': seq<nat>, rs': seq<nat>, pos: seq<nat>, pos': seq<nat>, m: nat, m0: nat)
    requires |pos| == |pos'| == n && lhs < n && rhs < n && |ls| == |rs| && m <= m0 && live == Live(pos, m)
    requires Shape(tb.image, k, n) && Merging(tb, tb', k, n, live, lhs, rhs, chains', ls, rs, ls', rs', k)
    requires Waiting(ls, pos, m0) && Waiting(rs, pos, m0)
    requires forall c :: 0 <= c < |pos| ==> (pos'[c] < m0 <==> pos[c] < m0)
    ensures Waiting(ls', pos', m0) && Waiting(rs', pos', m0)
  {
    hide ColumnOk, ColumnStep, FoundIn;
    forall j | 0 <= j < |ls'| ensures 0 < ls'[j] < |pos| && pos'[ls'[j]] < m0 && 0 < rs'[j] < |pos| && pos'[rs'[j]] < m0 {
      if j < |ls| { assert ls'[j] == ls[j] && rs'[j] == rs[j]; } else { assert ls'[j] in live && rs'[j] in live; }
    }
  }

  /** Killing `rhs` in favour of `lhs` discharges the pair in hand. */
  lemma PendingKill(s: System, k: nat, t0: Table, tb: Tables, tb': Tables, chains': seq<seq<seq<nat>>>,
                    bckwd: seq<int>, bckwd': seq<int>, pos: seq<nat>, pos': seq<nat>, m: nat, m0: nat,
                    lhs: nat, rhs: nat, rep: seq<Word>, ls: seq<nat>, rs: seq<nat>, ls': seq<nat>, rs': seq<nat>, x: nat, y: nat)
    requires Symmetric(s) && s.left == {} && |ls| == |rs|
    requires PendingOk(s, k, t0, tb.image, bckwd, pos, m, m0, rep, ls + [lhs], rs + [rhs], x, y)
    requires lhs < |pos| && rhs < |pos| && lhs != rhs && rhs > 0 && |pos'| == |bckwd'| == |pos|
    requires forall a :: 0 <= a < k ==> InRange(tb.image[a], |pos|)
    requires KillStep(bckwd, bckwd', pos, pos', m, m0, lhs, rhs) && ForwardsAll(bckwd', pos', m - 1, m0)
    requires Live(pos', m - 1) == Live(pos, m) - {rhs}
    requires Shape(tb.image, k, |pos|) && Merging(tb, tb', k, |pos|, Live(pos, m), lhs, rhs, chains', ls, rs, ls', rs', k)
    requires Closed(tb'.image, k, |pos|, Live(pos', m - 1))
    ensures PendingOk(s, k, t0, tb'.image, bckwd', pos', m - 1, m0, rep, ls', rs', x, y)
  {
    var live := Live(pos, m);
    assert (ls + [lhs])[|ls|] == lhs && (rs + [rhs])[|rs|] == rhs;
    assert forall j :: 0 <= j < |ls| ==> ls[j] == (ls + [lhs])[j] && rs[j] == (rs + [rhs])[j];
    assert Waiting(ls, pos, m0) && Waiting(rs, pos, m0);
    assert lhs in live && rhs in live;
    assert forall a :: 0 <= a < k ==> ColumnStep(tb.image[a], tb'.image[a], live, lhs, rhs, ls', rs');
    assert forall a :: 0 <= a < k ==> Merged(tb.image[a], tb'.image[a], live, lhs, rhs);
    hide Derives, Merged, FoundIn, ColumnOk, ColumnStep, Carries, Faithful, Sound, SoundKills, SoundPairs, Closed, KillStep;
    MergingWaiting(k, |pos|, tb, tb', live, lhs, rhs, chains', ls, rs, ls', rs', pos, pos', m, m0) by { KillStepPos(bckwd, bckwd', pos, pos', m, m0, lhs, rhs); }
    SoundPairsPush(s, ls, rs, rep, lhs, rhs);
    DerivesSym(s, rep[lhs], rep[rhs]);
    KillFaithful(k, t0, tb.image, tb'.image, bckwd, bckwd', pos, pos', m, m0, lhs, rhs, ls, rs, ls', rs', x, y);
    KillSound(s, k, |pos|, tb.image, tb'.image, live, lhs, rhs, rep);
    KillSoundKills(s, bckwd, bckwd', pos, pos', m, m0, lhs, rhs, rep);
    KillSoundPairs(s, k, |pos|, tb, tb', live, lhs, rhs, chains', rep, ls, rs, ls', rs');
  }

  lemma KillStepPos(bckwd: seq<int>, bckwd': seq<int>, pos: seq<nat>, pos': seq<nat>, m: nat, m0: nat, lhs: nat, rhs: nat)
    requires |bckwd| == |bckwd'| == |pos| == |pos'| && lhs < |pos| && rhs < |pos|
    requires KillStep(bckwd, bckwd', pos, pos', m, m0, lhs, rhs)
    ensures forall c :: 0 <= c < |pos| ==> (pos'[c] < m0 <==> pos[c] < m0)
  {
  }

  lemma ListForwardsAll(forwd: seq<int>, bckwd: seq<int>, last: int, next: int, list: seq<nat>, pos: seq<nat>, m: nat, m0: nat)
    requires ListOk(forwd, bckwd, last, next, list, pos, m)
    ensures |bckwd| == |pos| && ForwardsAll(bckwd, pos, m, m0)
  {
  }

  lemma KillStepOk(forwd: seq<int>, bckwd: seq<int>, last: int, next: int, list: seq<nat>, pos: seq<nat>, m: nat, m0: nat, lhs: nat, rhs: nat)
    requires ListOk(forwd, bckwd, last, next, list, pos, m) && m <= m0
    requires 0 < lhs < |pos| && 0 < rhs < |pos| && pos[lhs] < m && pos[rhs] < m && lhs != rhs
    ensures |bckwd| == |pos| == |forwd| && (rhs != last ==> 0 <= forwd[rhs] < |bckwd|)
    ensures KillStep(bckwd, KillBckwd(forwd, bckwd, last, lhs, rhs), pos, KilledPos(pos, m, pos[rhs]), m, m0, lhs, rhs)
    ensures Live(KilledPos(pos, m, pos[rhs]), m - 1) == Live(pos, m) - {rhs}
    ensures Live(KilledPos(pos, m, pos[rhs]), m0) == Live(pos, m0)
  {
    assert list[pos[rhs]] == rhs && list[pos[lhs]] == lhs && pos[0] == 0;
    KillLinks(forwd, bckwd, last, next, list, pos, m, pos[rhs]);
    KilledArranged(list, pos, m, pos[rhs]);
    if rhs != last {
      assert pos[list[pos[rhs] + 1]] == pos[rhs] + 1;
    }
    KilledPosAt(pos, m, pos[rhs]);
    assert forall c {:trigger pos[c]} :: 0 <= c < |pos| && pos[c] == pos[rhs] ==> c == rhs by {
      assert forall c :: 0 <= c < |pos| ==> list[pos[c]] == c;
    }
    hide ListOk, KilledPos;
    KillStepParts(forwd, bckwd, last, pos, KilledPos(pos, m, pos[rhs]), m, m0, lhs, rhs);
  }

  lemma KillStepParts(forwd: seq<int>, bckwd: seq<int>, last: int, pos: seq<nat>, pos': seq<nat>, m: nat, m0: nat, lhs: nat, rhs: nat)
    requires |bckwd| == |pos| == |forwd| == |pos'| && 0 < lhs < |pos| && 0 < rhs < |pos| && pos[lhs] < m <= m0 && pos[rhs] < m
    requires rhs != last ==> 0 <= forwd[rhs] < |bckwd| && pos[forwd[rhs]] < m
    requires forall c {:trigger pos'[c]} :: 0 <= c < |pos| ==> pos'[c] == KilledIndex(pos[c], m, pos[rhs])
    requires forall c {:trigger pos[c]} :: 0 <= c < |pos| && pos[c] == pos[rhs] ==> c == rhs
    ensures KillStep(bckwd, KillBckwd(forwd, bckwd, last, lhs, rhs), pos, pos', m, m0, lhs, rhs)
    ensures Live(pos', m0) == Live(pos, m0)
  {
    forall c | 0 <= c < |pos| ensures (pos'[c] < m0 <==> pos[c] < m0) && (m - 1 <= pos'[c] <==> c == rhs || m <= pos[c]) {
      assert pos'[c] == KilledIndex(pos[c], m, pos[rhs]);
    }
  }

  lemma PendingSizes(s: System, k: nat, t0: Table, t: Table, bckwd: seq<int>, pos: seq<nat>, m: nat, m0: nat,
                     rep: seq<Word>, ls: seq<nat>, rs: seq<nat>, x: nat, y: nat)
    requires PendingOk(s, k, t0, t, bckwd, pos, m, m0, rep, ls, rs, x, y)
    ensures |ls| == |rs| && forall j :: 0 <= j < |ls| ==> ls[j] < |pos| && rs[j] < |pos|
  {
  }

  lemma PendingPop(s: System, k: nat, t0: Table, t: Table, bckwd: seq<int>, pos: seq<nat>, m: nat, m0: nat,
                   rep: seq<Word>, ls: seq<nat>, rs: seq<nat>, x: nat, y: nat)
    requires PendingOk(s, k, t0, t, bckwd, pos, m, m0, rep, ls, rs, x, y) && ls != []
    ensures |ls| == |rs| && ls[|ls| - 1] < |pos| && rs[|rs| - 1] < |pos|
    ensures ls[..|ls| - 1] + [ls[|ls| - 1]] == ls && rs[..|rs| - 1] + [rs[|rs| - 1]] == rs
  {
  }
}
