/**
 * The coset data structure as one value, and coincidence processing on it.
 * Lines cited here are those of src/cong/tc.cc.
 */
module CosetState {
  import opened Words
  import opened Derivations
  import opened CosetTable
  import opened CosetColumn
  import opened CosetList
  import opened CosetMerge
  import opened CosetTables
  import opened CosetPending
  import opened CosetMeaning

  /** `_forwd`, `_bckwd`, `_last` and `_next`. */
  datatype Links = Links(forwd: seq<int>, bckwd: seq<int>, last: int, next: int)

  datatype Cosets = Cosets(active: nat, current: int, links: Links, tables: Tables)

  /** The list as a sequence, the position of every coset in it, the preimage chains, and the position of `current`. */
  datatype Order = Order(list: seq<nat>, pos: seq<nat>, chains: seq<seq<seq<nat>>>, cur: nat)

  function Size(o: Order): nat { |o.list| }

  function Alive(c: Cosets, o: Order): set<nat> { Live(o.pos, c.active) }

  ghost predicate LinksIn(l: Links, o: Order, m: nat) {
    ListOk(l.forwd, l.bckwd, l.last, l.next, o.list, o.pos, m)
  }

  /** The representation invariant of the coset tables and lists. */
  ghost predicate StructureOk(k: nat, c: Cosets, o: Order) {
    && LinksIn(c.links, o, c.active)
    && |o.list| == |o.pos| == |c.links.forwd| == |c.links.bckwd|
    && TablesOk(c.tables, k, Size(o), Alive(c, o), o.chains)
    && c.current == At(o.list, o.cur) && o.cur <= c.active <= Size(o)
  }

  /** The coset is active and is not coset 0. */
  ghost predicate IsLive(c: Cosets, o: Order, x: nat) {
    0 < x < |o.pos| && o.pos[x] < c.active
  }

  ghost predicate Meaning(s: System, k: nat, c: Cosets, o: Order, rep: seq<Word>) {
    MeaningOk(s, k, c.tables.image, Size(o), Alive(c, o), rep)
  }

  ghost predicate Became(k: nat, c: Cosets, o: Order, c': Cosets, o': Order, phi: seq<nat>) {
    && Closed(c.tables.image, k, Size(o), Alive(c, o)) && Closed(c'.tables.image, k, Size(o'), Alive(c', o'))
    && Evolved(k, c.tables.image, Size(o), Alive(c, o), o.list, o.cur,
               c'.tables.image, Size(o'), Alive(c', o'), o'.list, o'.cur, phi)
  }

  ghost predicate Pending(s: System, k: nat, t0: Table, m0: nat, c: Cosets, o: Order, rep: seq<Word>,
                          ls: seq<nat>, rs: seq<nat>, x: nat, y: nat) {
    PendingOk(s, k, t0, c.tables.image, c.links.bckwd, o.pos, c.active, m0, rep, ls, rs, x, y)
  }

  /** No entry of a live row is undefined. */
  ghost predicate Full(k: nat, c: Cosets, o: Order) {
    && |c.tables.image| == k
    && forall a, x :: 0 <= a < k && x in Alive(c, o) ==> x < |c.tables.image[a]| && c.tables.image[a][x] != UNDEFINED
  }

  lemma StructureParts(k: nat, c: Cosets, o: Order)
    requires StructureOk(k, c, o)
    ensures LinksIn(c.links, o, c.active) && |o.list| == |o.pos| == |c.links.bckwd| == |c.links.forwd| && 1 <= c.active <= |o.list|
    ensures TablesOk(c.tables, k, Size(o), Alive(c, o), o.chains)
  {
  }

  /** Merge the live coset `rhs` into the live coset `lhs` (lines 386-455). */
  method KillCoset(k: nat, c: Cosets, ls: seq<nat>, rs: seq<nat>, lhs: nat, rhs: nat, ghost o: Order)
    returns (c': Cosets, ls': seq<nat>, rs': seq<nat>, ghost o': Order)
    requires StructureOk(k, c, o) && o.cur < c.active && |ls| == |rs|
    requires IsLive(c, o, lhs) && IsLive(c, o, rhs) && lhs != rhs
    ensures c'.active == c.active - 1 && o'.cur < c'.active
    ensures StructureOk(k, c', o')
    ensures o'.pos == KilledPos(o.pos, c.active, o.pos[rhs])
    ensures rhs < |c.links.bckwd| == |c.links.forwd| && (rhs != c.links.last ==> 0 <= c.links.forwd[rhs] < |c.links.bckwd|)
    ensures c'.links.bckwd == KillBckwd(c.links.forwd, c.links.bckwd, c.links.last, lhs, rhs)
    ensures Shape(c.tables.image, k, Size(o)) && lhs < Size(o) && rhs < Size(o)
    ensures Merging(c.tables, c'.tables, k, Size(o), Alive(c, o), lhs, rhs, o'.chains, ls, rs, ls', rs', k)
    ensures MarkerWithin(o.list, o.cur, o'.list, o'.cur)
  {
    KillReady(k, c, o, lhs, rhs);
    hide *;
    ghost var p := o.pos[rhs];
    var Links(forwd, bckwd, last, next) := c.links;
    var current := c.current;
    if rhs == current {
      current := bckwd[current];
    }
    forwd, bckwd, last, next := Kill(forwd, bckwd, last, next, lhs, rhs, o.list, o.pos, c.active);
    var tables;
    ghost var chains;
    tables, ls', rs', chains := MergeTables(c.tables, k, lhs, rhs, ls, rs, Size(o), Alive(c, o), o.chains);
    c' := Cosets(c.active - 1, current, Links(forwd, bckwd, last, next), tables);
    o' := Order(KilledList(o.list, c.active, p), KilledPos(o.pos, c.active, p), chains, if p <= o.cur then o.cur - 1 else o.cur);
    KillDone(k, c, o, rhs, c', o');
  }

  lemma KillReady(k: nat, c: Cosets, o: Order, lhs: nat, rhs: nat)
    requires StructureOk(k, c, o) && o.cur < c.active && IsLive(c, o, lhs) && IsLive(c, o, rhs)
    ensures LinksIn(c.links, o, c.active) && TablesOk(c.tables, k, Size(o), Alive(c, o), o.chains)
    ensures ListOk(c.links.forwd, c.links.bckwd, c.links.last, c.links.next, o.list, o.pos, c.active)
    ensures lhs in Alive(c, o) && rhs in Alive(c, o) && 0 < lhs < Size(o) && 0 < rhs < Size(o) && o.pos[lhs] < c.active
    ensures 0 < o.pos[rhs] < c.active <= |o.list| == |o.pos| == |c.links.forwd| == |c.links.bckwd| == Size(o)
    ensures o.list[o.pos[rhs]] == rhs && c.current == o.list[o.cur]
  {
    KillParts(c.links.forwd, c.links.bckwd, c.links.last, c.links.next, o.list, o.pos, c.active, rhs, o.cur);
  }

  lemma KillDone(k: nat, c: Cosets, o: Order, rhs: nat, c': Cosets, o': Order)
    requires StructureOk(k, c, o) && o.cur < c.active && IsLive(c, o, rhs) && c'.active == c.active - 1
    requires var p := o.pos[rhs];
             && o'.list == KilledList(o.list, c.active, p) && o'.pos == KilledPos(o.pos, c.active, p)
             && o'.cur == (if p <= o.cur then o.cur - 1 else o.cur)
             && c.links.bckwd[rhs] == o.list[p - 1]
             && c'.current == (if rhs == c.current then o.list[p - 1] else c.current)
    requires LinksIn(c'.links, o', c'.active) && |c'.links.forwd| == |c'.links.bckwd| == Size(o)
    requires TablesOk(c'.tables, k, Size(o), Alive(c, o) - {rhs}, o'.chains)
    ensures StructureOk(k, c', o') && o'.cur < c'.active && MarkerWithin(o.list, o.cur, o'.list, o'.cur)
  {
    hide Ok, ColumnOk, TablesOk, MarkerWithin, KilledList, KilledPos, Live, ListOk, At;
    KillParts(c.links.forwd, c.links.bckwd, c.links.last, c.links.next, o.list, o.pos, c.active, rhs, o.cur);
    AtIn(o.list, o.cur);
  }

  lemma AtIn(s: seq<nat>, j: nat)
    requires j < |s|
    ensures At(s, j) == s[j]
  {
  }

  lemma KillPending(s: System, k: nat, t0: Table, m0: nat, rep: seq<Word>, x: nat, y: nat, lhs: nat, rhs: nat,
                    c: Cosets, o: Order, ls: seq<nat>, rs: seq<nat>, c': Cosets, o': Order, ls': seq<nat>, rs': seq<nat>)
    requires Symmetric(s) && s.left == {} && |ls| == |rs| && c'.active == c.active - 1 < m0
    requires StructureOk(k, c, o) && StructureOk(k, c', o')
    requires IsLive(c, o, lhs) && IsLive(c, o, rhs) && lhs != rhs
    requires Pending(s, k, t0, m0, c, o, rep, ls + [lhs], rs + [rhs], x, y)
    requires o'.pos == KilledPos(o.pos, c.active, o.pos[rhs])
    requires rhs < |c.links.bckwd| == |c.links.forwd| && (rhs != c.links.last ==> 0 <= c.links.forwd[rhs] < |c.links.bckwd|)
    requires c'.links.bckwd == KillBckwd(c.links.forwd, c.links.bckwd, c.links.last, lhs, rhs)
    requires Shape(c.tables.image, k, Size(o)) && lhs < Size(o) && rhs < Size(o)
    requires Merging(c.tables, c'.tables, k, Size(o), Alive(c, o), lhs, rhs, o'.chains, ls, rs, ls', rs', k)
    ensures Pending(s, k, t0, m0, c', o', rep, ls', rs', x, y)
    ensures Live(o'.pos, m0) == Live(o.pos, m0)
  {
    hide PendingOk, Merging, ListOk, TablesOk, KilledPos, KillBckwd, KillStep, ForwardsAll, Closed, InRange, Live;
    KillStepOk(c.links.forwd, c.links.bckwd, c.links.last, c.links.next, o.list, o.pos, c.active, m0, lhs, rhs);
    ListForwardsAll(c'.links.forwd, c'.links.bckwd, c'.links.last, c'.links.next, o'.list, o'.pos, c'.active, m0);
    TablesInRange(c.tables, k, Size(o), Alive(c, o), o.chains);
    TablesInRange(c'.tables, k, Size(o'), Alive(c', o'), o'.chains);
    KilledPosSize(o.pos, c.active, o.pos[rhs]);
    PendingKill(s, k, t0, c.tables, c'.tables, o'.chains, c.links.bckwd, c'.links.bckwd, o.pos, o'.pos, c.active, m0,
                lhs, rhs, rep, ls, rs, ls', rs', x, y);
  }

  /** Kill `rhs` in favour of `lhs`, keeping the invariant of coincidence processing. */
  method KillPair(k: nat, c: Cosets, ls: seq<nat>, rs: seq<nat>, lhs: nat, rhs: nat,
                  ghost o: Order, ghost s: System, ghost rep: seq<Word>, ghost t0: Table, ghost m0: nat,
                  ghost x: nat, ghost y: nat, ghost list0: seq<nat>, ghost cur0: nat)
    returns (c': Cosets, ls': seq<nat>, rs': seq<nat>, ghost o': Order)
    requires StructureOk(k, c, o) && o.cur < c.active <= m0 && |ls| == |rs|
    requires IsLive(c, o, lhs) && IsLive(c, o, rhs) && lhs != rhs
    requires Symmetric(s) && s.left == {}
    requires Pending(s, k, t0, m0, c, o, rep, ls + [lhs], rs + [rhs], x, y)
    requires MarkerWithin(list0, cur0, o.list, o.cur)
    ensures c'.active == c.active - 1 && o'.cur < c'.active && Size(o') == Size(o) && |ls'| == |rs'|
    ensures StructureOk(k, c', o')
    ensures Pending(s, k, t0, m0, c', o', rep, ls', rs', x, y)
    ensures MarkerWithin(list0, cur0, o'.list, o'.cur) && Live(o'.pos, m0) == Live(o.pos, m0)
  {
    hide StructureOk, PendingOk, MarkerWithin, Live, Symmetric, Merging, KillBckwd, KilledPos;
    c', ls', rs', o' := KillCoset(k, c, ls, rs, lhs, rhs, o);
    KillPending(s, k, t0, m0, rep, x, y, lhs, rhs, c, o, ls, rs, c', o', ls', rs');
    MarkerTrans(list0, cur0, o.list, o.cur, o'.list, o'.cur);
    PendingSizes(s, k, t0, c'.tables.image, c'.links.bckwd, o'.pos, c'.active, m0, rep, ls', rs', x, y);
    StructureParts(k, c, o);
    StructureParts(k, c', o');
    KilledPosSize(o.pos, c.active, o.pos[rhs]);
  }

  /** The main loop of `identify_cosets`, from the pair `(x0, y0)` (lines 375-466). */
  method ProcessPairs(k: nat, c: Cosets, x0: nat, y0: nat,
                      ghost o: Order, ghost s: System, ghost rep: seq<Word>, ghost x: nat, ghost y: nat)
    returns (c': Cosets, ghost o': Order)
    requires StructureOk(k, c, o) && o.cur < c.active
    requires x0 < |o.pos| && y0 < |o.pos| && Symmetric(s) && s.left == {}
    requires Pending(s, k, c.tables.image, c.active, c, o, rep, [] + [x0], [] + [y0], x, y)
    requires MarkerWithin(o.list, o.cur, o.list, o.cur)
    ensures StructureOk(k, c', o') && o'.cur < c'.active <= c.active && Size(o') == Size(o)
    ensures Pending(s, k, c.tables.image, c.active, c', o', rep, [], [], x, y)
    ensures MarkerWithin(o.list, o.cur, o'.list, o'.cur) && Live(o'.pos, c.active) == Live(o.pos, c.active)
  {
    hide StructureOk, PendingOk, MarkerWithin, Live, Symmetric;
    c', o' := c, o;
    var ls: seq<nat>, rs: seq<nat> := [], [];
    var lhs: nat, rhs: nat := x0, y0;
    while true
      invariant StructureOk(k, c', o') && o'.cur < c'.active <= c.active && Size(o') == Size(o) && |ls| == |rs|
      invariant lhs < |o'.pos| && rhs < |o'.pos|
      invariant Pending(s, k, c.tables.image, c.active, c', o', rep, ls + [lhs], rs + [rhs], x, y)
      invariant MarkerWithin(o.list, o.cur, o'.list, o'.cur) && Live(o'.pos, c.active) == Live(o.pos, c.active)
      decreases c'.active, |ls|
    {
      StructureParts(k, c', o');
      PendingFollow(s, k, c.tables.image, c'.tables.image, c'.links.bckwd, o'.pos, c'.active, c.active, rep, ls, rs, x, y, lhs, rhs);
      lhs := Follow(c'.links.bckwd, lhs, c'.links.forwd, c'.links.last, c'.links.next, o'.list, o'.pos, c'.active);
      rhs := Follow(c'.links.bckwd, rhs, c'.links.forwd, c'.links.last, c'.links.next, o'.list, o'.pos, c'.active);
      if lhs != rhs {
        c', ls, rs, o' := KillPair(k, c', ls, rs, lhs, rhs, o', s, rep, c.tables.image, c.active, x, y, o.list, o.cur);
      } else {
        PendingDrop(s, k, c.tables.image, c'.tables.image, c'.links.bckwd, o'.pos, c'.active, c.active, rep, ls, rs, x, y, lhs);
      }
      if ls == [] {
        break;
      }
      StructureParts(k, c', o');
      PendingPop(s, k, c.tables.image, c'.tables.image, c'.links.bckwd, o'.pos, c'.active, c.active, rep, ls, rs, x, y);
      lhs, ls := ls[|ls| - 1], ls[..|ls| - 1];
      rhs, rs := rs[|rs| - 1], rs[..|rs| - 1];
    }
  }

  lemma IdentifyStart(s: System, k: nat, c: Cosets, o: Order, rep: seq<Word>, x: nat, y: nat, lhs: nat, rhs: nat)
    requires Symmetric(s) && StructureOk(k, c, o) && o.cur < c.active && Meaning(s, k, c, o, rep)
    requires IsLive(c, o, x) && IsLive(c, o, y)
    requires (lhs == x && rhs == y) || (lhs == y && rhs == x)
    requires |rep| == |o.pos| && Derives(s, rep[x], rep[y])
    ensures Pending(s, k, c.tables.image, c.active, c, o, rep, [] + [lhs], [] + [rhs], x, y)
    ensures MarkerWithin(o.list, o.cur, o.list, o.cur)
  {
    TablesInRange(c.tables, k, Size(o), Alive(c, o), o.chains);
    assert [] + [lhs] == [lhs] && [] + [rhs] == [rhs];
    MarkerRefl(o.list, o.cur);
    DerivesSym(s, rep[x], rep[y]);
    hide ListOk, TablesOk, Derives, Live, ForwardsAll, PendingOk, MarkerWithin;
    PendingStart(s, k, c.tables.image, c.links.bckwd, o.pos, c.active, rep, x, y, lhs, rhs);
  }

  lemma EndParts(s: System, k: nat, c: Cosets, o: Order, c': Cosets, o': Order, rep: seq<Word>, x: nat, y: nat)
    requires StructureOk(k, c, o) && StructureOk(k, c', o') && o'.cur < c'.active <= c.active && Size(o') == Size(o)
    requires Live(o'.pos, c.active) == Live(o.pos, c.active)
    requires Meaning(s, k, c, o, rep)
    requires Pending(s, k, c.tables.image, c.active, c', o', rep, [], [], x, y)
    ensures |c'.links.bckwd| == |o'.pos| == |o.pos| && x < |o'.pos| && y < |o'.pos| && 0 < |o'.pos| && o'.pos[0] == 0
    ensures ForwardsAll(c'.links.bckwd, o'.pos, c'.active, c.active)
    ensures forall d :: 0 <= d < |o'.pos| ==> (o'.pos[d] < c.active <==> o.pos[d] < c.active)
    ensures Closed(c.tables.image, k, Size(o), Alive(c, o)) && Closed(c'.tables.image, k, Size(o'), Alive(c', o'))
    ensures Faithful(k, c.tables.image, c'.tables.image, c'.links.bckwd, o'.pos, c'.active, c.active, [], [], x, y)
  {
    hide TablesOk, Faithful, Sound, SoundKills, SoundPairs, Reached;
    LiveSame(o'.pos, o.pos, c.active);
    assert o'.list[0] == 0 && o'.pos[o'.list[0]] == 0;
  }

  lemma LiveSame(pos: seq<nat>, pos0: seq<nat>, m: nat)
    requires |pos| == |pos0| && Live(pos, m) == Live(pos0, m)
    ensures forall d :: 0 <= d < |pos| ==> (pos[d] < m <==> pos0[d] < m)
  {
    forall d | 0 <= d < |pos| ensures pos[d] < m <==> pos0[d] < m {
      assert pos[d] < m <==> d in Live(pos, m);
      assert pos0[d] < m <==> d in Live(pos0, m);
    }
  }

  /** When no pair is left the new table is a quotient of the old one. */
  lemma EndQuotient(s: System, k: nat, c: Cosets, o: Order, c': Cosets, o': Order, rep: seq<Word>, x: nat, y: nat)
    requires StructureOk(k, c, o) && StructureOk(k, c', o') && o'.cur < c'.active <= c.active && Size(o') == Size(o)
    requires Live(o'.pos, c.active) == Live(o.pos, c.active)
    requires Meaning(s, k, c, o, rep)
    requires Pending(s, k, c.tables.image, c.active, c', o', rep, [], [], x, y)
    ensures |c'.links.bckwd| == |o'.pos| == |o.pos| && Alive(c', o') <= Alive(c, o)
    ensures var phi := RootMap(c'.links.bckwd, o'.pos, c'.active);
            && |phi| == |o.pos| && x < |phi| && y < |phi| && phi[x] == phi[y]
            && Closed(c.tables.image, k, Size(o), Alive(c, o)) && Closed(c'.tables.image, k, Size(o'), Alive(c', o'))
            && Quotient(c.tables.image, k, Size(o), Alive(c, o), c'.tables.image, Size(o'), Alive(c', o'), phi)
            && 0 in Alive(c', o') && phi[0] == 0 && forall c :: c in Alive(c', o') ==> phi[c] == c
  {
    var t0, t, pos0, pos, m0, m := c.tables.image, c'.tables.image, o.pos, o'.pos, c.active, c'.active;
    var phi := RootMap(c'.links.bckwd, pos, m);
    EndParts(s, k, c, o, c', o', rep, x, y);
    hide Faithful, Quotient, StructureOk, Meaning, Pending, ForwardsAll, Closed;
    MergeIsQuotient(k, t0, t, c'.links.bckwd, pos, pos0, m, m0, x, y);
    assert Live(pos, m) <= Live(pos, m0);
  }

  lemma IdentifyEnd(s: System, k: nat, c: Cosets, o: Order, c': Cosets, o': Order, rep: seq<Word>, x: nat, y: nat)
    requires StructureOk(k, c, o) && StructureOk(k, c', o') && o'.cur < c'.active <= c.active && Size(o') == Size(o)
    requires Live(o'.pos, c.active) == Live(o.pos, c.active)
    requires Meaning(s, k, c, o, rep)
    requires Pending(s, k, c.tables.image, c.active, c', o', rep, [], [], x, y)
    requires MarkerWithin(o.list, o.cur, o'.list, o'.cur)
    ensures |c'.links.bckwd| == |o'.pos| == |o.pos|
    ensures var phi := RootMap(c'.links.bckwd, o'.pos, c'.active);
            && Became(k, c, o, c', o', phi)
            && x < |phi| && y < |phi| && phi[x] == phi[y]
    ensures Meaning(s, k, c', o', rep) && Alive(c', o') <= Alive(c, o)
  {
    var t0, t, pos0, pos, m0, m := c.tables.image, c'.tables.image, o.pos, o'.pos, c.active, c'.active;
    var phi := RootMap(c'.links.bckwd, pos, m);
    EndQuotient(s, k, c, o, c', o', rep, x, y);
    hide ListOk, TablesOk, Faithful, Sound, SoundKills, SoundPairs, Reached, MarkerWithin, Quotient, Closed, LinksIn, RootMap;
    assert Reached(t, Live(pos, m), rep) by {
      ReachedAll(k, t0, |pos|, Live(pos0, m0), t, |pos|, Live(pos, m), phi, rep);
    }
  }

  /**
   * Identify two live cosets and process all coincidences that follow.  The new
   * table is a quotient of the old one in which the two cosets coincide.
   */
  method Identify(k: nat, c: Cosets, x: nat, y: nat, ghost o: Order, ghost s: System, ghost rep: seq<Word>)
    returns (c': Cosets, ghost o': Order, ghost phi: seq<nat>)
    requires StructureOk(k, c, o) && o.cur < c.active && Meaning(s, k, c, o, rep)
    requires IsLive(c, o, x) && IsLive(c, o, y)
    requires Symmetric(s) && s.left == {} && |rep| == |o.pos| && Derives(s, rep[x], rep[y])
    ensures StructureOk(k, c', o') && o'.cur < c'.active && Meaning(s, k, c', o', rep) && Size(o') == Size(o)
    ensures Became(k, c, o, c', o', phi) && x < |phi| && y < |phi| && phi[x] == phi[y]
    ensures Alive(c', o') <= Alive(c, o) && (x == y ==> c' == c && o' == o)
  {
    hide *;
    var lhs: nat, rhs: nat := x, y;
    c', o' := c, o;
    IsLiveSize(c, o, x);
    IsLiveSize(c, o, y);
    if lhs == rhs {
      phi := Identity(Size(o));
      IdentifyNothing(k, c, o);
      return;
    } else if rhs < lhs {
      lhs, rhs := rhs, lhs;
    }
    IdentifyStart(s, k, c, o, rep, x, y, lhs, rhs);
    StructureParts(k, c, o);
    c', o' := ProcessPairs(k, c, lhs, rhs, o, s, rep, x, y);
    IdentifyEnd(s, k, c, o, c', o', rep, x, y);
    phi := RootMap(c'.links.bckwd, o'.pos, c'.active);
  }

  lemma IsLiveSize(c: Cosets, o: Order, x: nat)
    requires IsLive(c, o, x)
    ensures x < |o.pos|
  {
  }

  lemma IdentifyNothing(k: nat, c: Cosets, o: Order)
    requires StructureOk(k, c, o) && o.cur < c.active
    ensures Became(k, c, o, c, o, Identity(Size(o))) && |Identity(Size(o))| == |o.pos|
  {
    TablesClosed(c.tables, k, Size(o), Alive(c, o), o.chains);
    MarkerRefl(o.list, o.cur);
    assert o.list[0] == 0 && o.pos[o.list[0]] == 0;
    hide ListOk, TablesOk, MarkerWithin;
    GrownQuotient(c.tables.image, k, Size(o), Alive(c, o), c.tables.image, Size(o), Alive(c, o));
  }
}
