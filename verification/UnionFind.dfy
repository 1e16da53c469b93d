/**
 * Union-find on the numbers below `size`: the class `UF`.
 * Lines cited here are those of src/uf.cc.
 */
module UnionFind {

  /** Every entry points to itself or to something smaller. */
  ghost predicate Downward(t: seq<nat>) {
    forall i {:trigger t[i]} :: 0 <= i < |t| ==> t[i] <= i
  }

  ghost function Root(t: seq<nat>, i: nat): (r: nat)
    requires Downward(t) && i < |t|
    ensures r <= i && t[r] == r
  {
    if t[i] == i then i else Root(t, t[i])
  }

  ghost predicate SameClass(t: seq<nat>, i: nat, j: nat)
    requires Downward(t) && i < |t| && j < |t|
  {
    Root(t, i) == Root(t, j)
  }

  /** A labelling that is constant on the classes. */
  ghost predicate Respects<T>(lab: seq<T>, t: seq<nat>) {
    |lab| == |t| && forall i {:trigger Follows(lab, t, i)} :: 0 <= i < |t| ==> Follows(lab, t, i)
  }

  ghost predicate Follows<T>(lab: seq<T>, t: seq<nat>, i: nat)
    requires i < |t| == |lab|
  {
    t[i] < |t| && lab[t[i]] == lab[i]
  }

  lemma {:induction false} RespectsRoot<T>(lab: seq<T>, t: seq<nat>, i: nat)
    requires Downward(t) && Respects(lab, t) && i < |t|
    ensures lab[Root(t, i)] == lab[i]
    decreases i
  {
    assert Follows(lab, t, i);
    if t[i] != i {
      RespectsRoot(lab, t, t[i]);
    }
  }

  ghost function Roots(t: seq<nat>): seq<nat>
    requires Downward(t)
  {
    seq(|t|, i requires 0 <= i < |t| => Root(t, i))
  }

  lemma RootsRespect(t: seq<nat>)
    requires Downward(t)
    ensures Respects(Roots(t), t)
  {
    forall i | 0 <= i < |t| ensures Follows(Roots(t), t, i) {
      assert t[i] <= i;
    }
  }

  /** Two numbers are in the same class exactly when no labelling constant on classes tells them apart. */
  lemma ClassesByLabels(t: seq<nat>, i: nat, j: nat)
    requires Downward(t) && i < |t| && j < |t|
    ensures SameClass(t, i, j) <==> forall lab: seq<nat> :: Respects(lab, t) ==> lab[i] == lab[j]
  {
    if SameClass(t, i, j) {
      forall lab: seq<nat> | Respects(lab, t) ensures lab[i] == lab[j] {
        RespectsRoot(lab, t, i);
        RespectsRoot(lab, t, j);
      }
    } else {
      RootsRespect(t);
      assert Roots(t)[i] != Roots(t)[j];
    }
  }

  /** The table after two roots have been linked (lines 143-149). */
  function Linked(t: seq<nat>, ii: nat, jj: nat): seq<nat>
    requires ii < |t| && jj < |t|
  {
    if ii < jj then t[jj := ii] else t[ii := jj]
  }

  lemma LinkedDown(t: seq<nat>, ii: nat, jj: nat)
    requires Downward(t) && ii < |t| && jj < |t|
    ensures Downward(Linked(t, ii, jj))
  {
  }

  lemma LinkKeeps<T>(lab: seq<T>, t: seq<nat>, ii: nat, jj: nat)
    requires Respects(lab, t) && ii < |t| && jj < |t| && lab[ii] == lab[jj]
    ensures Respects(lab, Linked(t, ii, jj))
  {
    var t' := Linked(t, ii, jj);
    forall c | 0 <= c < |t'| ensures Follows(lab, t', c) { assert Follows(lab, t, c); }
  }

  lemma LinkForces<T>(lab: seq<T>, t: seq<nat>, ii: nat, jj: nat)
    requires ii < |t| && jj < |t| && t[ii] == ii && t[jj] == jj && Respects(lab, Linked(t, ii, jj))
    ensures Respects(lab, t) && lab[ii] == lab[jj]
  {
    var t' := Linked(t, ii, jj);
    assert Follows(lab, t', ii) && Follows(lab, t', jj);
    forall c | 0 <= c < |t| ensures Follows(lab, t, c) { assert Follows(lab, t', c); }
  }

  /** Linking the roots of `i` and `j` merges their classes and nothing else. */
  lemma LinkedRespects<T>(lab: seq<T>, t: seq<nat>, i: nat, j: nat)
    requires Downward(t) && i < |t| && j < |t|
    ensures var t' := Linked(t, Root(t, i), Root(t, j));
            Respects(lab, t') <==> Respects(lab, t) && lab[i] == lab[j]
  {
    var ii, jj := Root(t, i), Root(t, j);
    hide Respects, Linked, Root;
    if Respects(lab, t) {
      RespectsSize(lab, t);
      RespectsRoot(lab, t, i);
      RespectsRoot(lab, t, j);
      if lab[i] == lab[j] {
        LinkKeeps(lab, t, ii, jj);
      }
    }
    if Respects(lab, Linked(t, ii, jj)) {
      LinkForces(lab, t, ii, jj);
      RespectsRoot(lab, t, i);
      RespectsRoot(lab, t, j);
    }
  }

  lemma RespectsSize<T>(lab: seq<T>, t: seq<nat>)
    requires Respects(lab, t)
    ensures |lab| == |t|
  {
  }

  /** The least member of a class is its root. */
  lemma RootLeast(t: seq<nat>, i: nat, j: nat)
    requires Downward(t) && i < |t| && j < |t| && SameClass(t, i, j)
    ensures Root(t, i) <= j && SameClass(t, i, Root(t, i))
  {
  }

  /** Pointing an entry directly to its root changes no root. */
  lemma {:induction false} FlattenRoot(t: seq<nat>, i: nat, j: nat)
    requires Downward(t) && i < |t| && j < |t|
    ensures var t' := t[i := Root(t, i)]; Downward(t') && Root(t', j) == Root(t, j)
    decreases j
  {
    var t' := t[i := Root(t, i)];
    assert Downward(t');
    if t[j] != j {
      FlattenRoot(t, i, t[j]);
      if j == i {
        assert Root(t', Root(t, i)) == Root(t, i);
      }
    }
  }

  // ----- the operations on the table -----

  /** `find` (lines 126-135). */
  method FindRoot(t: seq<nat>, start: nat) returns (i: nat)
    requires Downward(t) && start < |t|
    ensures i == Root(t, start)
  {
    i := start;
    var ii := i;
    i := t[ii];
    while ii != i
      invariant ii < |t| && i == t[ii] && Root(t, ii) == Root(t, start)
      decreases ii
    {
      ii := i;
      i := t[ii];
    }
  }

  /** `unite` (lines 138-151): exactly the pair `(i, j)` is added to the equivalence. */
  method UniteTable(t: seq<nat>, i: nat, j: nat) returns (t': seq<nat>)
    requires Downward(t) && i < |t| && j < |t|
    ensures t' == Linked(t, Root(t, i), Root(t, j)) && Downward(t') && |t'| == |t|
  {
    var ii := FindRoot(t, i);
    var jj := FindRoot(t, j);
    LinkedDown(t, ii, jj);
    if ii < jj {
      t' := t[jj := ii];
    } else {
      t' := t[ii := jj];
    }
  }

  /** `flatten` (lines 154-159). */
  method FlattenTable(t: seq<nat>) returns (t': seq<nat>)
    requires Downward(t)
    ensures t' == Roots(t)
  {
    t' := t;
    var i := 0;
    while i < |t|
      invariant i <= |t| == |t'| && Downward(t')
      invariant forall j :: 0 <= j < |t| ==> Root(t', j) == Root(t, j)
      invariant forall j :: 0 <= j < i ==> t'[j] == Root(t, j)
    {
      var r := FindRoot(t', i);
      forall j | 0 <= j < |t| ensures Root(t'[i := r], j) == Root(t, j) { FlattenRoot(t', i, j); }
      FlattenRoot(t', i, i);
      t', i := t'[i := r], i + 1;
    }
  }

  // ----- counting and listing the classes -----

  /** The number of roots below `n`. */
  ghost function RootCount(t: seq<nat>, n: nat): nat
    requires n <= |t|
  {
    if n == 0 then 0 else RootCount(t, n - 1) + (if t[n - 1] == n - 1 then 1 else 0)
  }

  lemma FlatRoots(t: seq<nat>)
    requires Downward(t)
    ensures Downward(Roots(t)) && forall i :: 0 <= i < |t| ==> (Roots(t)[i] == i <==> t[i] == i) && Roots(t)[Roots(t)[i]] == Roots(t)[i]
  {
  }

  lemma {:induction false} FlatRootCount(t: seq<nat>, n: nat)
    requires Downward(t) && n <= |t|
    ensures RootCount(Roots(t), n) == RootCount(t, n)
  {
    FlatRoots(t);
    if n > 0 {
      FlatRootCount(t, n - 1);
    }
  }

  /** `nr_blocks` (lines 171-187): a flattened table has a new class exactly where an entry exceeds all before it. */
  method CountBlocks(t: seq<nat>) returns (count: nat, t': seq<nat>)
    requires Downward(t)
    ensures count == RootCount(t, |t|) && (t' == Roots(t) || t' == t == [])
  {
    if |t| == 0 {
      return 0, t;
    }
    t' := FlattenTable(t);
    FlatRoots(t);
    FlatRootCount(t, |t|);
    hide Root, Roots, RootCount;
    count := CountFlat(t');
  }

  /** The loop of `nr_blocks` (lines 179-185). */
  method CountFlat(t: seq<nat>) returns (count: nat)
    requires Downward(t) && |t| > 0 && forall i :: 0 <= i < |t| ==> t[t[i]] == t[i]
    ensures count == RootCount(t, |t|)
  {
    count := 1;
    var max: nat := 0;
    var i := 1;
    while i < |t|
      invariant 1 <= i <= |t| && max < i && t[max] == max && count == RootCount(t, i)
      invariant forall j :: max < j < i ==> t[j] != j
    {
      if t[i] > max {
        assert t[i] <= i && t[t[i]] == t[i];
        max := t[i];
        count := count + 1;
      }
      i := i + 1;
    }
  }

  /** `next_rep` (lines 196-202) on a flattened table: from one root to the next, or to the end. */
  method NextRoot(t: seq<nat>, start: nat) returns (next: nat)
    requires Downward(t) && (forall i :: 0 <= i < |t| ==> t[t[i]] == t[i]) && start <= |t| && (start < |t| ==> t[start] == start)
    ensures start <= next <= |t| && (start < |t| ==> start < next) && (next < |t| ==> t[next] == next)
    ensures forall i :: start < i < next ==> t[i] != i
  {
    next := start;
    while next < |t| && t[next] <= start
      invariant start <= next <= |t| && forall i :: start < i < next ==> t[i] != i
    {
      next := next + 1;
    }
    assert next < |t| ==> t[t[next]] == t[next];
  }

  // ----- joining -----

  ghost predicate FollowsUpTo<T>(lab: seq<T>, u: seq<nat>, n: nat)
    requires |lab| == |u| && n <= |u|
  {
    forall i {:trigger Follows(lab, u, i)} :: 0 <= i < n ==> Follows(lab, u, i)
  }

  // ----- blocks -----

  /** An entry of `_blocks`: a list of members, or nothing once it has been merged into another one. */
  datatype Block = Gone | Block(members: seq<nat>)

  ghost predicate NoRepeats(s: seq<nat>) {
    forall a, b :: 0 <= a < b < |s| ==> s[a] != s[b]
  }

  ghost predicate AllHome(members: seq<nat>, home: seq<nat>, r: nat) {
    forall x :: 0 <= x < |members| ==> members[x] < |home| && home[members[x]] == r
  }

  /** `home[e]` is the block in which `e` is listed, exactly once. */
  ghost predicate Housed(bs: seq<Block>, home: seq<nat>) {
    && |home| == |bs|
    && (forall e {:trigger home[e]} :: 0 <= e < |bs| ==> home[e] < |bs| && bs[home[e]].Block? && e in bs[home[e]].members)
    && (forall r :: 0 <= r < |bs| && bs[r].Block? ==> AllHome(bs[r].members, home, r))
    && (forall r :: 0 <= r < |bs| && bs[r].Block? ==> NoRepeats(bs[r].members))
  }

  /** The blocks as they were at some earlier time: they refine the classes, and every root still has one. */
  ghost predicate Stale(bs: seq<Block>, home: seq<nat>, t: seq<nat>)
    requires Downward(t)
  {
    && |bs| == |t| && Housed(bs, home)
    && (forall e {:trigger home[e]} :: 0 <= e < |t| ==> home[e] < |t| && SameClass(t, e, home[e]))
    && (forall r :: 0 <= r < |t| && t[r] == r ==> bs[r].Block?)
  }

  /** The blocks are the classes: the block of a root lists its class, without repetition, and nothing else has a block. */
  ghost predicate Synced(bs: seq<Block>, t: seq<nat>)
    requires Downward(t)
  {
    && |bs| == |t|
    && (forall r :: 0 <= r < |t| ==> (bs[r].Block? <==> t[r] == r))
    && (forall r :: 0 <= r < |t| && t[r] == r ==>
          NoRepeats(bs[r].members) && forall e: nat :: e in bs[r].members <==> e < |t| && Root(t, e) == r)
  }

  function Singles(n: nat): seq<Block> {
    seq(n, i requires 0 <= i < n => Block([i as nat]))
  }

  lemma SinglesStale(t: seq<nat>)
    requires Downward(t)
    ensures Stale(Singles(|t|), seq(|t|, i => i), t)
  {
  }

  lemma SyncedStale(bs: seq<Block>, t: seq<nat>)
    requires Downward(t) && Synced(bs, t)
    ensures Stale(bs, Roots(t), t)
  {
    forall r | 0 <= r < |bs| && bs[r].Block? ensures AllHome(bs[r].members, Roots(t), r) {
      var ms := bs[r].members;
      forall x | 0 <= x < |ms| ensures ms[x] < |t| && Roots(t)[ms[x]] == r { assert ms[x] in ms; }
    }
    forall e | 0 <= e < |t| ensures Roots(t)[e] < |t| && bs[Roots(t)[e]].Block? && e in bs[Roots(t)[e]].members {
      assert Root(t, e) <= e;
    }
  }

  lemma StaleDone(bs: seq<Block>, home: seq<nat>, t: seq<nat>)
    requires Downward(t) && Stale(bs, home, t) && forall r :: 0 <= r < |t| && bs[r].Block? ==> t[r] == r
    ensures Synced(bs, t)
  {
    forall r, e: nat | 0 <= r < |t| && t[r] == r ensures e in bs[r].members <==> e < |t| && Root(t, e) == r {
      assert bs[r].Block? && AllHome(bs[r].members, home, r);
      if e in bs[r].members {
        var x :| 0 <= x < |bs[r].members| && bs[r].members[x] == e;
        assert home[e] == r;
      }
      if e < |t| {
        assert home[e] < |t| && SameClass(t, e, home[e]) && bs[home[e]].Block? && e in bs[home[e]].members;
      }
    }
  }

  /** Merging block `i` into the block of its root (lines 109-116). */
  lemma MergeStale(bs: seq<Block>, home: seq<nat>, t: seq<nat>, i: nat) returns (home': seq<nat>)
    requires Downward(t) && Stale(bs, home, t) && i < |t| && bs[i].Block? && Root(t, i) != i
    ensures bs[Root(t, i)].Block? && Stale(bs[Root(t, i) := Block(bs[Root(t, i)].members + bs[i].members)][i := Gone], home', t)
  {
    var ii := Root(t, i);
    assert bs[ii].Block?;
    var ms, ns := bs[ii].members, bs[i].members;
    home' := seq(|home|, e requires 0 <= e < |home| => if home[e] == i then ii else home[e]);
    var bs' := bs[ii := Block(ms + ns)][i := Gone];
    MergedOnce(bs, home, ii, i);
    forall r | 0 <= r < |bs'| && bs'[r].Block? ensures AllHome(bs'[r].members, home', r) {
      assert bs[r].Block? && AllHome(bs[r].members, home, r) && AllHome(ns, home, i);
    }
    forall e | 0 <= e < |t| ensures home'[e] < |t| && SameClass(t, e, home'[e]) && bs'[home'[e]].Block? && e in bs'[home'[e]].members {
      assert home[e] < |t| && SameClass(t, e, home[e]) && e in bs[home[e]].members;
    }
  }

  lemma MergedOnce(bs: seq<Block>, home: seq<nat>, ii: nat, i: nat)
    requires Housed(bs, home) && ii < |bs| && i < |bs| && ii != i && bs[ii].Block? && bs[i].Block?
    ensures NoRepeats(bs[ii].members + bs[i].members)
  {
    var ms, ns := bs[ii].members, bs[i].members;
    assert AllHome(ms, home, ii) && AllHome(ns, home, i);
    forall a, b | 0 <= a < b < |ms + ns| ensures (ms + ns)[a] != (ms + ns)[b] {
      if a < |ms| <= b {
        assert home[ms[a]] == ii && home[ns[b - |ms|]] == i;
      }
    }
  }

  /** Blocks stay stale when classes merge. */
  lemma LinkedStale(bs: seq<Block>, home: seq<nat>, t: seq<nat>, ii: nat, jj: nat)
    requires Downward(t) && Stale(bs, home, t) && ii < |t| && jj < |t| && t[ii] == ii && t[jj] == jj
    ensures Downward(Linked(t, ii, jj)) && Stale(bs, home, Linked(t, ii, jj))
  {
    var t' := Linked(t, ii, jj);
    LinkedDown(t, ii, jj);
    forall e | 0 <= e < |t| ensures home[e] < |t| && SameClass(t', e, home[e]) {
      assert home[e] < |t| && SameClass(t, e, home[e]);
      LinkedRoot(t, ii, jj, e);
      LinkedRoot(t, ii, jj, home[e]);
    }
  }

  lemma {:induction false} LinkedRoot(t: seq<nat>, ii: nat, jj: nat, e: nat)
    requires Downward(t) && ii < |t| && jj < |t| && t[ii] == ii && t[jj] == jj && e < |t|
    ensures var t' := Linked(t, ii, jj); var lo, hi := if ii < jj then ii else jj, if ii < jj then jj else ii;
            Downward(t') && Root(t', e) == if Root(t, e) == hi then lo else Root(t, e)
    decreases e
  {
    LinkedDown(t, ii, jj);
    if t[e] != e {
      LinkedRoot(t, ii, jj, t[e]);
    } else {
      var t', lo := Linked(t, ii, jj), if ii < jj then ii else jj;
      assert Root(t', lo) == lo;
    }
  }

  /** The loop of `get_blocks` (lines 105-119). */
  method MergeBlocks(bs: seq<Block>, t: seq<nat>, ghost home: seq<nat>) returns (bs': seq<Block>)
    requires Downward(t) && Stale(bs, home, t)
    ensures Synced(bs', t)
  {
    bs' := bs;
    ghost var home' := home;
    var i := 0;
    assert |bs| == |t|;
    hide Stale, Synced, Root;
    while i < |t|
      invariant i <= |t| == |bs'| && Stale(bs', home', t)
      invariant forall r :: 0 <= r < i && bs'[r].Block? ==> t[r] == r
    {
      if bs'[i].Block? {
        var ii := FindRoot(t, i);
        if ii != i {
          home' := MergeStale(bs', home', t, i);
          bs' := bs'[ii := Block(bs'[ii].members + bs'[i].members)][i := Gone];
        }
      }
      i := i + 1;
    }
    StaleDone(bs', home', t);
  }

  // ----- the class -----

  lemma UnitedBlocks(bs: seq<Block>, home: seq<nat>, t: seq<nat>, changed: bool, i: nat, j: nat) returns (home': seq<nat>)
    requires Downward(t) && i < |t| && j < |t| && (if changed then Stale(bs, home, t) else Synced(bs, t))
    ensures Downward(Linked(t, Root(t, i), Root(t, j))) && Stale(bs, home', Linked(t, Root(t, i), Root(t, j)))
  {
    home' := if changed then home else Roots(t);
    if !changed {
      SyncedStale(bs, t);
    }
    LinkedStale(bs, home', t, Root(t, i), Root(t, j));
  }

  lemma {:induction false} RootFlat(t: seq<nat>, e: nat)
    requires Downward(t) && e < |t|
    ensures Downward(Roots(t)) && Root(Roots(t), e) == Root(t, e)
  {
    FlatRoots(t);
    assert Roots(t)[e] == Root(t, e) && Roots(t)[Root(t, e)] == Root(t, e);
  }

  lemma FlatBlocks(bs: seq<Block>, home: seq<nat>, t: seq<nat>)
    requires Downward(t)
    ensures Downward(Roots(t)) && (Stale(bs, home, t) ==> Stale(bs, home, Roots(t))) && (Synced(bs, t) ==> Synced(bs, Roots(t)))
  {
    FlatRoots(t);
    forall e | 0 <= e < |t| ensures Root(Roots(t), e) == Root(t, e) { RootFlat(t, e); }
    hide Root, Housed, NoRepeats;
  }

  lemma UniteLabels(lab: seq<nat>, t: seq<nat>, i: nat, j: nat)
    requires Downward(t) && i < |t| && j < |t|
    ensures Respects(lab, Linked(t, Root(t, i), Root(t, j))) <==> |lab| == |t| && Respects(lab, t) && lab[i] == lab[j]
  {
    if |lab| == |t| {
      LinkedRespects(lab, t, i, j);
    }
  }

  lemma RootIs(t: seq<nat>, i: nat)
    requires Downward(t) && i < |t| && t[i] == i
    ensures Root(t, i) == i
  {
  }

  datatype Blocks = Unbound | Bound(blocks: seq<Block>)

  /** The cached blocks are the classes unless something has changed since. */
  ghost predicate CacheOk(t: seq<nat>, blocks: Blocks, changed: bool, home: seq<nat>)
    requires Downward(t)
  {
    if blocks.Unbound? then !changed ==> forall i :: 0 <= i < |t| ==> t[i] == i
    else if changed then Stale(blocks.blocks, home, t) else Synced(blocks.blocks, t)
  }

  class UF {
    var table: seq<nat>
    var blocks: Blocks
    var hasChanged: bool
    var rep: nat

    ghost var home: seq<nat>

    ghost predicate Valid()
      reads this
    {
      Downward(table) && CacheOk(table, blocks, hasChanged, home)
    }

    /** Lines 58-68. */
    constructor (size: nat)
      ensures Valid() && |table| == size && forall i, j :: 0 <= i < size && 0 <= j < size ==> (SameClass(table, i, j) <==> i == j)
    {
      table, blocks, hasChanged, rep, home := seq(size, i => i), Unbound, false, 0, [];
    }

    /** `find`: the least member of the class. */
    method Find(i: nat) returns (r: nat)
      requires Valid() && i < |table|
      ensures r < |table| && SameClass(table, i, r) && forall j :: 0 <= j < |table| && SameClass(table, i, j) ==> r <= j
    {
      r := FindRoot(table, i);
      forall j | 0 <= j < |table| && SameClass(table, i, j) ensures r <= j { RootLeast(table, i, j); }
    }

    /** `unite` adds exactly one pair to the equivalence. */
    method Unite(i: nat, j: nat)
      requires Valid() && i < |table| && j < |table|
      modifies this
      ensures Valid() && |table| == |old(table)|
      ensures forall lab: seq<nat> :: Respects(lab, table) <==> |lab| == |table| && Respects(lab, old(table)) && lab[i] == lab[j]
    {
      ghost var home' := home;
      if blocks.Bound? {
        home' := UnitedBlocks(blocks.blocks, home, table, hasChanged, i, j);
      }
      hide Stale, Synced, Root, Respects, Linked;
      forall lab: seq<nat> ensures Respects(lab, Linked(table, Root(table, i), Root(table, j))) <==> |lab| == |table| && Respects(lab, table) && lab[i] == lab[j] {
        UniteLabels(lab, table, i, j);
      }
      var t := UniteTable(table, i, j);
      table, hasChanged, home := t, true, home';
    }

    /** `flatten` changes no class. */
    method Flatten()
      requires Valid()
      modifies this`table
      ensures Valid() && table == Roots(old(table))
    {
      if blocks.Bound? {
        FlatBlocks(blocks.blocks, home, table);
      } else {
        FlatRoots(table);
      }
      hide Stale, Synced, Root;
      table := FlattenTable(table);
    }

    /** `add_entry`: one more class, with one member (lines 162-168). */
    method AddEntry()
      requires Valid()
      modifies this
      ensures Valid() && table == old(table) + [|old(table)|]
      ensures blocks == if old(blocks).Unbound? then Unbound else Bound(old(blocks).blocks + [Block([|old(table)|])])
    {
      AddedEntry(table, blocks, hasChanged, home);
      hide CacheOk;
      if blocks.Bound? {
        blocks := Bound(blocks.blocks + [Block([|table|])]);
        home := home + [|table|];
      }
      table := table + [|table|];
    }

    /** `nr_blocks`: the number of roots, one in every class. */
    method NrBlocks() returns (count: nat)
      requires Valid()
      modifies this`table
      ensures Valid() && count == RootCount(old(table), |old(table)|) && (table == Roots(old(table)) || table == old(table) == [])
    {
      if blocks.Bound? {
        FlatBlocks(blocks.blocks, home, table);
      } else {
        FlatRoots(table);
      }
      hide Stale, Synced, Root;
      var t;
      count, t := CountBlocks(table);
      table := t;
    }

    /** `reset_next_rep` (lines 189-192). */
    method ResetNextRep()
      requires Valid()
      modifies this`table, this`rep
      ensures Valid() && table == Roots(old(table)) && rep == 0
    {
      Flatten();
      rep := 0;
    }

    /** `next_rep`, while nothing has changed since the reset: the roots in increasing order, then the size (lines 196-202). */
    method NextRep() returns (current: nat)
      requires Valid() && (forall i :: 0 <= i < |table| ==> table[table[i]] == table[i])
      requires rep <= |table| && (rep < |table| ==> table[rep] == rep)
      modifies this`rep
      ensures current == old(rep) && rep <= |table| && (rep < |table| ==> table[rep] == rep)
      ensures current < |table| ==> current < rep && forall i :: current < i < rep ==> table[i] != i
    {
      current := rep;
      rep := NextRoot(table, rep);
    }

    /** `get_blocks`: the classes as lists (lines 91-123). */
    method GetBlocks() returns (bs: seq<Block>)
      requires Valid()
      modifies this`blocks, this`hasChanged, this`home
      ensures Valid() && Synced(bs, table) && blocks == Bound(bs) && !hasChanged
    {
      if blocks.Unbound? {
        SinglesCache(table, hasChanged);
        blocks, home := Bound(Singles(|table|)), seq(|table|, i => i);
      }
      if hasChanged {
        bs := MergeBlocks(blocks.blocks, table, home);
        blocks, hasChanged := Bound(bs), false;
      } else {
        bs := blocks.blocks;
      }
    }

    /** `join`: the least equivalence containing both (lines 204-209). */
    method Join(uf: UF)
      requires Valid() && uf.Valid() && |uf.table| == |table|
      modifies this
      ensures Valid() && |table| == |old(table)|
      ensures forall lab: seq<nat> :: Respects(lab, table) <==> Respects(lab, old(table)) && Respects(lab, old(uf.table))
    {
      ghost var t, u := table, uf.table;
      var i := 0;
      hide CacheOk, Respects, FollowsUpTo;
      JoinStart(t, u);
      while i < |table|
        invariant i <= |table| == |t| && Valid() && (if uf == this then t == u else uf.table == u)
        invariant forall lab: seq<nat> :: Respects(lab, table) <==> Respects(lab, t) && |lab| == |u| && FollowsUpTo(lab, u, i)
      {
        ghost var before, w := table, uf.table[i];
        assert table[i] <= i && uf.table[i] <= i;
        Unite(table[i], uf.table[i]);
        forall lab: seq<nat> ensures Respects(lab, table) <==> Respects(lab, t) && |lab| == |u| && FollowsUpTo(lab, u, i + 1) {
          JoinedEntry(lab, t, u, before, table, i, w);
        }
        i := i + 1;
      }
      JoinEnd(t, u);
    }
  }

  lemma JoinStart(t: seq<nat>, u: seq<nat>)
    requires |u| == |t|
    ensures forall lab: seq<nat> :: Respects(lab, t) <==> Respects(lab, t) && |lab| == |u| && FollowsUpTo(lab, u, 0)
  {
  }

  lemma JoinEnd(t: seq<nat>, u: seq<nat>)
    requires |u| == |t|
    ensures forall lab: seq<nat> :: Respects(lab, t) && |lab| == |u| && FollowsUpTo(lab, u, |u|) <==> Respects(lab, t) && Respects(lab, u)
  {
  }

  /** One turn of `join`, also when a table is joined to itself. */
  lemma JoinedEntry(lab: seq<nat>, t: seq<nat>, u: seq<nat>, before: seq<nat>, after: seq<nat>, i: nat, w: nat)
    requires i < |t| == |u| == |before| && before[i] < |before| && w < |before|
    requires Respects(lab, before) <==> Respects(lab, t) && |lab| == |u| && FollowsUpTo(lab, u, i)
    requires Respects(lab, after) <==> |lab| == |after| && Respects(lab, before) && lab[before[i]] == lab[w]
    requires |after| == |t| && (w == u[i] || (t == u && w == before[i]))
    ensures Respects(lab, after) <==> Respects(lab, t) && |lab| == |u| && FollowsUpTo(lab, u, i + 1)
  {
    if |lab| == |u| {
      assert FollowsUpTo(lab, u, i + 1) <==> FollowsUpTo(lab, u, i) && Follows(lab, u, i);
      if Respects(lab, before) {
        assert Follows(lab, before, i);
        if t == u {
          assert Follows(lab, t, i);
        }
      }
    }
  }

  lemma SinglesCache(t: seq<nat>, changed: bool)
    requires Downward(t) && (!changed ==> forall i :: 0 <= i < |t| ==> t[i] == i)
    ensures CacheOk(t, Bound(Singles(|t|)), changed, seq(|t|, i => i))
  {
    SinglesStale(t);
    if !changed {
      forall i | 0 <= i < |t| ensures Root(t, i) == i { RootIs(t, i); }
    }
  }

  lemma {:induction false} RootGrow(t: seq<nat>, x: nat, i: nat)
    requires Downward(t) && i < |t| && x == |t|
    ensures Downward(t + [x]) && Root(t + [x], i) == Root(t, i)
    decreases i
  {
    if t[i] != i {
      RootGrow(t, x, t[i]);
    }
  }

  lemma AddedEntry(t: seq<nat>, blocks: Blocks, changed: bool, home: seq<nat>)
    requires Downward(t) && CacheOk(t, blocks, changed, home)
    ensures Downward(t + [|t|])
    ensures blocks.Unbound? ==> CacheOk(t + [|t|], blocks, changed, home)
    ensures blocks.Bound? ==> CacheOk(t + [|t|], Bound(blocks.blocks + [Block([|t|])]), changed, home + [|t|])
  {
    var t' := t + [|t|];
    forall i | 0 <= i < |t| ensures Root(t', i) == Root(t, i) { RootGrow(t, |t|, i); }
    assert Root(t', |t|) == |t|;
    hide Root;
    if blocks.Bound? {
      var bs := blocks.blocks;
      var bs' := bs + [Block([|t|])];
      if changed {
        assert Housed(bs', home + [|t|]) by { AddedHoused(bs, home); }
        hide Housed;
        forall e {:trigger (home + [|t|])[e]} | 0 <= e < |t'| ensures (home + [|t|])[e] < |t'| && SameClass(t', e, (home + [|t|])[e]) {
          if e < |t| { assert home[e] < |t| && SameClass(t, e, home[e]); }
        }
      } else {
        forall r | 0 <= r < |t'| && t'[r] == r
          ensures NoRepeats(bs'[r].members) && forall e: nat :: e in bs'[r].members <==> e < |t'| && Root(t', e) == r {
          if r < |t| {
            assert t[r] == r;
          }
        }
      }
    }
  }

  lemma AddedHoused(bs: seq<Block>, home: seq<nat>)
    requires Housed(bs, home)
    ensures Housed(bs + [Block([|bs|])], home + [|bs|])
  {
    var bs', home' := bs + [Block([|bs|])], home + [|bs|];
    forall e {:trigger home'[e]} | 0 <= e < |bs'| ensures home'[e] < |bs'| && bs'[home'[e]].Block? && e in bs'[home'[e]].members {
      if e < |bs| { assert home[e] < |bs| && bs[home[e]].Block?; }
    }
    forall r | 0 <= r < |bs'| && bs'[r].Block? ensures AllHome(bs'[r].members, home', r) {
      if r < |bs| { assert bs[r].Block? && AllHome(bs[r].members, home, r); }
    }
  }
}
