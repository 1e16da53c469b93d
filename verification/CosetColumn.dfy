/**
 * One generator's column of the coset tables: the image of every coset and the
 * threaded chains of preimages.
 */
module CosetColumn {
  import opened CosetTable

  /** `img` is a column of `_table`, `init` of `_preim_init` and `next` of `_preim_next`. */
  datatype Column = Column(img: seq<int>, init: seq<int>, next: seq<int>)

  ghost predicate NoDup(s: seq<nat>) {
    forall i, j :: 0 <= i < j < |s| ==> s[i] != s[j]
  }

  /** The `j`-th member of a chain, or `UNDEFINED` past its end. */
  function At(s: seq<nat>, j: nat): int {
    if j < |s| then s[j] else UNDEFINED
  }

  /** Following `init[d]` and then `next` visits exactly `s`. */
  ghost predicate Threads(init: seq<int>, next: seq<int>, d: nat, s: seq<nat>)
    requires d < |init| && forall j :: 0 <= j < |s| ==> s[j] < |next|
  {
    && init[d] == At(s, 0)
    && forall j :: 0 <= j < |s| ==> next[s[j]] == At(s, j + 1)
  }

  ghost predicate Sized(col: Column, n: nat, src: set<nat>, tgt: set<nat>, chain: seq<seq<nat>>) {
    && |col.img| == n && |col.init| >= n && |col.next| >= n && |chain| == n
    && (forall c :: c in src ==> c < n)
    && (forall d :: d in tgt ==> d < n)
  }

  /** The images of the cosets in `src` are undefined, or are cosets in `tgt` other than 0. */
  ghost predicate Images(img: seq<int>, n: nat, src: set<nat>, tgt: set<nat>)
    requires |img| == n && forall c :: c in src ==> c < n
  {
    forall c :: c in src && img[c] != UNDEFINED ==> img[c] > 0 && img[c] in tgt
  }

  /** `s` lists, once each, the cosets of `src` whose image is `d`. */
  ghost predicate Lists(img: seq<int>, n: nat, src: set<nat>, d: nat, s: seq<nat>)
    requires |img| == n && forall c :: c in src ==> c < n
  {
    && NoDup(s)
    && (forall j :: 0 <= j < |s| ==> s[j] in src && img[s[j]] == d)
    && (forall c :: c in src && img[c] == d ==> c in s)
  }

  ghost predicate Chained(col: Column, n: nat, src: set<nat>, d: nat, s: seq<nat>)
    requires |col.img| == n && |col.init| >= n && |col.next| >= n
    requires (forall c :: c in src ==> c < n) && d < n
  {
    && Lists(col.img, n, src, d, s)
    && Threads(col.init, col.next, d, s)
  }

  /**
   * The column invariant: `chain[d]` is the chain of preimages of every `d` in
   * `tgt`, taken among the cosets of `src`.
   */
  ghost predicate Ok(col: Column, n: nat, src: set<nat>, tgt: set<nat>, chain: seq<seq<nat>>) {
    && Sized(col, n, src, tgt, chain)
    && Images(col.img, n, src, tgt)
    && forall d :: d in tgt ==> Chained(col, n, src, d, chain[d])
  }

  // ----- how threads and lists react to one change -----

  lemma ThreadsFrame(init: seq<int>, next: seq<int>, init': seq<int>, next': seq<int>, d: nat, s: seq<nat>)
    requires d < |init| == |init'| && |next| == |next'| && forall j :: 0 <= j < |s| ==> s[j] < |next|
    requires Threads(init, next, d, s)
    requires init'[d] == init[d] && forall j :: 0 <= j < |s| ==> next'[s[j]] == next[s[j]]
    ensures Threads(init', next', d, s)
  {
  }

  lemma ThreadsCons(init: seq<int>, next: seq<int>, init': seq<int>, next': seq<int>, d: nat, c: nat, s: seq<nat>)
    requires d < |init| == |init'| && c < |next| == |next'| && forall j :: 0 <= j < |s| ==> s[j] < |next|
    requires Threads(init, next, d, s)
    requires init'[d] == c && next'[c] == init[d] && forall j :: 0 <= j < |s| ==> next'[s[j]] == next[s[j]]
    ensures var t := [c] + s; (forall j :: 0 <= j < |t| ==> t[j] < |next'|) && Threads(init', next', d, t)
  {
    var t := [c] + s;
    forall j | 0 <= j < |t| ensures t[j] < |next'| && next'[t[j]] == At(t, j + 1) {
      assert At(t, j + 1) == At(s, j);
      if j > 0 { assert t[j] == s[j - 1]; }
    }
  }

  lemma ThreadsTail(init: seq<int>, next: seq<int>, init': seq<int>, next': seq<int>, d: nat, s: seq<nat>)
    requires d < |init| == |init'| && |next| == |next'| && forall j :: 0 <= j < |s| ==> s[j] < |next|
    requires s != [] && Threads(init, next, d, s)
    requires init'[d] == next[s[0]] && forall j :: 1 <= j < |s| ==> next'[s[j]] == next[s[j]]
    ensures Threads(init', next', d, s[1..])
  {
    var t := s[1..];
    forall j | 0 <= j < |t| ensures next'[t[j]] == At(t, j + 1) {
      assert t[j] == s[j + 1] && At(t, j + 1) == At(s, j + 2);
    }
  }

  lemma ListsFrame(img: seq<int>, img': seq<int>, n: nat, src: set<nat>, src': set<nat>, d: nat, s: seq<nat>)
    requires |img| == |img'| == n && (forall c :: c in src ==> c < n) && src' <= src
    requires Lists(img, n, src, d, s)
    requires forall c :: c in src && img[c] == d ==> c in src' && img'[c] == d
    requires forall c :: c in src' && img'[c] == d ==> img[c] == d
    ensures Lists(img', n, src', d, s)
  {
  }

  lemma ListsCons(img: seq<int>, n: nat, src: set<nat>, d: nat, s: seq<nat>, c: nat)
    requires |img| == n && (forall c :: c in src ==> c < n)
    requires c in src && img[c] != d && Lists(img, n, src, d, s)
    ensures Lists(img[c := d], n, src, d, [c] + s)
  {
    var img', t := img[c := d], [c] + s;
    forall x | x in src && img'[x] == d ensures x in t {
      if x == c { assert t[0] == c; }
    }
  }

  lemma ListsTail(img: seq<int>, n: nat, src: set<nat>, d: nat, s: seq<nat>, e: int)
    requires |img| == n && (forall c :: c in src ==> c < n)
    requires s != [] && s[0] < n && e != d && Lists(img, n, src, d, s)
    ensures Lists(img[s[0] := e], n, src, d, s[1..])
  {
    var img', t := img[s[0] := e], s[1..];
    assert s == [s[0]] + t;
  }

  // ----- changing one edge -----

  /** Give `c` the image `d`, at the front of the chain of `d`. */
  function LinkFront(col: Column, c: nat, d: nat): Column
    requires c < |col.img| && c < |col.next| && d < |col.init|
  {
    Column(col.img[c := d], col.init[d := c], col.next[c := col.init[d]])
  }

  lemma LinkFrontAt(col: Column, n: nat, live: set<nat>, c: nat, d: nat, e: nat, s: seq<nat>)
    requires |col.img| == n && |col.init| >= n && |col.next| >= n && (forall x :: x in live ==> x < n)
    requires c in live && d < n && e < n && col.img[c] == UNDEFINED && Chained(col, n, live, e, s)
    ensures Chained(LinkFront(col, c, d), n, live, e, if e == d then [c] + s else s)
  {
    var col' := LinkFront(col, c, d);
    if e == d {
      ListsCons(col.img, n, live, d, s, c);
      ThreadsCons(col.init, col.next, col'.init, col'.next, d, c, s);
    } else {
      ListsFrame(col.img, col'.img, n, live, live, e, s);
      ThreadsFrame(col.init, col.next, col'.init, col'.next, e, s);
    }
  }

  lemma LinkFrontOk(col: Column, n: nat, live: set<nat>, chain: seq<seq<nat>>, c: nat, d: nat)
    requires Ok(col, n, live, live, chain)
    requires c in live && d in live && d > 0 && col.img[c] == UNDEFINED
    ensures Ok(LinkFront(col, c, d), n, live, live, chain[d := [c] + chain[d]])
  {
    hide Chained;
    var col', chain' := LinkFront(col, c, d), chain[d := [c] + chain[d]];
    forall e | e in live ensures Chained(col', n, live, e, chain'[e]) {
      LinkFrontAt(col, n, live, c, d, e, chain[e]);
    }
  }

  /** Move the first preimage `v` of `rhs` to the front of the chain of `lhs`. */
  function MoveFirst(col: Column, v: nat, lhs: nat, rhs: nat): Column
    requires v < |col.img| && v < |col.next| && lhs < |col.init| && rhs < |col.init|
  {
    Column(col.img[v := lhs], col.init[lhs := v][rhs := col.next[v]], col.next[v := col.init[lhs]])
  }

  lemma MoveFirstAt(col: Column, n: nat, live: set<nat>, lhs: nat, rhs: nat, v: nat, e: nat, s: seq<nat>)
    requires |col.img| == n && |col.init| >= n && |col.next| >= n && (forall x :: x in live ==> x < n)
    requires lhs < n && rhs < n && lhs != rhs && v in live && col.img[v] == rhs && e < n && Chained(col, n, live, e, s)
    requires e == rhs ==> s != [] && s[0] == v
    ensures Chained(MoveFirst(col, v, lhs, rhs), n, live, e, if e == lhs then [v] + s else if e == rhs then s[1..] else s)
  {
    var col' := MoveFirst(col, v, lhs, rhs);
    if e == lhs {
      ListsCons(col.img, n, live, lhs, s, v);
      ThreadsCons(col.init, col.next, col'.init, col'.next, lhs, v, s);
    } else if e == rhs {
      ListsTail(col.img, n, live, rhs, s, lhs);
      ThreadsTail(col.init, col.next, col'.init, col'.next, rhs, s);
    } else {
      ListsFrame(col.img, col'.img, n, live, live, e, s);
      ThreadsFrame(col.init, col.next, col'.init, col'.next, e, s);
    }
  }

  lemma ChainMember(col: Column, n: nat, src: set<nat>, d: nat, s: seq<nat>, j: nat)
    requires |col.img| == n && |col.init| >= n && |col.next| >= n && (forall c :: c in src ==> c < n) && d < n
    requires Chained(col, n, src, d, s) && j < |s|
    ensures s[j] in src && col.img[s[j]] == d
  {
  }

  lemma MoveFirstOk(col: Column, n: nat, live: set<nat>, chain: seq<seq<nat>>, lhs: nat, rhs: nat, v: nat)
    requires Ok(col, n, live, live, chain)
    requires lhs in live && rhs in live && lhs != rhs && lhs > 0 && chain[rhs] != [] && v == chain[rhs][0]
    ensures v in live
    ensures Ok(MoveFirst(col, v, lhs, rhs), n, live, live, chain[lhs := [v] + chain[lhs]][rhs := chain[rhs][1..]])
  {
    hide Chained;
    ChainMember(col, n, live, rhs, chain[rhs], 0);
    var col' := MoveFirst(col, v, lhs, rhs);
    var chain' := chain[lhs := [v] + chain[lhs]][rhs := chain[rhs][1..]];
    forall e | e in live ensures Chained(col', n, live, e, chain'[e]) {
      MoveFirstAt(col, n, live, lhs, rhs, v, e, chain[e]);
    }
  }

  /** Take the `j`-th member of the chain `s` of `v` out of it. */
  function Unthread(col: Column, v: nat, s: seq<nat>, j: nat): Column
    requires j < |s| && v < |col.init| && forall i :: 0 <= i < |s| ==> s[i] < |col.next|
  {
    if j == 0 then col.(init := col.init[v := col.next[s[0]]])
    else col.(next := col.next[s[j - 1] := col.next[s[j]]])
  }

  lemma ListsRemove(img: seq<int>, n: nat, src: set<nat>, d: nat, s: seq<nat>, j: nat)
    requires |img| == n && (forall c :: c in src ==> c < n)
    requires j < |s| && Lists(img, n, src, d, s)
    ensures Lists(img, n, src - {s[j]}, d, s[..j] + s[j + 1..])
  {
    var t := s[..j] + s[j + 1..];
    assert forall i :: 0 <= i < |t| ==> t[i] == s[if i < j then i else i + 1];
    forall x | x in src - {s[j]} && img[x] == d ensures x in t {
      var i :| 0 <= i < |s| && s[i] == x;
      assert t[if i < j then i else i - 1] == x;
    }
  }

  lemma ThreadsRemove(init: seq<int>, next: seq<int>, init': seq<int>, next': seq<int>, d: nat, s: seq<nat>, j: nat)
    requires d < |init| == |init'| && |next| == |next'| && forall j :: 0 <= j < |s| ==> s[j] < |next|
    requires 0 < j < |s| && NoDup(s) && Threads(init, next, d, s)
    requires init' == init && next' == next[s[j - 1] := next[s[j]]]
    ensures var t := s[..j] + s[j + 1..];
            (forall i :: 0 <= i < |t| ==> t[i] < |next'|) && Threads(init', next', d, t)
  {
    var t := s[..j] + s[j + 1..];
    forall i | 0 <= i < |t| ensures t[i] < |next'| && next'[t[i]] == At(t, i + 1) {
      assert At(t, i + 1) == At(s, if i + 1 < j then i + 1 else i + 2);
      if i < j {
        assert t[i] == s[i];
        if i + 1 == j { assert next'[s[i]] == next[s[j]]; } else { assert s[i] != s[j - 1]; }
      } else {
        assert t[i] == s[i + 1] && s[i + 1] != s[j - 1];
      }
    }
  }

  lemma UnthreadAt(col: Column, n: nat, live: set<nat>, v: nat, s: seq<nat>, j: nat, e: nat, t: seq<nat>)
    requires |col.img| == n && |col.init| >= n && |col.next| >= n && (forall x :: x in live ==> x < n)
    requires v < n && e < n && Chained(col, n, live, v, s) && j < |s|
    requires Chained(col, n, live, e, t) && (e == v ==> t == s)
    ensures Chained(Unthread(col, v, s, j), n, live - {s[j]}, e, if e == v then s[..j] + s[j + 1..] else t)
  {
    var col' := Unthread(col, v, s, j);
    if e != v {
      ListsFrame(col.img, col.img, n, live, live - {s[j]}, e, t);
      ThreadsFrame(col.init, col.next, col'.init, col'.next, e, t);
    } else {
      ListsRemove(col.img, n, live, v, s, j);
      if j == 0 {
        assert s[..j] + s[j + 1..] == s[1..];
        ThreadsTail(col.init, col.next, col'.init, col'.next, v, s);
      } else {
        ThreadsRemove(col.init, col.next, col'.init, col'.next, v, s, j);
      }
    }
  }

  lemma UnthreadOk(col: Column, n: nat, live: set<nat>, tgt: set<nat>, chain: seq<seq<nat>>, v: nat, j: nat)
    requires Ok(col, n, live, tgt, chain)
    requires v in tgt && j < |chain[v]|
    ensures forall i :: 0 <= i < |chain[v]| ==> chain[v][i] in live
    ensures Ok(Unthread(col, v, chain[v], j), n, live - {chain[v][j]}, tgt, chain[v := chain[v][..j] + chain[v][j + 1..]])
  {
    assert Chained(col, n, live, v, chain[v]);
    var s := chain[v];
    var s', col', src := s[..j] + s[j + 1..], Unthread(col, v, s, j), live - {s[j]};
    hide Lists, Threads, Images;
    forall e | e in tgt ensures Chained(col', n, src, e, chain[v := s'][e]) {
      UnthreadAt(col, n, live, v, s, j, e, chain[e]);
    }
  }

  // ----- merging the coset `rhs` into the coset `lhs`, one generator at a time -----

  function Renamed(x: int, lhs: nat, rhs: nat): int {
    if x == rhs then lhs else x
  }

  /**
   * What merging does to one column.  Every live entry `rhs` becomes `lhs`, and
   * the image of `rhs` is handed to `lhs` if `lhs` has none.
   */
  ghost predicate Merged(img: seq<int>, img': seq<int>, live: set<nat>, lhs: nat, rhs: nat)
    requires lhs < |img| && rhs < |img| && |img'| == |img|
  {
    && (forall c :: 0 <= c < |img| && c !in live ==> img'[c] == img[c])
    && (forall c :: 0 <= c < |img| && c in live && c != lhs ==> img'[c] == Renamed(img[c], lhs, rhs))
    && img'[lhs] == Renamed(if img[lhs] == UNDEFINED then img[rhs] else img[lhs], lhs, rhs)
  }

  /** The new coincidence, if both cosets had an image. */
  function Coincidence(img: seq<int>, img': seq<int>, lhs: nat, rhs: nat): seq<(int, int)>
    requires lhs < |img| && rhs < |img| && |img'| == |img|
  {
    if img[lhs] == UNDEFINED || img[rhs] == UNDEFINED then []
    else [(Min(img'[lhs], img'[rhs]), Max(img'[lhs], img'[rhs]))]
  }

  function Min(x: int, y: int): int { if x < y then x else y }

  function Max(x: int, y: int): int { if x < y then y else x }

  lemma RedirectDone(col: Column, n: nat, live: set<nat>, chain: seq<seq<nat>>, rhs: nat)
    requires Sized(col, n, live, live, chain) && rhs in live
    requires Ok(col.(init := col.init[rhs := UNDEFINED]), n, live, live, chain)
    ensures chain[rhs] == []
    ensures Ok(col, n, live, live - {rhs}, chain)
    ensures forall c :: c in live ==> col.img[c] != rhs
  {
    var col' := col.(init := col.init[rhs := UNDEFINED]);
    assert Chained(col', n, live, rhs, chain[rhs]);
    forall e | e in live - {rhs} ensures Chained(col, n, live, e, chain[e]) {
      assert Chained(col', n, live, e, chain[e]);
    }
  }

  lemma ChainHead(col: Column, n: nat, src: set<nat>, d: nat, s: seq<nat>)
    requires |col.img| == n && |col.init| >= n && |col.next| >= n && (forall c :: c in src ==> c < n) && d < n
    requires Chained(col, n, src, d, s)
    ensures col.init[d] == At(s, 0)
  {
  }

  lemma ChainNext(col: Column, n: nat, src: set<nat>, d: nat, s: seq<nat>, j: nat)
    requires |col.img| == n && |col.init| >= n && |col.next| >= n && (forall c :: c in src ==> c < n) && d < n
    requires Chained(col, n, src, d, s) && j < |s|
    ensures s[j] < |col.next| && col.next[s[j]] == At(s, j + 1)
  {
  }

  /** One round of the redirecting loop; `init[rhs]` is stale there and `v` stands in for it. */
  lemma RedirectStep(img: seq<int>, init: seq<int>, next: seq<int>, n: nat, live: set<nat>, chain: seq<seq<nat>>,
                     lhs: nat, rhs: nat, v: int)
    requires rhs < |init| && Ok(Column(img, init[rhs := v], next), n, live, live, chain)
    requires lhs in live && rhs in live && lhs != rhs && lhs > 0 && v != UNDEFINED
    ensures chain[rhs] != [] && v >= 0 && v in live && v < |img| && v < |next| && lhs < |init| && img[v] == rhs
    ensures next[v] == At(chain[rhs][1..], 0)
    ensures Ok(Column(img[v := lhs], init[lhs := v][rhs := next[v]], next[v := init[lhs]]), n, live, live,
               chain[lhs := [v as nat] + chain[lhs]][rhs := chain[rhs][1..]])
  {
    hide Chained;
    var col := Column(img, init[rhs := v], next);
    ChainHead(col, n, live, rhs, chain[rhs]);
    ChainMember(col, n, live, rhs, chain[rhs], 0);
    ChainNext(col, n, live, rhs, chain[rhs], 0);
    MoveFirstOk(col, n, live, chain, lhs, rhs, v);
    assert init[rhs := v][lhs := v][rhs := next[v]] == init[lhs := v][rhs := next[v]];
  }

  /** Point every preimage of `rhs` at `lhs`, moving it to the chain of `lhs`. */
  method RedirectPreimages(col: Column, lhs: nat, rhs: nat, ghost n: nat, ghost live: set<nat>, ghost chain: seq<seq<nat>>)
    returns (col': Column, ghost chain': seq<seq<nat>>)
    requires Ok(col, n, live, live, chain)
    requires lhs in live && rhs in live && lhs != rhs && lhs > 0
    ensures Ok(col', n, live, live - {rhs}, chain')
    ensures forall c :: 0 <= c < n && c !in live ==> col'.img[c] == col.img[c]
    ensures forall c :: c in live ==> col'.img[c] == Renamed(col.img[c], lhs, rhs)
  {
    hide Chained;
    var img, init, next := col.img, col.init, col.next;
    chain' := chain;
    ChainHead(col, n, live, rhs, chain[rhs]);
    var v := init[rhs];
    assert init[rhs := v] == init;
    while v != UNDEFINED
      invariant |img| == n && |init| == |col.init| && |next| == |col.next| && |chain'| == n
      invariant Ok(Column(img, init[rhs := v], next), n, live, live, chain')
      invariant v == At(chain'[rhs], 0)
      invariant forall c :: 0 <= c < n && c !in live ==> img[c] == col.img[c]
      invariant forall c :: c in live ==> img[c] == col.img[c] || (col.img[c] == rhs && img[c] == lhs)
      decreases |chain'[rhs]|
    {
      RedirectStep(img, init, next, n, live, chain', lhs, rhs, v);
      chain' := chain'[lhs := [v as nat] + chain'[lhs]][rhs := chain'[rhs][1..]];
      img := img[v := lhs];
      var u := next[v];
      next := next[v := init[lhs]];
      init := init[lhs := v];
      v := u;
    }
    col' := Column(img, init, next);
    RedirectDone(col', n, live, chain', rhs);
  }

  /** Take `rhs`, which has an image, out of the chain of its image. */
  method UnlinkImage(col: Column, rhs: nat, ghost n: nat, ghost live: set<nat>, ghost tgt: set<nat>, ghost chain: seq<seq<nat>>)
    returns (col': Column, ghost chain': seq<seq<nat>>)
    requires Ok(col, n, live, tgt, chain)
    requires rhs in live && col.img[rhs] != UNDEFINED
    ensures Ok(col', n, live - {rhs}, tgt, chain')
    ensures col'.img == col.img
  {
    var v := col.img[rhs];
    ghost var s := chain[v];
    assert Chained(col, n, live, v, s);
    ghost var k: nat :| k < |s| && s[k] == rhs;
    UnthreadOk(col, n, live, tgt, chain, v, k);
    chain' := chain[v := s[..k] + s[k + 1..]];
    hide Ok;
    var u := col.init[v];
    if u == rhs {
      assert k == 0;
      col' := col.(init := col.init[v := col.next[rhs]]);
    } else {
      ghost var j: nat := 0;
      while col.next[u] != rhs
        invariant j < k && u == s[j]
        decreases k - j
      {
        u := col.next[u];
        j := j + 1;
      }
      assert j + 1 == k;
      col' := col.(next := col.next[u := col.next[rhs]]);
    }
  }

  /**
   * Merge `rhs` into `lhs` in one column, returning the new coincidence if both
   * had an image.
   */
  method MergeColumn(col: Column, lhs: nat, rhs: nat, ghost n: nat, ghost live: set<nat>, ghost chain: seq<seq<nat>>)
    returns (col': Column, pending: seq<(int, int)>, ghost chain': seq<seq<nat>>)
    requires Ok(col, n, live, live, chain)
    requires lhs in live && rhs in live && lhs != rhs && lhs > 0
    ensures Ok(col', n, live - {rhs}, live - {rhs}, chain')
    ensures Merged(col.img, col'.img, live, lhs, rhs)
    ensures pending == Coincidence(col.img, col'.img, lhs, rhs)
  {
    hide Chained;
    pending := [];
    col', chain' := RedirectPreimages(col, lhs, rhs, n, live, chain);
    var v := col'.img[rhs];
    if v == UNDEFINED {
      NoImage(col', n, live, live - {rhs}, chain', rhs);
    } else {
      col', chain' := UnlinkImage(col', rhs, n, live, live - {rhs}, chain');
      var u := col'.img[lhs];
      if u == UNDEFINED {
        LinkFrontOk(col', n, live - {rhs}, chain', lhs, v);
        chain' := chain'[v := [lhs] + chain'[v]];
        col' := Column(col'.img[lhs := v], col'.init[v := lhs], col'.next[lhs := col'.init[v]]);
      } else {
        pending := [(Min(u, v), Max(u, v))];
      }
    }
  }

  lemma NoImage(col: Column, n: nat, live: set<nat>, tgt: set<nat>, chain: seq<seq<nat>>, rhs: nat)
    requires Ok(col, n, live, tgt, chain) && rhs in live && col.img[rhs] == UNDEFINED
    ensures Ok(col, n, live - {rhs}, tgt, chain)
  {
    forall e | e in tgt ensures Chained(col, n, live - {rhs}, e, chain[e]) {
      assert Chained(col, n, live, e, chain[e]);
      ListsFrame(col.img, col.img, n, live, live - {rhs}, e, chain[e]);
    }
  }

  // ----- new cosets -----

  /** A fresh row at the end of the column, belonging to no coset yet. */
  function Extend(col: Column): Column {
    Column(col.img + [UNDEFINED], col.init + [UNDEFINED], col.next + [UNDEFINED])
  }

  lemma ExtendAt(col: Column, n: nat, live: set<nat>, e: nat, s: seq<nat>)
    requires |col.img| == n && |col.init| >= n && |col.next| >= n && (forall x :: x in live ==> x < n) && e < n
    requires Chained(col, n, live, e, s)
    ensures Chained(Extend(col), n + 1, live, e, s)
  {
    var col' := Extend(col);
    assert forall j :: 0 <= j < |s| ==> col'.next[s[j]] == col.next[s[j]];
    assert forall x :: x in live ==> col'.img[x] == col.img[x];
  }

  lemma ExtendOk(col: Column, n: nat, live: set<nat>, chain: seq<seq<nat>>)
    requires Ok(col, n, live, live, chain)
    ensures Ok(Extend(col), n + 1, live, live, chain + [[]])
  {
    hide Chained;
    forall e | e in live ensures Chained(Extend(col), n + 1, live, e, (chain + [[]])[e]) {
      ExtendAt(col, n, live, e, chain[e]);
    }
  }

  /** Clear the row of the free coset `d`, which becomes live. */
  function Clear(col: Column, d: nat): Column
    requires d < |col.img| && d < |col.init|
  {
    Column(col.img[d := UNDEFINED], col.init[d := UNDEFINED], col.next)
  }

  lemma ClearAt(col: Column, n: nat, live: set<nat>, d: nat, e: nat, s: seq<nat>)
    requires |col.img| == n && |col.init| >= n && |col.next| >= n && (forall x :: x in live ==> x < n) && e < n
    requires d < n && d !in live && e != d && Chained(col, n, live, e, s)
    ensures Chained(Clear(col, d), n, live + {d}, e, s)
  {
    var col' := Clear(col, d);
    assert forall x :: x in live ==> col'.img[x] == col.img[x];
  }

  lemma ClearOk(col: Column, n: nat, live: set<nat>, chain: seq<seq<nat>>, d: nat)
    requires Ok(col, n, live, live, chain) && d < n && d !in live
    ensures Ok(Clear(col, d), n, live + {d}, live + {d}, chain[d := []])
  {
    var col', live' := Clear(col, d), live + {d};
    assert Chained(col', n, live', d, []);
    hide Chained;
    forall e | e in live' ensures Chained(col', n, live', e, chain[d := []][e]) {
      if e != d { ClearAt(col, n, live, d, e, chain[e]); }
    }
  }

  /** Give `c` the image `d`, right after the single preimage `b` of `d`. */
  function LinkSecond(col: Column, b: nat, c: nat, d: nat): Column
    requires c < |col.img| && c < |col.next| && b < |col.next|
  {
    Column(col.img[c := d], col.init, col.next[b := c][c := UNDEFINED])
  }

  lemma LinkSecondAt(col: Column, n: nat, live: set<nat>, b: nat, c: nat, d: nat, e: nat, s: seq<nat>)
    requires |col.img| == n && |col.init| >= n && |col.next| >= n && (forall x :: x in live ==> x < n)
    requires b in live && c in live && d < n && e < n && col.img[c] == UNDEFINED && col.img[b] == d
    requires Chained(col, n, live, e, s) && (e == d ==> s == [b])
    ensures Chained(LinkSecond(col, b, c, d), n, live, e, if e == d then [b, c] else s)
  {
    var col' := LinkSecond(col, b, c, d);
    if e != d {
      ListsFrame(col.img, col'.img, n, live, live, e, s);
      ThreadsFrame(col.init, col.next, col'.init, col'.next, e, s);
    } else {
      assert s[0] == b;
      assert [b, c][0] == b && [b, c][1] == c;
      assert forall x :: x in live && col'.img[x] == d ==> x == c || x in s;
    }
  }

  lemma LinkSecondOk(col: Column, n: nat, live: set<nat>, chain: seq<seq<nat>>, b: nat, c: nat, d: nat)
    requires Ok(col, n, live, live, chain)
    requires b in live && c in live && d in live && d > 0 && col.img[c] == UNDEFINED && col.img[b] == d
    requires chain[d] == [b]
    ensures Ok(LinkSecond(col, b, c, d), n, live, live, chain[d := [b, c]])
  {
    hide Chained;
    forall e | e in live ensures Chained(LinkSecond(col, b, c, d), n, live, e, chain[d := [b, c]][e]) {
      LinkSecondAt(col, n, live, b, c, d, e, chain[e]);
    }
  }
}
