/**
 * Starting from a table whose entries are all known: `init_after_prefill`.
 * Lines cited here are those of src/cong/tc.cc.
 */
module CosetPrefill {
  import opened Words
  import opened Derivations
  import opened CosetTable
  import opened CosetColumn
  import opened CosetList
  import opened CosetTables
  import opened CosetMeaning
  import opened CosetState
  import opened CosetExact
  import opened CosetProgress

  /** A row for each of `n` cosets, without gaps. */
  ghost predicate FullTable(t: Table, k: nat, n: nat) {
    n > 0 && Shape(t, k, n) && forall a, c :: 0 <= a < k && 0 <= c < n ==> 0 < t[a][c] < n
  }

  /** The table is right for the congruence `s`, and satisfies the relations in `base` at every coset. */
  ghost predicate Fills(s: System, k: nat, base: set<Pair>, t: Table, n: nat, rep: seq<Word>) {
    && FullTable(t, k, n) && |rep| == n && rep[0] == []
    && (forall a, c :: 0 <= a < k && 0 <= c < n ==> Derives(s, rep[c] + [a], rep[t[a][c]]))
    && (forall c :: 0 <= c < n ==> Run(t, 0, rep[c]) == c)
    && (forall p, c :: p in base && 0 <= c < n ==> Satisfies(t, c, p))
  }

  // ----- the preimage chains of one generator -----

  /** The cosets before `c` have been entered into the chains. */
  ghost predicate Entered(img: seq<int>, init: seq<int>, next: seq<int>, n: nat, c: nat, chain: seq<seq<nat>>) {
    && |init| == |next| == n && Ok(Column(img, init, next), n, Below(c), Below(n), chain)
  }

  ghost predicate FullColumn(img: seq<int>, n: nat) {
    |img| == n && forall c :: 0 <= c < n ==> 0 < img[c] < n
  }

  function Nothing(n: nat): seq<int> {
    seq(n, _ => UNDEFINED)
  }

  lemma NoneEntered(img: seq<int>, n: nat)
    requires FullColumn(img, n)
    ensures Entered(img, Nothing(n), Nothing(n), n, 0, seq(n, _ => []))
  {
    assert Below(0) == {};
  }

  /** The chain to which `c` is added. */
  lemma EnterHere(img: seq<int>, init: seq<int>, next: seq<int>, n: nat, c: nat, s: seq<nat>)
    requires FullColumn(img, n) && |init| == |next| == n && c < n && img[c] < n && Chained(Column(img, init, next), n, Below(c), img[c], s)
    ensures var b := img[c]; Chained(Column(img, init[b := c], next[c := init[b]]), n, Below(c + 1), b, [c] + s)
  {
    var b := img[c];
    assert c !in s;
    ThreadsCons(init, next, init[b := c], next[c := init[b]], b, c, s);
    hide Threads, Below;
    EnterList(img, n, c, s);
  }

  lemma EnterList(img: seq<int>, n: nat, c: nat, s: seq<nat>)
    requires |img| == n && c < n && 0 <= img[c] < n && Lists(img, n, Below(c), img[c], s)
    ensures Lists(img, n, Below(c + 1), img[c], [c] + s)
  {
    var t := [c] + s;
    forall x | x in Below(c + 1) && img[x] == img[c] ensures x in t {
      if x == c { assert t[0] == c; } else { assert x in s; }
    }
  }

  /** The other chains. */
  lemma EnterElsewhere(img: seq<int>, init: seq<int>, next: seq<int>, n: nat, c: nat, e: nat, s: seq<nat>)
    requires FullColumn(img, n) && |init| == |next| == n && c < n && e < n && img[c] != e && Chained(Column(img, init, next), n, Below(c), e, s)
    ensures var b := img[c]; Chained(Column(img, init[b := c], next[c := init[b]]), n, Below(c + 1), e, s)
  {
    var b := img[c];
    assert c !in s;
    ThreadsFrame(init, next, init[b := c], next[c := init[b]], e, s);
    hide Threads;
  }

  lemma EnterAt(img: seq<int>, init: seq<int>, next: seq<int>, n: nat, c: nat, e: nat, s: seq<nat>)
    requires FullColumn(img, n) && |init| == |next| == n && c < n && e < n && Chained(Column(img, init, next), n, Below(c), e, s)
    ensures var b := img[c];
            Chained(Column(img, init[b := c], next[c := init[b]]), n, Below(c + 1), e, if e == b then [c] + s else s)
  {
    hide Chained;
    if e == img[c] {
      EnterHere(img, init, next, n, c, s);
    } else {
      EnterElsewhere(img, init, next, n, c, e, s);
    }
  }

  /** Lines 161-163: `c` becomes the first preimage of its image. */
  lemma EnterOne(img: seq<int>, init: seq<int>, next: seq<int>, n: nat, c: nat, chain: seq<seq<nat>>)
    requires FullColumn(img, n) && Entered(img, init, next, n, c, chain) && c < n
    ensures |chain| == n && var b := img[c]; Entered(img, init[b := c], next[c := init[b]], n, c + 1, chain[b := [c] + chain[b]])
  {
    hide Chained;
    var b := img[c];
    var chain' := chain[b := [c] + chain[b]];
    forall e | e in Below(n) ensures Chained(Column(img, init[b := c], next[c := init[b]]), n, Below(c + 1), e, chain'[e]) {
      EnterAt(img, init, next, n, c, e, chain[e]);
    }
  }

  lemma EnteredAll(img: seq<int>, init: seq<int>, next: seq<int>, n: nat, chain: seq<seq<nat>>)
    requires FullColumn(img, n) && Entered(img, init, next, n, n, chain)
    ensures Ok(Column(img, init, next), n, Below(n), Below(n), chain) && InRange(img, n)
  {
    hide Ok;
  }

  // ----- all generators -----

  /** Of the first `i` generators the cosets up to `c` have been entered, of the others those before it. */
  ghost predicate EnteredTo(t: Tables, k: nat, n: nat, c: nat, i: nat, chains: seq<seq<seq<nat>>>) {
    && Columns(t, k) && |chains| == k
    && forall a :: 0 <= a < k ==> EnteredColumn(t, k, n, c, i, chains, a)
  }

  ghost predicate EnteredColumn(t: Tables, k: nat, n: nat, c: nat, i: nat, chains: seq<seq<seq<nat>>>, a: nat)
    requires Columns(t, k) && |chains| == k && a < k
  {
    FullColumn(t.image[a], n) && Entered(t.image[a], t.init[a], t.next[a], n, if a < i then c + 1 else c, chains[a])
  }

  function Enter(t: Tables, a: nat, c: nat): Tables
    requires a < |t.image| && a < |t.init| && a < |t.next| && c < |t.image[a]| && 0 <= t.image[a][c] < |t.init[a]| && c < |t.next[a]|
  {
    var b := t.image[a][c];
    Tables(t.image, t.init[a := t.init[a][b := c]], t.next[a := t.next[a][c := t.init[a][b]]])
  }

  lemma EnterStep(t: Tables, k: nat, n: nat, c: nat, a: nat, chains: seq<seq<seq<nat>>>) returns (chains': seq<seq<seq<nat>>>)
    requires EnteredTo(t, k, n, c, a, chains) && a < k && c < n
    ensures a < |t.image| && a < |t.init| && a < |t.next| && c < |t.image[a]| && 0 <= t.image[a][c] < |t.init[a]| && c < |t.next[a]|
    ensures EnteredTo(Enter(t, a, c), k, n, c, a + 1, chains')
  {
    hide Entered;
    assert EnteredColumn(t, k, n, c, a, chains, a);
    EnteredSize(t.image[a], t.init[a], t.next[a], n, c, chains[a]);
    EnterOne(t.image[a], t.init[a], t.next[a], n, c, chains[a]);
    var b := t.image[a][c];
    chains' := chains[a := chains[a][b := [c] + chains[a][b]]];
    var t' := Enter(t, a, c);
    var upTo := a + 1;
    forall h | 0 <= h < k ensures EnteredColumn(t', k, n, c, upTo, chains', h) {
      assert EnteredColumn(t, k, n, c, a, chains, h);
    }
  }

  lemma EnteredSize(img: seq<int>, init: seq<int>, next: seq<int>, n: nat, c: nat, chain: seq<seq<nat>>)
    requires Entered(img, init, next, n, c, chain)
    ensures |init| == |next| == |chain| == n
  {
  }

  lemma EnterImage(t: Tables, a: nat, c: nat)
    requires a < |t.image| && a < |t.init| && a < |t.next| && c < |t.image[a]| && 0 <= t.image[a][c] < |t.init[a]| && c < |t.next[a]|
    ensures Enter(t, a, c).image == t.image
  {
  }

  lemma EnterRow(t: Tables, k: nat, n: nat, c: nat, chains: seq<seq<seq<nat>>>)
    requires EnteredTo(t, k, n, c, k, chains)
    ensures EnteredTo(t, k, n, c + 1, 0, chains)
  {
    hide Entered;
    var row := c + 1;
    forall a | 0 <= a < k ensures EnteredColumn(t, k, n, row, 0, chains, a) {
      assert EnteredColumn(t, k, n, c, k, chains, a);
    }
  }

  lemma EnterStart(image: Table, k: nat, n: nat)
    requires FullTable(image, k, n)
    ensures EnteredTo(Tables(image, seq(k, _ => Nothing(n)), seq(k, _ => Nothing(n))), k, n, 0, 0, seq(k, _ => seq(n, _ => [])))
  {
    hide Entered;
    var t, chains := Tables(image, seq(k, _ => Nothing(n)), seq(k, _ => Nothing(n))), seq(k, _ => seq(n, _ => []));
    forall a | 0 <= a < k ensures EnteredColumn(t, k, n, 0, 0, chains, a) {
      NoneEntered(image[a], n);
    }
  }

  lemma EnterEnd(t: Tables, k: nat, n: nat, chains: seq<seq<seq<nat>>>)
    requires EnteredTo(t, k, n, n, 0, chains)
    ensures TablesOk(t, k, n, Below(n), chains)
  {
    hide Entered, Ok;
    forall a | 0 <= a < k ensures ColumnOk(t, k, n, Below(n), chains, a) {
      assert EnteredColumn(t, k, n, n, 0, chains, a);
      EnteredAll(t.image[a], t.init[a], t.next[a], n, chains[a]);
    }
  }

  /** Lines 159-165. */
  method EnterAll(image: Table, k: nat, n: nat) returns (t: Tables, ghost chains: seq<seq<seq<nat>>>)
    requires FullTable(image, k, n)
    ensures t.image == image && TablesOk(t, k, n, Below(n), chains)
  {
    hide *;
    EnterStart(image, k, n);
    t, chains := Tables(image, seq(k, _ => Nothing(n)), seq(k, _ => Nothing(n))), seq(k, _ => seq(n, _ => []));
    var c := 0;
    while c < n
      invariant c <= n && t.image == image && EnteredTo(t, k, n, c, 0, chains)
    {
      var i := 0;
      while i < k
        invariant i <= k && t.image == image && EnteredTo(t, k, n, c, i, chains)
      {
        ghost var chains' := EnterStep(t, k, n, c, i, chains);
        EnterImage(t, i, c);
        t, chains := Enter(t, i, c), chains';
        i := i + 1;
      }
      EnterRow(t, k, n, c, chains);
      c := c + 1;
    }
    EnterEnd(t, k, n, chains);
  }

  // ----- the list -----

  function Forward(n: nat): seq<int> {
    seq(n, (i: nat) => if i + 1 < n then i + 1 else UNDEFINED)
  }

  function Backward(n: nat): seq<int> {
    seq(n, (i: nat) => if i > 0 then i - 1 else 0)
  }

  function Range(n: nat): seq<nat> {
    seq(n, i => i)
  }

  /** Lines 146-154: all rows are active, in the order of their numbers. */
  method LinkAll(n: nat) returns (l: Links)
    requires n > 0
    ensures l == Links(Forward(n), Backward(n), n - 1, UNDEFINED)
  {
    var forwd, bckwd := [UNDEFINED], [0];
    var i := 1;
    while i < n
      invariant 1 <= i <= n && |forwd| == |bckwd| == i
      invariant forall h :: 1 <= h < i ==> forwd[h] == h + 1
      invariant forall h :: 0 <= h < i ==> bckwd[h] == if h > 0 then h - 1 else 0
    {
      forwd, bckwd, i := forwd + [i + 1], bckwd + [i - 1], i + 1;
    }
    forwd := forwd[0 := 1];
    forwd := forwd[n - 1 := UNDEFINED];
    l := Links(forwd, bckwd, n - 1, UNDEFINED);
  }

  lemma LinkedAll(n: nat)
    requires n > 0
    ensures ListOk(Forward(n), Backward(n), n - 1, UNDEFINED, Range(n), Range(n), n)
  {
  }

  lemma AliveAll(n: nat)
    ensures Live(Range(n), n) == Below(n)
  {
  }

  /** `init_after_prefill` (lines 138-166). */
  method InitAfterPrefill(image: Table, k: nat, n: nat) returns (c: Cosets, ghost o: Order)
    requires FullTable(image, k, n)
    ensures StructureOk(k, c, o) && c.active == n == Size(o) && o.cur == 0 && c.tables.image == image && Alive(c, o) == Below(n)
  {
    var t;
    ghost var chains;
    t, chains := EnterAll(image, k, n);
    var l := LinkAll(n);
    c := Cosets(n, 0, l, t);
    o := Order(Range(n), Range(n), chains, 0);
    LinkedAll(n);
    AliveAll(n);
    hide TablesOk, ListOk, Live;
  }

  /** The procedure may start from there. */
  lemma PrefilledRunning(s: System, k: nat, relations: seq<Pair>, extra: seq<Pair>, base: set<Pair>, n: nat, rep: seq<Word>, c: Cosets, o: Order)
    requires Fills(s, k, base, c.tables.image, n, rep)
    requires StructureOk(k, c, o) && c.active == n == Size(o) && o.cur == 0 && Alive(c, o) == Below(n)
    ensures Running(k, s, relations, extra, base, false, c, o, rep)
  {
    var t := c.tables.image;
    assert Closed(t, k, n, Below(n));
    assert Sound(s, t, k, n, Below(n), rep);
    assert Reached(t, Below(n), rep);
    assert BaseOk(k, c, o, base);
    hide StructureOk, Closed, Sound, Reached, BaseOk;
  }
}
