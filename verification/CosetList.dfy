/**
 * The doubly linked list of cosets: the active cosets in order, followed by the
 * free ones.  A free coset keeps a negated forwarding address in `bckwd`.
 * Lines cited here are those of src/cong/tc.cc.
 */
module CosetList {
  import opened CosetTable
  import opened CosetColumn

  /** `list` is an arrangement of all cosets and `pos` says where each of them is. */
  ghost predicate Arranged(list: seq<nat>, pos: seq<nat>) {
    && |list| == |pos|
    && (forall i :: 0 <= i < |list| ==> list[i] < |pos| && pos[list[i]] == i)
    && (forall c :: 0 <= c < |pos| ==> pos[c] < |list| && list[pos[c]] == c)
  }

  /** The active cosets are the first `m` of the list. */
  function Live(pos: seq<nat>, m: nat): set<nat> {
    set c | 0 <= c < |pos| && pos[c] < m
  }

  ghost predicate LinksOk(forwd: seq<int>, bckwd: seq<int>, list: seq<nat>, pos: seq<nat>, m: nat)
    requires |forwd| == |bckwd| == |list| && Arranged(list, pos)
  {
    ForwardLinks(forwd, list, pos) && BackwardLinks(bckwd, list, pos, m) && FreeLinks(bckwd, pos, m)
  }

  ghost predicate ForwardLinks(forwd: seq<int>, list: seq<nat>, pos: seq<nat>)
    requires |forwd| == |list| == |pos|
  {
    forall c {:trigger forwd[c]} :: 0 <= c < |pos| ==> forwd[c] == At(list, pos[c] + 1)
  }

  ghost predicate BackwardLinks(bckwd: seq<int>, list: seq<nat>, pos: seq<nat>, m: nat)
    requires |bckwd| == |list| == |pos| && forall c :: 0 <= c < |pos| ==> pos[c] < |list|
  {
    forall c {:trigger bckwd[c]} :: 0 <= c < |pos| && 1 <= pos[c] < m ==> bckwd[c] == list[pos[c] - 1]
  }

  ghost predicate FreeLinks(bckwd: seq<int>, pos: seq<nat>, m: nat)
    requires |bckwd| == |pos|
  {
    forall c {:trigger Forwards(bckwd, pos, c)} :: 0 <= c < |pos| && m <= pos[c] ==> Forwards(bckwd, pos, c)
  }

  /** The free coset `c` forwards to a nonzero coset further up the list. */
  ghost predicate Forwards(bckwd: seq<int>, pos: seq<nat>, c: nat)
    requires c < |bckwd| == |pos|
  {
    bckwd[c] < 0 && -bckwd[c] < |pos| && pos[-bckwd[c]] < pos[c]
  }

  /**
   * The list invariant.  The free cosets come most recently killed first, so a
   * forwarding address names an active coset or one that was killed later.
   */
  ghost predicate ListOk(forwd: seq<int>, bckwd: seq<int>, last: int, next: int, list: seq<nat>, pos: seq<nat>, m: nat) {
    && |forwd| == |bckwd| == |list| && 1 <= m <= |list| && Arranged(list, pos)
    && list[0] == 0 && bckwd[0] == 0 && last == list[m - 1] && next == At(list, m)
    && LinksOk(forwd, bckwd, list, pos, m)
  }

  /** Active cosets, and only they, have a non-negative backward entry. */
  lemma LiveSign(forwd: seq<int>, bckwd: seq<int>, last: int, next: int, list: seq<nat>, pos: seq<nat>, m: nat, c: nat)
    requires ListOk(forwd, bckwd, last, next, list, pos, m) && c < |list|
    ensures c in Live(pos, m) <==> bckwd[c] >= 0
    ensures c !in Live(pos, m) ==> Forwards(bckwd, pos, c)
  {
    assert list[pos[c]] == c;
    if pos[c] >= m {
      assert Forwards(bckwd, pos, c);
    } else if pos[c] > 0 {
      assert bckwd[c] == list[pos[c] - 1];
    }
  }

  // ----- killing a coset -----

  /** Where things stand after the active coset at index `p` became the first free one. */
  function KilledIndex(i: nat, m: nat, p: nat): nat
    requires p < m
  {
    if i == p then m - 1 else if p < i < m then i - 1 else i
  }

  function KilledList(list: seq<nat>, m: nat, p: nat): seq<nat>
    requires p < m <= |list|
  {
    seq(|list|, i requires 0 <= i < |list| => if i < p then list[i] else if i < m - 1 then list[i + 1] else if i == m - 1 then list[p] else list[i])
  }

  function KilledPos(pos: seq<nat>, m: nat, p: nat): seq<nat>
    requires p < m
  {
    seq(|pos|, c requires 0 <= c < |pos| => KilledIndex(pos[c], m, p))
  }

  lemma KilledArranged(list: seq<nat>, pos: seq<nat>, m: nat, p: nat)
    requires Arranged(list, pos) && p < m <= |list|
    ensures Arranged(KilledList(list, m, p), KilledPos(pos, m, p))
    ensures Live(KilledPos(pos, m, p), m - 1) == Live(pos, m) - {list[p]}
  {
  }

  /** Lines 396-411: the links after `rhs` has been taken out and forwards to `lhs`. */
  function KillForwd(forwd: seq<int>, bckwd: seq<int>, last: int, next: int, rhs: nat): seq<int>
    requires |forwd| == |bckwd| && rhs < |forwd|
    requires rhs != last ==> 0 <= bckwd[rhs] < |forwd| && 0 <= last < |forwd|
  {
    if rhs == last then forwd
    else forwd[bckwd[rhs] := forwd[rhs]][rhs := next][last := rhs]
  }

  function KillBckwd(forwd: seq<int>, bckwd: seq<int>, last: int, lhs: nat, rhs: nat): seq<int>
    requires |forwd| == |bckwd| && rhs < |forwd|
    requires rhs != last ==> 0 <= forwd[rhs] < |bckwd|
  {
    var target: int := 0 - lhs;
    if rhs == last then bckwd[rhs := target]
    else bckwd[forwd[rhs] := bckwd[rhs]][rhs := target]
  }

  lemma KillLinks(forwd: seq<int>, bckwd: seq<int>, last: int, next: int, list: seq<nat>, pos: seq<nat>, m: nat, p: nat)
    requires ListOk(forwd, bckwd, last, next, list, pos, m) && 0 < p < m
    ensures bckwd[list[p]] == list[p - 1] && 0 <= last < |list|
    ensures if list[p] == last then p == m - 1 else p + 1 < m && forwd[list[p]] == list[p + 1]
  {
    assert pos[list[p]] == p && pos[last] == m - 1;
  }

  lemma KillForwdOk(forwd: seq<int>, bckwd: seq<int>, last: int, next: int, list: seq<nat>, pos: seq<nat>, m: nat, p: nat, c: nat)
    requires ListOk(forwd, bckwd, last, next, list, pos, m) && 0 < p < m && c < |list|
    requires bckwd[list[p]] == list[p - 1] && 0 <= last < |list|
    requires if list[p] == last then p == m - 1 else p + 1 < m && forwd[list[p]] == list[p + 1]
    ensures KillForwd(forwd, bckwd, last, next, list[p])[c] == At(KilledList(list, m, p), KilledIndex(pos[c], m, p) + 1)
  {
    assert pos[list[p]] == p && pos[last] == m - 1 && pos[list[p - 1]] == p - 1;
    assert forwd[c] == At(list, pos[c] + 1);
  }

  lemma KillBckwdOk(forwd: seq<int>, bckwd: seq<int>, last: int, next: int, list: seq<nat>, pos: seq<nat>, m: nat, p: nat, lhs: nat, c: nat)
    requires ListOk(forwd, bckwd, last, next, list, pos, m) && 0 < p < m && c < |list|
    requires bckwd[list[p]] == list[p - 1] && 0 <= last < |list|
    requires if list[p] == last then p == m - 1 else p + 1 < m && forwd[list[p]] == list[p + 1]
    requires 1 <= KilledIndex(pos[c], m, p) < m - 1
    ensures KillBckwd(forwd, bckwd, last, lhs, list[p])[c] == KilledList(list, m, p)[KilledIndex(pos[c], m, p) - 1]
  {
    var rhs, j := list[p], KilledIndex(pos[c], m, p);
    assert pos[rhs] == p && pos[last] == m - 1 && list[pos[c]] == c;
    assert bckwd[c] == list[pos[c] - 1];
    if rhs != last { assert pos[list[p + 1]] == p + 1; }
    hide ListOk;
    assert KilledList(list, m, p)[j - 1] == if j - 1 < p then list[j - 1] else list[j];
  }

  lemma KillForwardsOk(forwd: seq<int>, bckwd: seq<int>, last: int, rhs: nat, pos: seq<nat>, m: nat, p: nat, lhs: nat, c: nat)
    requires |forwd| == |bckwd| == |pos| && 0 < p < m && c < |pos| && rhs < |pos| && pos[rhs] == p
    requires rhs != last ==> 0 <= forwd[rhs] < |pos| && pos[forwd[rhs]] < m
    requires 0 < lhs < |pos| && pos[lhs] < m && lhs != rhs && pos[lhs] != p
    requires m <= pos[c] ==> Forwards(bckwd, pos, c)
    requires c == rhs || m <= pos[c]
    ensures Forwards(KillBckwd(forwd, bckwd, last, lhs, rhs), KilledPos(pos, m, p), c)
  {
    var b, q := KillBckwd(forwd, bckwd, last, lhs, rhs), KilledPos(pos, m, p);
    assert q[c] == KilledIndex(pos[c], m, p);
    if c == rhs {
      assert b[c] == 0 - lhs && q[lhs] == KilledIndex(pos[lhs], m, p);
    } else {
      var t := 0 - bckwd[c];
      assert b[c] == bckwd[c] && q[t] == KilledIndex(pos[t], m, p);
    }
  }

  /** Killing the active coset `list[p]` keeps the list invariant. */
  lemma KillOk(forwd: seq<int>, bckwd: seq<int>, last: int, next: int, list: seq<nat>, pos: seq<nat>, m: nat, p: nat, lhs: nat)
    requires ListOk(forwd, bckwd, last, next, list, pos, m) && 0 < p < m
    requires 0 < lhs < |pos| && pos[lhs] < m && lhs != list[p]
    ensures 0 <= bckwd[list[p]] < |forwd| && (list[p] != last ==> 0 <= forwd[list[p]] < |bckwd| && 0 <= last < |list|)
    ensures ListOk(KillForwd(forwd, bckwd, last, next, list[p]), KillBckwd(forwd, bckwd, last, lhs, list[p]),
                   if list[p] == last then bckwd[list[p]] else last, list[p],
                   KilledList(list, m, p), KilledPos(pos, m, p), m - 1)
  {
    KillLinks(forwd, bckwd, last, next, list, pos, m, p);
    KilledArranged(list, pos, m, p);
    var f, b := KillForwd(forwd, bckwd, last, next, list[p]), KillBckwd(forwd, bckwd, last, lhs, list[p]);
    var l, q := KilledList(list, m, p), KilledPos(pos, m, p);
    assert b[0] == 0 by {
      assert pos[0] == 0 && pos[list[p]] == p;
      if list[p] != last { assert pos[list[p + 1]] == p + 1; }
    }
    assert LinksOk(f, b, l, q, m - 1) by {
      KillLinksOk(forwd, bckwd, last, next, list, pos, m, p, lhs);
    }
  }

  lemma KillForwardsAt(forwd: seq<int>, bckwd: seq<int>, last: int, next: int, list: seq<nat>, pos: seq<nat>, m: nat, p: nat, lhs: nat, c: nat)
    requires ListOk(forwd, bckwd, last, next, list, pos, m) && 0 < p < m && c < |list|
    requires if list[p] == last then p == m - 1 else p + 1 < m && forwd[list[p]] == list[p + 1]
    requires 0 < lhs < |pos| && pos[lhs] < m && lhs != list[p]
    requires m - 1 <= KilledIndex(pos[c], m, p)
    ensures Forwards(KillBckwd(forwd, bckwd, last, lhs, list[p]), KilledPos(pos, m, p), c)
  {
    assert pos[list[p]] == p && list[pos[lhs]] == lhs && list[pos[c]] == c;
    if list[p] != last { assert pos[list[p + 1]] == p + 1; }
    assert m <= pos[c] ==> Forwards(bckwd, pos, c);
    hide ListOk, LinksOk, Arranged, Forwards, KillBckwd, KilledPos;
    KillForwardsOk(forwd, bckwd, last, list[p], pos, m, p, lhs, c);
  }

  lemma KilledPosAt(pos: seq<nat>, m: nat, p: nat)
    requires p < m
    ensures |KilledPos(pos, m, p)| == |pos| && forall c {:trigger KilledPos(pos, m, p)[c]} :: 0 <= c < |pos| ==> KilledPos(pos, m, p)[c] == KilledIndex(pos[c], m, p)
  {
  }

  lemma KillForwardLinks(forwd: seq<int>, bckwd: seq<int>, last: int, next: int, list: seq<nat>, pos: seq<nat>, m: nat, p: nat)
    requires ListOk(forwd, bckwd, last, next, list, pos, m) && 0 < p < m
    requires bckwd[list[p]] == list[p - 1] && 0 <= last < |list|
    requires if list[p] == last then p == m - 1 else p + 1 < m && forwd[list[p]] == list[p + 1]
    ensures |KillForwd(forwd, bckwd, last, next, list[p])| == |list|
    ensures ForwardLinks(KillForwd(forwd, bckwd, last, next, list[p]), KilledList(list, m, p), KilledPos(pos, m, p))
  {
    KilledPosAt(pos, m, p);
    var f, l, q := KillForwd(forwd, bckwd, last, next, list[p]), KilledList(list, m, p), KilledPos(pos, m, p);
    assert |f| == |l| == |q|;
    hide ListOk, KillForwd, KilledList, KilledPos, KilledIndex;
    forall c {:trigger f[c]} | 0 <= c < |q| ensures f[c] == At(l, q[c] + 1) {
      KillForwdOk(forwd, bckwd, last, next, list, pos, m, p, c);
    }
  }

  lemma KillBackwardLinks(forwd: seq<int>, bckwd: seq<int>, last: int, next: int, list: seq<nat>, pos: seq<nat>, m: nat, p: nat, lhs: nat)
    requires ListOk(forwd, bckwd, last, next, list, pos, m) && 0 < p < m
    requires bckwd[list[p]] == list[p - 1] && 0 <= last < |list|
    requires if list[p] == last then p == m - 1 else p + 1 < m && forwd[list[p]] == list[p + 1]
    requires Arranged(KilledList(list, m, p), KilledPos(pos, m, p))
    ensures |KillBckwd(forwd, bckwd, last, lhs, list[p])| == |list| == |KilledList(list, m, p)| == |KilledPos(pos, m, p)|
    ensures BackwardLinks(KillBckwd(forwd, bckwd, last, lhs, list[p]), KilledList(list, m, p), KilledPos(pos, m, p), m - 1)
  {
    KilledPosAt(pos, m, p);
    var b, l, q := KillBckwd(forwd, bckwd, last, lhs, list[p]), KilledList(list, m, p), KilledPos(pos, m, p);
    assert |b| == |l| == |q|;
    hide ListOk, KillBckwd, KilledList, KilledPos, KilledIndex, Arranged;
    forall c {:trigger b[c]} | 0 <= c < |q| && 1 <= q[c] < m - 1 ensures b[c] == l[q[c] - 1] {
      KillBckwdOk(forwd, bckwd, last, next, list, pos, m, p, lhs, c);
    }
  }

  lemma KillFreeLinks(forwd: seq<int>, bckwd: seq<int>, last: int, next: int, list: seq<nat>, pos: seq<nat>, m: nat, p: nat, lhs: nat)
    requires ListOk(forwd, bckwd, last, next, list, pos, m) && 0 < p < m
    requires 0 < lhs < |pos| && pos[lhs] < m && lhs != list[p]
    requires if list[p] == last then p == m - 1 else p + 1 < m && forwd[list[p]] == list[p + 1]
    ensures |KillBckwd(forwd, bckwd, last, lhs, list[p])| == |KilledPos(pos, m, p)|
    ensures FreeLinks(KillBckwd(forwd, bckwd, last, lhs, list[p]), KilledPos(pos, m, p), m - 1)
  {
    KilledPosAt(pos, m, p);
    var b, q := KillBckwd(forwd, bckwd, last, lhs, list[p]), KilledPos(pos, m, p);
    assert |b| == |q|;
    hide ListOk, KillBckwd, KilledPos, KilledIndex, Forwards;
    forall c {:trigger Forwards(b, q, c)} | 0 <= c < |q| && m - 1 <= q[c] ensures Forwards(b, q, c) {
      KillForwardsAt(forwd, bckwd, last, next, list, pos, m, p, lhs, c);
    }
  }

  lemma KillLinksOk(forwd: seq<int>, bckwd: seq<int>, last: int, next: int, list: seq<nat>, pos: seq<nat>, m: nat, p: nat, lhs: nat)
    requires ListOk(forwd, bckwd, last, next, list, pos, m) && 0 < p < m
    requires 0 < lhs < |pos| && pos[lhs] < m && lhs != list[p]
    requires bckwd[list[p]] == list[p - 1] && 0 <= last < |list|
    requires if list[p] == last then p == m - 1 else p + 1 < m && forwd[list[p]] == list[p + 1]
    requires Arranged(KilledList(list, m, p), KilledPos(pos, m, p))
    ensures LinksOk(KillForwd(forwd, bckwd, last, next, list[p]), KillBckwd(forwd, bckwd, last, lhs, list[p]),
                    KilledList(list, m, p), KilledPos(pos, m, p), m - 1)
  {
    KillForwardLinks(forwd, bckwd, last, next, list, pos, m, p);
    KillBackwardLinks(forwd, bckwd, last, next, list, pos, m, p, lhs);
    KillFreeLinks(forwd, bckwd, last, next, list, pos, m, p, lhs);
    hide ListOk, Arranged, KillForwd, KillBckwd, KilledList, KilledPos, ForwardLinks, BackwardLinks, FreeLinks;
  }

  /** Lines 396-411: take `rhs` out of the active list, make it the first free coset, forward it to `lhs`. */
  method Kill(forwd: seq<int>, bckwd: seq<int>, last: int, next: int, lhs: nat, rhs: nat, ghost list: seq<nat>, ghost pos: seq<nat>, ghost m: nat)
    returns (forwd': seq<int>, bckwd': seq<int>, last': int, next': int)
    requires ListOk(forwd, bckwd, last, next, list, pos, m)
    requires 0 < rhs < |pos| && pos[rhs] < m && 0 < lhs < |pos| && pos[lhs] < m && lhs != rhs
    ensures 0 < pos[rhs] && list[pos[rhs]] == rhs && bckwd[rhs] == list[pos[rhs] - 1]
    ensures rhs != last ==> 0 <= forwd[rhs] < |bckwd|
    ensures bckwd' == KillBckwd(forwd, bckwd, last, lhs, rhs)
    ensures |forwd'| == |bckwd'| == |list|
    ensures ListOk(forwd', bckwd', last', next', KilledList(list, m, pos[rhs]), KilledPos(pos, m, pos[rhs]), m - 1)
  {
    assert list[pos[rhs]] == rhs && list[pos[0]] == 0;
    KillLinks(forwd, bckwd, last, next, list, pos, m, pos[rhs]);
    KillOk(forwd, bckwd, last, next, list, pos, m, pos[rhs], lhs);
    hide ListOk;
    forwd', bckwd', last' := forwd, bckwd, last;
    if rhs == last {
      last' := bckwd[last];
    } else {
      bckwd' := bckwd'[forwd'[rhs] := bckwd'[rhs]];
      forwd' := forwd'[bckwd'[rhs] := forwd'[rhs]];
      forwd' := forwd'[rhs := next];
      forwd' := forwd'[last := rhs];
    }
    next' := rhs;
    bckwd' := bckwd'[rhs := 0 - lhs];
  }

  // ----- new cosets -----

  /** Recycling the first free coset keeps the list invariant. */
  lemma RecycleOk(forwd: seq<int>, bckwd: seq<int>, last: int, next: int, list: seq<nat>, pos: seq<nat>, m: nat)
    requires ListOk(forwd, bckwd, last, next, list, pos, m) && m < |list|
    ensures 0 <= next < |list| && next !in Live(pos, m) && next > 0
    ensures ListOk(forwd, bckwd[next := last], next, forwd[next], list, pos, m + 1)
    ensures Live(pos, m + 1) == Live(pos, m) + {next}
  {
    assert pos[next] == m && pos[last] == m - 1 && pos[0] == 0;
    var b := bckwd[next := last];
    forall c {:trigger b[c]} | 0 <= c < |pos| && 1 <= pos[c] < m + 1 ensures b[c] == list[pos[c] - 1] {
      if c != next { assert list[pos[c]] == c; assert bckwd[c] == list[pos[c] - 1]; }
    }
    forall c {:trigger Forwards(b, pos, c)} | 0 <= c < |pos| && m + 1 <= pos[c] ensures Forwards(b, pos, c) {
      assert Forwards(bckwd, pos, c);
    }
    assert forwd[next] == At(list, pos[next] + 1);
    forall c | 0 <= c < |pos| && pos[c] == m ensures c == next {
      assert list[pos[c]] == c;
    }
  }

  /** With no coset free, a new one at the end of the tables keeps the list invariant. */
  lemma AppendOk(forwd: seq<int>, bckwd: seq<int>, last: int, next: int, list: seq<nat>, pos: seq<nat>, m: nat)
    requires ListOk(forwd, bckwd, last, next, list, pos, m) && next == UNDEFINED
    ensures m == |list| && 0 <= last < |list|
    ensures ListOk(forwd[last := m] + [UNDEFINED], bckwd + [last], m, UNDEFINED, list + [m], pos + [m], m + 1)
    ensures Live(pos + [m], m + 1) == Live(pos, m) + {m}
  {
    assert m == |list|;
    assert pos[last] == m - 1;
    var f, b := forwd[last := m] + [UNDEFINED], bckwd + [last];
    var l, q := list + [m], pos + [m];
    assert Arranged(l, q);
    forall c {:trigger f[c]} | 0 <= c < |q| ensures f[c] == At(l, q[c] + 1) {
      if c < m && c != last {
        assert list[pos[c]] == c;
        assert forwd[c] == At(list, pos[c] + 1);
      }
    }
    forall c {:trigger b[c]} | 0 <= c < |q| && 1 <= q[c] < m + 1 ensures b[c] == l[q[c] - 1] {
      if c < m { assert bckwd[c] == list[pos[c] - 1]; }
    }
  }

  // ----- the marker -----

  /** The cosets before the marker `cur` and at it are among those before and at the marker `cur0` of `list0`. */
  ghost predicate MarkerWithin(list0: seq<nat>, cur0: nat, list: seq<nat>, cur: nat) {
    && cur <= cur0 < |list0| && cur < |list|
    && (forall i :: 0 <= i < cur ==> list[i] in list0[..cur0])
    && list[cur] in list0[..cur0 + 1]
  }

  lemma MarkerTrans(list0: seq<nat>, cur0: nat, list1: seq<nat>, cur1: nat, list2: seq<nat>, cur2: nat)
    requires MarkerWithin(list0, cur0, list1, cur1) && MarkerWithin(list1, cur1, list2, cur2)
    ensures MarkerWithin(list0, cur0, list2, cur2)
  {
    forall i | 0 <= i < cur2 ensures list2[i] in list0[..cur0] {
      var j :| 0 <= j < cur1 && list1[j] == list2[i];
      assert list1[j] in list0[..cur0];
    }
    var j :| 0 <= j <= cur1 && list1[j] == list2[cur2];
    if j < cur1 {
      assert list1[j] in list0[..cur0];
      var h :| 0 <= h < cur0 && list0[h] == list1[j];
      assert list0[..cur0 + 1][h] == list1[j];
    }
  }

  /** Lines 387-390: when the coset at the marker is killed the marker moves back by one. */
  lemma KillMarker(list: seq<nat>, m: nat, p: nat, cur: nat)
    requires 0 < p < m <= |list| && cur < m
    ensures var cur' := if p <= cur then cur - 1 else cur;
            && cur' < m - 1
            && KilledList(list, m, p)[cur'] == (if p == cur then list[p - 1] else list[cur])
            && MarkerWithin(list, cur, KilledList(list, m, p), cur')
  {
    var l := KilledList(list, m, p);
    var cur' := if p <= cur then cur - 1 else cur;
    forall i | 0 <= i < cur' ensures l[i] in list[..cur] {
      assert l[i] == list[..cur][if i < p then i else i + 1];
    }
    assert l[cur'] == list[..cur + 1][if cur' < p then cur' else cur' + 1];
  }

  lemma MarkerRefl(list: seq<nat>, cur: nat)
    requires cur < |list|
    ensures MarkerWithin(list, cur, list, cur)
  {
    assert list[cur] == list[..cur + 1][cur];
    assert forall i :: 0 <= i < cur ==> list[i] == list[..cur][i];
  }

  lemma KilledPosSize(pos: seq<nat>, m: nat, p: nat)
    requires p < m
    ensures |KilledPos(pos, m, p)| == |pos|
  {
  }

  lemma KillParts(forwd: seq<int>, bckwd: seq<int>, last: int, next: int, list: seq<nat>, pos: seq<nat>, m: nat, rhs: nat, cur: nat)
    requires ListOk(forwd, bckwd, last, next, list, pos, m) && 0 < rhs < |pos| && pos[rhs] < m && cur < m
    ensures 0 < pos[rhs] < m <= |list| == |pos| == |forwd| == |bckwd|
    ensures list[pos[rhs]] == rhs && bckwd[rhs] == list[pos[rhs] - 1]
    ensures |KilledList(list, m, pos[rhs])| == |KilledPos(pos, m, pos[rhs])| == |list|
    ensures Live(KilledPos(pos, m, pos[rhs]), m - 1) == Live(pos, m) - {rhs}
    ensures var cur' := if pos[rhs] <= cur then cur - 1 else cur;
            && cur' < m - 1
            && At(KilledList(list, m, pos[rhs]), cur') == (if list[cur] == rhs then list[pos[rhs] - 1] else list[cur])
            && MarkerWithin(list, cur, KilledList(list, m, pos[rhs]), cur')
  {
    assert list[pos[rhs]] == rhs && list[pos[0]] == 0 && pos[list[cur]] == cur;
    KilledArranged(list, pos, m, pos[rhs]);
    KillMarker(list, m, pos[rhs], cur);
    KillLinks(forwd, bckwd, last, next, list, pos, m, pos[rhs]);
  }
}
