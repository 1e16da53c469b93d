/** Order properties of SHORTLEX. */
module ShortLex {
  import opened Words

  lemma Assoc(u: Word, v: Word, w: Word)
    ensures (u + v) + w == u + (v + w)
  {
  }

  lemma {:induction false} LexIrreflexive(u: Word)
    ensures !LexLess(u, u)
  {
    if u != [] {
      LexIrreflexive(u[1..]);
    }
  }

  lemma {:induction false} LexTrans(u: Word, v: Word, w: Word)
    requires |u| == |v| == |w| && LexLess(u, v) && LexLess(v, w)
    ensures LexLess(u, w)
    decreases |u|
  {
    if u[0] == v[0] == w[0] {
      LexTrans(u[1..], v[1..], w[1..]);
    }
  }

  lemma {:induction false} LexTotal(u: Word, v: Word)
    requires |u| == |v|
    ensures u == v || LexLess(u, v) || LexLess(v, u)
    decreases |u|
  {
    if u != [] && u[0] == v[0] {
      LexTotal(u[1..], v[1..]);
      assert u == [u[0]] + u[1..] && v == [v[0]] + v[1..];
    }
  }

  lemma {:induction false} LexAppend(u: Word, v: Word, x: Word, y: Word)
    requires |u| == |v| && |x| == |y| && LexLess(u, v)
    ensures LexLess(u + x, v + y)
    decreases |u|
  {
    assert (u + x)[1..] == u[1..] + x && (v + y)[1..] == v[1..] + y;
    if u[0] == v[0] {
      LexAppend(u[1..], v[1..], x, y);
    }
  }

  lemma {:induction false} LexPrepend(w: Word, u: Word, v: Word)
    requires |u| == |v|
    ensures LexLess(w + u, w + v) <==> LexLess(u, v)
    decreases |w|
  {
    if w == [] {
      assert w + u == u && w + v == v;
    } else {
      assert (w + u)[1..] == w[1..] + u && (w + v)[1..] == w[1..] + v;
      LexPrepend(w[1..], u, v);
    }
  }

  lemma LessIrreflexive(u: Word, v: Word)
    requires Less(u, v)
    ensures u != v && !Less(v, u)
  {
    LexIrreflexive(u);
    if |u| == |v| && LexLess(v, u) {
      LexTrans(u, v, u);
    }
  }

  lemma LessTrans(u: Word, v: Word, w: Word)
    requires LessEq(u, v) && LessEq(v, w)
    ensures LessEq(u, w) && (Less(u, v) || Less(v, w) ==> Less(u, w))
  {
    if |u| == |v| == |w| && u != v && v != w {
      LexTrans(u, v, w);
    }
  }

  lemma LessTotal(u: Word, v: Word)
    ensures Less(u, v) || LessEq(v, u)
  {
    if |u| == |v| {
      LexTotal(u, v);
    }
  }

  /** Appending words of equal length keeps the order. */
  lemma LessAppend(u: Word, v: Word, x: Word, y: Word)
    requires Less(u, v) && |x| == |y|
    ensures Less(u + x, v + y)
  {
    if |u| == |v| {
      LexAppend(u, v, x, y);
    }
  }

  lemma LessPrepend(w: Word, u: Word, v: Word)
    ensures Less(w + u, w + v) <==> Less(u, v)
  {
    if |u| == |v| {
      LexPrepend(w, u, v);
    }
  }

  /** Both orders of comparison for words that end in single letters. */
  lemma LessLast(u: Word, a: Letter, v: Word, b: Letter)
    ensures Less(u + [a], v + [b]) <==> Less(u, v) || (u == v && a < b)
  {
    LessTotal(u, v);
    if u == v {
      LexIrreflexive(u);
      LessPrepend(u, [a], [b]);
      assert [a][1..] == [b][1..] == [];
      assert LexLess([a], [b]) <==> a < b;
    } else if Less(u, v) {
      LessAppend(u, v, [a], [b]);
    } else {
      LessAppend(v, u, [b], [a]);
      LessIrreflexive(v + [b], u + [a]);
      LessIrreflexive(v, u);
    }
  }
}
