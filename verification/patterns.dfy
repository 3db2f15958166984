/** The pattern library: from the user's root polyline, three motifs
    (plain, connector-start, connector-end), each kept as a family of four
    orientations in a pair of dictionaries. */
module Patterns {
  import opened Geometry
  import opened Orientations

  /** Plain motif: the root, then its mirror image across x + y = 0 run backwards. */
  function PlainBase(root: Polyline): Polyline
  {
    var m := MirrorAnti(root.xs, root.ys);
    Polyline(root.xs + Reverse(m.xs), root.ys + Reverse(m.ys))
  }

  /** Connector-start motif: the root without its last point, then the mirror
      image of that across x - y + 1 = 0 run backwards. */
  function StartBase(root: Polyline): Polyline
  {
    var xs, ys := DropLast(root.xs), DropLast(root.ys);
    var m := MirrorShifted(xs, ys);
    Polyline(xs + Reverse(m.xs), ys + Reverse(m.ys))
  }

  /** Connector-end motif: the connector-start motif mirrored across x + y = 0. */
  function EndBase(root: Polyline): Polyline
  {
    var s := StartBase(root);
    MirrorAnti(s.xs, s.ys)
  }

  /** The plain motif of an n-point root has 2n points: the root, then point
      2n-1-i is root point i sent to (-y, -x). */
  lemma PlainShape(root: Polyline)
    requires |root.xs| == |root.ys|
    ensures var p := PlainBase(root); var n := |root.xs|;
            && |p.xs| == |p.ys| == 2 * n
            && p.xs[..n] == root.xs && p.ys[..n] == root.ys
            && forall i :: 0 <= i < n ==> p.xs[2 * n - 1 - i] == -root.ys[i] && p.ys[2 * n - 1 - i] == -root.xs[i]
  {
    var n := |root.xs|;
    var p := PlainBase(root);
    assert p.xs[..n] == root.xs;
    assert p.ys[..n] == root.ys;
  }

  /** The connector-start motif of an n-point root (n >= 1) has 2(n-1) points:
      the first n-1 root points, then point 2(n-1)-1-i is root point i sent to
      (y - 1, x + 1). */
  lemma StartShape(root: Polyline)
    requires 1 <= |root.xs| == |root.ys|
    ensures var s := StartBase(root); var m := |root.xs| - 1;
            && |s.xs| == |s.ys| == 2 * m
            && s.xs[..m] == root.xs[..m] && s.ys[..m] == root.ys[..m]
            && forall i :: 0 <= i < m ==> s.xs[2 * m - 1 - i] == root.ys[i] - 1.0 && s.ys[2 * m - 1 - i] == root.xs[i] + 1.0
  {
    var m := |root.xs| - 1;
    var s := StartBase(root);
    assert s.xs[..m] == root.xs[..m];
    assert s.ys[..m] == root.ys[..m];
  }

  /** The connector-end motif has the connector-start motif's length and is its
      pointwise image under (x, y) -> (-y, -x), which also maps it back. */
  lemma EndShape(root: Polyline)
    requires |root.xs| == |root.ys|
    ensures var s := StartBase(root); var e := EndBase(root);
            && |s.xs| == |s.ys| == |e.xs| == |e.ys|
            && (forall i :: 0 <= i < |e.xs| ==> e.xs[i] == -s.ys[i] && e.ys[i] == -s.xs[i])
            && MirrorAnti(e.xs, e.ys) == s
  {
    var s := StartBase(root);
    var e := EndBase(root);
    var back := MirrorAnti(e.xs, e.ys);
    assert back.xs == s.xs;
    assert back.ys == s.ys;
  }

  /** Point i of the plain motif: a root point in the first half, a mirrored
      root point counted from the end in the second. */
  lemma PlainAt(root: Polyline, i: int)
    requires |root.xs| == |root.ys| && 0 <= i < 2 * |root.xs|
    ensures var p := PlainBase(root); var n := |root.xs|;
            && |p.xs| == |p.ys| == 2 * n
            && (i < n ==> p.xs[i] == root.xs[i] && p.ys[i] == root.ys[i])
            && (n <= i ==> p.xs[i] == -root.ys[2 * n - 1 - i] && p.ys[i] == -root.xs[2 * n - 1 - i])
  {
  }

  /** The plain motif is symmetric about x + y = 0: its mirror image is the
      same polyline traversed backwards. */
  lemma {:induction false} PlainSelfMirror(root: Polyline)
    requires |root.xs| == |root.ys|
    ensures var p := PlainBase(root);
            MirrorAnti(p.xs, p.ys) == Polyline(Reverse(p.xs), Reverse(p.ys))
  {
    var n := |root.xs|;
    var p := PlainBase(root);
    var m := MirrorAnti(p.xs, p.ys);
    if n > 0 {
      PlainAt(root, 0);
    }
    assert |p.xs| == |p.ys| == 2 * n;
    forall i | 0 <= i < 2 * n
      ensures m.xs[i] == p.xs[2 * n - 1 - i] && m.ys[i] == p.ys[2 * n - 1 - i]
    {
      PlainAt(root, i);
      PlainAt(root, 2 * n - 1 - i);
    }
    assert m.xs == Reverse(p.xs);
    assert m.ys == Reverse(p.ys);
  }

  /** Point i of the connector-start motif of an n-point root (m = n - 1):
      a root point in the first half, a shifted mirrored root point counted
      from the end in the second. */
  lemma StartAt(root: Polyline, i: int)
    requires 1 <= |root.xs| == |root.ys| && 0 <= i < 2 * (|root.xs| - 1)
    ensures var s := StartBase(root); var m := |root.xs| - 1;
            && |s.xs| == |s.ys| == 2 * m
            && (i < m ==> s.xs[i] == root.xs[i] && s.ys[i] == root.ys[i])
            && (m <= i ==> s.xs[i] == root.ys[2 * m - 1 - i] - 1.0 && s.ys[i] == root.xs[2 * m - 1 - i] + 1.0)
  {
  }

  /** Points i and k-1-i of the k-point connector-start motif are mirror
      images across x - y + 1 = 0. */
  lemma StartPairs(root: Polyline)
    requires |root.xs| == |root.ys|
    ensures var s := StartBase(root); var k := |s.xs|;
            && |s.ys| == k
            && forall i | 0 <= i < k :: s.ys[i] - 1.0 == s.xs[k - 1 - i] && s.xs[i] + 1.0 == s.ys[k - 1 - i]
  {
    ShiftedClosure(DropLast(root.xs), DropLast(root.ys));
  }

  /** Appending the mirror image across x - y + 1 = 0, traversed backwards, to
      a point list makes points i and k-1-i of the result mirror images. */
  lemma ShiftedClosure(xs: seq<real>, ys: seq<real>)
    requires |xs| == |ys|
    ensures var m := MirrorShifted(xs, ys);
            var cx, cy := xs + Reverse(m.xs), ys + Reverse(m.ys);
            && |cx| == |cy| == 2 * |xs|
            && forall i | 0 <= i < |cx| :: cy[i] - 1.0 == cx[|cx| - 1 - i] && cx[i] + 1.0 == cy[|cx| - 1 - i]
  {
    var n := |xs|;
    var m := MirrorShifted(xs, ys);
    var cx, cy := xs + Reverse(m.xs), ys + Reverse(m.ys);
    forall i | 0 <= i < 2 * n
      ensures cy[i] - 1.0 == cx[2 * n - 1 - i] && cx[i] + 1.0 == cy[2 * n - 1 - i]
    {
      if i < n {
        assert cx[2 * n - 1 - i] == m.xs[i];
        assert cy[2 * n - 1 - i] == m.ys[i];
      } else {
        assert cx[2 * n - 1 - i] == xs[2 * n - 1 - i];
        assert cy[2 * n - 1 - i] == ys[2 * n - 1 - i];
      }
    }
  }

  /** A point list whose points i and k-1-i are mirror images across
      x - y + 1 = 0 is its own mirror image traversed backwards. */
  lemma ShiftedSelfMirror(xs: seq<real>, ys: seq<real>)
    requires |xs| == |ys|
    requires forall i | 0 <= i < |xs| :: ys[i] - 1.0 == xs[|xs| - 1 - i] && xs[i] + 1.0 == ys[|xs| - 1 - i]
    ensures MirrorShifted(xs, ys) == Polyline(Reverse(xs), Reverse(ys))
  {
    var m := MirrorShifted(xs, ys);
    assert m.xs == Reverse(xs);
    assert m.ys == Reverse(ys);
  }

  /** The mirror image across x + y = 0 of such a point list is again one. */
  lemma AntiKeepsPairs(xs: seq<real>, ys: seq<real>, ex: seq<real>, ey: seq<real>)
    requires |xs| == |ys| == |ex| == |ey|
    requires forall i | 0 <= i < |xs| :: ys[i] - 1.0 == xs[|xs| - 1 - i] && xs[i] + 1.0 == ys[|xs| - 1 - i]
    requires forall i | 0 <= i < |xs| :: ex[i] == -ys[i] && ey[i] == -xs[i]
    ensures forall i | 0 <= i < |ex| :: ey[i] - 1.0 == ex[|ex| - 1 - i] && ex[i] + 1.0 == ey[|ex| - 1 - i]
  {
    var k := |xs|;
    forall i | 0 <= i < k
      ensures ey[i] - 1.0 == ex[k - 1 - i] && ex[i] + 1.0 == ey[k - 1 - i]
    {
      assert ey[k - 1 - i] == -xs[k - 1 - i];
      assert ex[k - 1 - i] == -ys[k - 1 - i];
    }
  }

  /** The connector-start motif is symmetric about x - y + 1 = 0 in the same way. */
  lemma StartSelfMirror(root: Polyline)
    requires |root.xs| == |root.ys|
    ensures var s := StartBase(root);
            MirrorShifted(s.xs, s.ys) == Polyline(Reverse(s.xs), Reverse(s.ys))
  {
    var s := StartBase(root);
    StartPairs(root);
    ShiftedSelfMirror(s.xs, s.ys);
  }

  /** So is the connector-end motif. */
  lemma EndSelfMirror(root: Polyline)
    requires |root.xs| == |root.ys|
    ensures var e := EndBase(root);
            MirrorShifted(e.xs, e.ys) == Polyline(Reverse(e.xs), Reverse(e.ys))
  {
    var s := StartBase(root);
    var e := EndBase(root);
    EndShape(root);
    StartPairs(root);
    AntiKeepsPairs(s.xs, s.ys, e.xs, e.ys);
    ShiftedSelfMirror(e.xs, e.ys);
  }

  /** A root inside the viewport gives a plain motif inside it. */
  lemma PlainInBox(root: Polyline)
    requires InBox(root)
    ensures InBox(PlainBase(root))
  {
  }

  /** A connector-start motif inside the viewport gives a connector-end motif inside it. */
  lemma EndInBox(root: Polyline)
    requires InBox(StartBase(root))
    ensures InBox(EndBase(root))
  {
  }

  /** The library built once from the root: three families of four
      orientations, each family a pair of dictionaries (X lists, Y lists). */
  class Pattern {
    ghost const root: Polyline
    ghost const Repr: set<object>
    const patternX: Table
    const patternY: Table
    const patternSX: Table
    const patternSY: Table
    const patternEX: Table
    const patternEY: Table

    ghost predicate Valid()
      reads Repr
    {
      && Repr == {patternX, patternY, patternSX, patternSY, patternEX, patternEY}
      && patternX.entries == FamilyXs(PlainBase(root))
      && patternY.entries == FamilyYs(PlainBase(root))
      && patternSX.entries == FamilyXs(StartBase(root))
      && patternSY.entries == FamilyYs(StartBase(root))
      && patternEX.entries == FamilyXs(EndBase(root))
      && patternEY.entries == FamilyYs(EndBase(root))
    }

    constructor (rootX: seq<real>, rootY: seq<real>)
      ensures Valid() && fresh(Repr)
      ensures root == Polyline(rootX, rootY)
    {
      var rt := Polyline(rootX, rootY);
      root := rt;
      LibraryMirrors(rootX, rootY);
      var r := Symmetrize(PlainMirror, rootX, rootY);
      var px, py := NewFamily(rootX + Reverse(r.value.xs), rootY + Reverse(r.value.ys));

      var sx, sy := DropLast(rootX), DropLast(rootY);
      LibraryMirrors(sx, sy);
      r := Symmetrize(StartMirror, sx, sy);
      var psx, psy := NewFamily(sx + Reverse(r.value.xs), sy + Reverse(r.value.ys));

      LibraryMirrors(psx.entries[1], psy.entries[1]);
      r := Symmetrize(EndMirror, psx.entries[1], psy.entries[1]);
      var pex, pey := NewFamily(r.value.xs, r.value.ys);

      patternX, patternY := px, py;
      patternSX, patternSY := psx, psy;
      patternEX, patternEY := pex, pey;
      Repr := {px, py, psx, psy, pex, pey};
    }
  }

  /** A fresh pair of dictionaries holding the motif (seedX, seedY) under key 1,
      completed with its other three orientations. */
  method NewFamily(seedX: seq<real>, seedY: seq<real>) returns (dx: Table, dy: Table)
    ensures fresh(dx) && fresh(dy) && dx != dy
    ensures dx.entries == FamilyXs(Polyline(seedX, seedY))
    ensures dy.entries == FamilyYs(Polyline(seedX, seedY))
  {
    dx := new Table(map[1 := seedX]);
    dy := new Table(map[1 := seedY]);
    GenerateSymmetries(dx, dy);
    GenerateFromSeed(Polyline(seedX, seedY));
  }
}
