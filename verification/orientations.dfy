/** The four orientations of a motif. Orientation 1 is the motif itself;
    2, 3 and 4 run it backwards with X negated, Y negated, or both. A
    pattern family keeps them in two dictionaries keyed by orientation id,
    one for X lists and one for Y lists, filled in place. */
module Orientations {
  import opened Geometry

  /** Orientation o (1..4) of the motif p. */
  function Orient(o: int, p: Polyline): Polyline
    requires 1 <= o <= 4
  {
    if o == 1 then p
    else if o == 2 then Polyline(Reverse(Neg(p.xs)), Reverse(p.ys))
    else if o == 3 then Polyline(Reverse(p.xs), Reverse(Neg(p.ys)))
    else Polyline(Reverse(Neg(p.xs)), Reverse(Neg(p.ys)))
  }

  /** The X dictionary of a complete family: orientation id to X list. */
  function FamilyXs(p: Polyline): map<int, seq<real>>
  {
    map[1 := p.xs, 2 := Orient(2, p).xs, 3 := Orient(3, p).xs, 4 := Orient(4, p).xs]
  }

  /** The Y dictionary of a complete family. */
  function FamilyYs(p: Polyline): map<int, seq<real>>
  {
    map[1 := p.ys, 2 := Orient(2, p).ys, 3 := Orient(3, p).ys, 4 := Orient(4, p).ys]
  }

  /** Entry o of a complete family is orientation o. */
  lemma FamilyAt(p: Polyline, o: int)
    requires 1 <= o <= 4
    ensures o in FamilyXs(p) && FamilyXs(p)[o] == Orient(o, p).xs
    ensures o in FamilyYs(p) && FamilyYs(p)[o] == Orient(o, p).ys
  {
  }

  /** A dictionary from orientation id to a coordinate list, shared by reference. */
  class Table {
    var entries: map<int, seq<real>>

    constructor (init: map<int, seq<real>>)
      ensures entries == init
    {
      entries := init;
    }
  }

  /** Overwrites keys 2, 3 and 4 of both dictionaries from their key 1 and
      leaves every other key alone. When both names denote one dictionary
      the later assignments win, as in the sequential source. */
  method GenerateSymmetries(dx: Table, dy: Table)
    requires 1 in dx.entries && 1 in dy.entries
    modifies dx, dy
    ensures dx != dy ==>
              var p := Polyline(old(dx.entries[1]), old(dy.entries[1]));
              && dx.entries == old(dx.entries)[2 := Orient(2, p).xs][3 := Orient(3, p).xs][4 := Orient(4, p).xs]
              && dy.entries == old(dy.entries)[2 := Orient(2, p).ys][3 := Orient(3, p).ys][4 := Orient(4, p).ys]
    ensures dx == dy ==>
              var s := old(dx.entries[1]);
              dx.entries == old(dx.entries)[2 := Reverse(s)][3 := Reverse(Neg(s))][4 := Reverse(Neg(s))]
  {
    // When both names denote one dictionary, its state after each step.
    ghost var m, s := dx.entries, dx.entries[1];
    dx.entries := dx.entries[2 := Reverse(Neg(dx.entries[1]))];
    assert dx == dy ==> dy.entries == m[2 := Reverse(Neg(s))];
    dy.entries := dy.entries[2 := Reverse(dy.entries[1])];
    assert dx == dy ==> dx.entries == m[2 := Reverse(s)];
    dx.entries := dx.entries[3 := Reverse(dx.entries[1])];
    assert dx == dy ==> dy.entries == m[2 := Reverse(s)][3 := Reverse(s)];
    dy.entries := dy.entries[3 := Reverse(Neg(dy.entries[1]))];
    assert dx == dy ==> dx.entries == m[2 := Reverse(s)][3 := Reverse(Neg(s))];
    dx.entries := dx.entries[4 := Reverse(Neg(dx.entries[1]))];
    assert dx == dy ==> dy.entries == m[2 := Reverse(s)][3 := Reverse(Neg(s))][4 := Reverse(Neg(s))];
    dy.entries := dy.entries[4 := Reverse(Neg(dy.entries[1]))];
  }

  /** Filling a one-entry pair of dictionaries gives the complete family. */
  lemma GenerateFromSeed(p: Polyline)
    ensures var dx := map[1 := p.xs]; var dy := map[1 := p.ys];
            && dx[2 := Orient(2, p).xs][3 := Orient(3, p).xs][4 := Orient(4, p).xs] == FamilyXs(p)
            && dy[2 := Orient(2, p).ys][3 := Orient(3, p).ys][4 := Orient(4, p).ys] == FamilyYs(p)
  {
  }

  /** Every orientation has the motif's point count, and orientation 1 is the motif. */
  lemma OrientLengths(o: int, p: Polyline)
    requires 1 <= o <= 4
    ensures |Orient(o, p).xs| == |p.xs| && |Orient(o, p).ys| == |p.ys|
    ensures o == 1 ==> Orient(o, p) == p
  {
  }

  /** Point i of orientation o is point n-1-i of the motif with the signs of
      orientation o (orientation 1: point i itself). */
  lemma OrientPoint(o: int, p: Polyline, i: int)
    requires 1 <= o <= 4
    requires |p.xs| == |p.ys| && 0 <= i < |p.xs|
    ensures var n := |p.xs|; var q := Orient(o, p);
            && (o == 1 ==> q.xs[i] == p.xs[i] && q.ys[i] == p.ys[i])
            && (o == 2 ==> q.xs[i] == -p.xs[n - 1 - i] && q.ys[i] == p.ys[n - 1 - i])
            && (o == 3 ==> q.xs[i] == p.xs[n - 1 - i] && q.ys[i] == -p.ys[n - 1 - i])
            && (o == 4 ==> q.xs[i] == -p.xs[n - 1 - i] && q.ys[i] == -p.ys[n - 1 - i])
  {
  }

  /** Each orientation undoes itself. */
  lemma OrientInvolution(o: int, p: Polyline)
    requires 1 <= o <= 4
    ensures Orient(o, Orient(o, p)) == p
  {
    var q := Orient(o, Orient(o, p));
    assert q.xs == p.xs;
    assert q.ys == p.ys;
  }

  /** Coordinates bounded by 1 in magnitude stay so in every orientation. */
  lemma OrientKeepsBox(o: int, p: Polyline)
    requires 1 <= o <= 4
    requires InBox(p)
    ensures InBox(Orient(o, p))
  {
  }
}
