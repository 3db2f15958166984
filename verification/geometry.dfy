/** Plane geometry behind the curve's motifs: polylines as two coordinate
    lists, reflection of a point list across a line a*x + b*y + c = 0, and
    the pointwise sequence maps (negation, reversal, scale-and-translate)
    that the rest of the model builds on. Coordinates are exact reals. */
module Geometry {

  /** A polyline as its X list and its Y list, in drawing order. */
  datatype Polyline = Polyline(xs: seq<real>, ys: seq<real>)

  /** One point of the plane. */
  datatype Point = Point(x: real, y: real)

  /** The line a*x + b*y + c = 0. */
  datatype Line = Line(a: real, b: real, c: real)

  /** Reflection divides by a^2 + b^2, which fails for a degenerate line. */
  datatype Error = ZeroDivision

  datatype Result<T> = Ok(value: T) | Err(error: Error)

  /** The three mirror lines of the pattern library: x + y = 0 written as
      -x - y = 0 (plain pattern), x - y + 1 = 0 (connector-start pattern)
      and x + y = 0 (connector-end pattern). */
  const PlainMirror := Line(-1.0, -1.0, 0.0)
  const StartMirror := Line(1.0, -1.0, 1.0)
  const EndMirror := Line(1.0, 1.0, 0.0)

  predicate NonDegenerate(l: Line)
  {
    l.a * l.a + l.b * l.b != 0.0
  }

  function Min(m: int, n: int): int
  {
    if m <= n then m else n
  }

  /** Every value of s lies in [-1, 1], the drawing viewport's range. */
  predicate Within(s: seq<real>)
  {
    forall i :: 0 <= i < |s| ==> -1.0 <= s[i] <= 1.0
  }

  /** Every point of p lies in the viewport [-1, 1] x [-1, 1]. */
  predicate InBox(p: Polyline)
  {
    Within(p.xs) && Within(p.ys)
  }

  /** Mirror image of (x, y): twice the foot of the perpendicular, minus the point. */
  function Reflect(l: Line, x: real, y: real): Point
    requires NonDegenerate(l)
  {
    var den := 1.0 / (l.a * l.a + l.b * l.b);
    var xl := den * (l.b * l.b * x - l.a * l.b * y - l.a * l.c);
    var yl := den * (-l.a * l.b * x + l.a * l.a * y - l.b * l.c);
    Point(2.0 * xl - x, 2.0 * yl - y)
  }

  /** The points zipped from xs and ys (the shorter list decides), each reflected. */
  function ReflectAll(l: Line, xs: seq<real>, ys: seq<real>): Polyline
    requires NonDegenerate(l)
  {
    var n := Min(|xs|, |ys|);
    Polyline(seq(n, i requires 0 <= i < n => Reflect(l, xs[i], ys[i]).x),
             seq(n, i requires 0 <= i < n => Reflect(l, xs[i], ys[i]).y))
  }

  /** (x, y) -> (-y, -x) on the zipped lists: the mirror image across x + y = 0. */
  function MirrorAnti(xs: seq<real>, ys: seq<real>): Polyline
  {
    var n := Min(|xs|, |ys|);
    Polyline(seq(n, i requires 0 <= i < n => -ys[i]), seq(n, i requires 0 <= i < n => -xs[i]))
  }

  /** (x, y) -> (y - 1, x + 1) on the zipped lists: the mirror image across x - y + 1 = 0. */
  function MirrorShifted(xs: seq<real>, ys: seq<real>): Polyline
  {
    var n := Min(|xs|, |ys|);
    Polyline(seq(n, i requires 0 <= i < n => ys[i] - 1.0), seq(n, i requires 0 <= i < n => xs[i] + 1.0))
  }

  function Reverse(s: seq<real>): seq<real>
  {
    seq(|s|, i requires 0 <= i < |s| => s[|s| - 1 - i])
  }

  function Neg(s: seq<real>): seq<real>
  {
    seq(|s|, i requires 0 <= i < |s| => -s[i])
  }

  /** k * s + t, elementwise (a scalar times an array plus a scalar). */
  function Affine(s: seq<real>, k: real, t: real): seq<real>
  {
    seq(|s|, i requires 0 <= i < |s| => k * s[i] + t)
  }

  /** The slice s[0:-1]: everything but the last element; empty stays empty. */
  function DropLast(s: seq<real>): seq<real>
  {
    if |s| == 0 then [] else s[..|s| - 1]
  }

  /** Reflects every (x, y) pair of the zipped lists across l, one output
      point per pair and in input order; a degenerate line fails before any
      point is looked at. */
  method Symmetrize(l: Line, xs: seq<real>, ys: seq<real>) returns (r: Result<Polyline>)
    ensures r.Ok? <==> NonDegenerate(l)
    ensures r.Ok? ==> |r.value.xs| == |r.value.ys| == Min(|xs|, |ys|)
    ensures r.Ok? ==> forall i :: 0 <= i < |r.value.xs| ==>
              Point(r.value.xs[i], r.value.ys[i]) == Reflect(l, xs[i], ys[i])
    ensures r.Ok? ==> r.value == ReflectAll(l, xs, ys)
  {
    if l.a * l.a + l.b * l.b == 0.0 {
      return Err(ZeroDivision);
    }
    var den := 1.0 / (l.a * l.a + l.b * l.b);
    var outX: seq<real> := [];
    var outY: seq<real> := [];
    var n := Min(|xs|, |ys|);
    var i := 0;
    while i < n
      invariant 0 <= i <= n
      invariant |outX| == |outY| == i
      invariant forall j :: 0 <= j < i ==> Point(outX[j], outY[j]) == Reflect(l, xs[j], ys[j])
    {
      var x, y := xs[i], ys[i];
      var xl := den * (l.b * l.b * x - l.a * l.b * y - l.a * l.c);
      var yl := den * (-l.a * l.b * x + l.a * l.a * y - l.b * l.c);
      assert Point(2.0 * xl - x, 2.0 * yl - y) == Reflect(l, x, y);
      outX := outX + [2.0 * xl - x];
      outY := outY + [2.0 * yl - y];
      i := i + 1;
    }
    r := Ok(Polyline(outX, outY));
  }

  /** The three library lines reduce to simple maps: both spellings of
      x + y = 0 send (x, y) to (-y, -x), and x - y + 1 = 0 sends it to
      (y - 1, x + 1). */
  lemma FixedMirrors(x: real, y: real)
    ensures Reflect(PlainMirror, x, y) == Point(-y, -x)
    ensures Reflect(EndMirror, x, y) == Point(-y, -x)
    ensures Reflect(StartMirror, x, y) == Point(y - 1.0, x + 1.0)
  {
    assert 1.0 / (1.0 * 1.0 + 1.0 * 1.0) == 0.5;
    assert 1.0 / ((-1.0) * (-1.0) + (-1.0) * (-1.0)) == 0.5;
  }

  /** Over whole point lists, the library lines act as those simple maps. */
  lemma LibraryMirrors(xs: seq<real>, ys: seq<real>)
    ensures ReflectAll(PlainMirror, xs, ys) == MirrorAnti(xs, ys)
    ensures ReflectAll(EndMirror, xs, ys) == MirrorAnti(xs, ys)
    ensures ReflectAll(StartMirror, xs, ys) == MirrorShifted(xs, ys)
  {
    var n := Min(|xs|, |ys|);
    forall i | 0 <= i < n
      ensures Reflect(PlainMirror, xs[i], ys[i]) == Point(-ys[i], -xs[i])
      ensures Reflect(EndMirror, xs[i], ys[i]) == Point(-ys[i], -xs[i])
      ensures Reflect(StartMirror, xs[i], ys[i]) == Point(ys[i] - 1.0, xs[i] + 1.0)
    {
      FixedMirrors(xs[i], ys[i]);
    }
  }

  /** Reflection written through t = (a*x + b*y + c) / (a^2 + b^2): the point
      moves by -2*t along the normal (a, b). */
  lemma ReflectClosedForm(l: Line, x: real, y: real)
    requires NonDegenerate(l)
    ensures var t := (l.a * x + l.b * y + l.c) / (l.a * l.a + l.b * l.b);
            Reflect(l, x, y) == Point(x - 2.0 * l.a * t, y - 2.0 * l.b * t)
  {
    var a, b, c := l.a, l.b, l.c;
    var d := a * a + b * b;
    var e := a * x + b * y + c;
    var den := 1.0 / d;
    var t := e / d;
    assert den * d == 1.0;
    assert t == den * e;
    var r := Reflect(l, x, y);
    assert b * b * x - a * b * y - a * c == d * x - a * e;
    assert -a * b * x + a * a * y - b * c == d * y - b * e;
    Foot(den, d, a, x, e, t);
    Foot(den, d, b, y, e, t);
    assert r.x == 2.0 * (x - a * t) - x;
    assert r.y == 2.0 * (y - b * t) - y;
  }

  /** One coordinate of the foot of the perpendicular: with den = 1/d and
      t = den * e, den * (d*z - k*e) is z - k*t. */
  lemma Foot(den: real, d: real, k: real, z: real, e: real, t: real)
    requires den * d == 1.0
    requires t == den * e
    ensures den * (d * z - k * e) == z - k * t
  {
    calc {
      den * (d * z - k * e);
      (den * d) * z - k * (den * e);
      z - k * t;
    }
  }

  /** Reflect is the mirror image: the midpoint of a point and its image lies
      on the line, and the segment between them is parallel to the normal (a, b). */
  lemma ReflectIsMirrorImage(l: Line, x: real, y: real)
    requires NonDegenerate(l)
    ensures var m := Reflect(l, x, y);
            l.a * (x + m.x) / 2.0 + l.b * (y + m.y) / 2.0 + l.c == 0.0
            && (m.x - x) * l.b == (m.y - y) * l.a
  {
    ReflectClosedForm(l, x, y);
    var a, b, c := l.a, l.b, l.c;
    var d := a * a + b * b;
    var e := a * x + b * y + c;
    var t := e / d;
    assert t * d == e;
    var u, v := x - 2.0 * a * t, y - 2.0 * b * t;
    calc {
      a * (x + u) / 2.0 + b * (y + v) / 2.0 + c;
      a * x + b * y + c - t * (a * a + b * b);
      e - t * d;
      0.0;
    }
  }

  /** Conversely, the mirror image is the only point with those two properties. */
  lemma MirrorImageUnique(l: Line, x: real, y: real, u: real, v: real)
    requires NonDegenerate(l)
    requires l.a * (x + u) / 2.0 + l.b * (y + v) / 2.0 + l.c == 0.0
    requires (u - x) * l.b == (v - y) * l.a
    ensures Point(u, v) == Reflect(l, x, y)
  {
    ReflectClosedForm(l, x, y);
    var a, b, c := l.a, l.b, l.c;
    var d := a * a + b * b;
    var e := a * x + b * y + c;
    var t := e / d;
    var p, q := u - x, v - y;
    MidpointOnLine(a, b, c, x, y, u, v);
    NormalComponent(a, b, p, q);
    Quotient(p * d, d, a, e);
    Quotient(q * d, d, b, e);
    assert p == (p * d) / d;
    assert q == (q * d) / d;
  }

  /** The midpoint of (x, y) and (u, v) lies on the line exactly when the
      displacement's component along the normal is -2 times the line's value at (x, y). */
  lemma MidpointOnLine(a: real, b: real, c: real, x: real, y: real, u: real, v: real)
    ensures a * (x + u) / 2.0 + b * (y + v) / 2.0 + c == 0.0
            <==> a * (u - x) + b * (v - y) == -2.0 * (a * x + b * y + c)
  {
    assert a * (x + u) / 2.0 + b * (y + v) / 2.0 + c == (a * x + b * y + c) + (a * (u - x) + b * (v - y)) / 2.0;
  }

  /** A displacement (p, q) parallel to the normal (a, b) is that normal
      scaled: each component times a^2 + b^2 is the normal's component
      times a*p + b*q. */
  lemma NormalComponent(a: real, b: real, p: real, q: real)
    requires p * b == q * a
    ensures p * (a * a + b * b) == a * (a * p + b * q)
    ensures q * (a * a + b * b) == b * (a * p + b * q)
  {
    calc {
      p * (a * a + b * b);
      a * (p * a) + b * (p * b);
      a * (p * a) + b * (q * a);
      a * (a * p + b * q);
    }
    calc {
      q * (a * a + b * b);
      a * (q * a) + b * (q * b);
      a * (p * b) + b * (q * b);
      b * (a * p + b * q);
    }
  }

  /** With z = r * d and d non-zero, z = -2k * e makes r equal -2k * (e / d). */
  lemma Quotient(z: real, d: real, k: real, e: real)
    requires d != 0.0
    requires z == k * (-2.0 * e)
    ensures z / d == -2.0 * k * (e / d)
  {
  }

  /** Reflecting twice across the same line gives the point back. */
  lemma ReflectInvolution(l: Line, x: real, y: real)
    requires NonDegenerate(l)
    ensures var m := Reflect(l, x, y); Reflect(l, m.x, m.y) == Point(x, y)
  {
    var m := Reflect(l, x, y);
    ReflectIsMirrorImage(l, x, y);
    MirrorImageUnique(l, m.x, m.y, x, y);
  }

  /** The same holds for a whole point list of equal-length coordinate lists. */
  lemma ReflectAllInvolution(l: Line, xs: seq<real>, ys: seq<real>)
    requires NonDegenerate(l)
    requires |xs| == |ys|
    ensures var m := ReflectAll(l, xs, ys); ReflectAll(l, m.xs, m.ys) == Polyline(xs, ys)
  {
    var m := ReflectAll(l, xs, ys);
    var m2 := ReflectAll(l, m.xs, m.ys);
    forall i | 0 <= i < |xs|
      ensures m2.xs[i] == xs[i] && m2.ys[i] == ys[i]
    {
      ReflectInvolution(l, xs[i], ys[i]);
    }
  }
}
