/** Quadrant addressing. A node address is a list of digits; each digit picks
    one of the four sub-squares of the current square, and the address's
    offset is the centre of the square it picks. The digit at position i
    moves X by -1/2^(i+1) when odd and +1/2^(i+1) when even, and moves Y by
    +1/2^(i+1) when below 3 and -1/2^(i+1) otherwise. */
module Offsets {

  function Pow2(n: nat): (r: nat)
    ensures r >= 1
  {
    if n == 0 then 1 else 2 * Pow2(n - 1)
  }

  /** 1 / 2^n, halving at every level. */
  function Unit(n: nat): (r: real)
    ensures 0.0 < r <= 1.0
  {
    if n == 0 then 1.0 else Unit(n - 1) / 2.0
  }

  /** The X step of digit k at weight s: left for odd digits, right for even ones. */
  function StepX(k: int, s: real): real
  {
    if k % 2 == 1 then -s else s
  }

  /** The Y step of digit k at weight s: up for digits below 3, down otherwise. */
  function StepY(k: int, s: real): real
  {
    if k < 3 then s else -s
  }

  /** X offset of an address: the steps of its digits, the digit at position i weighted 1/2^(i+1). */
  function OffsetX(key: seq<int>): real
    decreases |key|
  {
    if key == [] then 0.0
    else OffsetX(key[..|key| - 1]) + StepX(key[|key| - 1], Unit(|key|))
  }

  /** Y offset of an address, weighted the same way. */
  function OffsetY(key: seq<int>): real
    decreases |key|
  {
    if key == [] then 0.0
    else OffsetY(key[..|key| - 1]) + StepY(key[|key| - 1], Unit(|key|))
  }

  /** Accumulates the offset of an address digit by digit, left to right. */
  method GetOffset(key: seq<int>) returns (offsetX: real, offsetY: real)
    ensures offsetX == OffsetX(key) && offsetY == OffsetY(key)
  {
    offsetX, offsetY := 0.0, 0.0;
    for i := 0 to |key|
      invariant offsetX == OffsetX(key[..i])
      invariant offsetY == OffsetY(key[..i])
    {
      var scale := 1.0 / (Pow2(i + 1) as real);
      UnitIsPower(i + 1);
      var k := key[i];
      if k % 2 == 1 {
        offsetX := offsetX - scale;
      } else {
        offsetX := offsetX + scale;
      }
      if k < 3 {
        offsetY := offsetY + scale;
      } else {
        offsetY := offsetY - scale;
      }
      assert key[..i + 1][..i] == key[..i];
    }
    assert key[..|key|] == key;
  }

  /** The weight the source computes as 1.0 / 2**n is 1/2^n. */
  lemma {:induction false} UnitIsPower(n: nat)
    ensures Unit(n) == 1.0 / (Pow2(n) as real)
  {
    if n > 0 {
      UnitIsPower(n - 1);
      var p := Pow2(n - 1) as real;
      assert Pow2(n) as real == 2.0 * p;
      assert 1.0 / (2.0 * p) == (1.0 / p) / 2.0;
    }
  }

  /** Each offset component stays strictly inside (-1, 1): its magnitude is
      at most 1 - 1/2^|key|. */
  lemma {:induction false} OffsetBound(key: seq<int>)
    ensures -(1.0 - Unit(|key|)) <= OffsetX(key) <= 1.0 - Unit(|key|)
    ensures -(1.0 - Unit(|key|)) <= OffsetY(key) <= 1.0 - Unit(|key|)
    decreases |key|
  {
    if key != [] {
      OffsetBound(key[..|key| - 1]);
    }
  }

  /** Self-similarity: an address that starts with digit d is the first-level
      step of d followed by the rest of the address at half size. */
  lemma {:induction false} OffsetFront(d: int, key: seq<int>)
    ensures OffsetX([d] + key) == StepX(d, 0.5) + OffsetX(key) / 2.0
    ensures OffsetY([d] + key) == StepY(d, 0.5) + OffsetY(key) / 2.0
    decreases |key|
  {
    if key == [] {
      assert [d] + key == [d];
      assert [d][..0] == [];
    } else {
      var n := |key|;
      var init := key[..n - 1];
      assert ([d] + key)[..n] == [d] + init;
      OffsetFront(d, init);
    }
  }

  predicate Digits(key: seq<int>)
  {
    forall i :: 0 <= i < |key| ==> 1 <= key[i] <= 4
  }

  /** Distinct addresses of one length have distinct offsets: the four digits
      pick four different sub-squares at every level. */
  lemma {:induction false} OffsetInjective(k1: seq<int>, k2: seq<int>)
    requires |k1| == |k2| && Digits(k1) && Digits(k2)
    requires OffsetX(k1) == OffsetX(k2) && OffsetY(k1) == OffsetY(k2)
    ensures k1 == k2
    decreases |k1|
  {
    if k1 != [] {
      var d1, d2 := k1[0], k2[0];
      var t1, t2 := k1[1..], k2[1..];
      assert k1 == [d1] + t1 && k2 == [d2] + t2;
      OffsetFront(d1, t1);
      OffsetFront(d2, t2);
      OffsetBound(t1);
      OffsetBound(t2);
      // the sign of each component gives away the first digit
      SameHalf(StepX(d1, 0.5), StepX(d2, 0.5), OffsetX(t1), OffsetX(t2));
      SameHalf(StepY(d1, 0.5), StepY(d2, 0.5), OffsetY(t1), OffsetY(t2));
      SameSteps(d1, d2);
      OffsetInjective(t1, t2);
    }
  }

  /** Two half steps plus halves of values strictly inside (-1, 1) agree
      only when the steps do. */
  lemma SameHalf(s1: real, s2: real, a: real, b: real)
    requires (s1 == 0.5 || s1 == -0.5) && (s2 == 0.5 || s2 == -0.5)
    requires -1.0 < a < 1.0 && -1.0 < b < 1.0
    requires s1 + a / 2.0 == s2 + b / 2.0
    ensures s1 == s2
  {
  }

  /** A digit 1..4 is determined by the directions of its two steps. */
  lemma SameSteps(d1: int, d2: int)
    requires 1 <= d1 <= 4 && 1 <= d2 <= 4
    requires StepX(d1, 0.5) == StepX(d2, 0.5) && StepY(d1, 0.5) == StepY(d2, 0.5)
    ensures d1 == d2
  {
  }

  /** u * v + o stays in [-1, 1] when u > 0, |v| <= 1 and |o| <= 1 - u. */
  lemma Placed(u: real, o: real, v: real)
    requires 0.0 < u
    requires -(1.0 - u) <= o <= 1.0 - u
    requires -1.0 <= v <= 1.0
    ensures -1.0 <= u * v + o <= 1.0
  {
    MulNonneg(u, 1.0 - v);
    MulNonneg(u, 1.0 + v);
    Distribute(u, v);
    PlaceBound(u, o, u * v);
  }

  lemma Distribute(u: real, v: real)
    ensures u * (1.0 - v) == u - u * v
    ensures u * (1.0 + v) == u + u * v
  {
  }

  lemma MulNonneg(a: real, b: real)
    requires 0.0 <= a && 0.0 <= b
    ensures 0.0 <= a * b
  {
  }

  lemma PlaceBound(u: real, o: real, w: real)
    requires -(1.0 - u) <= o <= 1.0 - u
    requires -u <= w <= u
    ensures -1.0 <= w + o <= 1.0
  {
  }
}
