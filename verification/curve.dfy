/** The value-level description of the curve. Every node of the address tree
    holds one or two polylines: one copy of the plain motif, or a
    connector-start and a connector-end motif, in one of four orientations,
    shrunk to the node's level and moved to the node's quadrant. */
module Curve {
  import opened Geometry
  import opened Orientations
  import opened Offsets
  import opened Patterns

  /** The polylines of one node: X lists and Y lists, paired by position. */
  datatype Lines = Lines(xs: seq<seq<real>>, ys: seq<seq<real>>)

  /** The classification rule: a node is drawn as a connector pair when its
      orientation complements its parent's to 5, or when its parent was
      itself a connector pair and both have the same orientation. */
  predicate IsConnector(id: int, idParent: int, nParent: int)
  {
    id == 5 - idParent || (nParent == 2 && idParent == id)
  }

  /** The polylines of orientation id at the given level and offset, chosen by
      the classification rule and scaled by 1/2^(level-1). */
  function Resolve(root: Polyline, id: int, idParent: int, level: int, offset: Point, nParent: int): (r: Lines)
    requires 1 <= id <= 4 && 1 <= level
    ensures |r.xs| == |r.ys|
    ensures |r.xs| == 2 <==> IsConnector(id, idParent, nParent)
    ensures |r.xs| == 1 <==> !IsConnector(id, idParent, nParent)
  {
    var scale := Unit(level - 1);
    if IsConnector(id, idParent, nParent) then
      var s := Orient(id, StartBase(root));
      var e := Orient(id, EndBase(root));
      Lines([Affine(s.xs, scale, offset.x), Affine(e.xs, scale, offset.x)],
            [Affine(s.ys, scale, offset.y), Affine(e.ys, scale, offset.y)])
    else
      var p := Orient(id, PlainBase(root));
      Lines([Affine(p.xs, scale, offset.x)], [Affine(p.ys, scale, offset.y)])
  }

  /** Reference definition by address: the polylines of the node whose
      address is key. A first-level node has no parent (orientation 0, one
      polyline); a deeper node is classified against its parent node and
      placed at its parent's quadrant. */
  function Node(root: Polyline, key: seq<int>): (r: Lines)
    requires key != [] && Digits(key)
    ensures |r.xs| == |r.ys| && 1 <= |r.xs| <= 2
    decreases |key|
  {
    if |key| == 1 then Resolve(root, key[0], 0, 1, Point(0.0, 0.0), 1)
    else
      var parent := key[..|key| - 1];
      Resolve(root, key[|key| - 1], key[|key| - 2], |key|, Point(OffsetX(parent), OffsetY(parent)), |Node(root, parent).xs|)
  }

  /** Child k of the node with address key, whose parent entry holds nParent polylines. */
  function Child(root: Polyline, key: seq<int>, k: int, nParent: int): Lines
    requires key != [] && 1 <= k <= 4
  {
    Resolve(root, k, key[|key| - 1], |key| + 1, Point(OffsetX(key), OffsetY(key)), nParent)
  }

  /** The first level: addresses 1 to 4, built with no parent. */
  function FirstLevel(root: Polyline): map<seq<int>, Lines>
  {
    map k | 1 <= k <= 4 :: [k] := Resolve(root, k, 0, 1, Point(0.0, 0.0), 1)
  }

  /** Every address of keys extended by one digit 1..4. */
  function ChildKeys(keys: set<seq<int>>): set<seq<int>>
  {
    set key, k | key in keys && 1 <= k <= 4 :: key + [k]
  }

  /** A child address ends in a digit 1..4 and its parent is among keys. */
  lemma ChildParent(keys: set<seq<int>>, c: seq<int>)
    requires c in ChildKeys(keys)
    ensures c != [] && c[..|c| - 1] in keys && 1 <= c[|c| - 1] <= 4
  {
    var key, k :| key in keys && 1 <= k <= 4 && c == key + [k];
    assert c[..|c| - 1] == key;
  }

  /** The four children of the node at key, keyed by their addresses. */
  function Children(root: Polyline, key: seq<int>, nParent: int): map<seq<int>, Lines>
    requires key != []
  {
    map[key + [1] := Child(root, key, 1, nParent), key + [2] := Child(root, key, 2, nParent),
        key + [3] := Child(root, key, 3, nParent), key + [4] := Child(root, key, 4, nParent)]
  }

  /** Every address of m has at least one digit. */
  predicate Addressed(m: map<seq<int>, Lines>)
  {
    forall key | key in m :: key != []
  }

  /** The addresses of the first level have one digit each. */
  lemma FirstLevelAddressed(root: Polyline)
    ensures Addressed(FirstLevel(root))
  {
  }

  /** Every address of a next level extends a parent address by one digit. */
  lemma NextLevelAddressed(root: Polyline, prev: map<seq<int>, Lines>)
    requires Addressed(prev)
    ensures Addressed(NextLevel(root, prev))
  {
    forall c | c in NextLevel(root, prev)
      ensures c != []
    {
      ChildParent(prev.Keys, c);
    }
  }

  /** The four children of every entry of a level, each built from its
      parent's address and polyline count. */
  function NextLevel(root: Polyline, prev: map<seq<int>, Lines>): map<seq<int>, Lines>
    requires Addressed(prev)
  {
    map c | c in ChildKeys(prev.Keys) ::
      ChildParent(prev.Keys, c);
      Child(root, c[..|c| - 1], c[|c| - 1], |prev[c[..|c| - 1]].xs|)
  }

  /** No parents, no children. */
  lemma NextLevelEmpty(root: Polyline)
    ensures NextLevel(root, map[]) == map[]
  {
    assert ChildKeys({}) == {};
  }

  /** Adding one parent entry adds exactly its four children. */
  lemma NextLevelAdd(root: Polyline, prev: map<seq<int>, Lines>, key: seq<int>, v: Lines)
    requires Addressed(prev)
    requires key != [] && key !in prev
    ensures NextLevel(root, prev[key := v]) == NextLevel(root, prev) + Children(root, key, |v.xs|)
  {
    var l := NextLevel(root, prev[key := v]);
    var r := NextLevel(root, prev) + Children(root, key, |v.xs|);
    NextLevelAddKeys(root, prev, key, v);
    NextLevelAddValues(root, prev, key, v);
    SameEntries(l, r);
  }

  /** Each entry of the level after prev plus one parent is the entry of the
      same address in the level after prev or among the new children. */
  lemma NextLevelAddValues(root: Polyline, prev: map<seq<int>, Lines>, key: seq<int>, v: Lines)
    requires Addressed(prev)
    requires key != [] && key !in prev
    ensures var l := NextLevel(root, prev[key := v]);
            var r := NextLevel(root, prev) + Children(root, key, |v.xs|);
            forall c | c in l :: c in r && l[c] == r[c]
  {
    var l := NextLevel(root, prev[key := v]);
    var r := NextLevel(root, prev) + Children(root, key, |v.xs|);
    forall c | c in l
      ensures c in r && l[c] == r[c]
    {
      NextLevelAddAt(root, prev, key, v, c);
    }
  }

  /** Two dictionaries with the same addresses and the same entry at each are
      equal; stated on its own so that the solver compares them as values. */
  lemma SameEntries<K, V>(l: map<K, V>, r: map<K, V>)
    requires l.Keys == r.Keys
    requires forall c | c in l :: c in r && l[c] == r[c]
    ensures l == r
  {
  }

  /** Taking one more parent out of the pending set adds its four children:
      the step of building a level one parent at a time. */
  lemma NextLevelStep(root: Polyline, parents: map<seq<int>, Lines>, todo: set<seq<int>>, key: seq<int>)
    requires Addressed(parents) && key in todo && todo <= parents.Keys
    ensures Addressed(parents - todo) && Addressed(parents - (todo - {key}))
    ensures NextLevel(root, parents - (todo - {key}))
            == NextLevel(root, parents - todo) + Children(root, key, |parents[key].xs|)
  {
    var d := parents - todo;
    assert parents - (todo - {key}) == d[key := parents[key]];
    NextLevelAdd(root, d, key, parents[key]);
  }

  /** With nothing pending, the level built is the next level of all the parents. */
  lemma NextLevelNonePending(root: Polyline, parents: map<seq<int>, Lines>)
    requires Addressed(parents)
    ensures Addressed(parents - {}) && NextLevel(root, parents - {}) == NextLevel(root, parents)
  {
    assert parents - {} == parents;
  }

  lemma NextLevelAddKeys(root: Polyline, prev: map<seq<int>, Lines>, key: seq<int>, v: Lines)
    requires Addressed(prev)
    requires key != [] && key !in prev
    ensures NextLevel(root, prev[key := v]).Keys == NextLevel(root, prev).Keys + Children(root, key, |v.xs|).Keys
  {
    var big := prev[key := v];
    NextLevelKeys(root, big);
    NextLevelKeys(root, prev);
    assert big.Keys == prev.Keys + {key};
    ChildKeysAdd(prev.Keys, key);
    ChildrenKeys(root, key, |v.xs|);
    SameUnion(NextLevel(root, big).Keys, ChildKeys(prev.Keys), ChildKeys({key}),
              NextLevel(root, prev).Keys, Children(root, key, |v.xs|).Keys);
  }

  /** The addresses of key's four children are key's child addresses. */
  lemma ChildrenKeys(root: Polyline, key: seq<int>, nParent: int)
    requires key != []
    ensures Children(root, key, nParent).Keys == ChildKeys({key})
  {
    ChildKeysOne(key);
  }

  /** A union is unchanged when its parts are replaced by equal sets; stated on
      its own so that the solver compares the sets as values. */
  lemma SameUnion<T>(a: set<T>, x: set<T>, y: set<T>, b: set<T>, c: set<T>)
    requires a == x + y && x == b && y == c
    ensures a == b + c
  {
  }

  lemma NextLevelAddAt(root: Polyline, prev: map<seq<int>, Lines>, key: seq<int>, v: Lines, c: seq<int>)
    requires Addressed(prev)
    requires key != [] && key !in prev
    requires c in NextLevel(root, prev[key := v])
    ensures c in NextLevel(root, prev) + Children(root, key, |v.xs|)
    ensures NextLevel(root, prev[key := v])[c] == (NextLevel(root, prev) + Children(root, key, |v.xs|))[c]
  {
    var big := prev[key := v];
    var ch := Children(root, key, |v.xs|);
    NextLevelAt(root, big, c);
    var p := c[..|c| - 1];
    assert c == p + [c[|c| - 1]];
    if p == key {
      ChildrenAt(root, key, c[|c| - 1], |v.xs|);
    } else {
      NextLevelKeys(root, prev);
      assert c in ChildKeys(prev.Keys);
      NextLevelAt(root, prev, c);
      NotAChild(root, key, |v.xs|, c);
    }
  }

  /** An address whose parent is not key is none of key's children. */
  lemma NotAChild(root: Polyline, key: seq<int>, nParent: int, c: seq<int>)
    requires key != [] && c != [] && c[..|c| - 1] != key
    ensures c !in Children(root, key, nParent)
  {
    forall j | 1 <= j <= 4
      ensures c != key + [j]
    {
      assert (key + [j])[..|key|] == key;
    }
  }

  /** Entry key + [k] of the children of key is child k. */
  lemma ChildrenAt(root: Polyline, key: seq<int>, k: int, nParent: int)
    requires key != [] && 1 <= k <= 4
    ensures key + [k] in Children(root, key, nParent)
    ensures Children(root, key, nParent)[key + [k]] == Child(root, key, k, nParent)
  {
    forall j | 1 <= j <= 4 && j != k
      ensures key + [j] != key + [k]
    {
      assert (key + [j])[|key|] == j;
    }
  }

  /** The children of one more parent are that parent's four children. */
  lemma ChildKeysAdd(keys: set<seq<int>>, key: seq<int>)
    ensures ChildKeys(keys + {key}) == ChildKeys(keys) + ChildKeys({key})
  {
  }

  lemma ChildKeysOne(key: seq<int>)
    ensures ChildKeys({key}) == {key + [1], key + [2], key + [3], key + [4]}
  {
  }

  /** Level n of the curve as the level-by-level construction builds it. */
  function Level(root: Polyline, n: nat): (r: map<seq<int>, Lines>)
    requires 1 <= n
    ensures Addressed(r)
  {
    if n == 1 then
      FirstLevelAddressed(root);
      FirstLevel(root)
    else
      var prev := Level(root, n - 1);
      NextLevelAddressed(root, prev);
      NextLevel(root, prev)
  }

  /** The table of levels as the construction fills it: level 1, then each
      further level computed from the entry before it. It holds entries 1 to
      top, the last one with non-empty addresses. */
  function Levels(root: Polyline, top: nat): (r: map<int, map<seq<int>, Lines>>)
    ensures forall n :: n in r <==> 1 <= n <= top
    ensures 1 <= top ==> Addressed(r[top])
  {
    if top == 0 then map[]
    else if top == 1 then
      FirstLevelAddressed(root);
      map[1 := FirstLevel(root)]
    else
      var prev := Levels(root, top - 1);
      NextLevelAddressed(root, prev[top - 1]);
      var next := prev[top := NextLevel(root, prev[top - 1])];
      GrowKeys(prev, top, NextLevel(root, prev[top - 1]), next);
      next
  }

  /** A table keyed 1 to top - 1 with entry top added is keyed 1 to top;
      stated generically only so that the solver does not expand the levels. */
  lemma GrowKeys<V>(m: map<int, V>, top: int, v: V, r: map<int, V>)
    requires 1 <= top && r == m[top := v]
    requires forall n :: n in m <==> 1 <= n < top
    ensures forall n :: n in r <==> 1 <= n <= top
  {
  }

  /** The table holding the first level only is the table of levels 1 to 1. */
  lemma LevelsOne(root: Polyline, first: map<seq<int>, Lines>)
    requires first == FirstLevel(root)
    ensures map[1 := first] == Levels(root, 1)
  {
  }

  /** Adding to the table of levels 1 to n - 1 the next level of its entry
      n - 1, as the construction does, gives the table of levels 1 to n. */
  lemma LevelsGrow(root: Polyline, n: nat, before: map<int, map<seq<int>, Lines>>, after: map<int, map<seq<int>, Lines>>)
    requires 2 <= n && before == Levels(root, n - 1)
    requires after == before[n := NextLevel(root, before[n - 1])]
    ensures after == Levels(root, n)
  {
  }

  /** Equal parents give equal next levels; stated on its own only to steer
      the solver past comparing the level maps entry by entry. */
  lemma NextLevelCong(root: Polyline, a: map<seq<int>, Lines>, b: map<seq<int>, Lines>)
    requires Addressed(a) && a == b
    ensures NextLevel(root, a) == NextLevel(root, b)
  {
  }

  /** Equality of levels chains; stated on its own so that the solver
      compares the levels as whole values. */
  lemma Trans<T>(a: T, b: T, c: T)
    requires a == b && b == c
    ensures a == c
  {
  }

  /** The last entry of the table of levels 1 to n is level n. */
  lemma {:induction false} LevelsLast(root: Polyline, n: nat)
    requires 1 <= n
    ensures Levels(root, n)[n] == Level(root, n)
  {
    if n > 1 {
      LevelsLast(root, n - 1);
      var a := Levels(root, n - 1)[n - 1];
      var b := Level(root, n - 1);
      NextLevelCong(root, a, b);
      assert Levels(root, n)[n] == NextLevel(root, a);
      assert Level(root, n) == NextLevel(root, b);
    }
  }

  /** Building entry top leaves the entries below it alone. */
  lemma LevelsKeep(root: Polyline, top: nat, n: nat)
    requires 1 <= n < top
    ensures Levels(root, top)[n] == Levels(root, top - 1)[n]
  {
  }

  /** Entry n of the table of levels 1 to top is level n. */
  lemma {:induction false} LevelsAt(root: Polyline, top: nat, n: nat)
    requires 1 <= n <= top
    ensures Levels(root, top)[n] == Level(root, n)
    decreases top
  {
    if n == top {
      LevelsLast(root, n);
    } else {
      LevelsKeep(root, top, n);
      LevelsAt(root, top - 1, n);
      Trans(Levels(root, top)[n], Levels(root, top - 1)[n], Level(root, n));
    }
  }

  function Pow4(n: nat): nat
  {
    if n == 0 then 1 else 4 * Pow4(n - 1)
  }

  /** Every address of length n over the digits 1..4. */
  function AllKeys(n: nat): set<seq<int>>
  {
    if n == 0 then {[]} else ChildKeys(AllKeys(n - 1))
  }

  /** A parent with one polyline has one connector child (the complementary
      orientation); a parent with two has two (the complementary and the
      equal orientation). */
  lemma ConnectorCount(idParent: int, nParent: int)
    requires 1 <= idParent <= 4 && 1 <= nParent <= 2
    ensures |set k | 1 <= k <= 4 && IsConnector(k, idParent, nParent)| == nParent
  {
    var c := set k | 1 <= k <= 4 && IsConnector(k, idParent, nParent);
    if nParent == 1 {
      assert c == {5 - idParent};
    } else {
      assert c == {5 - idParent, idParent};
    }
  }

  /** With the first level's parent orientation 0 and parent count 1 nothing is a connector. */
  lemma FirstLevelPlain(root: Polyline)
    ensures FirstLevel(root).Keys == {[1], [2], [3], [4]}
    ensures forall key | key in FirstLevel(root) :: |FirstLevel(root)[key].xs| == 1
  {
    var l := FirstLevel(root);
    assert [1] in l && [2] in l && [3] in l && [4] in l;
    forall key | key in l
      ensures |l[key].xs| == 1
    {
      var k :| 1 <= k <= 4 && key == [k];
      assert !IsConnector(k, 0, 1);
    }
  }

  /** AllKeys(n) holds exactly the digit strings of length n. */
  lemma {:induction false} AllKeysExact(n: nat, key: seq<int>)
    ensures key in AllKeys(n) <==> |key| == n && Digits(key)
  {
    if n > 0 {
      if key in AllKeys(n) {
        ChildParent(AllKeys(n - 1), key);
        AllKeysExact(n - 1, key[..|key| - 1]);
        DigitsLast(key);
      }
      if |key| == n && Digits(key) {
        DigitsLast(key);
        AllKeysExact(n - 1, key[..n - 1]);
        ChildOfParent(AllKeys(n - 1), key);
      }
    } else {
      assert |key| == 0 ==> key == [];
    }
  }

  /** A non-empty address is a digit string when its parent is one and its
      last digit is 1..4. */
  lemma DigitsLast(key: seq<int>)
    requires key != []
    ensures Digits(key) <==> Digits(key[..|key| - 1]) && 1 <= key[|key| - 1] <= 4
  {
  }

  /** An address whose parent is among keys and whose last digit is 1..4 is a
      child address of keys. */
  lemma ChildOfParent(keys: set<seq<int>>, c: seq<int>)
    requires c != [] && c[..|c| - 1] in keys && 1 <= c[|c| - 1] <= 4
    ensures c in ChildKeys(keys)
  {
    assert c == c[..|c| - 1] + [c[|c| - 1]];
  }

  /** Appending one digit to every address of a set keeps its size. */
  lemma {:induction false} AppendCard(s: set<seq<int>>, k: int)
    ensures |set key | key in s :: key + [k]| == |s|
    decreases s
  {
    if s != {} {
      var y :| y in s;
      var rest := s - {y};
      AppendCard(rest, k);
      var img := set key | key in rest :: key + [k];
      assert (set key | key in s :: key + [k]) == img + {y + [k]};
      forall x | x in rest
        ensures x + [k] != y + [k]
      {
        assert (x + [k])[..|x|] == x;
        assert (y + [k])[..|y|] == y;
      }
    }
  }

  /** Appending two different digits to addresses never gives the same address. */
  lemma AppendDisjoint(s: set<seq<int>>, j: int, k: int)
    requires j != k
    ensures (set key | key in s :: key + [j]) * (set key | key in s :: key + [k]) == {}
  {
    var aj := set key | key in s :: key + [j];
    var ak := set key | key in s :: key + [k];
    forall c | c in aj
      ensures c !in ak
    {
      assert c[|c| - 1] == j;
    }
  }

  /** Extending every address of a set by one digit 1..4 multiplies its size by 4. */
  lemma ChildKeysCount(keys: set<seq<int>>)
    ensures |ChildKeys(keys)| == 4 * |keys|
  {
    var a1 := set key | key in keys :: key + [1];
    var a2 := set key | key in keys :: key + [2];
    var a3 := set key | key in keys :: key + [3];
    var a4 := set key | key in keys :: key + [4];
    AppendCard(keys, 1);
    AppendCard(keys, 2);
    AppendCard(keys, 3);
    AppendCard(keys, 4);
    assert ChildKeys(keys) == a1 + a2 + a3 + a4;
    AppendDisjoint(keys, 1, 2);
    assert |a1 + a2| == 2 * |keys|;
    AppendDisjoint(keys, 1, 3);
    AppendDisjoint(keys, 2, 3);
    assert (a1 + a2) * a3 == {};
    assert |a1 + a2 + a3| == 3 * |keys|;
    AppendDisjoint(keys, 1, 4);
    AppendDisjoint(keys, 2, 4);
    AppendDisjoint(keys, 3, 4);
    assert (a1 + a2 + a3) * a4 == {};
  }

  /** There are 4^n addresses of length n. */
  lemma {:induction false} AllKeysCount(n: nat)
    ensures |AllKeys(n)| == Pow4(n)
  {
    if n > 0 {
      AllKeysCount(n - 1);
      ChildKeysCount(AllKeys(n - 1));
    }
  }

  /** The first level's addresses are the one-digit addresses. */
  lemma AllKeysOne()
    ensures AllKeys(1) == {[1], [2], [3], [4]}
  {
    assert AllKeys(0) == {[]};
    assert [] + [1] == [1] && [] + [2] == [2] && [] + [3] == [3] && [] + [4] == [4];
  }

  /** Level n holds exactly the addresses of length n. */
  lemma {:induction false} LevelKeys(root: Polyline, n: nat)
    requires 1 <= n
    ensures Level(root, n).Keys == AllKeys(n)
  {
    if n == 1 {
      FirstLevelPlain(root);
      AllKeysOne();
    } else {
      LevelKeys(root, n - 1);
      NextLevelKeys(root, Level(root, n - 1));
    }
  }

  lemma NextLevelKeys(root: Polyline, prev: map<seq<int>, Lines>)
    requires Addressed(prev)
    ensures NextLevel(root, prev).Keys == ChildKeys(prev.Keys)
  {
  }

  /** Level n holds 4^n entries. */
  lemma LevelSize(root: Polyline, n: nat)
    requires 1 <= n
    ensures |Level(root, n)| == Pow4(n)
  {
    LevelKeys(root, n);
    AllKeysCount(n);
    assert |Level(root, n)| == |Level(root, n).Keys|;
  }

  /** An entry of the level after prev is a child of an entry of prev. */
  lemma NextLevelAt(root: Polyline, prev: map<seq<int>, Lines>, c: seq<int>)
    requires Addressed(prev)
    requires c in NextLevel(root, prev)
    ensures c != [] && c[..|c| - 1] in prev && 1 <= c[|c| - 1] <= 4
    ensures NextLevel(root, prev)[c] == Child(root, c[..|c| - 1], c[|c| - 1], |prev[c[..|c| - 1]].xs|)
  {
    ChildParent(prev.Keys, c);
  }

  /** The node at address key + [k] is child k built from the node at key:
      classified against key's last digit and key's polyline count, and
      placed at key's quadrant. */
  lemma NodeOfChild(root: Polyline, key: seq<int>, k: int)
    requires key != [] && Digits(key) && 1 <= k <= 4
    ensures Digits(key + [k])
    ensures Node(root, key + [k]) == Child(root, key, k, |Node(root, key).xs|)
  {
    var c := key + [k];
    assert c[..|c| - 1] == key;
    assert c[|c| - 2] == key[|key| - 1];
  }

  /** Every entry of the first level is the node at its one-digit address. */
  lemma FirstLevelIsNode(root: Polyline, key: seq<int>)
    requires key in FirstLevel(root)
    ensures key != [] && Digits(key)
    ensures FirstLevel(root)[key] == Node(root, key)
  {
    var k :| 1 <= k <= 4 && key == [k];
    assert key[0] == k;
  }

  /** The level-by-level construction agrees with the reference definition:
      the entry of every address in level n is that address's node. */
  lemma {:induction false} LevelIsNode(root: Polyline, n: nat, key: seq<int>)
    requires 1 <= n && key in Level(root, n)
    ensures key != [] && Digits(key)
    ensures Level(root, n)[key] == Node(root, key)
  {
    if n == 1 {
      FirstLevelIsNode(root, key);
    } else {
      var prev := Level(root, n - 1);
      NextLevelAt(root, prev, key);
      LevelIsNode(root, n - 1, key[..|key| - 1]);
      NextLevelIsNode(root, prev, key);
    }
  }

  /** One step of the agreement: when the parent's entry is the parent's node,
      the child's entry in the next level is the child's node. */
  lemma NextLevelIsNode(root: Polyline, prev: map<seq<int>, Lines>, key: seq<int>)
    requires Addressed(prev) && key in NextLevel(root, prev)
    requires key != [] && key[..|key| - 1] in prev
    requires key[..|key| - 1] != [] && Digits(key[..|key| - 1])
    requires prev[key[..|key| - 1]] == Node(root, key[..|key| - 1])
    ensures Digits(key)
    ensures NextLevel(root, prev)[key] == Node(root, key)
  {
    var p := key[..|key| - 1];
    var k := key[|key| - 1];
    NextLevelAt(root, prev, key);
    assert key == p + [k];
    NodeOfChild(root, p, k);
    Trans(NextLevel(root, prev)[key], Child(root, p, k, |prev[p].xs|), Node(root, key));
  }

  /** The digits k whose child key + [k] is drawn as a connector pair. */
  function ConnectorDigits(root: Polyline, key: seq<int>): set<int>
    requires key != []
  {
    set k | 1 <= k <= 4 && Digits(key + [k]) && |Node(root, key + [k]).xs| == 2
  }

  /** A node has as many connector children as it has polylines. */
  lemma ConnectorChildren(root: Polyline, key: seq<int>)
    requires key != [] && Digits(key)
    ensures |ConnectorDigits(root, key)| == |Node(root, key).xs|
  {
    var np := |Node(root, key).xs|;
    var last := key[|key| - 1];
    forall k | 1 <= k <= 4
      ensures Digits(key + [k])
      ensures |Node(root, key + [k]).xs| == 2 <==> IsConnector(k, last, np)
    {
      NodeOfChild(root, key, k);
    }
    assert ConnectorDigits(root, key) == set k | 1 <= k <= 4 && IsConnector(k, last, np);
    ConnectorCount(last, np);
  }

  /** Every coordinate of every polyline of r lies in [-1, 1]. */
  ghost predicate LinesInBox(r: Lines)
  {
    && (forall j :: 0 <= j < |r.xs| ==> Within(r.xs[j]))
    && (forall j :: 0 <= j < |r.ys| ==> Within(r.ys[j]))
  }

  /** A coordinate list inside [-1, 1], shrunk by 1/2^|prefix| and moved
      by an offset of the prefix, stays inside it. */
  lemma PlacedWithin(s: seq<real>, prefix: seq<int>, t: real)
    requires Within(s)
    requires t == OffsetX(prefix) || t == OffsetY(prefix)
    ensures Within(Affine(s, Unit(|prefix|), t))
  {
    OffsetBound(prefix);
    AffineWithin(s, Unit(|prefix|), t);
  }

  /** Scaling by u > 0 and moving by at most 1 - u keeps a coordinate list
      inside [-1, 1]. */
  lemma AffineWithin(s: seq<real>, u: real, t: real)
    requires Within(s) && 0.0 < u && -(1.0 - u) <= t <= 1.0 - u
    ensures Within(Affine(s, u, t))
  {
    var a := Affine(s, u, t);
    forall i | 0 <= i < |a|
      ensures -1.0 <= a[i] <= 1.0
    {
      Placed(u, t, s[i]);
    }
  }

  /** One or two polylines made of coordinate lists inside [-1, 1] lie in the viewport. */
  lemma PairInBox(x1: seq<real>, x2: seq<real>, y1: seq<real>, y2: seq<real>)
    requires Within(x1) && Within(x2) && Within(y1) && Within(y2)
    ensures LinesInBox(Lines([x1], [y1])) && LinesInBox(Lines([x1, x2], [y1, y2]))
  {
  }

  /** Resolving a node at the level and quadrant of its parent address keeps
      it inside the viewport when the motifs are inside it. */
  lemma ResolveInBox(root: Polyline, id: int, idParent: int, prefix: seq<int>, nParent: int)
    requires 1 <= id <= 4
    requires InBox(root) && InBox(StartBase(root))
    ensures LinesInBox(Resolve(root, id, idParent, |prefix| + 1, Point(OffsetX(prefix), OffsetY(prefix)), nParent))
  {
    var ox, oy, u := OffsetX(prefix), OffsetY(prefix), Unit(|prefix|);
    var r := Resolve(root, id, idParent, |prefix| + 1, Point(ox, oy), nParent);
    if IsConnector(id, idParent, nParent) {
      var s := Orient(id, StartBase(root));
      var e := Orient(id, EndBase(root));
      assert InBox(s) by { OrientKeepsBox(id, StartBase(root)); }
      assert InBox(e) by { EndInBox(root); OrientKeepsBox(id, EndBase(root)); }
      PlacedWithin(s.xs, prefix, ox);
      PlacedWithin(s.ys, prefix, oy);
      PlacedWithin(e.xs, prefix, ox);
      PlacedWithin(e.ys, prefix, oy);
      assert r == Lines([Affine(s.xs, u, ox), Affine(e.xs, u, ox)], [Affine(s.ys, u, oy), Affine(e.ys, u, oy)]);
      PairInBox(Affine(s.xs, u, ox), Affine(e.xs, u, ox), Affine(s.ys, u, oy), Affine(e.ys, u, oy));
    } else {
      var p := Orient(id, PlainBase(root));
      assert InBox(p) by { PlainInBox(root); OrientKeepsBox(id, PlainBase(root)); }
      PlacedWithin(p.xs, prefix, ox);
      PlacedWithin(p.ys, prefix, oy);
      assert r == Lines([Affine(p.xs, u, ox)], [Affine(p.ys, u, oy)]);
      PairInBox(Affine(p.xs, u, ox), Affine(p.xs, u, ox), Affine(p.ys, u, oy), Affine(p.ys, u, oy));
    }
  }

  /** The whole curve stays in the viewport [-1, 1]^2 when the root and its
      connector-start motif do. */
  lemma NodeInViewport(root: Polyline, key: seq<int>)
    requires key != [] && Digits(key)
    requires InBox(root) && InBox(StartBase(root))
    ensures LinesInBox(Node(root, key))
  {
    var prefix := key[..|key| - 1];
    if |key| == 1 {
      assert OffsetX(prefix) == 0.0 && OffsetY(prefix) == 0.0;
      ResolveInBox(root, key[0], 0, prefix, 1);
    } else {
      ResolveInBox(root, key[|key| - 1], key[|key| - 2], prefix, |Node(root, prefix).xs|);
    }
  }

  /** The built-in root pattern. */
  const DefaultRoot := Polyline([-0.5, -0.5, -0.75], [0.0, 0.25, 0.5])

  /** The built-in root and its connector-start motif lie in the viewport,
      so every curve drawn from it does. */
  lemma DefaultRootInBox()
    ensures InBox(DefaultRoot) && InBox(StartBase(DefaultRoot))
  {
    var s := StartBase(DefaultRoot);
    StartShape(DefaultRoot);
    assert s.xs == [-0.5, -0.5, -0.75, -1.0];
    assert s.ys == [0.0, 0.25, 0.5, 0.5];
  }
}
