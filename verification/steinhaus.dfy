/** The curve assembler: holds the pattern library and a dictionary from
    level to (address -> polylines), filled level by level. */
module Assembler {
  import opened Geometry
  import opened Orientations
  import opened Offsets
  import opened Patterns
  import opened Curve

  class Steinhaus {
    const level: int
    const pattern: Pattern
    var lines: map<int, map<seq<int>, Lines>>

    /** Builds the pattern library, then the table of levels: level 1 from
        the four orientations with no parent, then levels 2..level one after
        another. A level below 2 builds level 1 only. */
    constructor (level: int, rootX: seq<real>, rootY: seq<real>)
      ensures this.level == level
      ensures pattern.root == Polyline(rootX, rootY) && pattern.Valid() && fresh(pattern.Repr)
      ensures lines == Levels(pattern.root, if level < 1 then 1 else level)
    {
      this.level := level;
      pattern := new Pattern(rootX, rootY);
      new;
      FillLevels();
    }

    /** The constructor's filling of the table: level 1, then GenerateLevel
        for 2, 3, ... up to level. */
    method FillLevels()
      requires pattern.Valid()
      modifies this`lines
      ensures lines == Levels(pattern.root, if level < 1 then 1 else level)
    {
      StartLevels();
      var top := if level < 1 then 1 else level;
      var built := 1;
      while built < top
        invariant 1 <= built <= top
        invariant lines == Levels(pattern.root, built)
      {
        ExtendLevels(built + 1);
        built := built + 1;
      }
    }

    /** One step of the constructor's loop: GenerateLevel on a table holding
        levels 1 to n - 1 leaves it holding levels 1 to n. */
    method ExtendLevels(n: nat)
      requires 2 <= n && pattern.Valid() && lines == Levels(pattern.root, n - 1)
      modifies this`lines
      ensures lines == Levels(pattern.root, n)
    {
      ghost var before := lines;
      GenerateLevel(n);
      LevelsGrow(pattern.root, n, before, lines);
    }

    /** The table's first entry: level 1 alone. */
    method StartLevels()
      requires pattern.Valid()
      modifies this`lines
      ensures lines == Levels(pattern.root, 1)
    {
      var first := FirstEntries();
      lines := map[1 := first];
      LevelsOne(pattern.root, first);
    }

    /** The first level read from the library: orientations 1 to 4 under
        the one-digit addresses, with no parent, unscaled and unmoved. */
    method FirstEntries() returns (r: map<seq<int>, Lines>)
      requires pattern.Valid()
      ensures r == FirstLevel(pattern.root)
    {
      r := map k | 1 <= k <= 4 :: [k] := Get(k, 0, 1, Point(0.0, 0.0), 1);
    }

    /** Fills level n from level n - 1: the children 1..4 of every entry of
        level n - 1, each built from its address and its parent's polyline
        count. Every other level is left alone. */
    method GenerateLevel(n: int)
      requires pattern.Valid()
      requires n - 1 in lines
      requires Addressed(lines[n - 1])
      modifies this`lines
      ensures lines == old(lines)[n := NextLevel(pattern.root, old(lines[n - 1]))]
    {
      var level := ChildrenOfAll(lines[n - 1]);
      lines := lines[n := level];
    }

    /** The loop of GenerateLevel: the children of the entries of parents,
        one parent at a time, merged into one dictionary. */
    method ChildrenOfAll(parents: map<seq<int>, Lines>) returns (level: map<seq<int>, Lines>)
      requires pattern.Valid() && Addressed(parents)
      ensures level == NextLevel(pattern.root, parents)
    {
      level := map[];
      var todo := parents.Keys;
      assert parents - todo == map[];
      NextLevelEmpty(pattern.root);
      while todo != {}
        invariant todo <= parents.Keys && Addressed(parents - todo)
        invariant level == NextLevel(pattern.root, parents - todo)
        decreases todo
      {
        var key :| key in todo;
        var np := |parents[key].xs|;
        var children := ChildrenFromKey(key, np);
        NextLevelStep(pattern.root, parents, todo, key);
        level := level + children;
        todo := todo - {key};
      }
      NextLevelNonePending(pattern.root, parents);
    }

    /** The polylines of orientation id at the given level and offset, read
        from the pattern library: the connector pair (start then end) when
        the classification rule says so, otherwise the plain motif, scaled
        by 1 / 2^(level-1) and moved by offset. */
    function Get(id: int, idParent: int, level: int, offset: Point, nParent: int): (r: Lines)
      reads pattern.Repr
      requires pattern.Valid()
      requires 1 <= id <= 4 && 1 <= level
      ensures r == Resolve(pattern.root, id, idParent, level, offset, nParent)
    {
      var scale := 1.0 / (Pow2(level - 1) as real);
      UnitIsPower(level - 1);
      FamilyAt(PlainBase(pattern.root), id);
      FamilyAt(StartBase(pattern.root), id);
      FamilyAt(EndBase(pattern.root), id);
      if id == 5 - idParent || (nParent == 2 && idParent == id) then
        Lines([Affine(pattern.patternSX.entries[id], scale, offset.x), Affine(pattern.patternEX.entries[id], scale, offset.x)],
              [Affine(pattern.patternSY.entries[id], scale, offset.y), Affine(pattern.patternEY.entries[id], scale, offset.y)])
      else
        Lines([Affine(pattern.patternX.entries[id], scale, offset.x)], [Affine(pattern.patternY.entries[id], scale, offset.y)])
    }

    /** The polylines of the node at address key (two digits or more), given
        its parent's polyline count: orientation from the last digit, parent
        orientation from the one before, level from the length, offset from
        the parent address. */
    function GetFromKey(key: seq<int>, nParent: int): (r: Lines)
      reads pattern.Repr
      requires pattern.Valid()
      requires 2 <= |key| && 1 <= key[|key| - 1] <= 4
      ensures r == Child(pattern.root, key[..|key| - 1], key[|key| - 1], nParent)
    {
      var parent := key[..|key| - 1];
      Get(key[|key| - 1], key[|key| - 2], |key|, Point(OffsetX(parent), OffsetY(parent)), nParent)
    }

    /** Given the parent's true polyline count, the entry read for an address
        is that address's node. */
    lemma GetFromKeyIsNode(key: seq<int>)
      requires pattern.Valid()
      requires 2 <= |key| && Digits(key)
      ensures Digits(key[..|key| - 1])
      ensures GetFromKey(key, |Node(pattern.root, key[..|key| - 1]).xs|) == Node(pattern.root, key)
    {
      var parent := key[..|key| - 1];
      assert key == parent + [key[|key| - 1]];
      NodeOfChild(pattern.root, parent, key[|key| - 1]);
    }

    /** The entries read for the four children of key, given key's polyline
        count: exactly the children the construction defines. */
    function ChildrenFromKey(key: seq<int>, np: int): (r: map<seq<int>, Lines>)
      reads pattern.Repr
      requires pattern.Valid() && key != []
      ensures r == Children(pattern.root, key, np)
    {
      map[key + [1] := ChildFromKey(key, 1, np), key + [2] := ChildFromKey(key, 2, np),
          key + [3] := ChildFromKey(key, 3, np), key + [4] := ChildFromKey(key, 4, np)]
    }

    /** The entry read for address key + [k]: child k of key. */
    function ChildFromKey(key: seq<int>, k: int, np: int): (r: Lines)
      reads pattern.Repr
      requires pattern.Valid() && key != [] && 1 <= k <= 4
      ensures r == Child(pattern.root, key, k, np)
    {
      assert (key + [k])[..|key|] == key;
      GetFromKey(key + [k], np)
    }
  }
}
