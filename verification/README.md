# Steinhaus (Sierpiński–Peano) curve generator, modelled in Dafny

`SierpinskyPeanoCurve.py` draws a plane-filling curve from a short root
polyline. The curve is built in four stages:

- **Mirror motifs.** The root is reflected across fixed lines (`symmetrize`)
  to make three motifs: plain, connector-start and connector-end.
- **Four orientations.** Each motif gets four orientations by reversal and
  sign flips (`generateSymmetries`). The orientations are kept in dictionaries
  keyed 1..4 (`Pattern`).
- **Address tree.** The curve is a tree of node addresses over the digits
  1..4. The node with address `key` is drawn at scale 1/2^(|key|-1) and
  moved by the offset (`getOffset`) of its parent address `key[:-1]`.
- **Classification and levels.** A node is drawn as a connector-start and
  connector-end pair when its orientation complements its parent's to 5, or
  when its parent was itself a pair and both share an orientation. Otherwise
  it is one copy of the plain motif. `Steinhaus` fills a dictionary from
  level to (address → polylines), one level after another.

## Layout

The modules follow those stages:

- **`geometry.dfy` (`Geometry`).** Polylines, reflection across a*x + b*y + c = 0,
  and the `Symmetrize` loop, which returns `Err(ZeroDivision)` for a
  degenerate line, as the source's `1.0/(a**2+b**2)` does. Also the proof
  that the three library lines act as (x, y) → (-y, -x) and
  (x, y) → (y - 1, x + 1), and that reflection is the mirror image and an
  involution.
- **`orientations.dfy` (`Orientations`).**
  - The four orientations as a function.
  - `Table`, a class holding one mutable dictionary.
  - `GenerateSymmetries`, which updates two tables in place. It is specified
    both for two distinct tables and for one table passed twice.
- **`offsets.dfy` (`Offsets`).** The address offset as a function, the
  `GetOffset` loop proved equal to it, and its bound and injectivity.
- **`patterns.dfy` (`Patterns`).**
  - The three motifs as functions of the root, with their shapes and
    self-symmetries proved.
  - `Pattern`, a class holding six tables, with a constructor that runs the
    source's steps.
- **`curve.dfy` (`Curve`).** The value-level description of the curve:
  - `Resolve` is what `get` returns;
  - `Node` is the reference definition of the node at an address;
  - `Level` and `Levels` are the levels and the table of levels as the
    construction builds them.

  It also holds the counting and agreement lemmas.
- **`steinhaus.dfy` (`Assembler`).** The class `Steinhaus`, with `lines` as a
  mutable map field. Its constructor and `GenerateLevel` are proved to build
  exactly `Levels`. `Get` and `GetFromKey` read the pattern tables and are
  proved equal to `Resolve` and `Child`.

Coordinates are exact reals and addresses are digit sequences (`seq<int>`).

## Model

| member | source | states |
|---|---|---|
| Geometry.Symmetrize | SierpinskyPeanoCurve.py:33-45 | fails (division by zero) exactly when a^2 + b^2 = 0; otherwise one output point per zipped input pair, so both lists have length min(\|X\|, \|Y\|), and point i is the reflection of (X[i], Y[i]) |
| Geometry.Reflect | SierpinskyPeanoCurve.py:37-44 | the mirror image of (x, y) across a*x + b*y + c = 0, defined for a^2 + b^2 != 0: with den = 1/(a^2 + b^2), the foot of the perpendicular xl = den*(b^2*x - a*b*y - a*c), yl = den*(-a*b*x + a^2*y - b*c), doubled, minus the point |
| Geometry.ReflectAll | SierpinskyPeanoCurve.py:38-45 | the list `symmetrize` returns: the X and Y lists zipped (the shorter decides the length), each point reflected, in input order |
| Geometry.FixedMirrors | SierpinskyPeanoCurve.py:37-44 | the lines -x - y = 0 and x + y = 0 send (x, y) to (-y, -x); x - y + 1 = 0 sends it to (y - 1, x + 1) |
| Geometry.LibraryMirrors | SierpinskyPeanoCurve.py:74-82 | over whole point lists the three library reflections are those simple maps |
| Geometry.ReflectClosedForm | SierpinskyPeanoCurve.py:37-44 | the source's formula moves the point by -2t along the normal (a, b), t = (a*x + b*y + c)/(a^2 + b^2) |
| Geometry.ReflectIsMirrorImage | SierpinskyPeanoCurve.py:37-44 | the midpoint of a point and its image lies on the line and their difference is parallel to the normal |
| Geometry.MirrorImageUnique | SierpinskyPeanoCurve.py:37-44 | any point with those two properties is the computed image |
| Geometry.ReflectInvolution | SierpinskyPeanoCurve.py:37-44 | reflecting twice across the same line returns the point |
| Geometry.ReflectAllInvolution | SierpinskyPeanoCurve.py:33-45 | reflecting a whole equal-length point list twice returns it |
| Orientations.Orient | SierpinskyPeanoCurve.py:49-54 | orientation 1 is the motif; 2 is the motif reversed with X negated, 3 reversed with Y negated, 4 reversed with both negated |
| Orientations.FamilyXs | SierpinskyPeanoCurve.py:75-77 | the X dictionary after filling: key o holds the X list of orientation o of the motif, for o = 1..4 |
| Orientations.FamilyYs | SierpinskyPeanoCurve.py:75-77 | the Y dictionary after filling: key o holds the Y list of orientation o of the motif, for o = 1..4 |
| Orientations.GenerateSymmetries | SierpinskyPeanoCurve.py:47-54 | keys 2, 3, 4 become the reversal of key 1 with X negated / Y negated / both; key 1 and all other keys unchanged; when both arguments are one dictionary, the later assignments win |
| Orientations.GenerateFromSeed | SierpinskyPeanoCurve.py:47-54 | filling a dictionary pair that holds only key 1 gives the complete family of four orientations |
| Orientations.FamilyAt | SierpinskyPeanoCurve.py:47-54 | entry o of a complete family is orientation o |
| Orientations.OrientLengths | SierpinskyPeanoCurve.py:47-54 | all four orientations have the motif's length; orientation 1 is the motif |
| Orientations.OrientPoint | SierpinskyPeanoCurve.py:47-54 | point i of orientation o is point n-1-i of the motif with that orientation's signs |
| Orientations.OrientInvolution | SierpinskyPeanoCurve.py:47-54 | applying an orientation twice gives the motif back |
| Orientations.OrientKeepsBox | SierpinskyPeanoCurve.py:47-54 | orientations keep a motif inside [-1, 1]^2 |
| Offsets.OffsetX | SierpinskyPeanoCurve.py:56-69 | the sum over positions i of -1/2^(i+1) for an odd digit and +1/2^(i+1) for an even one; 0 for the empty address |
| Offsets.OffsetY | SierpinskyPeanoCurve.py:56-69 | the sum over positions i of +1/2^(i+1) for a digit below 3 and -1/2^(i+1) otherwise; 0 for the empty address |
| Offsets.GetOffset | SierpinskyPeanoCurve.py:56-69 | the loop computes the offset function: digit i moves X by -1/2^(i+1) if odd, +1/2^(i+1) if even, and Y by +1/2^(i+1) if below 3, -1/2^(i+1) otherwise; the empty key gives (0, 0) |
| Offsets.UnitIsPower | SierpinskyPeanoCurve.py:59 | the weight 1.0/2**n is the halving sequence 1/2^n |
| Offsets.OffsetBound | SierpinskyPeanoCurve.py:56-69 | each offset component has magnitude at most 1 - 1/2^\|key\| |
| Offsets.OffsetFront | SierpinskyPeanoCurve.py:56-69 | a leading digit contributes its half step and the rest of the address counts at half size |
| Offsets.OffsetInjective | SierpinskyPeanoCurve.py:56-69 | distinct digit addresses of one length have distinct offsets |
| Patterns.PlainBase | SierpinskyPeanoCurve.py:74-76 | the plain motif: the root followed by its (x, y) -> (-y, -x) image reversed |
| Patterns.StartBase | SierpinskyPeanoCurve.py:78-80 | the connector-start motif: the root without its last point followed by that list's (x, y) -> (y - 1, x + 1) image reversed |
| Patterns.EndBase | SierpinskyPeanoCurve.py:82-84 | the connector-end motif: the (x, y) -> (-y, -x) image of the connector-start motif |
| Patterns.PlainShape | SierpinskyPeanoCurve.py:74-76 | the plain motif of an n-point root has 2n points: the root, then point 2n-1-i is root point i sent to (-y, -x) |
| Patterns.PlainAt | SierpinskyPeanoCurve.py:74-76 | point i of the plain motif, for each half |
| Patterns.PlainSelfMirror | SierpinskyPeanoCurve.py:74-76 | the plain motif's mirror image across x + y = 0 is the motif traversed backwards |
| Patterns.StartShape | SierpinskyPeanoCurve.py:78-80 | the connector-start motif has 2(n-1) points: the root without its last point, then point 2(n-1)-1-i is root point i sent to (y - 1, x + 1) |
| Patterns.StartAt | SierpinskyPeanoCurve.py:78-80 | point i of the connector-start motif, for each half |
| Patterns.ShiftedClosure | SierpinskyPeanoCurve.py:78-80 | appending the reversed (y - 1, x + 1) image to a point list makes points i and k-1-i mirror images |
| Patterns.StartPairs | SierpinskyPeanoCurve.py:78-80 | points i and k-1-i of the connector-start motif are mirror images across x - y + 1 = 0 |
| Patterns.StartSelfMirror | SierpinskyPeanoCurve.py:78-80 | the connector-start motif's mirror image across x - y + 1 = 0 is the motif traversed backwards |
| Patterns.EndShape | SierpinskyPeanoCurve.py:82-84 | the connector-end motif has the start motif's length and is its pointwise (-y, -x) image, which maps it back |
| Patterns.EndSelfMirror | SierpinskyPeanoCurve.py:82-84 | the connector-end motif is also its own mirror image across x - y + 1 = 0 traversed backwards |
| Patterns.PlainInBox | SierpinskyPeanoCurve.py:74-76 | a root in the viewport gives a plain motif in the viewport |
| Patterns.EndInBox | SierpinskyPeanoCurve.py:82-84 | a connector-start motif in the viewport gives a connector-end motif in it |
| Patterns.NewFamily | SierpinskyPeanoCurve.py:75-77 | a fresh dictionary pair seeded at key 1 and completed holds the four orientations of the seed |
| Patterns.Pattern.constructor | SierpinskyPeanoCurve.py:71-85 | the six dictionaries hold the complete families of the plain, connector-start and connector-end motifs of the root |
| Curve.IsConnector | SierpinskyPeanoCurve.py:100 | a node is a connector pair when id = 5 - idParent, or when nParent = 2 and idParent = id |
| Curve.Resolve | SierpinskyPeanoCurve.py:98-104 | the node has two polylines exactly when the classification rule holds and one otherwise, with as many X as Y lists |
| Curve.Node | SierpinskyPeanoCurve.py:105-106 | the node at an address holds one or two polylines |
| Curve.Child | SierpinskyPeanoCurve.py:105-106 | child k of the node at key: orientation k, parent orientation the last digit of key, level \|key\| + 1, offset of key, and the given parent polyline count |
| Curve.Children | SierpinskyPeanoCurve.py:97 | the four entries merged for one parent: address key + [k] maps to child k of key, for k = 1..4, all with the parent's polyline count |
| Curve.FirstLevel | SierpinskyPeanoCurve.py:91 | addresses [1]..[4], each resolved with parent orientation 0, level 1, offset (0, 0) and parent count 1 |
| Curve.NextLevel | SierpinskyPeanoCurve.py:95-97 | every parent address extended by each digit 1..4, each child built from its parent's address and the polyline count of its parent's entry |
| Curve.ConnectorCount | SierpinskyPeanoCurve.py:100 | among the four children, a plain parent has one connector child and a connector parent has two |
| Curve.ConnectorChildren | SierpinskyPeanoCurve.py:100 | every node has as many connector children as it has polylines |
| Curve.FirstLevelPlain | SierpinskyPeanoCurve.py:91 | level 1 has the keys 1..4 and each entry is one plain polyline |
| Curve.ChildParent | SierpinskyPeanoCurve.py:97 | every child address ends in a digit 1..4 after a parent address |
| Curve.NextLevelEmpty | SierpinskyPeanoCurve.py:95 | no parents give an empty level |
| Curve.NextLevelAdd | SierpinskyPeanoCurve.py:96-97 | adding one parent entry adds exactly its four children |
| Curve.NextLevelStep | SierpinskyPeanoCurve.py:96-97 | taking one parent out of the pending set adds its children to the level built so far |
| Curve.NextLevelKeys | SierpinskyPeanoCurve.py:96-97 | the next level's keys are the parent keys each extended by one digit 1..4 |
| Curve.NextLevelAt | SierpinskyPeanoCurve.py:97 | each entry of the next level is built from its last digit, its parent's address and the parent's polyline count |
| Curve.Level | SierpinskyPeanoCurve.py:91-97 | every address of a level is non-empty |
| Curve.Levels | SierpinskyPeanoCurve.py:91-93 | the table of levels holds entries 1 to top exactly |
| Curve.LevelsOne | SierpinskyPeanoCurve.py:91 | the table holding level 1 alone is the table of levels 1 to 1 |
| Curve.LevelsGrow | SierpinskyPeanoCurve.py:92-93 | adding the next level of entry n-1 to the table of levels 1..n-1 gives the table of levels 1..n |
| Curve.LevelsLast | SierpinskyPeanoCurve.py:91-93 | entry n of the table of levels 1..n is level n |
| Curve.LevelsKeep | SierpinskyPeanoCurve.py:92-93 | building a level leaves the earlier ones alone |
| Curve.LevelsAt | SierpinskyPeanoCurve.py:91-93 | entry n of the table of levels 1..top is level n |
| Curve.AllKeysExact | SierpinskyPeanoCurve.py:97 | the address set of length n holds exactly the digit strings of length n |
| Curve.AllKeysCount | SierpinskyPeanoCurve.py:96-97 | there are 4^n such addresses |
| Curve.ChildKeysCount | SierpinskyPeanoCurve.py:97 | extending every address of a set by a digit 1..4 multiplies its size by 4 |
| Curve.LevelKeys | SierpinskyPeanoCurve.py:91-97 | level n holds exactly the addresses of length n |
| Curve.LevelSize | SierpinskyPeanoCurve.py:91-97 | level n has 4^n entries |
| Curve.NodeOfChild | SierpinskyPeanoCurve.py:105-106 | the node at key + [k] is child k classified against key's last digit and key's polyline count, placed at key's offset |
| Curve.FirstLevelIsNode | SierpinskyPeanoCurve.py:91 | each level-1 entry is the node at its address |
| Curve.NextLevelIsNode | SierpinskyPeanoCurve.py:96-97 | a child entry is the child's node when its parent entry is the parent's node |
| Curve.LevelIsNode | SierpinskyPeanoCurve.py:94-97 | every entry of every level is the node at its address: the level-by-level build agrees with the reference definition |
| Curve.PlacedWithin | SierpinskyPeanoCurve.py:99-104 | scaling a coordinate list in [-1, 1] by 1/2^\|prefix\| and moving it by the prefix's offset keeps it in [-1, 1] |
| Curve.ResolveInBox | SierpinskyPeanoCurve.py:98-104 | a resolved node lies in the viewport when the root and the start motif do |
| Curve.NodeInViewport | SierpinskyPeanoCurve.py:98-106 | every node of the curve lies in the viewport [-1, 1]^2 when the root and the start motif do |
| Curve.DefaultRoot | SierpinskyPeanoCurve.py:72 | the built-in root pattern X = [-0.5, -0.5, -0.75], Y = [0.0, 0.25, 0.5] |
| Curve.DefaultRootInBox | SierpinskyPeanoCurve.py:72 | the built-in root and its start motif lie in the viewport |
| Assembler.Steinhaus.constructor | SierpinskyPeanoCurve.py:88-93 | builds the pattern library of the root and the table of levels 1..level (level 1 alone when level < 2) |
| Assembler.Steinhaus.FillLevels | SierpinskyPeanoCurve.py:91-93 | level 1, then generating levels 2..level one at a time, yields the table of levels |
| Assembler.Steinhaus.StartLevels | SierpinskyPeanoCurve.py:91 | the table's first entry is level 1 |
| Assembler.Steinhaus.FirstEntries | SierpinskyPeanoCurve.py:91 | reading orientations 1..4 with the default arguments gives level 1 |
| Assembler.Steinhaus.ExtendLevels | SierpinskyPeanoCurve.py:92-93 | one loop step turns the table of levels 1..n-1 into that of 1..n |
| Assembler.Steinhaus.GenerateLevel | SierpinskyPeanoCurve.py:94-97 | sets entry n to the next level of entry n-1 and leaves every other entry unchanged |
| Assembler.Steinhaus.ChildrenOfAll | SierpinskyPeanoCurve.py:95-97 | merging the children of every parent, one parent at a time, gives the next level |
| Assembler.Steinhaus.Get | SierpinskyPeanoCurve.py:98-104 | the polylines read from the tables are the resolved node: connector pair or plain motif, scaled by 1/2^(level-1) and moved by the offset |
| Assembler.Steinhaus.GetFromKey | SierpinskyPeanoCurve.py:105-106 | the entry read for an address is its last digit's child of the parent address |
| Assembler.Steinhaus.ChildrenFromKey | SierpinskyPeanoCurve.py:97 | the four entries read for a parent's children are its four children |
| Assembler.Steinhaus.ChildFromKey | SierpinskyPeanoCurve.py:97 | the entry read for key + [k] is child k of key |
| Assembler.Steinhaus.GetFromKeyIsNode | SierpinskyPeanoCurve.py:105-106 | given the parent's true polyline count, the entry read for an address is that address's node |

## Left out

- `makePlot` (SierpinskyPeanoCurve.py:107-128): plotting, file output and random colours are rendering and I/O.
- `main` and the command line (SierpinskyPeanoCurve.py:130 onwards): argument parsing, file naming and the X/Y length check of the command line.
- Floating point: coordinates are exact reals, so IEEE-754 rounding of numpy arithmetic is not modelled. numpy's `append`, `flipud` and array-scalar arithmetic become sequence concatenation, reversal and pointwise maps.
- Dictionary order: `iteritems` order in `generateLevel` does not affect the resulting dictionary. The model iterates the parents in an arbitrary order.
- String keys: addresses are sequences of digits rather than strings of decimal characters; `str(k)` and `int(key[-1])` become the identity on digits.
- `Pattern.level` (SierpinskyPeanoCurve.py:73) is never read, so it is not a field of the model.
- Assembler.Steinhaus.Get: requires an orientation 1..4 and a level of at least 1. Every call in the source passes such values. Another orientation would be a missing dictionary key (KeyError) in the source.
- Assembler.Steinhaus.GetFromKey: requires an address of at least two digits, as every call in the source passes. A shorter address fails on `key[-2]` in the source.
- Assembler.Steinhaus.GenerateLevel: the source empties `lines[level]` and then merges each parent's children into it in place. The model builds the new level in a local map and stores it once. This is the same final state, but intermediate states of the dictionary are not observable.
- Assembler.Steinhaus.GenerateLevel: requires that entry n - 1 of the table exists and that its addresses are non-empty. The constructor, the only caller, always meets this; called on a missing level the source fails on `self.lines[level-1]` (KeyError), and an empty address would fail on `key[-2]`.
- Assembler.Steinhaus.ChildrenOfAll: requires non-empty parent addresses, for the same reason; every level the construction builds has them.
- Orientations.GenerateSymmetries: requires key 1 in both dictionaries. The `Pattern` constructor, the only caller, always seeds it; without it the source fails on `DX[1]` (KeyError).
- Assembler.Steinhaus.constructor: the source's loop over levels 2..level is the loop of `FillLevels`.
- The code raises no error for a root of fewer than three points, for X and Y lists of different lengths, or for a level below 1 (nothing in SierpinskyPeanoCurve.py:72-97 checks them): it builds whatever follows, and since `range(2, level + 1)` is empty for a level below 2, such a level builds level 1 only. The model does the same, so the `Pattern` constructor has no precondition.
- All levels are built by the constructor, one after another, before any is read.
- Default parameter values are not modelled as such: every modelled call passes all its arguments. `get`'s defaults (parent orientation 0, level 1, offset (0, 0), parent count 1) are passed explicitly by `FirstEntries`, and the default root pattern is `DefaultRoot`; the other defaults (`Steinhaus(level = 6, ...)`, `symmetrize(a = +1, b = -1, c = 0, X = [], Y = [])`, `generateLevel(level = 2)`, `getFromKey(nParent = 1)`) are never relied on by the code.
- `GetFromKey` reads the offset through the functions `OffsetX` and `OffsetY` rather than by running the `GetOffset` loop; the loop is proved to compute them.
