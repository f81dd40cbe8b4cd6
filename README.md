# JS-Sandpile: Penrose P0 structure and automaton rules in Dafny

This project models two parts of JS-Sandpile, which builds Penrose tilings and runs cellular
automata on them.

1. **The three automaton rules** (`GameOfLifeRule`, `HexLifeRule`, `SandpileRule`). Each
   `iterate(tile, neighbors)` writes `state` and returns a "changed" flag.
   - Game of Life and Hex Life read the `prevState` of the tile and of the listed neighbours,
     and write only the tile's `state`.
   - The sandpile rule reads only the tile's `prevState` and its slot count
     (`tile.neighbors.length`). It writes the `state` of the tile and of the listed neighbours.
2. **The structural steps of the Penrose P0 generator** (`PenroseP0-splitP2P3.js`):
   - the seed "sun" of five fat and five thin rhombi, with their pre-declared neighbour slots;
   - `P3split`, which cuts each rhombus into two triangles;
   - `P0decorate`;
   - the role switch of the laser-cut variant: role key, state code, reordering of the points
     into (A, B, C), and the choice of knotch profile.

The tile is one mutable `Tile` class (module `TileGraph`), as in the JavaScript. Its fields
are:
- `id`: the lineage tokens;
- `neighbors`: one slot per edge, `Unresolved`, `Declared(id)` or `Linked(tile)`;
- `bounds`: flat coordinates, carried but never computed on;
- `size`, `state` and `prevState`.

Each method's frame is what the source writes:
- Game of Life and Hex Life: `modifies tile`state`;
- Sandpile: `modifies tile`state, neighbors`state`;
- decorate: `tiles`state`;
- laser cut: `tiles`state, tiles`bounds`.

So every `prevState`, id and neighbour list is left unchanged by construction.

Modules: `TileGraph` (`tile_graph.dfy`), `GameOfLifeRule` (`game_of_life.dfy`),
`HexLifeRule` (`hex_life.dfy`), `SandpileRule` (`sandpile.dfy`), `PenroseP0` (`penrose_p0.dfy`).

Two details of the code the model keeps as written:
- The sandpile threshold and the grains taken are `tile.neighbors.length`
  (js/Evolution/SandpileRule.js:7-8), the number of slots including unresolved ones. Only
  the listed (resolved) neighbours receive a grain, so the total is conserved only when
  every slot is resolved. `SandpileRule.Iterate` states
  the exact balance in every case.
- The laser-cut `thin1` role uses the thin-2 profile and `thin2` the thin-1 profile
  (js/TilingPresets/PenroseP0-splitP2P3.js:364, 400, 416).

## Model

| member | source | states |
|---|---|---|
| TileGraph.Tile.constructor | js/TilingPresets/PenroseP0-splitP2P3.js:59 | a new tile records the id, neighbour list, bounds and size it is given |
| TileGraph.LiveCount | js/Evolution/GameOfLifeRule.js:9-11 | the live count of a neighbour list never exceeds its length |
| TileGraph.LiveCountIsLivePositions | js/Evolution/GameOfLifeRule.js:9-11 | the live count equals the number of positions whose `prevState > 0` |
| TileGraph.CountLive | js/Evolution/GameOfLifeRule.js:6-11 | the counting loop (also HexLifeRule.js:6-11) returns the number of neighbours with `prevState > 0`, so 0 ≤ count ≤ \|neighbors\| |
| GameOfLifeRule.Iterate | js/Evolution/GameOfLifeRule.js:5-25 | live tile with count ∉ {2,3}: state 0, returns true. Live tile with count ∈ {2,3}: state unchanged, false. Dead tile with count 3: state 1, true. Dead tile otherwise: unchanged, false. Only `tile.state` is written. Under the snapshot (state == prevState) the result is exactly "aliveness flipped" |
| HexLifeRule.Iterate | js/Evolution/HexLifeRule.js:5-23 | count 2 gives state 1 and the result is "tile was dead". Any other count gives state 0 and the result is "tile was alive". State is always 0 or 1, fixed by the count alone. The result is "aliveness flipped". Only `tile.state` is written |
| SandpileRule.SumIncremented | js/Evolution/SandpileRule.js:9-10 | giving one grain to each of n tiles raises their total by n |
| SandpileRule.ToppleBalance | js/Evolution/SandpileRule.js:7-10 | a topple that takes `slots` grains and gives one to each of the listed neighbours changes the total by the number of slots with no listed neighbour |
| SandpileRule.GiveGrains | js/Evolution/SandpileRule.js:9-10 | each listed (distinct) neighbour's state rises by exactly 1 |
| SandpileRule.Iterate | js/Evolution/SandpileRule.js:5-15 | topples iff `prevState ≥ \|tile.neighbors\|` (the slot count). On a topple, state falls by the slot count and each listed neighbour gains 1. Otherwise nothing changes. The result is "toppled". The total over tile and listed neighbours drops by (slots − listed). It is conserved when every slot is resolved |
| PenroseP0.SeedIndex | js/TilingPresets/PenroseP0-splitP2P3.js:15-35 | seed position 2i is fat i and 2i+1 is thin i, with their declared slots |
| PenroseP0.SeedIdsDistinct | js/TilingPresets/PenroseP0-splitP2P3.js:15-21 | seed tiles alternate fat and thin. The ten second id tokens `basefat<i>` / `basethin<i>` are pairwise distinct, so the ids are too |
| PenroseP0.FatLinks | js/TilingPresets/PenroseP0-splitP2P3.js:26-29 | fat i slot 0 names fat i−1 and fat i−1 slot 3 names fat i. Fat i slot 1 names thin i−1 and thin i−1 slot 1 names fat i. Fat i slot 2 and thin i slot 2 name each other. Slot 3 names fat i+1, whose slot 0 names fat i (mod 5) |
| PenroseP0.ThinLinks | js/TilingPresets/PenroseP0-splitP2P3.js:30-33 | thin slots 0 and 3 are unresolved. Thin i slot 1 names fat i+1, which names thin i back. Thin i slot 2 and fat i slot 2 name each other |
| PenroseP0.FatOpposite | js/TilingPresets/PenroseP0-splitP2P3.js:26-29 | the rhombus and slot facing each fat slot, and that it declares the fat tile back |
| PenroseP0.ThinOpposite | js/TilingPresets/PenroseP0-splitP2P3.js:30-33 | the fat rhombus facing each declared thin slot, which declares the thin tile back on the same slot index |
| PenroseP0.Reciprocal | js/TilingPresets/PenroseP0-splitP2P3.js:26-33 | every declared seed slot names another seed tile, which has a slot declaring the first tile back (seed adjacency is symmetric) |
| PenroseP0.ReciprocalInvolution | js/TilingPresets/PenroseP0-splitP2P3.js:26-33 | the reciprocal of the reciprocal slot is the slot itself |
| PenroseP0.SeedBoundarySlots | js/TilingPresets/PenroseP0-splitP2P3.js:30-33 | a seed slot is unresolved exactly when it is slot 0 or 3 of a thin rhombus |
| PenroseP0.SunSeed | js/TilingPresets/PenroseP0-splitP2P3.js:13-36 | exactly 10 new distinct tiles in the order fat i, thin i for i = 0..4, with the declared ids, slots and the placed bounds; the ten ids are pairwise distinct |
| PenroseP0.RoundIdAt | js/TilingPresets/PenroseP0-splitP2P3.js:15-21 | ids pushed round by round (fat i at 2i, thin i at 2i+1) hold seed id k at position k |
| PenroseP0.RoundIdsDistinct | js/TilingPresets/PenroseP0-splitP2P3.js:15-21 | the ten ids in round order are pairwise distinct |
| PenroseP0.SunIdsDistinct | js/TilingPresets/PenroseP0-splitP2P3.js:15-21 | ten tiles carrying the sun's ids in round order have pairwise distinct ids |
| PenroseP0.SeedFat | js/TilingPresets/PenroseP0-splitP2P3.js:17-29 | a new fat tile with id `["fat", "basefat<i>"]` and the four fat declarations |
| PenroseP0.SeedThin | js/TilingPresets/PenroseP0-splitP2P3.js:20-33 | a new thin tile with id `["thin", "basethin<i>"]` and the four thin declarations |
| PenroseP0.Slice | js/TilingPresets/PenroseP0-splitP2P3.js:58 | JS `slice(lo, hi)`: the elements lo..hi−1, clamped to the array's length |
| PenroseP0.RhombusSplit | js/TilingPresets/PenroseP0-splitP2P3.js:57-61 | for 8 coordinates, triangle 1 is points 0,1,2 and triangle 2 is points 2,3,0, six coordinates each |
| PenroseP0.SplitIds | js/TilingPresets/PenroseP0-splitP2P3.js:59-62 | 2n ids; positions 2k and 2k+1 are parent k's id followed by "1" and "2" |
| PenroseP0.SplitIdsExact | js/TilingPresets/PenroseP0-splitP2P3.js:59-62 | any id list with that index characterisation is SplitIds of the parents |
| PenroseP0.SplitIdsDistinct | js/TilingPresets/PenroseP0-splitP2P3.js:59-62 | pairwise distinct parent ids give pairwise distinct child ids |
| PenroseP0.Split | js/TilingPresets/PenroseP0-splitP2P3.js:53-65 | 2n new distinct tiles in input order. Parent k yields positions 2k and 2k+1, with ids parent+"1" / parent+"2", triangle 1 / triangle 2 bounds, empty neighbour lists and size 3. The child id list is SplitIds of the parents' |
| PenroseP0.Decorate | js/TilingPresets/PenroseP0-splitP2P3.js:82-89 | `state := 1` exactly for tiles whose first id token is "thin"; every other tile's state is unchanged |
| PenroseP0.StateCode | js/TilingPresets/PenroseP0-splitP2P3.js:367-431 | the decoration code of a role is 5 (fat1), 4 (fat2), 7 (thin1) or 8 (thin2) |
| PenroseP0.Reorder | js/TilingPresets/PenroseP0-splitP2P3.js:367-431 | (A,B,C) is (p2,p0,p1) for fat1/thin2 and (p0,p2,p1) for fat2/thin1. It is always a permutation of the three points, with C = p1 |
| PenroseP0.LaserState | js/TilingPresets/PenroseP0-splitP2P3.js:367-551 | a recognised role gets its code (whatever `knotchN` is); an unrecognised key leaves state unchanged |
| PenroseP0.LaserBounds | js/TilingPresets/PenroseP0-splitP2P3.js:362-553 | an unrecognised key or a style other than "teeth" leaves the bounds exactly as they were. Otherwise the bounds are the role's profile (thin roles crossed) applied to the reordered points |
| PenroseP0.RoleOfChild | js/TilingPresets/PenroseP0-splitP2P3.js:367 | a split child has a recognised role iff its parent's type token is "fat" or "thin". Branch "1" gives fat1/thin1 and "2" gives fat2/thin2. Child and parent agree on "thin" for decoration |
| PenroseP0.CutTile | js/TilingPresets/PenroseP0-splitP2P3.js:355-554 | one pass of the laser-cut loop: state becomes LaserState and bounds LaserBounds; nothing else is written |
| PenroseP0.Lasercut | js/TilingPresets/PenroseP0-splitP2P3.js:355-554 | every tile of the (distinct) list ends in `IsCut`: its state is LaserState and its bounds LaserBounds of its own id, its state before and its bounds before |

## Left out

- `substitute(...)` and the SubstitutionAPI (`findNeighbors`, `resetAllNeighbors`, `id2key`, `default_neighbors2bounds`), so also `P0fn`: they are calls into code that is not part of this model. The `Linked` slot is what the resolver would write; nothing in the model creates one.
- `P3tiles` after the seed loop (the `substitute` call), and the drivers `Tiling.P0splitP3` and the rest of `Tiling.P0splitP3lasercut`: they chain the modelled steps with the external ones above and with `cropTilingToRectangle`.
- All floating-point geometry: `phi`, `myclone`/`rotate`/`shift` of the prototiles, `Math.cos`/`Math.PI`, `scalePoint`, `knotchArrowM`/`knotchArrowF`, the bodies of `P0knotches_fat1/fat2/thin1/thin2` and the global `roundedCorners` list. The knotch generators are a function parameter of type `Knotcher`, and the placed seed geometry is the parameters `fatBounds(i)` / `thinBounds(i)`.
- The prototiles `fat` and `thin` are defined outside the modelled file. The seed takes their clones to have ids `["fat"]` / `["thin"]`, no neighbours, and size 4.
- The `Tile` and `Tiling` constructors are not part of this model beyond recording their arguments. The model's constructor sets state and prevState to 0, and promises nothing about them.
- `console.log` diagnostics, including the "oups" message for an unrecognised role. That case is modelled by its effect: nothing changes.
- The commented-out cut-and-project switch: it is dead code.
- The whole-graph automaton step (snapshot `state` to `prevState`, then iterate over every tile): it is not in the modelled files.
- JavaScript numbers are doubles; the model's `state`, counts and indices are unbounded integers.
- An empty id gives the switch key `NaN` in JavaScript. The model uses `""`, which also matches no case.
- SandpileRule.Iterate: requires the tile not to be in the passed list and the list to be duplicate-free. The source checks neither. With a duplicate it would add a grain twice, which the model does not describe.
- SandpileRule.Iterate: "every neighbour's prevState is unchanged" follows from its frame (`neighbors`state`) and is not restated as an ensures clause.
- PenroseP0.Lasercut: requires the tiles to be distinct objects. The source applies it only to the fresh tiles `P3split` returns. With a repeated tile the JavaScript loop would cut it twice.
- PenroseP0.CutTile: requires at least three points when the role is recognised and the style is "teeth". JavaScript would read `undefined` for missing coordinates, and the model has no such value.
