/**
 * The tile graph shared by the Penrose generators and the automaton rules:
 * one mutable Tile object per tile, with its lineage id, its flat list of
 * boundary coordinates, one neighbour slot per edge and the two automaton
 * cells `state` and `prevState`.
 */
module TileGraph {

  /** A tile id: the lineage tokens, e.g. ["fat", "basefat3", "1"]. */
  type TileId = seq<string>

  datatype Option<+T> = None | Some(value: T)

  /**
   * One neighbour slot. Generators write `Declared` ids (the JS pushes an
   * id array) or `Unresolved` (the JS pushes undefined); the neighbour
   * resolver, which is not part of this model, replaces them by links.
   */
  datatype Slot = Unresolved | Declared(key: TileId) | Linked(tile: Tile)

  class Tile {
    var id: TileId
    var neighbors: seq<Slot>
    /** Flat coordinates x0, y0, x1, y1, ... ; never computed on here. */
    var bounds: seq<real>
    /** Number of sides, the fourth argument of the JS Tile constructor. */
    var size: nat
    var state: int
    var prevState: int

    constructor (id: TileId, neighbors: seq<Slot>, bounds: seq<real>, size: nat)
      ensures this.id == id && this.neighbors == neighbors
      ensures this.bounds == bounds && this.size == size
    {
      this.id := id;
      this.neighbors := neighbors;
      this.bounds := bounds;
      this.size := size;
      state := 0;
      prevState := 0;
    }
  }

  /** No element occurs twice. */
  predicate Distinct<T(==)>(xs: seq<T>) {
    forall i, j :: 0 <= i < j < |xs| ==> xs[i] != xs[j]
  }

  /** A cell value counts as alive when it is positive. */
  predicate Alive(v: int) {
    v > 0
  }

  /** Number of tiles of `ns` whose snapshot `prevState` is alive. */
  function LiveCount(ns: seq<Tile>): (c: nat)
    reads ns`prevState
    ensures c <= |ns|
  {
    if ns == [] then 0
    else LiveCount(ns[..|ns| - 1]) + (if Alive(ns[|ns| - 1].prevState) then 1 else 0)
  }

  /** Reference definition: the positions of the live neighbours. */
  ghost function LivePositions(ns: seq<Tile>): set<nat>
    reads ns`prevState
  {
    set i: nat | i < |ns| && Alive(ns[i].prevState)
  }

  /** The live count is exactly the number of positions holding a live neighbour. */
  lemma {:induction false} LiveCountIsLivePositions(ns: seq<Tile>)
    ensures LiveCount(ns) == |LivePositions(ns)|
  {
    if ns != [] {
      var n := |ns| - 1;
      var init := ns[..n];
      LiveCountIsLivePositions(init);
      var before := LivePositions(init);
      assert n !in before;
      if Alive(ns[n].prevState) {
        assert LivePositions(ns) == before + {n};
      } else {
        assert LivePositions(ns) == before;
      }
    }
  }

  /**
   * The counting loop the Game-of-Life and Hex-Life rules open with: one
   * pass over the resolved neighbours, counting those alive in the snapshot.
   */
  method CountLive(neighbors: seq<Tile>) returns (count: nat)
    ensures count == LiveCount(neighbors)
    ensures count == |LivePositions(neighbors)|
    ensures count <= |neighbors|
  {
    count := 0;
    for i := 0 to |neighbors|
      invariant count == LiveCount(neighbors[..i])
    {
      assert neighbors[..i + 1][..i] == neighbors[..i];
      if neighbors[i].prevState > 0 {
        count := count + 1;
      }
    }
    assert neighbors[..|neighbors|] == neighbors;
    LiveCountIsLivePositions(neighbors);
  }
}
