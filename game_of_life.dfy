/**
 * Conway's rule on the tile graph: a live tile survives with 2 or 3 live
 * neighbours and dies otherwise; a dead tile is born with exactly 3.
 */
module GameOfLifeRule {
  import opened TileGraph

  /**
   * One rule application. The decision reads only `prevState` (of the tile
   * and of its resolved neighbours); the only location written is
   * `tile.state`. The result reports a birth or a death.
   */
  method Iterate(tile: Tile, neighbors: seq<Tile>) returns (changed: bool)
    modifies tile`state
    ensures LiveCount(neighbors) == |LivePositions(neighbors)| <= |neighbors|
    ensures Alive(tile.prevState) && LiveCount(neighbors) != 2 && LiveCount(neighbors) != 3 ==>
              tile.state == 0 && changed
    ensures Alive(tile.prevState) && (LiveCount(neighbors) == 2 || LiveCount(neighbors) == 3) ==>
              tile.state == old(tile.state) && !changed
    ensures !Alive(tile.prevState) && LiveCount(neighbors) == 3 ==>
              tile.state == 1 && changed
    ensures !Alive(tile.prevState) && LiveCount(neighbors) != 3 ==>
              tile.state == old(tile.state) && !changed
    ensures forall n :: n in neighbors && n != tile ==> n.state == old(n.state)
    // under the snapshot discipline (state == prevState at the start of a
    // step) the result says exactly whether the tile's aliveness flipped
    ensures old(tile.state) == tile.prevState ==>
              (changed <==> Alive(tile.state) != Alive(tile.prevState))
  {
    changed := false;
    var count := CountLive(neighbors);
    if tile.prevState > 0 {
      if count != 2 && count != 3 {
        changed := true;
        tile.state := 0;
      }
    } else if count == 3 {
      tile.state := 1;
      changed := true;
    }
  }
}
