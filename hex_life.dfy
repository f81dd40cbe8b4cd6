/**
 * The Hex-Life rule: a tile is alive after the step exactly when it has two
 * live neighbours, whatever its previous value.
 */
module HexLifeRule {
  import opened TileGraph

  /**
   * One rule application. The new value of `tile.state` depends on the live
   * count alone; the result compares aliveness before and after, not the
   * integer values.
   */
  method Iterate(tile: Tile, neighbors: seq<Tile>) returns (changed: bool)
    modifies tile`state
    ensures LiveCount(neighbors) == |LivePositions(neighbors)| <= |neighbors|
    ensures tile.state == (if LiveCount(neighbors) == 2 then 1 else 0)
    ensures tile.state == 0 || tile.state == 1
    ensures LiveCount(neighbors) == 2 ==> (changed <==> !Alive(tile.prevState))
    ensures LiveCount(neighbors) != 2 ==> (changed <==> Alive(tile.prevState))
    ensures changed <==> Alive(tile.state) != Alive(tile.prevState)
    ensures forall n :: n in neighbors && n != tile ==> n.state == old(n.state)
  {
    changed := false;
    var count := CountLive(neighbors);
    if count == 2 {
      changed := tile.prevState <= 0;
      tile.state := 1;
    } else {
      changed := tile.prevState > 0;
      tile.state := 0;
    }
  }
}
