/**
 * The sandpile (chip-firing) rule: a tile holding at least as many grains as
 * it has neighbour slots topples, giving one grain to each resolved
 * neighbour it was handed.
 */
module SandpileRule {
  import opened TileGraph

  /** The current grain counts of a list of tiles, in order. */
  function States(ts: seq<Tile>): (r: seq<int>)
    reads ts`state
    ensures |r| == |ts|
    ensures forall k :: 0 <= k < |ts| ==> r[k] == ts[k].state
  {
    if ts == [] then [] else States(ts[..|ts| - 1]) + [ts[|ts| - 1].state]
  }

  /** The total grain count of a list of counts. */
  function Sum(xs: seq<int>): (total: int) {
    if xs == [] then 0 else Sum(xs[..|xs| - 1]) + xs[|xs| - 1]
  }

  /** Every count one higher: what a topple does to the neighbours. */
  function Incremented(xs: seq<int>): (r: seq<int>)
    ensures |r| == |xs|
    ensures forall k :: 0 <= k < |xs| ==> r[k] == xs[k] + 1
  {
    seq(|xs|, k requires 0 <= k < |xs| => xs[k] + 1)
  }

  /** Handing one grain to each of n tiles adds n grains in all. */
  lemma {:induction false} SumIncremented(xs: seq<int>)
    ensures Sum(Incremented(xs)) == Sum(xs) + |xs|
  {
    if xs != [] {
      var n := |xs| - 1;
      assert Incremented(xs)[..n] == Incremented(xs[..n]);
      SumIncremented(xs[..n]);
    }
  }

  /**
   * The grain balance of a topple: the tile loses `slots` grains and the
   * listed neighbours gain one each, so the total changes by the number of
   * slots that have no listed neighbour.
   */
  lemma {:induction false} ToppleBalance(s: int, xs: seq<int>, ys: seq<int>, slots: nat)
    requires ys == Incremented(xs)
    ensures (s - slots) + Sum(ys) == s + Sum(xs) - (slots - |xs|)
  {
    SumIncremented(xs);
  }

  /** The grain loop of a topple: one more grain on each listed neighbour. */
  method GiveGrains(neighbors: seq<Tile>)
    requires Distinct(neighbors)
    modifies neighbors`state
    ensures States(neighbors) == Incremented(old(States(neighbors)))
  {
    ghost var xs0 := States(neighbors);
    for i := 0 to |neighbors|
      invariant forall k :: 0 <= k < i ==> neighbors[k].state == xs0[k] + 1
      invariant forall k :: i <= k < |neighbors| ==> neighbors[k].state == xs0[k]
    {
      neighbors[i].state := neighbors[i].state + 1;
    }
    ghost var xs1 := States(neighbors);
    assert forall k :: 0 <= k < |neighbors| ==> xs1[k] == Incremented(xs0)[k];
  }

  /**
   * One rule application. The threshold and the grains taken are the number
   * of neighbour SLOTS of the tile, unresolved ones included, while only the
   * tiles of the passed list receive a grain; so the total is kept only when
   * every slot is resolved.
   */
  method Iterate(tile: Tile, neighbors: seq<Tile>) returns (changed: bool)
    requires tile !in neighbors
    requires Distinct(neighbors)
    modifies tile`state, neighbors`state
    // the frame leaves every prevState, neighbour list, id and bounds as it was
    ensures tile.prevState == old(tile.prevState)
    ensures changed <==> tile.prevState >= |tile.neighbors|
    ensures tile.state == old(tile.state) - (if changed then |tile.neighbors| else 0)
    ensures States(neighbors) ==
              if changed then Incremented(old(States(neighbors))) else old(States(neighbors))
    // grains handed to unresolved slots are lost from the total
    ensures tile.state + Sum(States(neighbors)) ==
              old(tile.state + Sum(States(neighbors))) -
              (if changed then |tile.neighbors| - |neighbors| else 0)
    ensures |neighbors| == |tile.neighbors| ==>
              tile.state + Sum(States(neighbors)) == old(tile.state + Sum(States(neighbors)))
  {
    ghost var xs0 := States(neighbors);
    changed := false;
    if tile.prevState >= |tile.neighbors| {
      tile.state := tile.state - |tile.neighbors|;
      assert States(neighbors) == xs0;
      GiveGrains(neighbors);
      changed := true;
      ghost var xs1 := States(neighbors);
      assert xs1 == Incremented(xs0);
      ToppleBalance(old(tile.state), xs0, xs1, |tile.neighbors|);
    }
  }
}
