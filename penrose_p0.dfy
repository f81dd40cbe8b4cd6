/**
 * The structural part of the Penrose P0 generator: the seed "sun" of five fat
 * and five thin rhombi with their pre-declared neighbours, the split of each
 * rhombus into two triangles, the thin-tile decoration and the role switch of
 * the laser-cut variant. Coordinates are carried along as flat sequences and
 * only re-sliced, never computed on.
 */
module PenroseP0 {
  import opened TileGraph

  // ------------------------------------------------------------------
  // The seed sun
  // ------------------------------------------------------------------

  /** The decimal digit of i, as JS writes 'base' + i for a small i. */
  function Digit(i: nat): (d: string)
    requires i < 10
    ensures |d| == 1
  {
    [(('0' as int) + i) as char]
  }

  function FatName(i: nat): (name: string)
    requires i < 5
  {
    "basefat" + Digit(i)
  }

  function ThinName(i: nat): (name: string)
    requires i < 5
  {
    "basethin" + Digit(i)
  }

  function FatId(i: nat): (id: TileId)
    requires i < 5
  {
    ["fat", FatName(i)]
  }

  function ThinId(i: nat): (id: TileId)
    requires i < 5
  {
    ["thin", ThinName(i)]
  }

  /** The four slots declared for fat rhombus i of the sun. */
  function FatSlots(i: nat): (s: seq<Slot>)
    requires i < 5
  {
    [ Declared(FatId((i - 1 + 5) % 5)),
      Declared(ThinId((i - 1 + 5) % 5)),
      Declared(ThinId(i)),
      Declared(FatId((i + 1) % 5)) ]
  }

  /** The four slots declared for thin rhombus i: slots 0 and 3 are on the boundary. */
  function ThinSlots(i: nat): (s: seq<Slot>)
    requires i < 5
  {
    [ Unresolved,
      Declared(FatId((i + 1) % 5)),
      Declared(FatId(i)),
      Unresolved ]
  }

  /** The id of the k-th seed tile, in push order: fat 0, thin 0, fat 1, ... */
  function SeedId(k: nat): (id: TileId)
    requires k < 10
  {
    if k % 2 == 0 then FatId(k / 2) else ThinId(k / 2)
  }

  function SeedSlots(k: nat): (s: seq<Slot>)
    requires k < 10
    ensures |s| == 4
  {
    if k % 2 == 0 then FatSlots(k / 2) else ThinSlots(k / 2)
  }

  /** Positions 2i and 2i+1 of the seed are fat i and thin i. */
  lemma {:induction false} SeedIndex(i: nat)
    requires i < 5
    ensures SeedId(2 * i) == FatId(i) && SeedSlots(2 * i) == FatSlots(i)
    ensures SeedId(2 * i + 1) == ThinId(i) && SeedSlots(2 * i + 1) == ThinSlots(i)
  {
    assert (2 * i) % 2 == 0 && (2 * i) / 2 == i;
    assert (2 * i + 1) % 2 == 1 && (2 * i + 1) / 2 == i;
  }

  /** The seed alternates fat and thin, and every second id token is distinct. */
  lemma {:induction false} SeedIdsDistinct(j: nat, k: nat)
    requires j < 10 && k < 10
    ensures SeedId(k)[0] == (if k % 2 == 0 then "fat" else "thin")
    ensures j != k ==> SeedId(j)[1] != SeedId(k)[1] && SeedId(j) != SeedId(k)
  {
    var a, b := SeedId(j)[1], SeedId(k)[1];
    if j % 2 != k % 2 {
      assert |a| != |b|;
    } else if j != k {
      assert j / 2 != k / 2;
      assert a[|a| - 1] == Digit(j / 2)[0];
      assert b[|b| - 1] == Digit(k / 2)[0];
      assert a[|a| - 1] != b[|b| - 1];
    }
  }

  /**
   * The declarations round the sun are reciprocal: fat i slot 0 names fat
   * i-1, whose slot 3 names fat i; fat i slot 1 names thin i-1, whose slot 1
   * names fat i; fat i slot 2 and thin i slot 2 name each other (mod 5).
   */
  lemma {:induction false} FatLinks(i: nat)
    requires i < 5
    ensures FatSlots(i)[0] == Declared(FatId((i + 4) % 5)) && FatSlots((i + 4) % 5)[3] == Declared(FatId(i))
    ensures FatSlots(i)[1] == Declared(ThinId((i + 4) % 5)) && ThinSlots((i + 4) % 5)[1] == Declared(FatId(i))
    ensures FatSlots(i)[2] == Declared(ThinId(i)) && ThinSlots(i)[2] == Declared(FatId(i))
    ensures FatSlots(i)[3] == Declared(FatId((i + 1) % 5)) && FatSlots((i + 1) % 5)[0] == Declared(FatId(i))
  {
  }

  /** Thin i slot 1 names fat i+1, whose slot 1 names thin i; slots 0 and 3 are boundary. */
  lemma {:induction false} ThinLinks(i: nat)
    requires i < 5
    ensures ThinSlots(i)[0] == Unresolved && ThinSlots(i)[3] == Unresolved
    ensures ThinSlots(i)[1] == Declared(FatId((i + 1) % 5)) && FatSlots((i + 1) % 5)[1] == Declared(ThinId(i))
    ensures ThinSlots(i)[2] == Declared(FatId(i)) && FatSlots(i)[2] == Declared(ThinId(i))
  {
  }

  /**
   * The slot on the far side of slot e of seed tile k: fat i slot 0 and fat
   * i-1 slot 3, fat i slot 1 and thin i-1 slot 1, fat i slot 2 and thin i
   * slot 2 (indices mod 5). Every declared seed slot names another seed tile
   * that declares it back, and the pairing is an involution.
   */
  function Reciprocal(k: nat, e: nat): (r: (nat, nat))
    requires k < 10 && e < 4 && SeedSlots(k)[e].Declared?
    ensures r.0 < 10 && r.1 < 4 && r.0 != k
    ensures SeedId(r.0) == SeedSlots(k)[e].key
    ensures SeedSlots(r.0)[r.1] == Declared(SeedId(k))
  {
    var i := k / 2;
    SeedIndex(i);
    if k % 2 == 0 then
      var (j, side) := FatOpposite(i, e);
      SeedIndex(j);
      (if side then 2 * j + 1 else 2 * j, if e == 0 then 3 else if e == 3 then 0 else e)
    else
      var j := ThinOpposite(i, e);
      SeedIndex(j);
      (2 * j, e)
  }

  /** Declared slot e of thin i faces fat j, which declares thin i back on its own slot e. */
  function ThinOpposite(i: nat, e: nat): (j: nat)
    requires i < 5 && e < 4 && ThinSlots(i)[e].Declared?
    ensures j < 5
    ensures ThinSlots(i)[e] == Declared(FatId(j)) && FatSlots(j)[e] == Declared(ThinId(i))
  {
    ThinLinks(i);
    if e == 1 then (i + 1) % 5 else i
  }

  /** Fat i's slot e faces rhombus j: thin j when the flag is set, else fat j. */
  function FatOpposite(i: nat, e: nat): (r: (nat, bool))
    requires i < 5 && e < 4
    ensures r.0 < 5
    ensures r.1 ==> e in {1, 2} && FatSlots(i)[e] == Declared(ThinId(r.0)) && ThinSlots(r.0)[e] == Declared(FatId(i))
    ensures !r.1 ==> e in {0, 3} && FatSlots(i)[e] == Declared(FatId(r.0)) &&
                     FatSlots(r.0)[if e == 0 then 3 else 0] == Declared(FatId(i))
  {
    FatLinks(i);
    if e == 0 then ((i + 4) % 5, false)
    else if e == 1 then ((i + 4) % 5, true)
    else if e == 2 then (i, true)
    else ((i + 1) % 5, false)
  }

  lemma {:induction false} ReciprocalInvolution(k: nat, e: nat)
    requires k < 10 && e < 4 && SeedSlots(k)[e].Declared?
    ensures Reciprocal(Reciprocal(k, e).0, Reciprocal(k, e).1) == (k, e)
  {
    var r := Reciprocal(k, e);
    var back := Reciprocal(r.0, r.1);
    SeedIdsDistinct(back.0, k);
  }

  /** Only the two outer slots of a thin rhombus are left on the boundary. */
  lemma SeedBoundarySlots(k: nat, e: nat)
    requires k < 10 && e < 4
    ensures SeedSlots(k)[e] == Unresolved <==> k % 2 == 1 && (e == 0 || e == 3)
  {
  }

  /**
   * The seed loop: five rounds, each cloning the fat and the thin prototile
   * (ids ["fat"] and ["thin"], no neighbours, four sides), appending the
   * unique base name to the id and pushing the four neighbour declarations.
   * The placement of round i, a rotation and shift of the prototile, is the
   * parameter fatBounds(i) / thinBounds(i).
   */
  method SunSeed(fatBounds: nat -> seq<real>, thinBounds: nat -> seq<real>) returns (tiles: seq<Tile>)
    ensures |tiles| == 10 && Distinct(tiles)
    ensures forall k :: 0 <= k < 10 ==> fresh(tiles[k])
    ensures forall i :: 0 <= i < 5 ==>
              tiles[2 * i].id == FatId(i) && tiles[2 * i].neighbors == FatSlots(i) &&
              tiles[2 * i].bounds == fatBounds(i)
    ensures forall i :: 0 <= i < 5 ==>
              tiles[2 * i + 1].id == ThinId(i) && tiles[2 * i + 1].neighbors == ThinSlots(i) &&
              tiles[2 * i + 1].bounds == thinBounds(i)
    ensures forall j, k :: 0 <= j < k < 10 ==> tiles[j].id != tiles[k].id
  {
    tiles := [];
    for i := 0 to 5
      invariant |tiles| == 2 * i && Distinct(tiles)
      invariant forall k :: 0 <= k < 2 * i ==> fresh(tiles[k])
      invariant forall r :: 0 <= r < i ==> IsSeedFat(tiles[2 * r], r, fatBounds(r))
      invariant forall r :: 0 <= r < i ==> IsSeedThin(tiles[2 * r + 1], r, thinBounds(r))
    {
      var myfat := SeedFat(i, fatBounds(i));
      var mythin := SeedThin(i, thinBounds(i));
      tiles := tiles + [myfat, mythin];
      assert IsSeedFat(tiles[2 * i], i, fatBounds(i)) && IsSeedThin(tiles[2 * i + 1], i, thinBounds(i));
    }
    forall i | 0 <= i < 5
      ensures tiles[2 * i].id == FatId(i) && tiles[2 * i].neighbors == FatSlots(i)
      ensures tiles[2 * i].bounds == fatBounds(i)
      ensures tiles[2 * i + 1].id == ThinId(i) && tiles[2 * i + 1].neighbors == ThinSlots(i)
      ensures tiles[2 * i + 1].bounds == thinBounds(i)
    {
      assert IsSeedFat(tiles[2 * i], i, fatBounds(i)) && IsSeedThin(tiles[2 * i + 1], i, thinBounds(i));
    }
    SunIdsDistinct(tiles);
  }

  /** Ten tiles holding the sun's ids in round order have pairwise distinct ids. */
  lemma {:induction false} SunIdsDistinct(tiles: seq<Tile>)
    requires |tiles| == 10
    requires forall i :: 0 <= i < 5 ==> tiles[2 * i].id == FatId(i) && tiles[2 * i + 1].id == ThinId(i)
    ensures forall j, k :: 0 <= j < k < 10 ==> tiles[j].id != tiles[k].id
  {
    var ids := Ids(tiles);
    forall i | 0 <= i < 5
      ensures ids[2 * i] == FatId(i) && ids[2 * i + 1] == ThinId(i)
    {
    }
    RoundIdsDistinct(ids);
  }

  /** Ids in round order (fat i at 2i, thin i at 2i+1) hold seed id k at position k. */
  lemma {:induction false} RoundIdAt(ids: seq<TileId>, k: nat)
    requires |ids| == 10 && k < 10
    requires forall i :: 0 <= i < 5 ==> ids[2 * i] == FatId(i) && ids[2 * i + 1] == ThinId(i)
    ensures ids[k] == SeedId(k)
  {
    var i := k / 2;
    SeedIndex(i);
    if k % 2 == 0 {
      assert k == 2 * i;
    } else {
      assert k == 2 * i + 1;
    }
  }

  /** The ten ids of the sun, in round order, are pairwise distinct. */
  lemma {:induction false} RoundIdsDistinct(ids: seq<TileId>)
    requires |ids| == 10
    requires forall i :: 0 <= i < 5 ==> ids[2 * i] == FatId(i) && ids[2 * i + 1] == ThinId(i)
    ensures forall j, k :: 0 <= j < k < 10 ==> ids[j] != ids[k]
  {
    forall j, k | 0 <= j < k < 10
      ensures ids[j] != ids[k]
    {
      RoundIdAt(ids, j);
      RoundIdAt(ids, k);
      SeedIdsDistinct(j, k);
    }
  }

  ghost predicate IsSeedFat(t: Tile, i: nat, placed: seq<real>)
    requires i < 5
    reads t
  {
    t.id == FatId(i) && t.neighbors == FatSlots(i) && t.bounds == placed
  }

  ghost predicate IsSeedThin(t: Tile, i: nat, placed: seq<real>)
    requires i < 5
    reads t
  {
    t.id == ThinId(i) && t.neighbors == ThinSlots(i) && t.bounds == placed
  }

  /** Round i's fat rhombus: a clone of the fat prototile named and wired up. */
  method SeedFat(i: nat, placed: seq<real>) returns (myfat: Tile)
    requires i < 5
    ensures fresh(myfat)
    ensures IsSeedFat(myfat, i, placed)
  {
    myfat := new Tile(["fat"], [], placed, 4);
    myfat.id := myfat.id + [FatName(i)];
    myfat.neighbors := myfat.neighbors + [Declared(["fat", FatName((i - 1 + 5) % 5)])];
    myfat.neighbors := myfat.neighbors + [Declared(["thin", ThinName((i - 1 + 5) % 5)])];
    myfat.neighbors := myfat.neighbors + [Declared(["thin", ThinName(i)])];
    myfat.neighbors := myfat.neighbors + [Declared(["fat", FatName((i + 1) % 5)])];
  }

  /** Round i's thin rhombus: a clone of the thin prototile named and wired up. */
  method SeedThin(i: nat, placed: seq<real>) returns (mythin: Tile)
    requires i < 5
    ensures fresh(mythin)
    ensures IsSeedThin(mythin, i, placed)
  {
    mythin := new Tile(["thin"], [], placed, 4);
    mythin.id := mythin.id + [ThinName(i)];
    mythin.neighbors := mythin.neighbors + [Unresolved];
    mythin.neighbors := mythin.neighbors + [Declared(["fat", FatName((i + 1) % 5)])];
    mythin.neighbors := mythin.neighbors + [Declared(["fat", FatName(i)])];
    mythin.neighbors := mythin.neighbors + [Unresolved];
  }

  // ------------------------------------------------------------------
  // Rhombus to triangle split
  // ------------------------------------------------------------------

  /** JS Array.slice(lo, hi): the indices lo..hi-1, clamped to the array. */
  function Slice(s: seq<real>, lo: nat, hi: nat): (r: seq<real>)
    requires lo <= hi
    ensures |r| == (if hi <= |s| then hi - lo else if lo <= |s| then |s| - lo else 0)
    ensures forall k :: 0 <= k < |r| ==> r[k] == s[lo + k]
  {
    if |s| <= lo then [] else if |s| <= hi then s[lo..] else s[lo..hi]
  }

  /** The p-th point (x and y) of a flat coordinate sequence. */
  function Point(b: seq<real>, p: nat): (pt: seq<real>)
    requires 2 * p + 2 <= |b|
    ensures |pt| == 2
  {
    b[2 * p..2 * p + 2]
  }

  lemma {:induction false} ThreePoints(x: seq<real>, y: seq<real>, z: seq<real>)
    requires |x| == 2 && |y| == 2 && |z| == 2
    ensures Point(x + y + z, 0) == x && Point(x + y + z, 1) == y && Point(x + y + z, 2) == z
  {
    assert (x + y + z)[0..2] == x;
    assert (x + y + z)[2..4] == y;
    assert (x + y + z)[4..6] == z;
  }

  function Triangle1Bounds(b: seq<real>): (t: seq<real>) {
    Slice(b, 0, 6)
  }

  function Triangle2Bounds(b: seq<real>): (t: seq<real>) {
    Slice(b, 4, 8) + Slice(b, 0, 2)
  }

  /**
   * For a four-point rhombus, triangle 1 is points 0, 1, 2 and triangle 2 is
   * points 2, 3, 0: both are three points and they share the diagonal 0--2.
   */
  lemma {:induction false} RhombusSplit(b: seq<real>)
    requires |b| == 8
    ensures Triangle1Bounds(b) == Point(b, 0) + Point(b, 1) + Point(b, 2)
    ensures Triangle2Bounds(b) == Point(b, 2) + Point(b, 3) + Point(b, 0)
    ensures |Triangle1Bounds(b)| == 6 && |Triangle2Bounds(b)| == 6
  {
    assert Triangle1Bounds(b) == b[0..6];
    assert Triangle2Bounds(b) == b[4..8] + b[0..2];
  }

  /** The ids a split gives a list of parent ids: each followed by "1" and "2". */
  function SplitIds(ids: seq<TileId>): (r: seq<TileId>)
    ensures |r| == 2 * |ids|
    ensures forall k :: 0 <= k < |ids| ==> r[2 * k] == ids[k] + ["1"] && r[2 * k + 1] == ids[k] + ["2"]
  {
    if ids == [] then []
    else
      var n := |ids| - 1;
      SplitIds(ids[..n]) + [ids[n] + ["1"], ids[n] + ["2"]]
  }

  function Ids(ts: seq<Tile>): (r: seq<TileId>)
    reads ts`id
    ensures |r| == |ts|
    ensures forall k :: 0 <= k < |ts| ==> r[k] == ts[k].id
  {
    if ts == [] then [] else Ids(ts[..|ts| - 1]) + [ts[|ts| - 1].id]
  }

  /** Distinct parent ids give distinct child ids. */
  lemma {:induction false} SplitIdsDistinct(ids: seq<TileId>)
    requires Distinct(ids)
    ensures Distinct(SplitIds(ids))
  {
    var r := SplitIds(ids);
    forall i, j | 0 <= i < j < |r| ensures r[i] != r[j] {
      var a, b := i / 2, j / 2;
      var ci := if i % 2 == 0 then "1" else "2";
      var cj := if j % 2 == 0 then "1" else "2";
      assert r[i] == ids[a] + [ci];
      assert r[j] == ids[b] + [cj];
      if a == b {
        assert ci != cj;
        assert r[i][|r[i]| - 1] != r[j][|r[j]| - 1];
      } else {
        assert ids[a] != ids[b];
        assert r[i][..|r[i]| - 1] == ids[a];
        assert r[j][..|r[j]| - 1] == ids[b];
      }
    }
  }

  /** SplitIds is the only list with its index characterisation. */
  lemma {:induction false} SplitIdsExact(ids: seq<TileId>, childIds: seq<TileId>)
    requires |childIds| == 2 * |ids|
    requires forall k :: 0 <= k < |ids| ==> childIds[2 * k] == ids[k] + ["1"] && childIds[2 * k + 1] == ids[k] + ["2"]
    ensures childIds == SplitIds(ids)
  {
    var want := SplitIds(ids);
    forall j | 0 <= j < |childIds| ensures childIds[j] == want[j] {
      var k := j / 2;
      assert k < |ids|;
      if j % 2 == 0 {
        assert j == 2 * k;
        assert childIds[2 * k] == ids[k] + ["1"] == want[2 * k];
      } else {
        assert j == 2 * k + 1;
        assert childIds[2 * k + 1] == ids[k] + ["2"] == want[2 * k + 1];
      }
    }
  }

  /** Child c of parent p under branch "1" or "2". */
  ghost predicate IsChild(c: Tile, p: Tile, branch: string)
    reads c, p
  {
    && c.id == p.id + [branch]
    && c.neighbors == []
    && c.size == 3
    && c.bounds == (if branch == "1" then Triangle1Bounds(p.bounds) else Triangle2Bounds(p.bounds))
  }

  /**
   * P3split: a new list with two new triangle tiles per rhombus, in input
   * order; the neighbour lists start empty and the input is left untouched.
   */
  method Split(tiles: seq<Tile>) returns (newtiles: seq<Tile>)
    ensures |newtiles| == 2 * |tiles| && Distinct(newtiles)
    ensures forall k :: 0 <= k < |newtiles| ==> fresh(newtiles[k])
    ensures forall k :: 0 <= k < |tiles| ==>
              IsChild(newtiles[2 * k], tiles[k], "1") && IsChild(newtiles[2 * k + 1], tiles[k], "2")
    ensures Ids(newtiles) == SplitIds(Ids(tiles))
  {
    newtiles := [];
    for i := 0 to |tiles|
      invariant |newtiles| == 2 * i && Distinct(newtiles)
      invariant forall k :: 0 <= k < |newtiles| ==> fresh(newtiles[k])
      invariant forall k :: 0 <= k < i ==>
                  IsChild(newtiles[2 * k], tiles[k], "1") && IsChild(newtiles[2 * k + 1], tiles[k], "2")
    {
      var tile := tiles[i];
      var bounds1 := Slice(tile.bounds, 0, 6);
      var t1 := new Tile(tile.id + ["1"], [], bounds1, 3);
      var bounds2 := Slice(tile.bounds, 4, 8) + Slice(tile.bounds, 0, 2);
      var t2 := new Tile(tile.id + ["2"], [], bounds2, 3);
      newtiles := newtiles + [t1, t2];
    }
    SplitIdsExact(Ids(tiles), Ids(newtiles));
  }

  // ------------------------------------------------------------------
  // Decoration
  // ------------------------------------------------------------------

  predicate IsThin(id: TileId) {
    |id| > 0 && id[0] == "thin"
  }

  /** P0decorate: every tile whose type token is "thin" gets state 1. */
  method Decorate(tiles: seq<Tile>)
    modifies tiles`state
    ensures forall t :: t in tiles ==> t.state == (if IsThin(t.id) then 1 else old(t.state))
  {
    for i := 0 to |tiles|
      invariant forall t :: t in tiles ==>
                  t.state == (if IsThin(t.id) && t in tiles[..i] then 1 else old(t.state))
    {
      var tile := tiles[i];
      if |tile.id| > 0 && tile.id[0] == "thin" {
        tile.state := 1;
      }
      assert tiles[..i + 1] == tiles[..i] + [tile];
    }
    assert tiles[..|tiles|] == tiles;
  }

  // ------------------------------------------------------------------
  // Laser-cut role switch
  // ------------------------------------------------------------------

  /** The four triangle roles: rhombus type times split branch. */
  datatype Role = Fat1 | Fat2 | Thin1 | Thin2

  /** The four knotch profile generators P0knotches_fat1 ... P0knotches_thin2. */
  datatype Profile = KnotchesFat1 | KnotchesFat2 | KnotchesThin1 | KnotchesThin2

  /**
   * A profile generator: profile, the reordered points A, B, C, the knotch
   * width and the rounding fraction, to the new boundary. Its geometry is
   * not part of this model.
   */
  type Knotcher = (Profile, seq<real>, real, real) -> seq<real>

  /**
   * The switch key: type token followed by the last id token. For an empty
   * id JS builds NaN, which no case matches; "" stands for it.
   */
  function RoleKey(id: TileId): (key: string) {
    if |id| == 0 then "" else id[0] + id[|id| - 1]
  }

  function RoleOf(id: TileId): (r: Option<Role>) {
    var key := RoleKey(id);
    if key == "fat1" then Some(Fat1)
    else if key == "fat2" then Some(Fat2)
    else if key == "thin1" then Some(Thin1)
    else if key == "thin2" then Some(Thin2)
    else None
  }

  /** The decoration code written into state for each role. */
  function StateCode(r: Role): (c: int)
    ensures c in {4, 5, 7, 8}
  {
    match r
    case Fat1 => 5
    case Fat2 => 4
    case Thin1 => 7
    case Thin2 => 8
  }

  /** The profile used for each role; the two thin roles are crossed over. */
  function ProfileOf(r: Role): (p: Profile) {
    match r
    case Fat1 => KnotchesFat1
    case Fat2 => KnotchesFat2
    case Thin1 => KnotchesThin2
    case Thin2 => KnotchesThin1
  }

  /**
   * The canonical (A, B, C) order of a triangle's points: (p2, p0, p1) for
   * fat1 and thin2, (p0, p2, p1) for fat2 and thin1. It is always a
   * permutation of the three points, with C the middle point p1.
   */
  function Reorder(r: Role, b: seq<real>): (abc: seq<real>)
    requires |b| >= 6
    ensures |abc| == 6
    ensures r in {Fat1, Thin2} ==> abc == Point(b, 2) + Point(b, 0) + Point(b, 1)
    ensures r in {Fat2, Thin1} ==> abc == Point(b, 0) + Point(b, 2) + Point(b, 1)
    ensures multiset{Point(abc, 0), Point(abc, 1), Point(abc, 2)} ==
            multiset{Point(b, 0), Point(b, 1), Point(b, 2)}
    ensures Point(abc, 2) == Point(b, 1)
  {
    ThreePoints(b[4..6], b[0..2], b[2..4]);
    ThreePoints(b[0..2], b[4..6], b[2..4]);
    match r
    case Fat1 | Thin2 => [b[4], b[5], b[0], b[1], b[2], b[3]]
    case Fat2 | Thin1 => [b[0], b[1], b[4], b[5], b[2], b[3]]
  }

  /** The state after the laser-cut pass: the role's code, or unchanged. */
  function LaserState(id: TileId, state: int): (s: int)
    ensures RoleOf(id).None? ==> s == state
    ensures RoleOf(id).Some? ==> s in {4, 5, 7, 8}
  {
    match RoleOf(id)
    case None => state
    case Some(r) => StateCode(r)
  }

  /** The bounds after the laser-cut pass. */
  function LaserBounds(id: TileId, b: seq<real>, knotchN: string, kwidth: real, rounded: real,
                       knotches: Knotcher): (nb: seq<real>)
    requires RoleOf(id).Some? && knotchN == "teeth" ==> |b| >= 6
    ensures RoleOf(id).None? || knotchN != "teeth" ==> nb == b
  {
    match RoleOf(id)
    case None => b
    case Some(r) =>
      if knotchN == "teeth" then knotches(ProfileOf(r), Reorder(r, b), kwidth, rounded) else b
  }

  /**
   * A split child of a fat or thin rhombus always has a recognised role
   * (branch "1" gives fat1/thin1, "2" gives fat2/thin2), so the fallback
   * case of the switch is reached only by other ids; decoration sees the
   * same type token in parent and child.
   */
  lemma {:induction false} RoleOfChild(parent: TileId, c: string)
    requires c == "1" || c == "2"
    ensures RoleOf(parent + [c]).Some? <==> |parent| > 0 && (parent[0] == "fat" || parent[0] == "thin")
    ensures |parent| > 0 && parent[0] == "fat" ==> RoleOf(parent + [c]) == Some(if c == "1" then Fat1 else Fat2)
    ensures |parent| > 0 && parent[0] == "thin" ==> RoleOf(parent + [c]) == Some(if c == "1" then Thin1 else Thin2)
    ensures IsThin(parent + [c]) == IsThin(parent)
  {
    var id := parent + [c];
    var key := RoleKey(id);
    if |parent| == 0 {
      assert key == c + c;
      assert |key| == 2;
    } else {
      assert id[0] == parent[0] && id[|id| - 1] == c;
      assert key == parent[0] + c;
      if RoleOf(id).Some? {
        assert key in {"fat1", "fat2", "thin1", "thin2"};
        assert c == [key[|key| - 1]];
        assert parent[0] == key[..|key| - 1];
      }
    }
  }

  /**
   * One pass of the laser-cut loop: classify the tile, write its decoration
   * code and, with the "teeth" style, replace its bounds by the profile of
   * the reordered points; an unrecognised role changes nothing.
   */
  method CutTile(tile: Tile, knotchN: string, kwidth: real, rounded: real, knotches: Knotcher)
    requires RoleOf(tile.id).Some? && knotchN == "teeth" ==> |tile.bounds| >= 6
    modifies tile`state, tile`bounds
    ensures tile.state == LaserState(tile.id, old(tile.state))
    ensures tile.bounds == LaserBounds(tile.id, old(tile.bounds), knotchN, kwidth, rounded, knotches)
  {
    var newbounds := tile.bounds;
    var key := RoleKey(tile.id);
    if key == "fat1" {
      tile.state := 5;
      if knotchN == "teeth" {
        var xA, yA, xB, yB, xC, yC := tile.bounds[4], tile.bounds[5], tile.bounds[0], tile.bounds[1], tile.bounds[2], tile.bounds[3];
        newbounds := knotches(KnotchesFat1, [xA, yA, xB, yB, xC, yC], kwidth, rounded);
      }
    } else if key == "fat2" {
      tile.state := 4;
      if knotchN == "teeth" {
        var xA, yA, xB, yB, xC, yC := tile.bounds[0], tile.bounds[1], tile.bounds[4], tile.bounds[5], tile.bounds[2], tile.bounds[3];
        newbounds := knotches(KnotchesFat2, [xA, yA, xB, yB, xC, yC], kwidth, rounded);
      }
    } else if key == "thin1" {
      tile.state := 7;
      if knotchN == "teeth" {
        var xA, yA, xB, yB, xC, yC := tile.bounds[0], tile.bounds[1], tile.bounds[4], tile.bounds[5], tile.bounds[2], tile.bounds[3];
        newbounds := knotches(KnotchesThin2, [xA, yA, xB, yB, xC, yC], kwidth, rounded);
      }
    } else if key == "thin2" {
      tile.state := 8;
      if knotchN == "teeth" {
        var xA, yA, xB, yB, xC, yC := tile.bounds[4], tile.bounds[5], tile.bounds[0], tile.bounds[1], tile.bounds[2], tile.bounds[3];
        newbounds := knotches(KnotchesThin1, [xA, yA, xB, yB, xC, yC], kwidth, rounded);
      }
    }
    tile.bounds := newbounds;
  }

  /**
   * Tile t holds what one laser-cut pass makes of a tile with state s0 and
   * bounds b0 (which then had the coordinates the pass reads).
   */
  ghost predicate IsCut(t: Tile, s0: int, b0: seq<real>, knotchN: string, kwidth: real, rounded: real,
                        knotches: Knotcher)
    reads t`id, t`state, t`bounds
  {
    (RoleOf(t.id).Some? && knotchN == "teeth" ==> |b0| >= 6) &&
    t.state == LaserState(t.id, s0) && t.bounds == LaserBounds(t.id, b0, knotchN, kwidth, rounded, knotches)
  }

  /** The laser-cut loop over the split tiles, each processed once. */
  method Lasercut(tiles: seq<Tile>, knotchN: string, kwidth: real, rounded: real, knotches: Knotcher)
    requires Distinct(tiles)
    requires forall k :: 0 <= k < |tiles| ==>
               (RoleOf(tiles[k].id).Some? && knotchN == "teeth" ==> |tiles[k].bounds| >= 6)
    modifies tiles`state, tiles`bounds
    ensures forall k :: 0 <= k < |tiles| ==>
              IsCut(tiles[k], old(tiles[k].state), old(tiles[k].bounds), knotchN, kwidth, rounded, knotches)
  {
    for i := 0 to |tiles|
      invariant forall k :: 0 <= k < i ==>
                  IsCut(tiles[k], old(tiles[k].state), old(tiles[k].bounds), knotchN, kwidth, rounded, knotches)
      invariant forall k :: i <= k < |tiles| ==>
                  tiles[k].state == old(tiles[k].state) && tiles[k].bounds == old(tiles[k].bounds)
    {
      CutTile(tiles[i], knotchN, kwidth, rounded, knotches);
    }
  }
}
