/** The voxel grid store of `World`: a width x height x width grid of cells,
    each holding a block id and an optional instance id, with bounds-checked
    reads and writes.

    The grid is stored flat, cell `(x, y, z)` at position
    `(x * height + y) * width + z`. `IndexOrder` shows this position order is
    exactly the x-then-y-then-z order in which the source's nested loops visit
    `data[x][y][z]`, so one loop over positions is the source's triple loop. */
module VoxelWorld {
  import opened Common

  /** Default world size of the `World` constructor. */
  const DefaultWidth: nat := 128
  const DefaultHeight: nat := 32

  /** Block id 0 is the reserved "empty" block; every other id is solid. */
  const EmptyId: int := 0
  /** The id terrain generation writes (grass). */
  const GrassId: int := 1

  datatype Cell = Cell(id: int, instanceId: Option<int>)

  predicate IsSolid(c: Cell)
  {
    c.id != EmptyId
  }

  datatype World = World(width: nat, height: nat, cells: seq<Cell>)

  /** A world whose storage has exactly one cell per coordinate. */
  type Grid = w: World | |w.cells| == w.width * w.height * w.width
    witness World(0, 0, [])

  // ---------------------------------------------------------------------------
  // Position arithmetic
  // ---------------------------------------------------------------------------

  lemma MulLeq(a: int, b: int, c: int)
    requires a <= b && 0 <= c
    ensures a * c <= b * c
  {
  }

  /** In mixed radix `w`, comparing `p*w + d` values is comparing `(p, d)`
      lexicographically. */
  lemma MixedRadixLess(p1: int, d1: int, p2: int, d2: int, w: int)
    requires 0 <= d1 < w && 0 <= d2 < w
    ensures p1 * w + d1 < p2 * w + d2 <==> p1 < p2 || (p1 == p2 && d1 < d2)
  {
    if p1 < p2 {
      MulLeq(p1 + 1, p2, w);
    } else if p2 < p1 {
      MulLeq(p2 + 1, p1, w);
    }
  }

  lemma IndexRange(width: nat, height: nat, x: int, y: int, z: int)
    requires 0 <= x < width && 0 <= y < height && 0 <= z < width
    ensures 0 <= (x * height + y) * width + z < width * height * width
  {
    MulLeq(x, width - 1, height);
    assert x * height + y <= width * height - 1;
    MulLeq(x * height + y, width * height - 1, width);
    MulLeq(0, x * height + y, width);
  }

  /** Position order is scan order, on plain integers. */
  lemma PositionOrder(w: int, h: int, x1: int, y1: int, z1: int, x2: int, y2: int, z2: int)
    requires 0 <= y1 < h && 0 <= y2 < h && 0 <= z1 < w && 0 <= z2 < w
    ensures (x1 * h + y1) * w + z1 < (x2 * h + y2) * w + z2 <==>
              x1 < x2 || (x1 == x2 && y1 < y2) || (x1 == x2 && y1 == y2 && z1 < z2)
  {
    var p1, p2 := x1 * h + y1, x2 * h + y2;
    MixedRadixLess(x1, y1, x2, y2, h);
    MixedRadixLess(x2, y2, x1, y1, h);
    assert p1 < p2 <==> x1 < x2 || (x1 == x2 && y1 < y2);
    assert p2 < p1 <==> x2 < x1 || (x1 == x2 && y2 < y1);
    MixedRadixLess(p1, z1, p2, z2, w);
  }

  /** Euclidean division of a non-negative number by a positive one. */
  lemma DivMod(k: int, w: int)
    requires 0 <= k && 0 < w
    ensures k == (k / w) * w + k % w && 0 <= k % w < w && 0 <= k / w
  {
  }

  /** A quotient is below `m` when the dividend is below `m * w`. */
  lemma QuotientBound(k: int, w: int, m: int)
    requires 0 <= k < m * w && 0 < w
    ensures k / w < m
  {
    DivMod(k, w);
    if k / w >= m {
      MulLeq(m, k / w, w);
    }
  }

  /** Splitting a position into its digits. */
  lemma PositionDigits(w: int, h: int, k: int)
    requires 0 < w && 0 < h && 0 <= k < w * h * w
    ensures var q := k / w;
            var x := q / h;
            0 <= x < w && (x * h + q % h) * w + k % w == k
  {
    var q := k / w;
    DivMod(k, w);
    QuotientBound(k, w, w * h);
    DivMod(q, h);
    QuotientBound(q, h, w);
  }

  predicate InBounds(g: Grid, x: int, y: int, z: int)
  {
    0 <= x < g.width && 0 <= y < g.height && 0 <= z < g.width
  }

  /** Storage position of an in-bounds coordinate. */
  function Index(g: Grid, x: int, y: int, z: int): (k: nat)
    requires InBounds(g, x, y, z)
    ensures k < |g.cells|
  {
    IndexRange(g.width, g.height, x, y, z);
    (x * g.height + y) * g.width + z
  }

  /** Coordinate stored at position `k` (the inverse of `Index`). */
  function Coord(g: Grid, k: nat): (c: (int, int, int))
    requires k < |g.cells|
    ensures InBounds(g, c.0, c.1, c.2) && Index(g, c.0, c.1, c.2) == k
  {
    PositionDigits(g.width, g.height, k);
    (k / g.width / g.height, k / g.width % g.height, k % g.width)
  }

  /** Position order is scan order: x first, then y, then z. */
  lemma IndexOrder(g: Grid, x1: int, y1: int, z1: int, x2: int, y2: int, z2: int)
    requires InBounds(g, x1, y1, z1) && InBounds(g, x2, y2, z2)
    ensures Index(g, x1, y1, z1) < Index(g, x2, y2, z2) <==>
              x1 < x2 || (x1 == x2 && y1 < y2) || (x1 == x2 && y1 == y2 && z1 < z2)
  {
    PositionOrder(g.width, g.height, x1, y1, z1, x2, y2, z2);
  }

  /** Distinct coordinates occupy distinct storage positions. */
  lemma IndexInjective(g: Grid, x1: int, y1: int, z1: int, x2: int, y2: int, z2: int)
    requires InBounds(g, x1, y1, z1) && InBounds(g, x2, y2, z2)
    requires (x1, y1, z1) != (x2, y2, z2)
    ensures Index(g, x1, y1, z1) != Index(g, x2, y2, z2)
  {
    PositionOrder(g.width, g.height, x1, y1, z1, x2, y2, z2);
    PositionOrder(g.width, g.height, x2, y2, z2, x1, y1, z1);
  }

  /** `Coord(g, k)` is the only coordinate stored at position `k`. */
  lemma IndexUnique(g: Grid, k: nat)
    requires k < |g.cells|
    ensures forall a, b, d | InBounds(g, a, b, d) && Index(g, a, b, d) == k :: (a, b, d) == Coord(g, k)
  {
    var c := Coord(g, k);
    forall a, b, d | InBounds(g, a, b, d) && Index(g, a, b, d) == k
      ensures (a, b, d) == c
    {
      if (a, b, d) != c {
        IndexInjective(g, a, b, d, c.0, c.1, c.2);
      }
    }
  }

  // ---------------------------------------------------------------------------
  // The store
  // ---------------------------------------------------------------------------

  /** The stored cell `data[x][y][z]` of an in-bounds coordinate. */
  function At(g: Grid, x: int, y: int, z: int): Cell
    requires InBounds(g, x, y, z)
  {
    g.cells[Index(g, x, y, z)]
  }

  /** `getBlock`: `None` (null) outside the grid, the stored cell inside. */
  function GetBlock(g: Grid, x: int, y: int, z: int): (r: Option<Cell>)
    ensures r.None? <==> !(0 <= x < g.width && 0 <= y < g.height && 0 <= z < g.width)
    ensures r.Some? ==> r.value == At(g, x, y, z)
  {
    if InBounds(g, x, y, z) then Some(At(g, x, y, z)) else None
  }

  /** Writes `c` at the storage position of `(x, y, z)`. */
  function Put(g: Grid, x: int, y: int, z: int, c: Cell): (r: Grid)
    requires InBounds(g, x, y, z)
    ensures r.width == g.width && r.height == g.height
    ensures At(r, x, y, z) == c
    ensures forall a, b, d | InBounds(g, a, b, d) && (a, b, d) != (x, y, z) :: At(r, a, b, d) == At(g, a, b, d)
  {
    var r := g.(cells := g.cells[Index(g, x, y, z) := c]);
    forall a, b, d | InBounds(g, a, b, d) && (a, b, d) != (x, y, z)
      ensures At(r, a, b, d) == At(g, a, b, d)
    {
      IndexInjective(g, a, b, d, x, y, z);
    }
    r
  }

  /** `setBlockId`: a no-op out of bounds; in bounds it changes only the id of
      that one cell. */
  function SetBlockId(g: Grid, x: int, y: int, z: int, id: int): (r: Grid)
    ensures r.width == g.width && r.height == g.height
    ensures !InBounds(g, x, y, z) ==> r == g
    ensures InBounds(g, x, y, z) ==>
              At(r, x, y, z).id == id && At(r, x, y, z).instanceId == At(g, x, y, z).instanceId
    ensures forall a, b, d | InBounds(g, a, b, d) && (a, b, d) != (x, y, z) :: At(r, a, b, d) == At(g, a, b, d)
  {
    if InBounds(g, x, y, z) then Put(g, x, y, z, At(g, x, y, z).(id := id)) else g
  }

  /** `setBlockInstanceId`: a no-op out of bounds; in bounds it changes only the
      instance id of that one cell. */
  function SetBlockInstanceId(g: Grid, x: int, y: int, z: int, instanceId: int): (r: Grid)
    ensures r.width == g.width && r.height == g.height
    ensures !InBounds(g, x, y, z) ==> r == g
    ensures InBounds(g, x, y, z) ==>
              At(r, x, y, z).instanceId == Some(instanceId) && At(r, x, y, z).id == At(g, x, y, z).id
    ensures forall a, b, d | InBounds(g, a, b, d) && (a, b, d) != (x, y, z) :: At(r, a, b, d) == At(g, a, b, d)
  {
    if InBounds(g, x, y, z) then Put(g, x, y, z, At(g, x, y, z).(instanceId := Some(instanceId))) else g
  }

  /** Read-after-write: `getBlock` sees the id `setBlockId` wrote, and every
      other read is unaffected. */
  lemma GetAfterSetBlockId(g: Grid, x: int, y: int, z: int, id: int, a: int, b: int, d: int)
    ensures var r := SetBlockId(g, x, y, z, id);
            GetBlock(r, a, b, d) ==
              if InBounds(g, a, b, d) && (a, b, d) == (x, y, z)
              then Some(At(g, x, y, z).(id := id))
              else GetBlock(g, a, b, d)
  {
    var r := SetBlockId(g, x, y, z, id);
    if InBounds(g, a, b, d) && (a, b, d) == (x, y, z) {
      assert At(r, a, b, d) == At(g, x, y, z).(id := id);
    }
  }

  /** Read-after-write: `getBlock` sees the instance id `setBlockInstanceId`
      wrote, and every other read is unaffected. */
  lemma GetAfterSetBlockInstanceId(g: Grid, x: int, y: int, z: int, instanceId: int, a: int, b: int, d: int)
    ensures var r := SetBlockInstanceId(g, x, y, z, instanceId);
            GetBlock(r, a, b, d) ==
              if InBounds(g, a, b, d) && (a, b, d) == (x, y, z)
              then Some(At(g, x, y, z).(instanceId := Some(instanceId)))
              else GetBlock(g, a, b, d)
  {
    var r := SetBlockInstanceId(g, x, y, z, instanceId);
    if InBounds(g, a, b, d) && (a, b, d) == (x, y, z) {
      assert At(r, a, b, d) == At(g, x, y, z).(instanceId := Some(instanceId));
    }
  }

  /** `inBounds` admits exactly the coordinates the grid stores a cell for. */
  lemma InBoundsExactlyStored(g: Grid, x: int, y: int, z: int)
    ensures InBounds(g, x, y, z) <==> exists k :: 0 <= k < |g.cells| && Coord(g, k) == (x, y, z)
  {
    if InBounds(g, x, y, z) {
      var k := Index(g, x, y, z);
      IndexUnique(g, k);
      assert Coord(g, k) == (x, y, z);
    }
  }

  /** `initializeTerrain`: a width x height x width grid of empty cells with no
      instance id. */
  function InitializeTerrain(width: nat, height: nat): (g: Grid)
    ensures g.width == width && g.height == height
    ensures forall x, y, z | InBounds(g, x, y, z) :: At(g, x, y, z) == Cell(EmptyId, None)
  {
    World(width, height, seq(width * height * width, _ => Cell(EmptyId, None)))
  }
}
